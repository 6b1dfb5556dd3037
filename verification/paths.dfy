/** What a path means: its segments resolved from left to right against a stack. */
module PathMeaning {
  import opened JsValues

  const CURRENT: JsString := [DOT]
  const PARENT: JsString := [DOT, DOT]

  /** One segment: `..` takes back a name, is kept above the start of a relative path, and is lost at the root. */
  function Push(stack: seq<JsString>, segment: JsString, relative: bool): seq<JsString> {
    if segment == CURRENT then stack
    else if segment == PARENT then
      if stack != [] && stack[|stack| - 1] != PARENT then stack[..|stack| - 1]
      else if relative then stack + [PARENT]
      else stack
    else stack + [segment]
  }

  function Resolve(stack: seq<JsString>, segments: seq<JsString>, relative: bool): seq<JsString>
    decreases |segments|
  {
    if segments == [] then stack else Resolve(Push(stack, segments[0], relative), segments[1..], relative)
  }

  /** `..` as a segment, `n` times. */
  function Ups(stack: seq<JsString>, n: nat, relative: bool): seq<JsString>
    decreases n
  {
    if n == 0 then stack else Ups(Push(stack, PARENT, relative), n - 1, relative)
  }

  /** No `.`, and `..` only in front, in a relative path. */
  predicate Normal(segments: seq<JsString>, relative: bool) {
    forall i :: 0 <= i < |segments| ==>
      && segments[i] != CURRENT
      && (segments[i] == PARENT ==> relative && forall j :: 0 <= j < i ==> segments[j] == PARENT)
  }

  lemma {:induction false} ResolveIsNormal(stack: seq<JsString>, segments: seq<JsString>, relative: bool)
    requires Normal(stack, relative)
    ensures Normal(Resolve(stack, segments, relative), relative)
    decreases |segments|
  {
    if segments != [] {
      ResolveIsNormal(Push(stack, segments[0], relative), segments[1..], relative);
    }
  }

  lemma {:induction false} NormalResolvesToItself(stack: seq<JsString>, segments: seq<JsString>, relative: bool)
    requires Normal(stack + segments, relative)
    ensures Resolve(stack, segments, relative) == stack + segments
    decreases |segments|
  {
    if segments != [] {
      assert (stack + segments)[|stack|] == segments[0];
      if stack != [] { assert (stack + segments)[|stack| - 1] == stack[|stack| - 1]; }
      assert Push(stack, segments[0], relative) == stack + [segments[0]];
      assert stack + [segments[0]] + segments[1..] == stack + segments;
      NormalResolvesToItself(stack + [segments[0]], segments[1..], relative);
    } else {
      assert stack + segments == stack;
    }
  }

  /** A segment that names something. */
  predicate IsName(segment: JsString) {
    segment != CURRENT && segment != PARENT
  }

  lemma ResolveOne(stack: seq<JsString>, segment: JsString, rest: seq<JsString>, relative: bool)
    ensures Resolve(stack, [segment] + rest, relative) == Resolve(Push(stack, segment, relative), rest, relative)
  {
    assert ([segment] + rest)[1..] == rest;
  }

  /**
   * The rules of paths, wherever they apply: `.` is nothing, `..` takes back the name in front of it and
   * only that, `..` at the root is nothing, and in front of a relative path it stays.
   */
  lemma PathRules(stack: seq<JsString>, name: JsString, rest: seq<JsString>, relative: bool)
    requires IsName(name)
    ensures Resolve(stack, [[46]] + rest, relative) == Resolve(stack, rest, relative)
    ensures Resolve(stack, [name] + ([[46, 46]] + rest), relative) == Resolve(stack, rest, relative)
    ensures Resolve([], [[46, 46]] + rest, false) == Resolve([], rest, false)
    ensures Resolve([], [[46, 46]], true) == [[46, 46]]
  {
    ResolveOne(stack, CURRENT, rest, relative);
    ResolveOne(stack, name, [PARENT] + rest, relative);
    ResolveOne(stack + [name], PARENT, rest, relative);
    assert (stack + [name])[..|stack|] == stack;
    ResolveOne([], PARENT, rest, false);
    ResolveOne([], PARENT, [], true);
    assert [PARENT] + [] == [PARENT];
  }

  /** Every segment kept is one of those given, or a `..`. */
  lemma {:induction false} ResolveKeepsSegments(stack: seq<JsString>, segments: seq<JsString>, relative: bool)
    ensures
      forall x :: x in Resolve(stack, segments, relative) ==> x in stack || x in segments || x == PARENT
    decreases |segments|
  {
    if segments != [] {
      ResolveKeepsSegments(Push(stack, segments[0], relative), segments[1..], relative);
      assert forall x :: x in Push(stack, segments[0], relative) ==> x in stack || x == segments[0] || x == PARENT;
    }
  }

  // ---------------------------------------------------------------- splitting and joining

  function Split(path: JsString): (parts: seq<JsString>)
    ensures |parts| > 0
  {
    if path == [] then [[]]
    else if path[0] == SLASH then [[]] + Split(path[1..])
    else
      var rest := Split(path[1..]);
      [[path[0]] + rest[0]] + rest[1..]
  }

  function NonEmpty(parts: seq<JsString>): seq<JsString> {
    if parts == [] then []
    else (if parts[0] == [] then [] else [parts[0]]) + NonEmpty(parts[1..])
  }

  function Join(parts: seq<JsString>): JsString {
    if parts == [] then [] else if |parts| == 1 then parts[0] else parts[0] + [SLASH] + Join(parts[1..])
  }

  function Segments(path: JsString): seq<JsString> {
    NonEmpty(Split(path))
  }

  predicate Absolute(path: JsString) { path != [] && path[0] == SLASH }

  predicate Trailing(path: JsString) { path != [] && path[|path| - 1] == SLASH }

  /** `PATH.normalize` */
  function Normalize(path: JsString): JsString {
    var joined := Join(Resolve([], Segments(path), !Absolute(path)));
    var body := if joined == [] && !Absolute(path) then CURRENT else joined;
    (if Absolute(path) then [SLASH] else []) + body + (if body != [] && Trailing(path) then [SLASH] else [])
  }

  predicate Proper(part: JsString) {
    part != [] && SLASH !in part
  }

  ghost predicate AllProper(parts: seq<JsString>) {
    forall i :: 0 <= i < |parts| ==> Proper(parts[i])
  }

  lemma {:induction false} SegmentsAreProper(path: JsString)
    ensures forall i :: 0 <= i < |Split(path)| ==> SLASH !in Split(path)[i]
    ensures AllProper(Segments(path))
  {
    SplitHasNoSlash(path);
    NonEmptyIsProper(Split(path));
  }

  lemma {:induction false} SplitHasNoSlash(path: JsString)
    ensures forall i :: 0 <= i < |Split(path)| ==> SLASH !in Split(path)[i]
  {
    if path != [] { SplitHasNoSlash(path[1..]); }
  }

  lemma {:induction false} NonEmptyIsProper(parts: seq<JsString>)
    requires forall i :: 0 <= i < |parts| ==> SLASH !in parts[i]
    ensures AllProper(NonEmpty(parts))
  {
    if parts != [] { NonEmptyIsProper(parts[1..]); }
  }

  /** Splitting goes through a separator. */
  lemma {:induction false} SplitAtSlash(a: JsString, b: JsString)
    ensures Split(a + [SLASH] + b) == Split(a) + Split(b)
  {
    if a == [] {
      assert [] + [SLASH] + b == [SLASH] + b;
      assert ([SLASH] + b)[1..] == b;
    } else {
      assert (a + [SLASH] + b)[1..] == a[1..] + [SLASH] + b;
      SplitAtSlash(a[1..], b);
    }
  }

  lemma {:induction false} NonEmptyDistributes(a: seq<JsString>, b: seq<JsString>)
    ensures NonEmpty(a + b) == NonEmpty(a) + NonEmpty(b)
  {
    if a == [] {
      assert a + b == b;
    } else {
      assert (a + b)[1..] == a[1..] + b;
      NonEmptyDistributes(a[1..], b);
    }
  }

  lemma SegmentsAtSlash(a: JsString, b: JsString)
    ensures Segments(a + [SLASH] + b) == Segments(a) + Segments(b)
  {
    SplitAtSlash(a, b);
    NonEmptyDistributes(Split(a), Split(b));
  }

  lemma {:induction false} ProperSplitsToItself(part: JsString)
    requires SLASH !in part
    ensures Split(part) == [part]
  {
    if part != [] {
      ProperSplitsToItself(part[1..]);
      assert [part[0]] + part[1..] == part;
    }
  }

  /** Joining and splitting are inverse on proper segments, and the joined path is bare. */
  lemma {:induction false} JoinThenSplit(parts: seq<JsString>)
    requires AllProper(parts)
    ensures Segments(Join(parts)) == parts
    ensures Join(parts) == [] <==> parts == []
    ensures !Absolute(Join(parts)) && !Trailing(Join(parts))
    decreases |parts|
  {
    if parts == [] {
      assert NonEmpty([[]]) == NonEmpty([[]][1..]);
    } else if |parts| == 1 {
      ProperSplitsToItself(parts[0]);
      assert NonEmpty([parts[0]]) == [parts[0]] + NonEmpty([parts[0]][1..]);
    } else if |parts| > 1 {
      JoinThenSplit(parts[1..]);
      SegmentsAtSlash(parts[0], Join(parts[1..]));
      JoinThenSplit([parts[0]]);
      assert parts == [parts[0]] + parts[1..];
    }
  }

  // ---------------------------------------------------------------- main results

  /** The segments of a path in normal form, and its shape. */
  lemma NormalizeShape(path: JsString)
    ensures
      var q := Normalize(path);
      var kept := Resolve([], Segments(path), !Absolute(path));
      && Absolute(q) == Absolute(path)
      && Normal(kept, !Absolute(path)) && AllProper(kept)
      && Segments(q) == (if kept == [] && !Absolute(path) then [CURRENT] else kept)
      && (kept != [] || !Absolute(path) ==> Trailing(q) == Trailing(path))
  {
    var kept := Resolve([], Segments(path), !Absolute(path));
    SegmentsAreProper(path);
    ResolveIsNormal([], Segments(path), !Absolute(path));
    ResolveKeepsSegments([], Segments(path), !Absolute(path));
    forall i | 0 <= i < |kept|
      ensures Proper(kept[i])
    {
      assert kept[i] in kept;
    }
    JoinThenSplit(kept);
    JoinThenSplit([CURRENT]);
    var body := if kept == [] && !Absolute(path) then CURRENT else Join(kept);
    SlashesAround(body, Absolute(path), body != [] && Trailing(path));
  }

  /** A slash in front or behind changes no segment. */
  lemma SlashesAround(body: JsString, front: bool, back: bool)
    ensures
      Segments((if front then [SLASH] else []) + body + (if back then [SLASH] else [])) == Segments(body)
  {
    SegmentsAtSlash([], body);
    assert [] + [SLASH] + body == [SLASH] + body;
    var led: JsString := (if front then [SLASH] else []) + body;
    assert front || led == body;
    SegmentsAtSlash(led, []);
    assert led + [SLASH] + [] == led + [SLASH];
    assert !back ==> led + [] == led;
  }

  /** No two separators stand side by side. */
  predicate Single(path: JsString) {
    forall i :: 0 <= i < |path| - 1 ==> path[i] != SLASH || path[i + 1] != SLASH
  }

  lemma SlashBetween(a: JsString, b: JsString)
    requires Single(a) && Single(b) && !Trailing(a) && !Absolute(b)
    ensures Single(a + [SLASH] + b)
  {
    var path := a + [SLASH] + b;
    forall i | 0 <= i < |path| - 1
      ensures path[i] != SLASH || path[i + 1] != SLASH
    {
      assert path[i] == if i < |a| then a[i] else if i == |a| then SLASH else b[i - |a| - 1];
      assert path[i + 1] == if i + 1 < |a| then a[i + 1] else if i + 1 == |a| then SLASH else b[i - |a|];
    }
  }

  lemma {:induction false} JoinIsSingle(parts: seq<JsString>)
    requires AllProper(parts)
    ensures Single(Join(parts))
    decreases |parts|
  {
    if |parts| > 1 {
      JoinIsSingle(parts[1..]);
      JoinThenSplit(parts[1..]);
      SlashBetween(parts[0], Join(parts[1..]));
    }
  }

  /** A separator in front of, or behind, a bare path stands alone. */
  lemma SlashesAroundAreSingle(body: JsString, front: bool, back: bool)
    requires Single(body) && !Absolute(body) && !Trailing(body) && (back ==> body != [])
    ensures Single((if front then [SLASH] else []) + body + (if back then [SLASH] else []))
  {
    var led: JsString := (if front then [SLASH] else []) + body;
    SlashBetween([], body);
    assert [] + [SLASH] + body == [SLASH] + body;
    assert front || led == body;
    if back {
      assert led[|led| - 1] == body[|body| - 1];
      SlashBetween(led, []);
      assert led + [SLASH] + [] == led + [SLASH];
    } else {
      assert led + [] == led;
    }
  }

  lemma KeptAreProper(path: JsString)
    ensures AllProper(Resolve([], Segments(path), !Absolute(path)))
  {
    NormalizeShape(path);
  }

  /** A normalised path is never empty and has no two separators in a row. */
  lemma NormalizeIsSingle(path: JsString)
    ensures Normalize(path) != [] && Single(Normalize(path))
  {
    var kept := Resolve([], Segments(path), !Absolute(path));
    KeptAreProper(path);
    JoinIsSingle(kept);
    JoinThenSplit(kept);
    var body := if kept == [] && !Absolute(path) then CURRENT else Join(kept);
    SlashesAroundAreSingle(body, Absolute(path), body != [] && Trailing(path));
  }

  /** Normalising a path twice is normalising it once. */
  lemma NormalizeIsIdempotent(path: JsString)
    ensures Normalize(Normalize(path)) == Normalize(path)
  {
    var kept := Resolve([], Segments(path), !Absolute(path));
    NormalizeShape(path);
    assert [] + kept == kept;
    NormalResolvesToItself([], kept, !Absolute(path));
    JoinThenSplit(kept);
    assert Resolve([], [CURRENT], true) == [];
  }
}

/** The normaliser itself. */
module Paths {
  import opened JsValues
  import opened PathMeaning

  /** Whatever came before, the segments act like `n` times `..` and then the names kept. */
  ghost predicate ActsLike(segments: seq<JsString>, n: nat, kept: seq<JsString>, relative: bool) {
    forall stack :: Resolve(stack, segments, relative) == Ups(stack, n, relative) + kept
  }

  /** One more segment in front. */
  lemma ActsLikeStep(segment: JsString, segments: seq<JsString>, n: nat, kept: seq<JsString>, relative: bool)
    requires ActsLike(segments, n, kept, relative)
    ensures segment == CURRENT ==> ActsLike([segment] + segments, n, kept, relative)
    ensures segment == PARENT ==> ActsLike([segment] + segments, n + 1, kept, relative)
    ensures segment != CURRENT && segment != PARENT && n > 0 ==> ActsLike([segment] + segments, n - 1, kept, relative)
    ensures
      segment != CURRENT && segment != PARENT && n == 0 ==>
        ActsLike([segment] + segments, 0, [segment] + kept, relative)
  {
    forall stack
      ensures Resolve(stack, [segment] + segments, relative) == Ups(Push(stack, segment, relative), n, relative) + kept
    {
      assert ([segment] + segments)[1..] == segments;
    }
    if segment != CURRENT && segment != PARENT {
      forall stack
        ensures Ups(Push(stack, segment, relative), n, relative) + kept
          == if n > 0 then Ups(stack, n - 1, relative) + kept else stack + ([segment] + kept)
      {
        NameTakenBack(stack, segment, n, kept, relative);
      }
    }
  }

  /** A pending `..` takes the name before it back. */
  lemma NameTakenBack(stack: seq<JsString>, name: JsString, n: nat, kept: seq<JsString>, relative: bool)
    requires name != CURRENT && name != PARENT
    ensures
      Ups(Push(stack, name, relative), n, relative) + kept
        == if n > 0 then Ups(stack, n - 1, relative) + kept else stack + ([name] + kept)
  {
    assert (stack + [name])[..|stack|] == stack;
    assert stack + [name] + kept == stack + ([name] + kept);
  }

  /** From position `e` on, `parts` holds what the segments there keep, with `up` parents pending. */
  ghost predicate Pending(segments: seq<JsString>, parts: seq<JsString>, e: nat, up: nat, relative: bool) {
    && e <= |segments| && e <= |parts| && parts[..e] == segments[..e]
    && ActsLike(segments[e..], up, parts[e..], relative)
  }

  /** What to do with the segment at `d`: splice it out and count, or keep it. */
  lemma PendingStep(segments: seq<JsString>, parts: seq<JsString>, d: nat, up: nat, relative: bool)
    requires Pending(segments, parts, d + 1, up, relative)
    ensures
      var spliced := parts[..d] + parts[d + 1..];
      && (parts[d] == CURRENT ==> Pending(segments, spliced, d, up, relative))
      && (parts[d] == PARENT ==> Pending(segments, spliced, d, up + 1, relative))
      && (parts[d] != CURRENT && parts[d] != PARENT && up > 0 ==> Pending(segments, spliced, d, up - 1, relative))
      && (parts[d] != CURRENT && parts[d] != PARENT && up == 0 ==> Pending(segments, parts, d, 0, relative))
  {
    var spliced := parts[..d] + parts[d + 1..];
    assert parts[d] == parts[..d + 1][d] == segments[d];
    assert parts[..d] == parts[..d + 1][..d] == segments[..d];
    assert spliced[..d] == parts[..d] && spliced[d..] == parts[d + 1..];
    assert [segments[d]] + segments[d + 1..] == segments[d..];
    assert [parts[d]] + parts[d + 1..] == parts[d..];
    ActsLikeStep(segments[d], segments[d + 1..], up, parts[d + 1..], relative);
  }

  lemma {:induction false} UpsFromEmpty(n: nat, front: seq<JsString>, relative: bool)
    requires forall i :: 0 <= i < |front| ==> front[i] == PARENT
    ensures Ups(front, n, relative) == if relative then front + seq(n, _ => PARENT) else front
    decreases n
  {
    if n > 0 {
      UpsFromEmpty(n - 1, if relative then front + [PARENT] else front, relative);
    }
  }

  /**
   * The first loop of `normalizeArray`: from right to left, splicing segments out in place and
   * counting the parents still to be taken back.
   */
  method SpliceOut(segments: seq<JsString>, relative: bool) returns (parts: seq<JsString>, up: nat)
    ensures Resolve([], segments, relative) == (if relative then seq(up, _ => PARENT) else []) + parts
  {
    parts, up := segments, 0;
    var d := |parts| - 1;
    while 0 <= d
      invariant -1 <= d
      invariant Pending(segments, parts, d + 1, up, relative)
    {
      PendingStep(segments, parts, d, up, relative);
      var segment := parts[d];
      if segment == CURRENT {
        parts := parts[..d] + parts[d + 1..];
      } else if segment == PARENT {
        parts := parts[..d] + parts[d + 1..];
        up := up + 1;
      } else if up > 0 {
        parts := parts[..d] + parts[d + 1..];
        up := up - 1;
      }
      d := d - 1;
    }
    assert segments[0..] == segments && parts[0..] == parts;
    assert Resolve([], segments, relative) == Ups([], up, relative) + parts;
    UpsFromEmpty(up, [], relative);
  }

  /** The second loop: the parents left over go in front. */
  method Unshift(parts: seq<JsString>, up: nat) returns (r: seq<JsString>)
    ensures r == seq(up, _ => PARENT) + parts
  {
    r := parts;
    var left := up;
    while left > 0
      invariant 0 <= left <= up
      invariant r == seq(up - left, _ => PARENT) + parts
    {
      r := [PARENT] + r;
      left := left - 1;
    }
  }

  /** `normalizeArray` computes the left-to-right meaning of every segment list. */
  method NormalizeArray(segments: seq<JsString>, relative: bool) returns (parts: seq<JsString>)
    ensures parts == Resolve([], segments, relative)
  {
    var up;
    parts, up := SpliceOut(segments, relative);
    if relative {
      parts := Unshift(parts, up);
    }
  }

  /** `PATH.normalize` */
  method NormalizePath(path: JsString) returns (r: JsString)
    ensures r == Normalize(path)
  {
    var absolute := path != [] && path[0] == SLASH;
    var trailing := path != [] && path[|path| - 1] == SLASH;
    var parts := NormalizeArray(NonEmpty(Split(path)), !absolute);
    r := Join(parts);
    if r == [] && !absolute {
      r := CURRENT;
    }
    if r != [] && trailing {
      r := r + [SLASH];
    }
    if absolute {
      r := [SLASH] + r;
    }
  }
}
