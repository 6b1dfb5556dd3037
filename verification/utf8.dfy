/** What the UTF-8 codec computes, on sequences of bytes and UTF-16 code units. */
module Utf8 {
  import opened JsValues

  predicate Surrogate(u: Unit) { 0xD800 <= u < 0xE000 }

  predicate High(u: Unit) { 0xD800 <= u < 0xDC00 }

  predicate Low(u: Unit) { 0xDC00 <= u < 0xE000 }

  /** Section 2 of RFC 2781: every surrogate belongs to a high-low pair. */
  predicate WellFormed(s: JsString) {
    if s == [] then true
    else if Surrogate(s[0]) then |s| >= 2 && High(s[0]) && Low(s[1]) && WellFormed(s[2..])
    else WellFormed(s[1..])
  }

  /** The encoder takes any surrogate for the first half of a pair, whatever follows it. */
  function Width(s: JsString): (w: nat)
    requires s != []
    ensures 1 <= w <= |s|
  {
    if Surrogate(s[0]) && |s| >= 2 then 2 else 1
  }

  /** `charCodeAt` past the end is NaN, which the masks turn into zero. */
  function Second(s: JsString): Unit {
    if |s| >= 2 then s[1] else 0
  }

  /** The code point of a pair. */
  function Paired(high: nat, low: nat): nat {
    0x1_0000 + high % 1024 * 1024 + low % 1024
  }

  /** The code point the encoder makes of the front of `s`. */
  function Scalar(s: JsString): (k: nat)
    requires s != []
    ensures k < 0x11_0000
  {
    if Surrogate(s[0]) then Paired(s[0], Second(s)) else s[0]
  }

  /** Section 3 of RFC 3629. */
  function ScalarBytes(k: nat): (bytes: seq<byte>)
    requires k < 0x11_0000
    ensures 1 <= |bytes| <= 4
  {
    if k < 0x80 then [k]
    else if k < 0x800 then [192 + k / 64, 128 + k % 64]
    else if k < 0x1_0000 then [224 + k / 4096, 128 + k / 64 % 64, 128 + k % 64]
    else [240 + k / 262144, 128 + k / 4096 % 64, 128 + k / 64 % 64, 128 + k % 64]
  }

  function Encode(s: JsString): seq<byte> {
    if s == [] then [] else ScalarBytes(Scalar(s)) + Encode(s[Width(s)..])
  }

  /** The units of a code point. */
  function ScalarUnits(k: nat): JsString
    requires k < 0x20_0000
  {
    if k < 0x1_0000 then [k] else [0xD800 + (k - 0x1_0000) / 1024, 0xDC00 + (k - 0x1_0000) % 1024]
  }

  /** Reading past the array gives undefined, which the masks turn into zero. */
  function At(a: seq<byte>, i: nat): byte {
    if i < |a| then a[i] else 0
  }

  /** What the decoder makes of the bytes at `b`: a code point and the bytes it took. */
  function DecodeAt(a: seq<byte>, b: nat): (r: (nat, nat))
    ensures r.0 < 0x20_0000 && 1 <= r.1 <= 4
  {
    var e := At(a, b);
    if e < 128 then (e, 1)
    else if e / 32 == 6 then (e % 32 * 64 + At(a, b + 1) % 64, 2)
    else if e / 16 == 14 then (e % 16 * 4096 + At(a, b + 1) % 64 * 64 + At(a, b + 2) % 64, 3)
    else (e % 8 * 262144 + At(a, b + 1) % 64 * 4096 + At(a, b + 2) % 64 * 64 + At(a, b + 3) % 64, 4)
  }

  /** The manual decoder from `b` up to `end`; the last sequence may read past `end`. */
  function Decode(a: seq<byte>, b: nat, end: nat): JsString
    decreases end - b
  {
    if b >= end then [] else ScalarUnits(DecodeAt(a, b).0) + Decode(a, b + DecodeAt(a, b).1, end)
  }

  /** The first NUL at or after `b`, or the end of the array. */
  function Terminator(a: seq<byte>, b: nat): (t: nat)
    ensures b <= t && (b <= |a| ==> t <= |a|)
    ensures forall i :: b <= i < t && i < |a| ==> a[i] != 0
    ensures t < |a| ==> a[t] == 0
    decreases |a| - b
  {
    if b >= |a| || a[b] == 0 then b else Terminator(a, b + 1)
  }

  // ---------------------------------------------------------------- round trip

  /** Bytes `piece` stand in `a` from `b` on. */
  predicate Stands(a: seq<byte>, b: nat, piece: seq<byte>) {
    b + |piece| <= |a| && a[b..b + |piece|] == piece
  }

  lemma ByteParts(q: nat, r: nat)
    requires r < 64
    ensures (128 + r) % 64 == r
    ensures q < 32 ==> (192 + q) / 32 == 6 && (192 + q) % 32 == q
    ensures q < 16 ==> (224 + q) / 32 == 7 && (224 + q) / 16 == 14 && (224 + q) % 16 == q
    ensures q < 8 ==> (240 + q) / 32 == 7 && (240 + q) / 16 == 15 && (240 + q) % 8 == q
  {
  }

  lemma SixBits(k: nat)
    ensures k == k / 64 * 64 + k % 64
    ensures k / 64 / 64 == k / 4096 && k / 4096 / 64 == k / 262144
  {
  }

  lemma StandsAt(a: seq<byte>, b: nat, piece: seq<byte>, i: nat)
    requires Stands(a, b, piece) && i < |piece|
    ensures At(a, b + i) == piece[i]
  {
    assert a[b..b + |piece|][i] == a[b + i];
  }

  lemma TwoByteRoundTrip(a: seq<byte>, b: nat, k: nat)
    requires 0x80 <= k < 0x800 && Stands(a, b, ScalarBytes(k))
    ensures DecodeAt(a, b) == (k, 2)
  {
    StandsAt(a, b, ScalarBytes(k), 0);
    StandsAt(a, b, ScalarBytes(k), 1);
    ByteParts(k / 64, k % 64);
    SixBits(k);
  }

  lemma ThreeByteRoundTrip(a: seq<byte>, b: nat, k: nat)
    requires 0x800 <= k < 0x1_0000 && Stands(a, b, ScalarBytes(k))
    ensures DecodeAt(a, b) == (k, 3)
  {
    StandsAt(a, b, ScalarBytes(k), 0);
    StandsAt(a, b, ScalarBytes(k), 1);
    StandsAt(a, b, ScalarBytes(k), 2);
    ByteParts(k / 4096, k % 64);
    ByteParts(k / 4096, k / 64 % 64);
    SixBits(k);
    SixBits(k / 64);
  }

  lemma FourByteRoundTrip(a: seq<byte>, b: nat, k: nat)
    requires 0x1_0000 <= k < 0x11_0000 && Stands(a, b, ScalarBytes(k))
    ensures DecodeAt(a, b) == (k, 4)
  {
    StandsAt(a, b, ScalarBytes(k), 0);
    StandsAt(a, b, ScalarBytes(k), 1);
    StandsAt(a, b, ScalarBytes(k), 2);
    StandsAt(a, b, ScalarBytes(k), 3);
    ByteParts(k / 262144, k % 64);
    ByteParts(k / 262144, k / 64 % 64);
    ByteParts(k / 262144, k / 4096 % 64);
    SixBits(k);
    SixBits(k / 64);
    SixBits(k / 4096);
  }

  /** The decoder reads back one code point, and only the code point zero has a zero byte. */
  lemma ScalarRoundTrip(a: seq<byte>, b: nat, k: nat)
    requires k < 0x11_0000 && Stands(a, b, ScalarBytes(k))
    ensures DecodeAt(a, b) == (k, |ScalarBytes(k)|)
    ensures k != 0 ==> forall i :: 0 <= i < |ScalarBytes(k)| ==> ScalarBytes(k)[i] != 0
  {
    if k < 0x80 {
      StandsAt(a, b, ScalarBytes(k), 0);
    } else if k < 0x800 {
      TwoByteRoundTrip(a, b, k);
    } else if k < 0x1_0000 {
      ThreeByteRoundTrip(a, b, k);
    } else {
      FourByteRoundTrip(a, b, k);
    }
  }

  /**
   * What comes back of an encoded string: everything before the first NUL, with each surrogate and
   * the unit after it forced into a high-low pair.
   */
  function Repaired(s: JsString): JsString {
    if s == [] || s[0] == 0 then []
    else
      (if Surrogate(s[0]) then [0xD800 + s[0] % 1024, 0xDC00 + Second(s) % 1024] else [s[0]]) + Repaired(s[Width(s)..])
  }

  lemma UnitsOfScalar(s: JsString)
    requires s != []
    ensures
      ScalarUnits(Scalar(s)) == if Surrogate(s[0]) then [0xD800 + s[0] % 1024, 0xDC00 + Second(s) % 1024] else [s[0]]
    ensures Scalar(s) == 0 <==> s[0] == 0
  {
  }

  /** For every string: encoding it, ending it with NUL and decoding it gives the repaired string. */
  lemma {:induction false} DecodesToRepaired(s: JsString, a: seq<byte>, b: nat)
    requires Stands(a, b, Encode(s) + [0])
    ensures Decode(a, b, Terminator(a, b)) == Repaired(s)
    decreases |s|
  {
    if s == [] {
      NulEnds(a, b);
    } else {
      DecodesFront(s, a, b);
      if s[0] != 0 {
        var next := b + |ScalarBytes(Scalar(s))|;
        DecodesToRepaired(s[Width(s)..], a, next);
        DecodeStep(a, b, Terminator(a, b), Scalar(s), next);
        RepairsFront(s);
      }
    }
  }

  lemma NulEnds(a: seq<byte>, b: nat)
    requires Stands(a, b, [0])
    ensures Terminator(a, b) == b
  {
    assert a[b..b + 1] == [0];
    assert a[b] == 0;
  }

  lemma DecodeStep(a: seq<byte>, b: nat, end: nat, code: nat, next: nat)
    requires b < end && b < next && (code, next - b) == DecodeAt(a, b)
    ensures code < 0x20_0000 && Decode(a, b, end) == ScalarUnits(code) + Decode(a, next, end)
  {
  }

  lemma RepairsFront(s: JsString)
    requires s != [] && s[0] != 0
    ensures Repaired(s) == ScalarUnits(Scalar(s)) + Repaired(s[Width(s)..])
  {
    UnitsOfScalar(s);
  }

  /** The first character of an encoded string: NUL ends the text, any other is read back and passed over. */
  lemma DecodesFront(s: JsString, a: seq<byte>, b: nat)
    requires s != [] && Stands(a, b, Encode(s) + [0])
    ensures s[0] == 0 ==> Terminator(a, b) == b
    ensures
      s[0] != 0 ==>
        var next := b + |ScalarBytes(Scalar(s))|;
        && Stands(a, next, Encode(s[Width(s)..]) + [0])
        && b < Terminator(a, b) == Terminator(a, next) && DecodeAt(a, b) == (Scalar(s), next - b)
  {
    var front, tail := ScalarBytes(Scalar(s)), Encode(s[Width(s)..]) + [0];
    assert Encode(s) + [0] == front + tail;
    StandsApart(a, b, front, tail);
    ScalarRoundTrip(a, b, Scalar(s));
    UnitsOfScalar(s);
    if s[0] == 0 {
      StandsAt(a, b, front, 0);
    } else {
      SkipsNonzero(a, b, front);
      TerminatorAfter(a, b, |front|);
    }
  }

  lemma StandsApart(a: seq<byte>, b: nat, front: seq<byte>, tail: seq<byte>)
    requires Stands(a, b, front + tail)
    ensures Stands(a, b, front) && Stands(a, b + |front|, tail)
  {
    var whole := a[b..b + |front + tail|];
    assert a[b..b + |front|] == whole[..|front|];
    assert a[b + |front|..b + |front| + |tail|] == whole[|front|..];
  }

  lemma {:induction false} SkipsNonzero(a: seq<byte>, b: nat, front: seq<byte>)
    requires Stands(a, b, front) && forall i :: 0 <= i < |front| ==> front[i] != 0
    ensures Terminator(a, b) == Terminator(a, b + |front|)
    decreases |front|
  {
    if front != [] {
      assert a[b] == front[0];
      assert a[b + 1..b + 1 + |front[1..]|] == front[1..];
      SkipsNonzero(a, b + 1, front[1..]);
    }
  }

  lemma TerminatorAfter(a: seq<byte>, b: nat, n: nat)
    requires n > 0 && Terminator(a, b) == Terminator(a, b + n)
    ensures b < Terminator(a, b)
  {
  }

  lemma {:induction false} RepairedIffBroken(s: JsString)
    ensures Repaired(s) == s <==> WellFormed(s) && 0 !in s
    decreases |s|
  {
    if s != [] {
      RepairedIffBroken(s[Width(s)..]);
      if s[0] != 0 { RepairedAtFront(s); }
      assert s == s[..Width(s)] + s[Width(s)..];
    }
  }

  /** The repaired string is the same if and only if its front and its rest are. */
  lemma RepairedAtFront(s: JsString)
    requires s != [] && s[0] != 0
    ensures
      Repaired(s) == s
      <==> (Surrogate(s[0]) ==> |s| >= 2 && High(s[0]) && Low(s[1])) && Repaired(s[Width(s)..]) == s[Width(s)..]
  {
    var rest := Repaired(s[Width(s)..]);
    if Surrogate(s[0]) {
      SameAfterTwo(0xD800 + s[0] % 1024, 0xDC00 + Second(s) % 1024, rest, s);
      if |s| >= 2 { HalvesAreKept(s[0], s[1]); }
    } else {
      SameAfterOne(s[0], rest, s);
    }
  }

  lemma HalvesAreKept(u: Unit, v: Unit)
    requires Surrogate(u)
    ensures 0xD800 + u % 1024 == u <==> High(u)
    ensures 0xDC00 + v % 1024 == v <==> Low(v)
  {
  }

  lemma SameAfterOne(u: Unit, rest: JsString, s: JsString)
    ensures [u] + rest == s <==> s != [] && s[0] == u && rest == s[1..]
  {
  }

  lemma SameAfterTwo(u: Unit, v: Unit, rest: JsString, s: JsString)
    ensures [u, v] + rest == s <==> |s| >= 2 && s[0] == u && s[1] == v && rest == s[2..]
  {
    if |s| >= 2 { assert s == [s[0], s[1]] + s[2..]; }
  }

  /** The round trip is exact for the well-formed strings without NUL, and for no others. */
  lemma RoundTripIffWellFormed(s: JsString, a: seq<byte>, b: nat)
    requires Stands(a, b, Encode(s) + [0])
    ensures Decode(a, b, Terminator(a, b)) == s <==> WellFormed(s) && 0 !in s
  {
    DecodesToRepaired(s, a, b);
    RepairedIffBroken(s);
  }
}

/** The codec itself, on the heap array. */
module Utf8Codec {
  import opened Wrappers
  import opened JsValues
  import opened Utf8

  /** The character that starts at `h`, read off the units there. */
  lemma FrontOf(s: JsString, h: nat)
    requires h < |s|
    ensures Width(s[h..]) == if Surrogate(s[h]) && h + 1 < |s| then 2 else 1
    ensures Surrogate(s[h]) ==> Scalar(s[h..]) == Paired(s[h], if h + 1 < |s| then s[h + 1] else 0)
    ensures !Surrogate(s[h]) ==> Scalar(s[h..]) == s[h]
    ensures s[h..][Width(s[h..])..] == s[h + Width(s[h..])..]
  {
  }

  lemma EncodeStep(s: JsString, h: nat)
    requires h < |s|
    ensures
      |Encode(s[h..])|
        == |Encode(s[h + Width(s[h..])..])|
           + if s[h] <= 127 then 1 else if s[h] <= 2047 then 2 else if Surrogate(s[h]) then 4 else 3
  {
    FrontOf(s, h);
  }

  /** `lengthBytesUTF8` predicts exactly the bytes the encoder writes, even for broken strings. */
  method LengthBytes(s: JsString) returns (n: nat)
    ensures n == |Encode(s)|
  {
    n := 0;
    var c := 0;
    while c < |s|
      invariant 0 <= c <= |s|
      invariant n + |Encode(s[c..])| == |Encode(s)|
    {
      var u := s[c];
      FrontOf(s, c);
      EncodeStep(s, c);
      if u <= 127 {
        n := n + 1;
      } else if u <= 2047 {
        n := n + 2;
      } else if Surrogate(u) {
        n := n + 4;
        c := if c + 1 < |s| then c + 1 else c;
      } else {
        n := n + 3;
      }
      c := c + 1;
    }
  }

  /** The whole characters at the front of `s` whose bytes fit in `space`. */
  function Fit(s: JsString, space: nat): (p: nat)
    ensures p <= |s|
    decreases |s|
  {
    if s == [] || |ScalarBytes(Scalar(s))| > space then 0
    else Width(s) + Fit(s[Width(s)..], space - |ScalarBytes(Scalar(s))|)
  }

  /** The bytes of those characters. */
  function Fitted(s: JsString, space: nat): (bytes: seq<byte>)
    ensures |bytes| <= space
    decreases |s|
  {
    if s == [] || |ScalarBytes(Scalar(s))| > space then []
    else ScalarBytes(Scalar(s)) + Fitted(s[Width(s)..], space - |ScalarBytes(Scalar(s))|)
  }

  /** `p` falls between two characters. */
  predicate Boundary(s: JsString, p: nat)
    requires p <= |s|
    decreases |s|
  {
    p == 0 || (p >= Width(s) && Boundary(s[Width(s)..], p - Width(s)))
  }

  lemma {:induction false} EncodeFront(s: JsString, p: nat)
    requires 0 < p <= |s| && Boundary(s, p)
    ensures Encode(s[..p]) == ScalarBytes(Scalar(s)) + Encode(s[Width(s)..][..p - Width(s)])
  {
    assert Width(s[..p]) == Width(s) && Scalar(s[..p]) == Scalar(s);
    assert s[..p][Width(s)..] == s[Width(s)..][..p - Width(s)];
  }

  lemma {:induction false} FitIsWhole(s: JsString, space: nat)
    ensures Boundary(s, Fit(s, space)) && Fitted(s, space) == Encode(s[..Fit(s, space)])
    decreases |s|
  {
    if s != [] && |ScalarBytes(Scalar(s))| <= space {
      FitIsWhole(s[Width(s)..], space - |ScalarBytes(Scalar(s))|);
      EncodeFront(s, Fit(s, space));
    }
  }

  lemma {:induction false} FitIsReached(s: JsString, space: nat, p: nat)
    requires p <= |s| && Boundary(s, p)
    ensures |Encode(s[..p])| <= space <==> p <= Fit(s, space)
    decreases |s|
  {
    if p > 0 {
      EncodeFront(s, p);
      var n := |ScalarBytes(Scalar(s))|;
      if n <= space { FitIsReached(s[Width(s)..], space - n, p - Width(s)); }
    }
  }

  /** What fits is a whole-character prefix, and no longer one fits. */
  lemma FitIsLongest(s: JsString, space: nat, p: nat)
    requires p <= |s| && Boundary(s, p)
    ensures Boundary(s, Fit(s, space)) && Fitted(s, space) == Encode(s[..Fit(s, space)])
    ensures |Encode(s[..p])| <= space <==> p <= Fit(s, space)
  {
    FitIsWhole(s, space);
    FitIsReached(s, space, p);
  }

  lemma {:induction false} EverythingFits(s: JsString, space: nat)
    requires |Encode(s)| <= space
    ensures Fit(s, space) == |s| && Fitted(s, space) == Encode(s)
    decreases |s|
  {
    if s != [] { EverythingFits(s[Width(s)..], space - |ScalarBytes(Scalar(s))|); }
  }

  /** The branches that store one code point at `c`, if it ends before `d`. */
  method Store(heap: array<byte>, c: nat, d: nat, k: nat) returns (next: nat, stored: bool)
    requires c <= d < heap.Length && k < 0x11_0000
    modifies heap
    ensures stored <==> c + |ScalarBytes(k)| <= d
    ensures !stored ==> next == c && heap[..] == old(heap[..])
    ensures
      stored ==> next == c + |ScalarBytes(k)| && heap[..] == old(heap[..c]) + ScalarBytes(k) + old(heap[next..])
  {
    if k <= 127 {
      if c >= d { return c, false; }
      heap[c] := k;
      return c + 1, true;
    }
    if k <= 2047 {
      if c + 1 >= d { return c, false; }
      heap[c], heap[c + 1] := 192 + k / 64, 128 + k % 64;
      return c + 2, true;
    }
    if k <= 65535 {
      if c + 2 >= d { return c, false; }
      heap[c], heap[c + 1], heap[c + 2] := 224 + k / 4096, 128 + k / 64 % 64, 128 + k % 64;
      return c + 3, true;
    }
    if c + 3 >= d { return c, false; }
    heap[c], heap[c + 1], heap[c + 2], heap[c + 3] :=
      240 + k / 262144, 128 + k / 4096 % 64, 128 + k / 64 % 64, 128 + k % 64;
    return c + 4, true;
  }

  lemma Assembled(a: seq<byte>, start: nat, c: nat)
    requires start <= c < |a|
    ensures a == a[..start] + a[start..c] + [a[c]] + a[c + 1..]
  {
  }

  /**
   * `stringToUTF8Array`: writes at most `room` bytes from `start`, the last of them a NUL, and stops
   * before the first character that does not fit.
   */
  method Write(s: JsString, heap: array<byte>, start: nat, room: nat) returns (written: nat)
    requires room > 0 ==> start + room <= heap.Length
    modifies heap
    ensures room == 0 ==> written == 0 && heap[..] == old(heap[..])
    ensures
      room > 0 ==>
        && written == |Fitted(s, room - 1)| < room
        && heap[..] == old(heap[..start]) + Fitted(s, room - 1) + [0] + old(heap[start + written + 1..])
  {
    if room == 0 {
      return 0;
    }
    var c := Fill(s, heap, start, start + room - 1);
    ghost var tail := heap[c + 1..];
    heap[c] := 0;
    written := c - start;
    assert heap[c + 1..] == tail;
    Assembled(heap[..], start, c);
  }

  /** The loop of `stringToUTF8Array`: stores whole characters from `start` while they end before `d`. */
  method Fill(s: JsString, heap: array<byte>, start: nat, d: nat) returns (c: nat)
    requires start <= d < heap.Length
    modifies heap
    ensures start <= c <= d && heap[start..c] == Fitted(s, d - start)
    ensures heap[..start] == old(heap[..start]) && heap[c..] == old(heap[c..])
  {
    c := start;
    var h := 0;
    ghost var first := heap[..];
    while h < |s|
      invariant 0 <= h <= |s| && start <= c <= d
      invariant Filling(s, h, first, heap[..], start, c, d)
    {
      var k: nat := s[h];
      if Surrogate(s[h]) {
        var low: nat := if h + 1 < |s| then s[h + 1] else 0;
        k := 0x1_0000 + k % 1024 * 1024 + low % 1024;
      }
      FrontOf(s, h);
      ghost var before := heap[..];
      var next, stored := Store(heap, c, d, k);
      if !stored {
        break;
      }
      FillStep(s, h, first, before, heap[..], start, c, d, next);
      c := next;
      h := h + (if Surrogate(s[h]) && h + 1 < |s| then 2 else 1);
    }
  }

  /** What is stored between `start` and `c`, with what still fits of the rest, is what fits in all. */
  ghost predicate Filling(s: JsString, h: nat, first: seq<byte>, now: seq<byte>, start: nat, c: nat, d: nat) {
    && h <= |s| && start <= c <= d < |now| == |first|
    && now[..start] == first[..start] && now[c..] == first[c..]
    && now[start..c] + Fitted(s[h..], d - c) == Fitted(s, d - start)
  }

  lemma Regroup<T>(a: seq<T>, b: seq<T>, c: seq<T>)
    ensures a + (b + c) == a + b + c
  {
  }

  /** Storing the character at `h` keeps `Filling`. */
  lemma FillStep(
      s: JsString, h: nat, first: seq<byte>, before: seq<byte>, after: seq<byte>, start: nat, c: nat, d: nat, next: nat)
    requires h < |s| && Filling(s, h, first, before, start, c, d)
    requires next == c + |ScalarBytes(Scalar(s[h..]))| <= d
    requires after == before[..c] + ScalarBytes(Scalar(s[h..])) + before[next..]
    ensures Filling(s, h + Width(s[h..]), first, after, start, next, d)
  {
    var bytes := ScalarBytes(Scalar(s[h..]));
    StoreStep(first, before, after, start, c, next, bytes);
    FittedStep(s, h, d - c);
    Regroup(before[start..c], bytes, Fitted(s[h + Width(s[h..])..], d - next));
  }

  /** Storing from `c` on keeps what came before and what comes after. */
  lemma StoreStep(
      first: seq<byte>, before: seq<byte>, after: seq<byte>, start: nat, c: nat, next: nat, bytes: seq<byte>)
    requires start <= c && next == c + |bytes| <= |before| == |first|
    requires before[..start] == first[..start] && before[c..] == first[c..]
    requires after == before[..c] + bytes + before[next..]
    ensures |after| == |first| && after[..start] == first[..start]
    ensures after[start..next] == before[start..c] + bytes
    ensures after[next..] == first[next..]
  {
    assert before[next..] == before[c..][next - c..] == first[c..][next - c..];
  }

  lemma FittedStep(s: JsString, h: nat, space: nat)
    requires h < |s|
    ensures
      var rest := s[h..];
      var n := |ScalarBytes(Scalar(rest))|;
      && s[h + Width(rest)..] == rest[Width(rest)..]
      && (n > space ==> Fitted(rest, space) == [])
      && (n <= space ==> Fitted(rest, space) == ScalarBytes(Scalar(rest)) + Fitted(s[h + Width(rest)..], space - n))
  {
  }

  /** The loop that looks for the end: a NUL, the end of the array, or the limit. */
  function EndOf(a: seq<byte>, start: nat, limit: Option<nat>): nat {
    var t := Terminator(a, start);
    if limit.Some? && start + limit.value < t then start + limit.value else t
  }

  /** A text ends at its first NUL, at the end of the array or after `limit` bytes, whichever comes first. */
  lemma EndIsFirst(a: seq<byte>, start: nat, limit: Option<nat>)
    requires start <= |a|
    ensures
      var end := EndOf(a, start, limit);
      && start <= end <= |a| && (limit.Some? ==> end <= start + limit.value)
      && (forall i :: start <= i < end ==> a[i] != 0)
      && (end == |a| || a[end] == 0 || limit == Some(end - start))
  {
  }

  function ByteAt(heap: array<byte>, i: nat): byte
    reads heap
  {
    if i < heap.Length then heap[i] else 0
  }

  /** The first loop of `UTF8ArrayToString`. */
  method FindEnd(heap: array<byte>, start: nat, limit: Option<nat>) returns (end: nat)
    ensures end == EndOf(heap[..], start, limit)
  {
    end := start;
    while end < heap.Length && heap[end] != 0 && !(limit.Some? && end >= start + limit.value)
      invariant start <= end && (limit.Some? ==> end <= start + limit.value)
      invariant Terminator(heap[..], start) == Terminator(heap[..], end)
    {
      end := end + 1;
    }
  }

  /** One round of the second loop: the branches on the leading byte. */
  method ReadScalar(heap: array<byte>, b: nat) returns (code: nat, next: nat)
    ensures (code, next - b) == DecodeAt(heap[..], b) && b < next
  {
    var e := ByteAt(heap, b);
    if e < 128 {
      return e, b + 1;
    }
    var h := ByteAt(heap, b + 1) % 64;
    if e / 32 == 6 {
      return e % 32 * 64 + h, b + 2;
    }
    var k := ByteAt(heap, b + 2) % 64;
    if e / 16 == 14 {
      return e % 16 * 4096 + h * 64 + k, b + 3;
    }
    return e % 8 * 262144 + h * 4096 + k * 64 + ByteAt(heap, b + 3) % 64, b + 4;
  }

  /** The units of one code point, as a pair from 0x10000 on. */
  method ReadUnits(heap: array<byte>, b: nat, ghost end: nat) returns (units: JsString, next: nat)
    requires b < end
    ensures b < next && Decode(heap[..], b, end) == units + Decode(heap[..], next, end)
  {
    var code;
    code, next := ReadScalar(heap, b);
    DecodeStep(heap[..], b, end, code, next);
    if code < 0x1_0000 {
      units := [code];
    } else {
      units := [0xD800 + (code - 0x1_0000) / 1024, 0xDC00 + (code - 0x1_0000) % 1024];
    }
  }

  /** `UTF8ArrayToString`, by hand: up to the first NUL or `limit` bytes. */
  method Read(heap: array<byte>, start: nat, limit: Option<nat>) returns (s: JsString)
    ensures s == Decode(heap[..], start, EndOf(heap[..], start, limit))
  {
    var end := FindEnd(heap, start, limit);
    var b := start;
    s := [];
    while b < end
      invariant start <= b
      invariant s + Decode(heap[..], b, end) == Decode(heap[..], start, end)
      decreases if b < end then end - b else 0
    {
      var units, next := ReadUnits(heap, b, end);
      Regroup(s, units, Decode(heap[..], next, end));
      s := s + units;
      b := next;
    }
  }

  lemma PieceStands(a: seq<byte>, front: seq<byte>, piece: seq<byte>, back: seq<byte>)
    requires a == front + piece + [0] + back
    ensures Stands(a, |front|, piece + [0])
  {
  }

  /** With room for the predicted bytes and the NUL, reading back gives the string if it can at all. */
  method WriteThenRead(s: JsString, heap: array<byte>, start: nat) returns (back: JsString)
    requires start + |Encode(s)| + 1 <= heap.Length
    modifies heap
    ensures heap[..] == old(heap[..start]) + Encode(s) + [0] + old(heap[start + |Encode(s)| + 1..])
    ensures back == Repaired(s)
    ensures back == s <==> WellFormed(s) && 0 !in s
  {
    var n := LengthBytes(s);
    var written := Write(s, heap, start, n + 1);
    EverythingFits(s, n);
    PieceStands(heap[..], old(heap[..start]), Encode(s), old(heap[start + n + 1..]));
    back := Read(heap, start, None);
    DecodesToRepaired(s, heap[..], start);
    RepairedIffBroken(s);
  }
}
