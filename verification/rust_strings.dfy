/** The string operations of Rust that hosts and endpoints go through. */
module RustStrings {

  /** `char::is_whitespace` */
  predicate IsSpace(c: char) {
    || 9 <= c as int <= 13 || c as int in {0x20, 0x85, 0xA0, 0x1680, 0x2028, 0x2029, 0x202F, 0x205F, 0x3000}
    || 0x2000 <= c as int <= 0x200A
  }

  function TrimStart(s: string): string {
    if s != "" && IsSpace(s[0]) then TrimStart(s[1..]) else s
  }

  function TrimEnd(s: string): string {
    if s != "" && IsSpace(s[|s| - 1]) then TrimEnd(s[..|s| - 1]) else s
  }

  /** `trim` */
  function Trim(s: string): string { TrimEnd(TrimStart(s)) }

  predicate IsTrimmed(s: string) {
    s != "" ==> !IsSpace(s[0]) && !IsSpace(s[|s| - 1])
  }

  lemma {:induction false} TrimmedEndKeepsStart(s: string)
    requires s != "" ==> !IsSpace(s[0])
    ensures IsTrimmed(TrimEnd(s))
  {
    if s != "" && IsSpace(s[|s| - 1]) { TrimmedEndKeepsStart(s[..|s| - 1]); }
  }

  lemma {:induction false} TrimmedStart(s: string)
    ensures TrimStart(s) != "" ==> !IsSpace(TrimStart(s)[0])
  {
    if s != "" && IsSpace(s[0]) { TrimmedStart(s[1..]); }
  }

  /** Trimming leaves no white space at either end, so trimming again changes nothing. */
  lemma TrimIsTrimmed(s: string)
    ensures IsTrimmed(Trim(s)) && Trim(Trim(s)) == Trim(s)
  {
    TrimmedStart(s);
    TrimmedEndKeepsStart(TrimStart(s));
  }

  lemma TrimOfTrimmed(s: string)
    requires IsTrimmed(s)
    ensures Trim(s) == s
  {
  }

  lemma {:induction false} TrimStartKeeps(s: string, c: char)
    requires !IsSpace(c)
    ensures c in TrimStart(s) <==> c in s
  {
    if s != "" && IsSpace(s[0]) {
      TrimStartKeeps(s[1..], c);
      assert s == [s[0]] + s[1..];
    }
  }

  lemma {:induction false} TrimEndKeeps(s: string, c: char)
    requires !IsSpace(c)
    ensures c in TrimEnd(s) <==> c in s
  {
    if s != "" && IsSpace(s[|s| - 1]) {
      TrimEndKeeps(s[..|s| - 1], c);
      assert s == s[..|s| - 1] + [s[|s| - 1]];
    }
  }

  /** Trimming takes no other characters away. */
  lemma TrimKeeps(s: string, c: char)
    requires !IsSpace(c)
    ensures c in Trim(s) <==> c in s
  {
    TrimStartKeeps(s, c);
    TrimEndKeeps(TrimStart(s), c);
  }

  /** `trim_end_matches` of one character */
  function TrimEndOf(s: string, c: char): (r: string)
    ensures r != "" ==> r[|r| - 1] != c
  {
    if s != "" && s[|s| - 1] == c then TrimEndOf(s[..|s| - 1], c) else s
  }

  /** `trim_start_matches` of one character */
  function TrimStartOf(s: string, c: char): (r: string)
    ensures r != "" ==> r[0] != c
  {
    if s != "" && s[0] == c then TrimStartOf(s[1..], c) else s
  }

  function Lower(c: char): char {
    if 'A' <= c <= 'Z' then (c as int + 32) as char else c
  }

  /** `to_ascii_lowercase` */
  function LowerCase(s: string): string {
    seq(|s|, i requires 0 <= i < |s| => Lower(s[i]))
  }

  /** Where the character is first, or the end. */
  function First(s: string, c: char): (i: nat)
    ensures i <= |s| && c !in s[..i] && (i < |s| ==> s[i] == c)
  {
    if s == "" || s[0] == c then 0
    else
      var i := 1 + First(s[1..], c);
      assert s[..i] == [s[0]] + s[1..][..i - 1];
      i
  }

  /** Where the character is last, or the end. */
  function Last(s: string, c: char): (i: nat)
    ensures i <= |s| && (i < |s| ==> s[i] == c && c !in s[i + 1..]) && (i == |s| ==> c !in s)
  {
    if s == "" then 0
    else if s[|s| - 1] == c then |s| - 1
    else
      var front := s[..|s| - 1];
      var i := Last(front, c);
      if i == |front| then
        assert s == front + [s[|s| - 1]];
        |s|
      else
        assert s[i + 1..] == front[i + 1..] + [s[|s| - 1]];
        i
  }

  lemma FirstIs(s: string, c: char, i: nat)
    requires i < |s| && s[i] == c && c !in s[..i]
    ensures First(s, c) == i
  {
    var first := First(s, c);
    assert forall k :: 0 <= k < i ==> s[k] == s[..i][k];
    assert forall k :: 0 <= k < first ==> s[k] == s[..first][k];
  }

  lemma LastIs(s: string, c: char, i: nat)
    requires i < |s| && s[i] == c && c !in s[i + 1..]
    ensures Last(s, c) == i
  {
    var last := Last(s, c);
    assert forall k :: i < k < |s| ==> s[k] == s[i + 1..][k - i - 1];
    assert forall k :: last < k < |s| ==> s[k] == s[last + 1..][k - last - 1];
  }

  /** `str::contains` of a text */
  predicate Contains(s: string, part: string) {
    exists i {:trigger s[i..]} :: 0 <= i <= |s| && part <= s[i..]
  }

  /** `str::split` at one character */
  function Split(s: string, c: char): (parts: seq<string>)
    ensures |parts| > 0
    decreases |s|
  {
    var i := First(s, c);
    if i == |s| then [s] else [s[..i]] + Split(s[i + 1..], c)
  }

  /** The bytes of the text in UTF-8, which is what `len` counts. */
  function ByteLength(s: string): nat {
    if s == "" then 0
    else
      var c := s[0] as int;
      (if c < 0x80 then 1 else if c < 0x800 then 2 else if c < 0x10000 then 3 else 4) + ByteLength(s[1..])
  }

  // ---------------------------------------------------------------- trimming and small letters

  lemma {:induction false} TrimIgnoresSpaceBehind(s: string, space: char)
    requires IsSpace(space)
    ensures Trim(s + [space]) == Trim(s)
  {
    if s == "" {
      assert (s + [space])[1..] == "";
    } else if IsSpace(s[0]) {
      assert (s + [space])[1..] == s[1..] + [space];
      TrimIgnoresSpaceBehind(s[1..], space);
    } else {
      assert (s + [space])[..|s|] == s;
    }
  }

  lemma {:induction false} StartBeforeDot(s: string)
    requires s == "" || !IsSpace(s[|s| - 1])
    ensures TrimStart(s + ".") == TrimStart(s) + "."
    ensures TrimStart(s) == "" || !IsSpace(TrimStart(s)[|TrimStart(s)| - 1])
  {
    if s != "" && IsSpace(s[0]) {
      assert (s + ".")[1..] == s[1..] + ".";
      StartBeforeDot(s[1..]);
    }
  }

  lemma LowerIgnoresSpace(c: char)
    ensures IsSpace(Lower(c)) <==> IsSpace(c)
    ensures Lower(c) == '.' <==> c == '.'
  {
  }

  lemma {:induction false} LowerCaseTrimsStart(s: string)
    ensures TrimStart(LowerCase(s)) == LowerCase(TrimStart(s))
  {
    if s != "" {
      LowerIgnoresSpace(s[0]);
      assert LowerCase(s)[1..] == LowerCase(s[1..]);
      if IsSpace(s[0]) { LowerCaseTrimsStart(s[1..]); }
    }
  }

  lemma {:induction false} LowerCaseTrimsEnd(s: string)
    ensures TrimEnd(LowerCase(s)) == LowerCase(TrimEnd(s))
  {
    if s != "" {
      LowerIgnoresSpace(s[|s| - 1]);
      assert LowerCase(s)[..|s| - 1] == LowerCase(s[..|s| - 1]);
      if IsSpace(s[|s| - 1]) { LowerCaseTrimsEnd(s[..|s| - 1]); }
    }
  }

  lemma LowerCaseTrims(s: string)
    ensures Trim(LowerCase(s)) == LowerCase(Trim(s))
  {
    LowerCaseTrimsStart(s);
    LowerCaseTrimsEnd(TrimStart(s));
  }

  lemma {:induction false} LowerCaseTrimsDots(s: string)
    ensures TrimEndOf(LowerCase(s), '.') == LowerCase(TrimEndOf(s, '.'))
  {
    if s != "" {
      LowerIgnoresSpace(s[|s| - 1]);
      assert LowerCase(s)[..|s| - 1] == LowerCase(s[..|s| - 1]);
      if s[|s| - 1] == '.' { LowerCaseTrimsDots(s[..|s| - 1]); }
    }
  }

  lemma LowerCaseTwice(s: string)
    ensures LowerCase(LowerCase(s)) == LowerCase(s)
  {
  }
}
