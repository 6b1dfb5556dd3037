/** The codec's tables against the standards they come from. */
module Utf8Standards {
  import opened JsValues
  import opened Utf8

  predicate IsTail(b: byte) { 0x80 <= b <= 0xBF }

  /** The bits that a lead byte and up to three tails carry. */
  function Carried(lead: int, tails: seq<byte>): int
    decreases |tails|
  {
    if tails == [] then lead else Carried(lead, tails[..|tails| - 1]) * 64 + (tails[|tails| - 1] as int - 0x80)
  }

  /**
   * The table in section 3 of RFC 3629: which lead byte stands for which range of code points, that
   * tails run from 80 to BF, and that together they carry the code point. So no code point has an
   * overlong form, and neither C0, C1 nor F5 to FF ever occur.
   */
  lemma BytesAreRfc3629(k: nat)
    requires k < 0x11_0000
    ensures
      var bytes := ScalarBytes(k);
      var lead, tails := bytes[0], bytes[1..];
      && (forall i :: 0 <= i < |tails| ==> IsTail(tails[i]))
      && (k <= 0x7F ==> tails == [] && lead == k)
      && (0x80 <= k <= 0x7FF ==> |tails| == 1 && 0xC2 <= lead <= 0xDF && Carried(lead - 0xC0, tails) == k)
      && (0x800 <= k <= 0xFFFF ==> |tails| == 2 && 0xE0 <= lead <= 0xEF && Carried(lead - 0xE0, tails) == k)
      && (0x1_0000 <= k ==> |tails| == 3 && 0xF0 <= lead <= 0xF4 && Carried(lead - 0xF0, tails) == k)
  {
    if 0x80 <= k <= 0x7FF { TwoBytes(k); }
    if 0x800 <= k <= 0xFFFF { ThreeBytes(k); }
    if 0x1_0000 <= k { FourBytes(k); }
  }

  lemma CarriedOne(lead: int, tails: seq<byte>)
    requires |tails| == 1
    ensures Carried(lead, tails) == lead * 64 + (tails[0] as int - 0x80)
  {
    assert tails[..0] == [];
  }

  lemma CarriedTwo(lead: int, tails: seq<byte>)
    requires |tails| == 2
    ensures Carried(lead, tails) == (lead * 64 + tails[0] - 0x80) * 64 + tails[1] - 0x80
  {
    CarriedOne(lead, tails[..1]);
  }

  lemma CarriedThree(lead: int, tails: seq<byte>)
    requires |tails| == 3
    ensures Carried(lead, tails) == ((lead * 64 + tails[0] - 0x80) * 64 + tails[1] - 0x80) * 64 + tails[2] - 0x80
  {
    CarriedTwo(lead, tails[..2]);
    assert tails[..2][0] == tails[0] && tails[..2][1] == tails[1];
  }

  predicate IsPairOf(high: int, low: int, k: int) {
    0xD800 <= high <= 0xDBFF && 0xDC00 <= low <= 0xDFFF && k == 0x1_0000 + (high - 0xD800) * 0x400 + (low - 0xDC00)
  }

  /**
   * Section 2 of RFC 2781: a code point beyond FFFF is a high surrogate for its upper ten bits and a
   * low one for the others; the encoder takes such a pair for that code point, and a unit that is no
   * surrogate for itself.
   */
  lemma UnitsAreRfc2781(k: nat, rest: JsString)
    requires k < 0x11_0000 && !(0xD800 <= k <= 0xDFFF)
    ensures Scalar(ScalarUnits(k) + rest) == k && Width(ScalarUnits(k) + rest) == |ScalarUnits(k)|
    ensures k <= 0xFFFF ==> ScalarUnits(k) == [k]
    ensures
      k > 0xFFFF ==>
        var units := ScalarUnits(k);
        |units| == 2 && IsPairOf(units[0], units[1], k)
  {
  }

  /**
   * The decoder goes by the lead byte alone: C0 to DF take one more byte, E0 to EF two, and everything
   * else from 80 on three; of the others it takes the lower six bits.
   */
  lemma LeadDecides(a: seq<byte>, b: nat)
    ensures
      var lead := At(a, b);
      var one, two, three := At(a, b + 1) % 64, At(a, b + 2) % 64, At(a, b + 3) % 64;
      DecodeAt(a, b)
        == if lead <= 0x7F then (lead, 1)
           else if 0xC0 <= lead <= 0xDF then ((lead - 0xC0) * 64 + one, 2)
           else if 0xE0 <= lead <= 0xEF then ((lead - 0xE0) * 4096 + one * 64 + two, 3)
           else (lead % 8 * 262144 + one * 4096 + two * 64 + three, 4)
  {
  }

  lemma TwoBytes(k: nat)
    requires 0x80 <= k <= 0x7FF
    ensures
      var bytes := ScalarBytes(k);
      |bytes| == 2 && IsTail(bytes[1]) && 0xC2 <= bytes[0] <= 0xDF && Carried(bytes[0] - 0xC0, bytes[1..]) == k
  {
    SixBits(k);
    CarriedOne(ScalarBytes(k)[0] - 0xC0, ScalarBytes(k)[1..]);
  }

  lemma ThreeBytes(k: nat)
    requires 0x800 <= k <= 0xFFFF
    ensures
      var bytes := ScalarBytes(k);
      && |bytes| == 3 && IsTail(bytes[1]) && IsTail(bytes[2])
      && 0xE0 <= bytes[0] <= 0xEF && Carried(bytes[0] - 0xE0, bytes[1..]) == k
  {
    SixBits(k);
    SixBits(k / 64);
    CarriedTwo(ScalarBytes(k)[0] - 0xE0, ScalarBytes(k)[1..]);
  }

  lemma FourBytes(k: nat)
    requires 0x1_0000 <= k < 0x11_0000
    ensures
      var bytes := ScalarBytes(k);
      && |bytes| == 4 && IsTail(bytes[1]) && IsTail(bytes[2]) && IsTail(bytes[3])
      && 0xF0 <= bytes[0] <= 0xF4 && Carried(bytes[0] - 0xF0, bytes[1..]) == k
  {
    SixBits(k);
    SixBits(k / 64);
    SixBits(k / 4096);
    CarriedThree(ScalarBytes(k)[0] - 0xF0, ScalarBytes(k)[1..]);
  }
}
