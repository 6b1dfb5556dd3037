/** The two printers of satoshi amounts. */
module BchAmount {
  import opened Decimals

  const SATS_PER_BCH: nat := 100_000_000

  function Fraction(sats: nat): (f: string)
    ensures AllDigits(f)
  {
    Trimmed(Padded(Decimal(sats % SATS_PER_BCH), 8))
  }

  /** The bigint branch of the coin card's `formatBchFromSats`. */
  function FormatCoin(sats: nat): string {
    var whole := Decimal(sats / SATS_PER_BCH);
    if |Fraction(sats)| > 0 then whole + "." + Fraction(sats) else whole
  }

  /** The derivation result's `formatBch`, without its unit. */
  function FormatNumber(sats: nat): string {
    Decimal(sats / SATS_PER_BCH) + "." + (if Fraction(sats) == "" then "0" else Fraction(sats))
  }

  const UNIT: string := " BCH"

  function FormatBch(sats: nat): string {
    FormatNumber(sats) + UNIT
  }

  /** The text is a decimal whose exact value is `sats` / 10^8. */
  predicate Denotes(text: string, sats: nat) {
    IsDecimal(text) && Scale(text) <= 8 && Mantissa(text) * Pow10(8 - Scale(text)) == sats
  }

  lemma EightDigits()
    ensures Pow10(8) == SATS_PER_BCH
  {
    assert Pow10(4) == 10000;
    Pow10Adds(4, 4);
  }

  /** The trimmed fraction keeps the value of the eight digits it came from. */
  lemma FractionValue(sats: nat)
    ensures |Fraction(sats)| <= 8
    ensures Value(Fraction(sats)) * Pow10(8 - |Fraction(sats)|) == sats % SATS_PER_BCH
  {
    var f := sats % SATS_PER_BCH;
    EightDigits();
    DecimalLength(f, 8);
    DecimalRoundTrip(f);
    PaddingKeepsValue(Decimal(f), 8);
    TrimmingScalesValue(Padded(Decimal(f), 8));
  }

  lemma Distribute(w: nat, p: nat, v: nat, q: nat, total: nat)
    requires total == w * p + v && p * q == SATS_PER_BCH
    ensures total * q == w * SATS_PER_BCH + v * q
  {
    assert (w * p + v) * q == (w * p) * q + v * q;
    assert (w * p) * q == w * (p * q);
  }

  /** The text splits at its point into the pieces it was made of. */
  lemma PiecesSplit(w: string, f: string)
    requires AllDigits(w) && w != "" && AllDigits(f) && f != ""
    ensures
      var text := w + "." + f;
      IsDecimal(text) && Scale(text) == |f| && Mantissa(text) == Value(w + f)
  {
    var text := w + "." + f;
    assert text == w + ("." + f);
    PointAfterDigits(w, "." + f);
    assert text[..|w|] == w && text[|w| + 1..] == f;
  }

  /** Whole part, point, fraction digits: the value of the pieces. */
  lemma PiecesDenote(whole: nat, f: string, sats: nat)
    requires AllDigits(f) && 0 < |f| <= 8
    requires whole * SATS_PER_BCH + Value(f) * Pow10(8 - |f|) == sats
    ensures Denotes(Decimal(whole) + "." + f, sats)
  {
    PiecesSplit(Decimal(whole), f);
    PiecesValue(whole, f, sats);
  }

  lemma PiecesValue(whole: nat, f: string, sats: nat)
    requires AllDigits(f) && 0 < |f| <= 8
    requires whole * SATS_PER_BCH + Value(f) * Pow10(8 - |f|) == sats
    ensures AllDigits(Decimal(whole) + f) && Value(Decimal(whole) + f) * Pow10(8 - |f|) == sats
  {
    ValueOfConcat(Decimal(whole), f);
    DecimalRoundTrip(whole);
    EightSplit(|f|);
    Distribute(whole, Pow10(|f|), Value(f), Pow10(8 - |f|), Value(Decimal(whole) + f));
  }

  lemma EightSplit(k: nat)
    requires k <= 8
    ensures Pow10(k) * Pow10(8 - k) == SATS_PER_BCH
  {
    Pow10Adds(k, 8 - k);
    EightDigits();
  }

  lemma WholeDenotes(whole: nat)
    ensures Denotes(Decimal(whole), whole * SATS_PER_BCH) && '.' !in Decimal(whole)
  {
    var w := Decimal(whole);
    assert w + "" == w;
    PointAfterDigits(w, "");
    assert w[..|w|] == w;
    DecimalRoundTrip(whole);
    EightDigits();
  }

  // ---------------------------------------------------------------- main results

  /** The coin card's text has exactly the amount's value, a point only for part coins, and no zero at the end. */
  lemma CoinIsExact(sats: nat)
    ensures Denotes(FormatCoin(sats), sats)
    ensures '.' in FormatCoin(sats) <==> sats % 100_000_000 != 0
    ensures '.' in FormatCoin(sats) ==> FormatCoin(sats)[|FormatCoin(sats)| - 1] != '0'
  {
    var whole, f := sats / SATS_PER_BCH, Fraction(sats);
    FractionValue(sats);
    if |f| > 0 {
      PiecesDenote(whole, f, sats);
      assert FormatCoin(sats)[|Decimal(whole)|] == '.';
      LastDigitCounts(f);
    } else {
      NothingTimes(Pow10(8));
      WholeDenotes(whole);
    }
  }

  lemma LastDigitCounts(f: string)
    requires AllDigits(f) && 0 < |f| <= 8 && f[|f| - 1] != '0'
    ensures Value(f) * Pow10(8 - |f|) > 0
  {
    assert Value(f) > 0 && Pow10(8 - |f|) > 0;
  }

  /** The derivation result's text has exactly the amount's value, always with a point. */
  lemma NumberIsExact(sats: nat)
    ensures FormatBch(sats) == FormatNumber(sats) + " BCH"
    ensures Denotes(FormatNumber(sats), sats) && '.' in FormatNumber(sats)
  {
    var w, f := Decimal(sats / SATS_PER_BCH), Fraction(sats);
    FractionValue(sats);
    assert Value("0") == 0;
    PiecesDenote(sats / SATS_PER_BCH, if f == "" then "0" else f, sats);
    assert FormatNumber(sats)[|w|] == '.';
  }

  /** The whole part has no superfluous zero in front. */
  predicate NoLeadingZero(text: string) {
    text != "" && (text[0] == '0' ==> |text| == 1 || text[1] == '.')
  }

  lemma PiecesInText(w: string, f: string)
    requires w != "" && AllDigits(w) && f != ""
    ensures
      var text := w + "." + f;
      Point(text) == |w| && text[|w| + 1..] == f && text[|text| - 1] == f[|f| - 1] && text[0] == w[0]
      && text[1] == if |w| == 1 then '.' else w[1]
  {
    assert w + "." + f == w + ("." + f);
    PointAfterDigits(w, "." + f);
  }

  lemma CoinLeads(sats: nat)
    ensures NoLeadingZero(FormatCoin(sats))
  {
    var w, f := Decimal(sats / SATS_PER_BCH), Fraction(sats);
    if f != "" { PiecesInText(w, f); }
  }

  /** What stands behind the point of a text is a lone zero, or does not end in one. */
  predicate NoTrailingZero(text: string) {
    var p := Point(text);
    p < |text| && (text[p + 1..] == "0" || (text[|text| - 1] != '0' && |text| > p + 1))
  }

  lemma PiecesAreShortest(w: string, f: string)
    requires w != "" && AllDigits(w) && (|w| > 1 ==> w[0] != '0')
    requires f != "" && AllDigits(f) && (f == "0" || f[|f| - 1] != '0')
    ensures NoLeadingZero(w + "." + f) && NoTrailingZero(w + "." + f)
  {
    PiecesInText(w, f);
  }

  /**
   * Both texts are the shortest of their kind: neither leads with a superfluous zero, and what stands
   * behind a point ends in no zero, except for the lone zero of the second printer.
   */
  lemma TextsAreShortest(sats: nat)
    ensures NoLeadingZero(FormatCoin(sats)) && NoLeadingZero(FormatNumber(sats))
    ensures NoTrailingZero(FormatNumber(sats))
  {
    CoinLeads(sats);
    var f := Fraction(sats);
    PiecesAreShortest(Decimal(sats / SATS_PER_BCH), if f == "" then "0" else f);
  }

  lemma SuffixCancels(a: string, b: string, suffix: string)
    requires a + suffix == b + suffix
    ensures a == b
  {
    assert |a| == |b|;
    assert (a + suffix)[..|a|] == a && (b + suffix)[..|a|] == b;
  }

  lemma NumbersAreInjective(a: nat, b: nat)
    requires FormatNumber(a) == FormatNumber(b)
    ensures a == b
  {
    NumberIsExact(a);
    NumberIsExact(b);
    OneValue(FormatNumber(a), a, b);
  }

  lemma CoinsAreInjective(a: nat, b: nat)
    requires FormatCoin(a) == FormatCoin(b)
    ensures a == b
  {
    CoinIsExact(a);
    CoinIsExact(b);
    OneValue(FormatCoin(a), a, b);
  }

  /** Different amounts never print alike, in either form. */
  lemma PrintersAreInjective(a: nat, b: nat)
    ensures FormatCoin(a) == FormatCoin(b) ==> a == b
    ensures FormatBch(a) == FormatBch(b) ==> a == b
  {
    if FormatCoin(a) == FormatCoin(b) { CoinsAreInjective(a, b); }
    if FormatBch(a) == FormatBch(b) {
      SuffixCancels(FormatNumber(a), FormatNumber(b), UNIT);
      NumbersAreInjective(a, b);
    }
  }

  lemma OneValue(text: string, a: nat, b: nat)
    requires Denotes(text, a) && Denotes(text, b)
    ensures a == b
  {
  }
}
