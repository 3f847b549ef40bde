/** Amounts of money: decimal yuan text on the wire, whole fen inside (src/protocol.rs). */
module Money {
  import opened Wrappers
  import opened Text

  predicate IsAmountChar(c: char) {
    IsDigit(c) || c == '.'
  }

  /** `checked_mul(100)` followed by `checked_add`. */
  function CheckedFen(whole: int, frac: int): Option<int> {
    var hundred := whole * 100;
    if !(I64_MIN <= hundred <= I64_MAX) then None
    else if !(I64_MIN <= hundred + frac <= I64_MAX) then None
    else Some(hundred + frac)
  }

  /** `format!("{fraction:0<2}")`: pads on the right with zeros up to two characters. */
  function PadFraction(fraction: string): string {
    if |fraction| >= 2 then fraction else if |fraction| == 1 then fraction + "0" else "00"
  }

  function ParseYuanToFen(value: string): Option<int> {
    if value == "" || !(forall i | 0 <= i < |value| :: IsAmountChar(value[i])) then None
    else
      var parts := Split(value, '.');
      var whole := parts[0];
      var fraction := if |parts| > 1 then parts[1] else "";
      if |parts| > 2 || whole == "" || |fraction| > 2 then None
      else
        match ParseI64(whole)
        case None => None
        case Some(w) =>
          match ParseI64(PadFraction(fraction))
          case None => None
          case Some(f) => CheckedFen(w, f)
  }

  /** Rust's `/` on integers, which truncates toward zero. */
  function TruncDiv(n: int, d: int): int
    requires d > 0
  {
    if n < 0 then -((-n) / d) else n / d
  }

  function TwoDigits(n: nat): (s: string)
    requires n < 100
  {
    [DigitChar(n / 10), DigitChar(n % 10)]
  }

  /** The absolute value of the smallest `i64` does not exist, so that input is outside the domain. */
  function FenToYuanString(fen: int): string
    requires I64_MIN < fen <= I64_MAX
  {
    var abs := if fen < 0 then -fen else fen;
    PrintInt(TruncDiv(fen, 100)) + "." + TwoDigits(abs % 100)
  }

  // ---- the grammar of amounts, independent of the parser ----

  /** `s` is written as `whole`, or as `whole.frac` with at most two fraction digits. */
  ghost predicate Spells(s: string, whole: string, frac: string) {
    && whole != "" && AllDigits(whole)
    && |frac| <= 2 && AllDigits(frac)
    && (s == whole + "." + frac || (frac == "" && s == whole))
  }

  ghost predicate IsAmount(s: string) {
    exists whole, frac :: Spells(s, whole, frac)
  }

  /** The fen that a spelling denotes: a single fraction digit counts tens of fen. */
  ghost function Denotes(whole: string, frac: string): nat
    requires AllDigits(whole) && AllDigits(frac) && |frac| <= 2
  {
    Value(whole) * 100 + (if |frac| == 1 then Value(frac) * 10 else Value(frac))
  }

  lemma ValueOfTwo(s: string)
    requires AllDigits(s) && |s| == 2
    ensures Value(s) == DigitValue(s[0]) * 10 + DigitValue(s[1])
  {
    assert Value(s[..1]) == DigitValue(s[0]) by {
      assert Value(s[..1]) == Value(s[..1][..0]) * 10 + DigitValue(s[..1][0]);
    }
  }

  lemma ValueOfPadded(frac: string)
    requires AllDigits(frac) && |frac| <= 2
    ensures AllDigits(PadFraction(frac)) && |PadFraction(frac)| == 2
    ensures Value(PadFraction(frac)) == if |frac| == 1 then Value(frac) * 10 else Value(frac)
    ensures Value(PadFraction(frac)) < 100
  {
    ValueOfTwo(PadFraction(frac));
    if |frac| == 1 { assert Value(frac) == Value(frac[..0]) * 10 + DigitValue(frac[0]); }
  }

  lemma AmountHasDot(whole: string, frac: string)
    requires AllDigits(whole) && AllDigits(frac)
    ensures Split(whole + "." + frac, '.') == [whole, frac]
    ensures forall i | 0 <= i < |whole + "." + frac| :: IsAmountChar((whole + "." + frac)[i])
  {
    assert '.' !in whole && '.' !in frac;
    SplitWhole(frac, '.');
    SplitHead(whole, frac, '.');
    assert whole + ['.'] + frac == whole + "." + frac;
  }

  lemma SplitOfSpelling(s: string, whole: string, frac: string)
    requires Spells(s, whole, frac)
    ensures Split(s, '.') == if s == whole then [whole] else [whole, frac]
    ensures forall i | 0 <= i < |s| :: IsAmountChar(s[i])
  {
    if s == whole {
      assert '.' !in whole;
      SplitWhole(whole, '.');
    } else {
      AmountHasDot(whole, frac);
    }
  }

  /** Every spelling is read as exactly the fen it denotes, unless that exceeds the 64-bit range. */
  lemma ParseOfSpelling(s: string, whole: string, frac: string)
    requires Spells(s, whole, frac)
    ensures ParseYuanToFen(s) == if Denotes(whole, frac) <= I64_MAX then Some(Denotes(whole, frac) as int) else None
  {
    SplitOfSpelling(s, whole, frac);
    ParseOfDigits(whole);
    ValueOfPadded(frac);
    ParseOfDigits(PadFraction(frac));
  }

  /** Whatever has the parts of an amount is an amount; the other texts are refused. */
  lemma ParseAcceptsOnlyAmounts(s: string)
    requires !IsAmount(s)
    ensures ParseYuanToFen(s) == None
  {
    if s != "" && (forall i | 0 <= i < |s| :: IsAmountChar(s[i])) {
      var parts := Split(s, '.');
      JoinOfSplit(s, '.');
      forall p | p in parts ensures AllDigits(p) {
        PartOfSplit(s, '.', p);
        forall i | 0 <= i < |p| ensures IsDigit(p[i]) {
          assert p[i] in p;
        }
      }
      if parts[0] != "" && |parts| == 1 {
        assert Spells(s, parts[0], "");
      } else if parts[0] != "" && |parts| == 2 && |parts[1]| <= 2 {
        assert Join(parts[1..], ['.']) == parts[1];
        assert Spells(s, parts[0], parts[1]);
      }
    }
  }

  lemma {:induction false} PartOfSplit(s: string, c: char, p: string)
    requires p in Split(s, c)
    ensures forall x | x in p :: x in s && x != c
  {
    if s != "" {
      var rest := Split(s[1..], c);
      if p in rest {
        PartOfSplit(s[1..], c, p);
      } else if p != "" {
        assert p == [s[0]] + rest[0];
        PartOfSplit(s[1..], c, rest[0]);
      }
    }
  }

  /** Reading an amount fails exactly when the text is not an amount or its value does not fit 64 bits. */
  lemma ParseDomain(s: string)
    ensures ParseYuanToFen(s) == None
       <==> !IsAmount(s) || exists whole, frac :: Spells(s, whole, frac) && Denotes(whole, frac) > I64_MAX
  {
    if IsAmount(s) {
      var whole, frac :| Spells(s, whole, frac);
      ParseOfSpelling(s, whole, frac);
      forall w, f | Spells(s, w, f) ensures Denotes(w, f) > I64_MAX <==> ParseYuanToFen(s) == None {
        ParseOfSpelling(s, w, f);
      }
    } else {
      ParseAcceptsOnlyAmounts(s);
    }
  }

  lemma TwoDigitsValue(n: nat)
    requires n < 100
    ensures AllDigits(TwoDigits(n)) && Value(TwoDigits(n)) == n
  {
    ValueOfTwo(TwoDigits(n));
  }

  lemma NegativeIsRefused(fen: int)
    requires I64_MIN < fen < 0
    ensures ParseYuanToFen(FenToYuanString(fen)) != Some(fen)
  {
    if TruncDiv(fen, 100) < 0 {
      var s := FenToYuanString(fen);
      assert s[0] == '-' && !IsAmountChar(s[0]);
    } else {
      SmallNegative(fen);
    }
  }

  /** Between minus one yuan and nothing the printer drops the sign. */
  lemma SmallNegative(fen: int)
    requires I64_MIN < fen < 0 && TruncDiv(fen, 100) >= 0
    ensures ParseYuanToFen(FenToYuanString(fen)) != Some(fen)
  {
    assert FenToYuanString(fen) == FenToYuanString(-fen);
    ReadsPrinted(-fen);
  }

  lemma PrintedSpells(fen: int)
    requires 0 <= fen <= I64_MAX
    ensures var whole, frac := Decimal(fen / 100), TwoDigits(fen % 100);
            Spells(FenToYuanString(fen), whole, frac) && Denotes(whole, frac) == fen
  {
    ValueOfDecimal(fen / 100);
    TwoDigitsValue(fen % 100);
  }

  lemma ReadsPrinted(fen: int)
    requires 0 <= fen <= I64_MAX
    ensures ParseYuanToFen(FenToYuanString(fen)) == Some(fen)
  {
    PrintedSpells(fen);
    ParseOfSpelling(FenToYuanString(fen), Decimal(fen / 100), TwoDigits(fen % 100));
  }

  /** Printing then reading gives the amount back exactly when it is not negative. */
  lemma ReadBackPrinted(fen: int)
    requires I64_MIN < fen <= I64_MAX
    ensures ParseYuanToFen(FenToYuanString(fen)) == Some(fen) <==> fen >= 0
  {
    if fen < 0 { NegativeIsRefused(fen); } else { ReadsPrinted(fen); }
  }

  /** The one text per amount that the printer produces: two fraction digits, no spare leading zero. */
  ghost predicate Canonical(s: string) {
    exists whole, frac :: Spells(s, whole, frac) && |frac| == 2 && NoLeadingZero(whole)
  }

  lemma TwoDigitsOfValue(frac: string)
    requires AllDigits(frac) && |frac| == 2
    ensures Value(frac) < 100 && TwoDigits(Value(frac)) == frac
  {
    ValueOfTwo(frac);
    assert DigitChar(DigitValue(frac[0])) == frac[0] && DigitChar(DigitValue(frac[1])) == frac[1];
  }

  lemma PrintedIsCanonical(fen: int)
    requires 0 <= fen <= I64_MAX
    ensures Canonical(FenToYuanString(fen))
  {
    ValueOfDecimal(fen / 100);
    TwoDigitsValue(fen % 100);
    assert Spells(FenToYuanString(fen), Decimal(fen / 100), TwoDigits(fen % 100));
  }

  /** Reading then printing gives the text back exactly when the text is canonical. */
  lemma PrintBackRead(s: string)
    ensures match ParseYuanToFen(s)
            case None => true
            case Some(fen) => 0 <= fen <= I64_MAX && (FenToYuanString(fen) == s <==> Canonical(s))
  {
    if !IsAmount(s) {
      ParseAcceptsOnlyAmounts(s);
    } else if ParseYuanToFen(s).Some? {
      var whole, frac :| Spells(s, whole, frac);
      ParseOfSpelling(s, whole, frac);
      PrintedIsCanonical(ParseYuanToFen(s).value);
      if Canonical(s) { PrintsCanonical(s); }
    }
  }

  lemma PrintsCanonical(s: string)
    requires Canonical(s)
    ensures ParseYuanToFen(s).Some? ==>
              ParseYuanToFen(s).value >= 0 && FenToYuanString(ParseYuanToFen(s).value) == s
  {
    var w, f :| Spells(s, w, f) && |f| == 2 && NoLeadingZero(w);
    ParseOfSpelling(s, w, f);
    TwoDigitsOfValue(f);
    DecimalOfValue(w);
    if ParseYuanToFen(s).Some? {
      var fen := ParseYuanToFen(s).value;
      assert fen / 100 == Value(w) && fen % 100 == Value(f);
    }
  }

  /** `amounts_differ`: texts that cannot be read always differ. */
  predicate AmountsDiffer(a: string, b: string) {
    match (ParseYuanToFen(a), ParseYuanToFen(b))
    case (Some(x), Some(y)) => x != y
    case _ => true
  }

  /** Against a printed amount the test passes exactly for the spellings of that amount. */
  lemma AgreesWithPrinted(a: string, fen: int)
    requires 0 <= fen <= I64_MAX
    ensures !AmountsDiffer(a, FenToYuanString(fen))
       <==> exists whole, frac :: Spells(a, whole, frac) && Denotes(whole, frac) == fen
  {
    ReadBackPrinted(fen);
    if IsAmount(a) {
      var whole, frac :| Spells(a, whole, frac);
      ParseOfSpelling(a, whole, frac);
      forall w, f | Spells(a, w, f) && Denotes(w, f) == fen ensures ParseYuanToFen(a) == Some(fen) {
        ParseOfSpelling(a, w, f);
      }
    } else {
      ParseAcceptsOnlyAmounts(a);
    }
  }
}
