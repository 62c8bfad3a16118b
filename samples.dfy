/** Worked instances of the extractor's behaviour on concrete inputs. */
module Samples {
  import opened Text
  import opened Weights
  import opened Rates
  import opened Patterns
  import opened Standard
  import opened PatternFacts

  /** A price token of one digit. */
  lemma DigitToken(a: char)
    requires IsDigit(a)
    ensures PriceValue([a]) == Ok(DigitValue(a))
  {
    assert RemoveCommas([a]) == [a] + RemoveCommas([]);
    assert NatOf([a]) == 10 * NatOf([]) + DigitValue(a);
  }

  /** A price token printed with a thousands separator, such as "3,489". */
  lemma ThousandsToken(a: char, b: char, c: char, d: char)
    requires IsDigit(a) && IsDigit(b) && IsDigit(c) && IsDigit(d)
    ensures IsPriceToken([a, ',', b, c, d])
    ensures PriceValue([a, ',', b, c, d])
            == Ok(1000 * DigitValue(a) + 100 * DigitValue(b) + 10 * DigitValue(c) + DigitValue(d))
  {
    var t := [a, ',', b, c, d];
    assert t[1..] == [',', b, c, d] && t[1..][1..] == [b, c, d];
    assert RemoveCommas(t) == [a] + RemoveCommas([b, c, d]);
    FourDigitsKept(a, b, c, d);
    assert RemoveCommas(t) == [a, b, c, d];
    FourDigits(a, b, c, d);
  }

  /** A four-digit token such as "1000". */
  lemma FourDigitToken(a: char, b: char, c: char, d: char)
    requires IsDigit(a) && IsDigit(b) && IsDigit(c) && IsDigit(d)
    ensures PriceValue([a, b, c, d])
            == Ok(1000 * DigitValue(a) + 100 * DigitValue(b) + 10 * DigitValue(c) + DigitValue(d))
  {
    FourDigitsKept(a, b, c, d);
    FourDigits(a, b, c, d);
  }

  lemma FourDigitsKept(a: char, b: char, c: char, d: char)
    requires IsDigit(a) && IsDigit(b) && IsDigit(c) && IsDigit(d)
    ensures RemoveCommas([b, c, d]) == [b, c, d]
    ensures RemoveCommas([a, b, c, d]) == [a, b, c, d]
  {
    assert [d][1..] == [];
    assert RemoveCommas([d]) == [d];
    assert [c, d][1..] == [d];
    assert RemoveCommas([c, d]) == [c, d];
    assert [b, c, d][1..] == [c, d];
    assert RemoveCommas([b, c, d]) == [b, c, d];
    assert [a, b, c, d][1..] == [b, c, d];
  }

  lemma FourDigits(a: char, b: char, c: char, d: char)
    ensures NatOf([a, b, c, d]) == 1000 * DigitValue(a) + 100 * DigitValue(b) + 10 * DigitValue(c) + DigitValue(d)
  {
    assert [a][..0] == [];
    assert NatOf([a]) == DigitValue(a);
    assert [a, b][..1] == [a];
    assert NatOf([a, b]) == 10 * DigitValue(a) + DigitValue(b);
    assert [a, b, c][..2] == [a, b];
    assert NatOf([a, b, c]) == 100 * DigitValue(a) + 10 * DigitValue(b) + DigitValue(c);
    assert [a, b, c, d][..3] == [a, b, c];
  }

  /** The nine price tokens of the envelope line of the Express / Express Plus sample
      table, zone 1 to zone 9. */
  const EnvelopeTokens: seq<string> :=
    ["3,489", "3,657", "4,373", "4,092", "4,187", "4,823", "5,071", "5,913", "4,121"]

  /** That line: "Envelopes" and then the tokens, each after a single space, so that it
      reads "Envelopes 3,489 3,657 4,373 4,092 4,187 4,823 5,071 5,913 4,121". */
  const EnvelopeLine: string := "Envelopes" + Spaced(EnvelopeTokens)

  /** The first price of that line: the thousands separator is dropped. */
  lemma EnvelopeFirstPrice()
    ensures PriceValue("3,489") == Ok(3489)
  {
    ThousandsToken('3', '4', '8', '9');
  }

  /** The zone prices of that line as printed on the page, without separators. */
  const EnvelopePrices: seq<nat> := [3489, 3657, 4373, 4092, 4187, 4823, 5071, 5913, 4121]

  /** The number a four-digit token spells. */
  function FourDigitValue(d: (char, char, char, char)): nat
  {
    1000 * DigitValue(d.0) + 100 * DigitValue(d.1) + 10 * DigitValue(d.2) + DigitValue(d.3)
  }

  /** Tokens printed as one digit, a thousands separator and three more digits are price
      tokens, and together they read as the numbers they spell. */
  lemma ThousandsTokens(toks: seq<string>, vals: seq<nat>, ds: seq<(char, char, char, char)>)
    requires |toks| == |ds| && |vals| == |ds|
    requires forall i :: 0 <= i < |ds| ==>
               IsDigit(ds[i].0) && IsDigit(ds[i].1) && IsDigit(ds[i].2) && IsDigit(ds[i].3)
    requires forall i :: 0 <= i < |ds| ==> toks[i] == [ds[i].0, ',', ds[i].1, ds[i].2, ds[i].3]
    requires forall i :: 0 <= i < |ds| ==> vals[i] == FourDigitValue(ds[i])
    ensures forall i :: 0 <= i < |toks| ==> IsPriceToken(toks[i])
    ensures PriceValues(toks) == Ok(vals)
  {
    forall i | 0 <= i < |toks| ensures IsPriceToken(toks[i]) && PriceValue(toks[i]) == Ok(vals[i]) {
      ThousandsToken(ds[i].0, ds[i].1, ds[i].2, ds[i].3);
    }
    PriceValuesOk(toks, vals);
  }

  /** Every token of the line is a price token, and together they read as the nine
      zone prices. */
  lemma EnvelopeSampleTokens()
    ensures forall i :: 0 <= i < |EnvelopeTokens| ==> IsPriceToken(EnvelopeTokens[i])
    ensures PriceValues(EnvelopeTokens) == Ok(EnvelopePrices)
  {
    ThousandsTokens(EnvelopeTokens, EnvelopePrices,
      [('3', '4', '8', '9'),
       ('3', '6', '5', '7'),
       ('4', '3', '7', '3'),
       ('4', '0', '9', '2'),
       ('4', '1', '8', '7'),
       ('4', '8', '2', '3'),
       ('5', '0', '7', '1'),
       ('5', '9', '1', '3'),
       ('4', '1', '2', '1')]);
  }

  /** `Envelopes?` followed by nine prices matches the whole line, from its first
      character, with the nine tokens as captures. */
  lemma EnvelopeSampleMatch()
    ensures Search(EnvelopeRow(9), EnvelopeLine, 0) == Some(Hit(0, |EnvelopeLine|, [], EnvelopeTokens))
  {
    EnvelopeSampleTokens();
    SearchEnvelopeLine(EnvelopeTokens);
  }

  /** The envelope line of the sample table becomes one row priced per zone at
      3489, 3657, 4373, 4092, 4187, 4823, 5071, 5913 and 4121. */
  lemma EnvelopeSampleRow()
    ensures EnvelopeRows(EnvelopeLine, 9)
            == Ok([Row(Envelope, Fixed, [3489, 3657, 4373, 4092, 4187, 4823, 5071, 5913, 4121])])
  {
    EnvelopeSampleMatch();
    EnvelopeSampleTokens();
  }

  /** "1.0" and "1" collapse to the same label, so only the first of them survives
      de-duplication. */
  lemma NormalizeWholeSample()
    ensures NormalizeLabel(Weight("1.0")) == Weight("1")
  {
    assert FirstDot("1.0") == 1;
    assert IntPart("1.0") == "1" && FracPart("1.0") == "0";
    assert StripTrailingZeros("0") == [];
  }

  /** The shortest spelling of 1.50 is "1.5". */
  lemma CanonFractionSample()
    ensures Canon("1.50") == "1.5"
  {
    assert FirstDot("1.50") == 1;
    assert FracPart("1.50") == "50";
    assert "50"[..1] == "5";
    assert StripTrailingZeros("50") == "5";
    assert IntPart("1.50") == "1";
    assert CanonInt("1.50") == "1";
  }

  /** Trailing zeros of a fraction are dropped: "1.50" is printed "1.5". */
  lemma NormalizeFractionSample()
    ensures NormalizeLabel(Weight("1.50")) == Weight("1.5")
  {
    CanonFractionSample();
    assert FirstDot("1.50") == 1;
    assert IsDecimal("1.50") by {
      assert IntPart("1.50") == "1";
      assert FracPart("1.50") == "50";
    }
  }
}
