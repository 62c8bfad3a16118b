/** Decimal weight labels such as `0.5`, `1.0` or `20`: what Python's `float()` accepts
    among `[\d.]+` strings, the value it yields, and the canonical spelling that
    `normalize_weight` produces for it. Floating point is modelled exactly, as a `real`. */
module Weights {
  import opened Text

  /** Index of the first `'.'` in `w`, or `|w|` when there is none. */
  function FirstDot(w: string): (d: nat)
    ensures d <= |w|
    ensures forall k :: 0 <= k < d ==> w[k] != '.'
    ensures d < |w| ==> w[d] == '.'
  {
    var i := Find(w, ".", 0);
    if i < 0 then
      assert forall k :: 0 <= k < |w| ==> !OccursAt(w, ".", k);
      assert forall k :: 0 <= k < |w| ==> w[k] != '.' by {
        forall k | 0 <= k < |w| ensures w[k] != '.' {
          assert !OccursAt(w, ".", k);
          assert w[k..k + 1] == [w[k]];
        }
      }
      |w|
    else
      assert forall k :: 0 <= k < i ==> w[k] != '.' by {
        forall k | 0 <= k < i ensures w[k] != '.' {
          assert !OccursAt(w, ".", k);
          assert w[k..k + 1] == [w[k]];
        }
      }
      assert w[i..i + 1] == ".";
      i
  }

  /** The digits before the decimal point. */
  function IntPart(w: string): string
  {
    w[..FirstDot(w)]
  }

  /** The digits after the decimal point (empty when there is no point). */
  function FracPart(w: string): string
  {
    var d := FirstDot(w);
    if d < |w| then w[d + 1..] else []
  }

  /** `float(w)` succeeds for a `[\d.]+` string exactly when it has at most one point and
      at least one digit; `float('.')` and `float('1.2.3')` raise `ValueError`. */
  predicate IsDecimal(w: string)
  {
    AllDigits(IntPart(w)) && AllDigits(FracPart(w)) && |IntPart(w)| + |FracPart(w)| >= 1
  }

  /** `float(w)`, exactly. */
  function Value(w: string): real
  {
    NatOf(IntPart(w)) as real + NatOf(FracPart(w)) as real / Pow10(|FracPart(w)|) as real
  }

  function StripLeadingZeros(s: string): (r: string)
    ensures |r| <= |s| && r == s[|s| - |r|..]
    ensures r != [] ==> r[0] != '0'
  {
    if s != [] && s[0] == '0' then StripLeadingZeros(s[1..]) else s
  }

  function StripTrailingZeros(s: string): (r: string)
    ensures |r| <= |s| && r == s[..|r|]
    ensures r != [] ==> r[|r| - 1] != '0'
  {
    if s != [] && s[|s| - 1] == '0' then StripTrailingZeros(s[..|s| - 1]) else s
  }

  /** The integer part without superfluous leading zeros: what `str(int(val))` prints. */
  function CanonInt(w: string): (r: string)
    ensures r != []
  {
    var i := StripLeadingZeros(IntPart(w));
    if i == [] then "0" else i
  }

  /** The shortest spelling of `float(w)`: no superfluous leading zeros, no trailing zeros
      after the point, and no point at all when the value is a whole number. */
  function Canon(w: string): string
  {
    var f := StripTrailingZeros(FracPart(w));
    if f == [] then CanonInt(w) else CanonInt(w) + "." + f
  }

  lemma NatOfLeadingZero(t: string)
    ensures NatOf("0" + t) == NatOf(t)
    decreases |t|
  {
    if t != [] {
      assert ("0" + t)[..|t|] == "0" + t[..|t| - 1];
      NatOfLeadingZero(t[..|t| - 1]);
    }
  }

  lemma {:induction false} StripLeadingZerosValue(s: string)
    ensures NatOf(StripLeadingZeros(s)) == NatOf(s)
    decreases |s|
  {
    if s != [] && s[0] == '0' {
      StripLeadingZerosValue(s[1..]);
      assert s == "0" + s[1..];
      NatOfLeadingZero(s[1..]);
    }
  }

  lemma NatOfBelowPow10(s: string)
    ensures NatOf(s) < Pow10(|s|)
    decreases |s|
  {
    if s != [] {
      NatOfBelowPow10(s[..|s| - 1]);
    }
  }

  /** A digit string denotes zero exactly when it is all zeros. */
  lemma {:induction false} StripTrailingZerosEmpty(s: string)
    requires AllDigits(s)
    ensures StripTrailingZeros(s) == [] <==> NatOf(s) == 0
    decreases |s|
  {
    if s != [] {
      StripTrailingZerosEmpty(s[..|s| - 1]);
    }
  }

  /** Scaling numerator and denominator by the same positive factor. */
  lemma ScaleRatio(a: real, b: real, c: real)
    requires b > 0.0 && c > 0.0
    ensures (a * c) / (b * c) == a / b
  {
    assert (a * c) / (b * c) * (b * c) == a * c;
    assert (a / b) * b == a;
  }

  /** A proper fraction `a / b` with `a < b` lies in `[0, 1)`. */
  lemma ProperFraction(a: nat, b: nat)
    requires a < b
    ensures 0.0 <= a as real / b as real < 1.0
    ensures a > 0 ==> 0.0 < a as real / b as real
  {
    var q := a as real / b as real;
    assert q * b as real == a as real;
  }

  /** Dropping trailing zeros of a fraction does not change its value. */
  lemma {:induction false} StripTrailingZerosFraction(s: string)
    ensures NatOf(StripTrailingZeros(s)) as real / Pow10(|StripTrailingZeros(s)|) as real
         == NatOf(s) as real / Pow10(|s|) as real
    decreases |s|
  {
    if s != [] && s[|s| - 1] == '0' {
      var t := s[..|s| - 1];
      StripTrailingZerosFraction(t);
      var a, b := NatOf(t) as real, Pow10(|t|) as real;
      assert NatOf(s) as real == a * 10.0;
      assert Pow10(|s|) as real == b * 10.0;
      ScaleRatio(a, b, 10.0);
    }
  }

  /** The parts of a canonical spelling are the stripped parts of the original. */
  lemma CanonParts(w: string)
    requires IsDecimal(w)
    ensures IntPart(Canon(w)) == CanonInt(w)
    ensures FracPart(Canon(w)) == StripTrailingZeros(FracPart(w))
    ensures IsDecimal(Canon(w))
  {
    var c, i, f := Canon(w), CanonInt(w), StripTrailingZeros(FracPart(w));
    assert AllDigits(StripLeadingZeros(IntPart(w)));
    assert AllDigits(i);
    assert AllDigits(f);
    if f == [] {
      assert FirstDot(c) == |c|;
    } else {
      assert c == i + "." + f;
      assert c[|i|] == '.';
      assert FirstDot(c) == |i|;
      assert c[|i| + 1..] == f;
    }
  }

  /** `normalize_weight` is idempotent: a canonical spelling is its own canonical spelling. */
  lemma CanonIdempotent(w: string)
    requires IsDecimal(w)
    ensures Canon(Canon(w)) == Canon(w)
  {
    CanonParts(w);
    var i := StripLeadingZeros(IntPart(w));
    if i == [] {
      assert StripLeadingZeros("0") == [];
    }
    var f := StripTrailingZeros(FracPart(w));
    assert StripTrailingZeros(f) == f;
  }

  /** The canonical spelling denotes the same number. */
  lemma CanonValue(w: string)
    requires IsDecimal(w)
    ensures Value(Canon(w)) == Value(w)
  {
    CanonParts(w);
    StripTrailingZerosFraction(FracPart(w));
    StripLeadingZerosValue(IntPart(w));
    if StripLeadingZeros(IntPart(w)) == [] {
      assert NatOf("0") == 0;
    }
  }

  /** `int(float(w))` is the integer part of the label. */
  lemma FloorValue(w: string)
    ensures Value(w).Floor == NatOf(IntPart(w))
  {
    var f := FracPart(w);
    NatOfBelowPow10(f);
    ProperFraction(NatOf(f), Pow10(|f|));
  }

  /** `normalize_weight` tests `val == int(val)`; the canonical spelling has no point
      exactly when that test holds. */
  lemma {:induction false} WholeIffNoPoint(w: string)
    requires IsDecimal(w)
    ensures StripTrailingZeros(FracPart(w)) == [] <==> Value(w) == Value(w).Floor as real
  {
    var f := FracPart(w);
    StripTrailingZerosEmpty(f);
    FloorValue(w);
    NatOfBelowPow10(f);
    ProperFraction(NatOf(f), Pow10(|f|));
  }
}
