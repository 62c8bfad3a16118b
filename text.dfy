/** Character classes, substring search, slicing and line splitting: the parts of
    Python's `str` that the rate-table extractor relies on, over `seq<char>`. */
module Text {

  /** `\d` restricted to ASCII. */
  predicate IsDigit(c: char) { '0' <= c <= '9' }

  /** `\s` restricted to ASCII: space, tab, newline, carriage return, vertical tab, form feed. */
  predicate IsSpace(c: char) {
    c == ' ' || c == '\t' || c == '\n' || c == '\r' || c == '\U{000B}' || c == '\U{000C}'
  }

  /** The class `[\d,]` of a price token. */
  predicate IsPriceChar(c: char) { IsDigit(c) || c == ',' }

  /** The class `[\d.]` of a weight label. */
  predicate IsDecimalChar(c: char) { IsDigit(c) || c == '.' }

  /** The character classes the patterns take greedy runs of: `\s`, `\d`, `[\d,]`, `[\d.]`. */
  datatype CharClass = Space | Digit | PriceChar | DecimalChar

  predicate InClass(c: char, cls: CharClass)
  {
    match cls
    case Space => IsSpace(c)
    case Digit => IsDigit(c)
    case PriceChar => IsPriceChar(c)
    case DecimalChar => IsDecimalChar(c)
  }

  predicate AllDigits(s: string) { forall k :: 0 <= k < |s| ==> IsDigit(s[k]) }

  /** `pat` occurs in `s` starting at index `i`. */
  predicate OccursAt(s: string, pat: string, i: nat) {
    i + |pat| <= |s| && s[i..i + |pat|] == pat
  }

  /** `pat` occurs in `s` at index `i` or later. */
  predicate ContainsFrom(s: string, pat: string, i: nat)
    decreases |s| - i
  {
    i <= |s| && (OccursAt(s, pat, i) || (i < |s| && ContainsFrom(s, pat, i + 1)))
  }

  /** `pat in s` */
  predicate Contains(s: string, pat: string) {
    ContainsFrom(s, pat, 0)
  }

  /** `pat in s` holds exactly when `pat` occurs at some index of `s`. */
  lemma ContainsIff(s: string, pat: string)
    ensures Contains(s, pat) <==> exists i: nat | i <= |s| :: OccursAt(s, pat, i)
  {
    ContainsFromIff(s, pat, 0);
  }

  lemma {:induction false} ContainsFromIff(s: string, pat: string, from: nat)
    ensures ContainsFrom(s, pat, from) <==> exists i: nat | from <= i <= |s| :: OccursAt(s, pat, i)
    decreases |s| - from
  {
    if from < |s| {
      ContainsFromIff(s, pat, from + 1);
      if !OccursAt(s, pat, from) && exists i: nat | from <= i <= |s| :: OccursAt(s, pat, i) {
        var i: nat :| from <= i <= |s| && OccursAt(s, pat, i);
        assert from + 1 <= i;
      }
    }
  }

  /** `s.find(pat, from)`: the first occurrence at or after `from`, or -1. */
  function Find(s: string, pat: string, from: nat): (r: int)
    ensures r == -1 || from <= r
    ensures r >= 0 ==> OccursAt(s, pat, r)
    ensures r >= 0 ==> forall j :: from <= j < r ==> !OccursAt(s, pat, j)
    ensures r == -1 <==> forall j :: from <= j ==> !OccursAt(s, pat, j)
    decreases |s| - from
  {
    if from + |pat| > |s| then -1
    else if OccursAt(s, pat, from) then from
    else Find(s, pat, from + 1)
  }

  /** A character that does not occur in `s` rules out any pattern containing it. */
  lemma {:induction false} NotContainsChar(s: string, pat: string, c: char)
    requires c in pat && c !in s
    ensures !Contains(s, pat)
  {
    var k :| 0 <= k < |pat| && pat[k] == c;
    forall i: nat | i <= |s|
      ensures !OccursAt(s, pat, i)
    {
      if i + |pat| <= |s| {
        assert s[i..i + |pat|][k] == s[i + k];
      }
    }
    ContainsIff(s, pat);
  }

  /** Python's `s[a:b]` for non-negative bounds: both are clamped to the length and the
      result is empty when `b <= a`. */
  function Slice(s: string, a: nat, b: nat): (r: string)
    ensures |r| <= |s|
    ensures a < |s| && a < b ==> |r| == (if b <= |s| then b - a else |s| - a)
    ensures |s| <= a || b <= a ==> r == []
    ensures forall k :: 0 <= k < |r| ==> a + k < |s| && r[k] == s[a + k]
  {
    var hi := if b <= |s| then b else |s|;
    if a < hi then s[a..hi] else []
  }

  /** The index of the first `'\n'` in `s`, or `|s|`. */
  function LineEnd(s: string, from: nat): (e: nat)
    requires from <= |s|
    ensures from <= e <= |s|
    ensures forall k :: from <= k < e ==> s[k] != '\n'
    ensures e < |s| ==> s[e] == '\n'
    decreases |s| - from
  {
    if from == |s| || s[from] == '\n' then from else LineEnd(s, from + 1)
  }

  /** `s.split('\n')` */
  function SplitLines(s: string): (lines: seq<string>)
    ensures |lines| >= 1
    ensures forall i :: 0 <= i < |lines| ==> '\n' !in lines[i]
    decreases |s|
  {
    var e := LineEnd(s, 0);
    if e == |s| then [s] else [s[..e]] + SplitLines(s[e + 1..])
  }

  /** `'\n'.join(lines)` */
  function JoinLines(lines: seq<string>): string
    requires |lines| >= 1
  {
    if |lines| == 1 then lines[0] else lines[0] + "\n" + JoinLines(lines[1..])
  }

  /** Splitting on newlines loses nothing: joining the lines gives the text back. */
  lemma {:induction false} SplitLinesJoin(s: string)
    ensures JoinLines(SplitLines(s)) == s
    decreases |s|
  {
    var e := LineEnd(s, 0);
    if e < |s| {
      SplitLinesJoin(s[e + 1..]);
      assert s == s[..e] + "\n" + s[e + 1..];
    }
  }

  /** The end of the longest run of `cls` characters starting at `p` (a greedy `cls*`). */
  function RunEnd(s: string, p: nat, cls: CharClass): (e: nat)
    requires p <= |s|
    ensures p <= e <= |s|
    ensures forall k :: p <= k < e ==> InClass(s[k], cls)
    ensures e == |s| || !InClass(s[e], cls)
    decreases |s| - p
  {
    if p < |s| && InClass(s[p], cls) then RunEnd(s, p + 1, cls) else p
  }

  function DigitValue(c: char): nat
  {
    if IsDigit(c) then (c - '0') as nat else 0
  }

  /** The number a string of decimal digits denotes (`int(s)` for digit strings). */
  function NatOf(s: string): nat
  {
    if s == [] then 0 else 10 * NatOf(s[..|s| - 1]) + DigitValue(s[|s| - 1])
  }

  /** `s.replace(',', '')` */
  function RemoveCommas(s: string): (r: string)
    ensures ',' !in r && |r| <= |s|
    ensures forall c :: c in r <==> c in s && c != ','
  {
    if s == [] then []
    else if s[0] == ',' then RemoveCommas(s[1..])
    else [s[0]] + RemoveCommas(s[1..])
  }

  /** Removing commas works piece by piece: the characters that are kept stay in their
      order, each as often as it occurs. */
  lemma {:induction false} RemoveCommasAppend(x: string, y: string)
    ensures RemoveCommas(x + y) == RemoveCommas(x) + RemoveCommas(y)
  {
    if x == [] {
      assert x + y == y;
    } else {
      var z := x + y;
      assert z[0] == x[0] && z[1..] == x[1..] + y;
      RemoveCommasAppend(x[1..], y);
      if x[0] != ',' {
        assert RemoveCommas(z) == [x[0]] + RemoveCommas(x[1..] + y);
        assert RemoveCommas(x) == [x[0]] + RemoveCommas(x[1..]);
      }
    }
  }

  /** A digit string has no commas to remove. */
  lemma {:induction false} RemoveCommasDigits(s: string)
    requires AllDigits(s)
    ensures RemoveCommas(s) == s
  {
    if s != [] {
      RemoveCommasDigits(s[1..]);
      assert s == [s[0]] + s[1..];
    }
  }

  function Pow10(k: nat): (r: nat)
    ensures r >= 1
  {
    if k == 0 then 1 else 10 * Pow10(k - 1)
  }
}
