/** Python `float(text)` on the price texts the deal plugins build, with the
    value kept as an exact `real` (binary rounding is not modelled). */
module Prices {
  import opened Wrappers
  import opened Text

  predicate HasDigit(s: string) {
    exists i :: 0 <= i < |s| && IsDigit(s[i])
  }

  predicate AtMostOneDot(s: string) {
    forall i, j :: 0 <= i < j < |s| && s[i] == '.' ==> s[j] != '.'
  }

  /** Only digits and `.`. */
  predicate DigitsAndDots(s: string) {
    forall i :: 0 <= i < |s| ==> IsDigit(s[i]) || s[i] == '.'
  }

  /** What `float` accepts among texts of digits and dots: at least one digit
      and at most one dot (`"1."` and `".5"` are numbers, `"."` is not). */
  predicate IsDecimal(s: string) {
    DigitsAndDots(s) && HasDigit(s) && AtMostOneDot(s)
  }

  function Pow10(n: nat): (r: nat)
    ensures r >= 1
  {
    if n == 0 then 1 else 10 * Pow10(n - 1)
  }

  /** The digits before the dot. */
  function IntPart(s: string): (r: string)
    requires DigitsAndDots(s)
    ensures AllDigits(r) && r <= s
    ensures |r| < |s| ==> s[|r|] == '.'
  {
    var r := CutAt(s, '.');
    assert forall i :: 0 <= i < |r| ==> r[i] == s[i];
    r
  }

  /** The digits after the dot, or nothing when there is no dot. */
  function FracPart(s: string): (r: string)
    requires DigitsAndDots(s) && AtMostOneDot(s)
    ensures AllDigits(r)
  {
    var ip := IntPart(s);
    if |ip| == |s| then ""
    else
      var r := s[|ip| + 1..];
      assert forall i :: 0 <= i < |r| ==> r[i] == s[|ip| + 1 + i];
      r
  }

  /** The number a decimal text denotes. */
  function DecimalOf(s: string): (r: real)
    requires IsDecimal(s)
    ensures r >= 0.0
  {
    var f := FracPart(s);
    DecimalValue(IntPart(s)) as real + DecimalValue(f) as real / Pow10(|f|) as real
  }

  /** `float(s)` for a text of digits and dots: None is the ValueError. */
  function FloatOfDigits(s: string): (r: Option<real>)
    requires DigitsAndDots(s)
    ensures r.Some? <==> HasDigit(s) && AtMostOneDot(s)
    ensures r.Some? ==> r.value >= 0.0
  {
    if HasDigit(s) && AtMostOneDot(s) then Some(DecimalOf(s)) else None
  }

  lemma {:induction false} NoDotInDigits(s: string)
    requires AllDigits(s)
    ensures '.' !in s
  {
  }

  /** A whole number written out reads back as itself. */
  lemma {:induction false} DecimalOfNat(n: nat)
    ensures IsDecimal(NatToString(n))
    ensures DecimalOf(NatToString(n)) == n as real
  {
    var s := NatToString(n);
    assert IsDigit(s[0]);
    NoDotInDigits(s);
    CutAtAbsentChar(s, '.');
  }

  /** Dollars and cents written `d.cc` read back as their amount. */
  lemma {:induction false} DecimalOfCents(d: nat, c: nat)
    requires c < 100
    ensures IsDecimal(NatToString(d) + "." + Pad2(c))
    ensures DecimalOf(NatToString(d) + "." + Pad2(c)) == d as real + c as real / 100.0
  {
    var ds := NatToString(d);
    var cs := Pad2(c);
    var s := ds + ("." + cs);
    assert NatToString(d) + "." + Pad2(c) == s;
    CentsShape(ds, cs);
    NoDotInDigits(ds);
    CutAtAfterPrefix(ds, "." + cs, '.');
    CutAtAbsentChar(ds, '.');
    assert IntPart(s) == ds;
    assert s[|ds| + 1..] == cs;
    assert FracPart(s) == cs;
    assert Pow10(2) == 100;
  }

  lemma {:induction false} CentsShape(ds: string, cs: string)
    requires |ds| > 0 && AllDigits(ds) && AllDigits(cs)
    ensures IsDecimal(ds + ("." + cs))
  {
    var s := ds + ("." + cs);
    assert IsDigit(s[0]);
    forall i | 0 <= i < |s| ensures IsDigit(s[i]) || s[i] == '.' {
      if i < |ds| { assert s[i] == ds[i]; }
      else if i > |ds| { assert s[i] == cs[i - |ds| - 1]; }
    }
    forall i, j | 0 <= i < j < |s| && s[i] == '.' ensures s[j] != '.' {
      assert s[j] == cs[j - |ds| - 1];
    }
  }

  /** Cutting at a character that does not occur keeps everything. */
  lemma {:induction false} CutAtAbsentChar(s: string, c: char)
    requires c !in s
    ensures CutAt(s, c) == s
  {
    if |s| > 0 {
      assert c !in s[1..];
      CutAtAbsentChar(s[1..], c);
    }
  }
}
