/** Positional notation: decimal, hexadecimal and byte strings of numbers. */
module Digits {
  import opened Options
  import opened Numbers

  // ---------------------------------------------------------------------
  // Digit sequences, most significant first
  // ---------------------------------------------------------------------

  function Value(ds: seq<nat>, base: nat): nat {
    if ds == [] then 0 else Value(ds[..|ds| - 1], base) * base + ds[|ds| - 1]
  }

  predicate AllBelow(ds: seq<nat>, base: nat) {
    forall i :: 0 <= i < |ds| ==> ds[i] < base
  }

  /** The digits of a number without leading zeros. */
  function DigitsOf(n: nat, base: nat): (ds: seq<nat>)
    requires base >= 2
    ensures ds != [] && AllBelow(ds, base)
    ensures |ds| > 1 ==> ds[0] != 0
    decreases n
  {
    if n < base then [n] else
      Shrinks(n, base);
      DigitsOf(n / base, base) + [n % base]
  }

  lemma Shrinks(n: nat, base: nat)
    requires 2 <= base <= n
    ensures 0 < n / base < n
  {
    Division(n, base);
    if n / base >= n { Twice(n / base, base); }
  }

  lemma Twice(q: nat, base: nat)
    requires base >= 2
    ensures q * base >= 2 * q
  {
  }

  lemma {:induction false} DigitsValue(n: nat, base: nat)
    requires base >= 2
    ensures Value(DigitsOf(n, base), base) == n
    decreases n
  {
    if n < base {
      assert Value([], base) == 0;
      assert [n][..0] == [];
    } else {
      Shrinks(n, base);
      DigitsValue(n / base, base);
      var high := DigitsOf(n / base, base);
      assert (high + [n % base])[..|high|] == high;
      Division(n, base);
    }
  }

  lemma ValueLast(ds: seq<nat>, d: nat, base: nat)
    ensures Value(ds + [d], base) == Value(ds, base) * base + d
  {
    assert (ds + [d])[..|ds|] == ds;
  }

  lemma Carry(high: nat, bound: nat, low: nat, base: nat)
    requires high < bound && low < base
    ensures high * base + low < bound * base
  {
    assert (high + 1) * base <= bound * base;
  }

  lemma PowNext(base: nat, k: nat)
    ensures Pow(base, k + 1) == Pow(base, k) * base
  {
  }

  lemma {:induction false} ValueBelow(ds: seq<nat>, base: nat)
    requires AllBelow(ds, base)
    ensures Value(ds, base) < Pow(base, |ds|)
  {
    if ds != [] {
      var k := |ds| - 1;
      ValueBelow(ds[..k], base);
      Carry(Value(ds[..k], base), Pow(base, k), ds[k], base);
      PowNext(base, k);
    }
  }

  lemma {:induction false} ValueAtLeast(ds: seq<nat>, base: nat)
    requires ds != [] && ds[0] > 0
    ensures Value(ds, base) >= Pow(base, |ds| - 1)
  {
    var k := |ds| - 1;
    if k == 0 {
      assert Pow(base, 0) == 1;
    } else {
      ValueAtLeast(ds[..k], base);
      PowNext(base, k - 1);
      Monotone(Pow(base, k - 1), Value(ds[..k], base), base);
    }
  }

  lemma Monotone(a: nat, b: nat, m: nat)
    requires a <= b
    ensures a * m <= b * m
  {
  }

  lemma {:induction false} PowMonotone(base: nat, j: nat, k: nat)
    requires base >= 1 && j <= k
    ensures Pow(base, j) <= Pow(base, k) && Pow(base, j) >= 1
  {
    if k > 0 {
      PowMonotone(base, if j < k then j else k - 1, k - 1);
      PowNext(base, k - 1);
      AtLeastOnce(base, Pow(base, k - 1));
    }
  }

  /** A number has at most `k` digits exactly when it is below the `k`-th power. */
  lemma DigitsLength(n: nat, base: nat, k: nat)
    requires base >= 2 && k >= 1
    ensures |DigitsOf(n, base)| <= k <==> n < Pow(base, k)
  {
    var ds := DigitsOf(n, base);
    DigitsValue(n, base);
    ValueBelow(ds, base);
    if |ds| <= k {
      PowMonotone(base, |ds|, k);
    } else {
      ValueAtLeast(ds, base);
      PowMonotone(base, k, |ds| - 1);
    }
  }

  lemma {:induction false} ValueInjective(a: seq<nat>, b: seq<nat>, base: nat)
    requires |a| == |b| && AllBelow(a, base) && AllBelow(b, base) && Value(a, base) == Value(b, base)
    ensures a == b
  {
    if a != [] {
      var k := |a| - 1;
      Quotient(Value(a, base), base, Value(a[..k], base), a[k]);
      Quotient(Value(b, base), base, Value(b[..k], base), b[k]);
      ValueInjective(a[..k], b[..k], base);
      assert a == a[..k] + [a[k]] && b == b[..k] + [b[k]];
    }
  }

  function Zeros(k: nat): seq<nat> {
    seq(k, _ => 0)
  }

  lemma {:induction false} LeadingZeros(k: nat, ds: seq<nat>, base: nat)
    ensures Value(Zeros(k) + ds, base) == Value(ds, base)
    decreases |ds|, k
  {
    if ds != [] {
      var n := |ds| - 1;
      assert (Zeros(k) + ds)[..k + n] == Zeros(k) + ds[..n];
      LeadingZeros(k, ds[..n], base);
    } else if k > 0 {
      assert (Zeros(k) + ds)[..k - 1] == Zeros(k - 1) + [];
      LeadingZeros(k - 1, [], base);
    }
  }

  /** Padding to a fixed width, as `padStart(width, "0")`. */
  function PadStart(ds: seq<nat>, width: nat): seq<nat> {
    if |ds| < width then Zeros(width - |ds|) + ds else ds
  }

  /** The significant part of a digit sequence. */
  function Trimmed(ds: seq<nat>): (t: seq<nat>)
    requires ds != []
    ensures t != [] && |t| <= |ds| && ds == Zeros(|ds| - |t|) + t && (|t| > 1 ==> t[0] != 0)
  {
    if |ds| == 1 || ds[0] != 0 then ds else Trimmed(ds[1..])
  }

  /** Digits without leading zeros are the digits of their value. */
  lemma {:induction false} DigitsUnique(t: seq<nat>, base: nat)
    requires base >= 2 && t != [] && AllBelow(t, base) && (|t| > 1 ==> t[0] != 0)
    ensures t == DigitsOf(Value(t, base), base)
  {
    var k := |t| - 1;
    if k == 0 {
      assert Value(t[..0], base) == 0;
    } else {
      var high := Value(t[..k], base);
      DigitsUnique(t[..k], base);
      Quotient(Value(t, base), base, high, t[k]);
      ValueAtLeast(t[..k], base);
      PowMonotone(base, 0, k - 1);
      AtLeastOnce(high, base);
      assert t == t[..k] + [t[k]];
    }
  }

  // ---------------------------------------------------------------------
  // Characters
  // ---------------------------------------------------------------------

  const DIGIT_CHARS := "0123456789abcdef"

  function DigitChar(d: nat): (c: char)
    requires d < 16
  {
    DIGIT_CHARS[d]
  }

  /** The value of a digit of `base` (at most 16); letters in either case. */
  function CharValue(c: char, base: nat): (v: Option<nat>)
    ensures v.Some? ==> v.value < base && v.value < 16
  {
    var v :=
      if '0' <= c <= '9' then c as int - '0' as int
      else if 'a' <= c <= 'f' then c as int - 'a' as int + 10
      else if 'A' <= c <= 'F' then c as int - 'A' as int + 10
      else 16;
    if v < base && v < 16 then Some(v) else None
  }

  lemma CharRoundTrip(d: nat, base: nat)
    requires d < base <= 16
    ensures CharValue(DigitChar(d), base) == Some(d)
  {
  }

  function Render(ds: seq<nat>): (s: string)
    requires AllBelow(ds, 16)
    ensures |s| == |ds|
  {
    seq(|ds|, i requires 0 <= i < |ds| => DigitChar(ds[i]))
  }

  predicate AllDigits(s: string, base: nat) {
    forall i :: 0 <= i < |s| ==> CharValue(s[i], base).Some?
  }

  function ReadDigits(s: string, base: nat): (ds: seq<nat>)
    requires AllDigits(s, base)
    ensures |ds| == |s| && AllBelow(ds, base)
  {
    seq(|s|, i requires 0 <= i < |s| => CharValue(s[i], base).value)
  }

  lemma ReadRendered(ds: seq<nat>, base: nat)
    requires base <= 16 && AllBelow(ds, base)
    ensures AllBelow(ds, 16) && AllDigits(Render(ds), base) && ReadDigits(Render(ds), base) == ds
  {
    forall i | 0 <= i < |ds| ensures CharValue(Render(ds)[i], base) == Some(ds[i]) { CharRoundTrip(ds[i], base); }
  }

  /** The decimal text of a number, as a template literal or the program's logger prints it. */
  function Decimal(n: nat): (s: string) {
    Render(DigitsOf(n, 10))
  }

  /** The last digit is the remainder by ten, after the text of the quotient. */
  lemma DecimalLast(n: nat)
    ensures Decimal(n) == (if n < 10 then "" else Decimal(n / 10)) + ["0123456789"[n % 10]]
  {
    assert DigitChar(n % 10) == "0123456789"[n % 10];
  }

  lemma DecimalReads(n: nat)
    ensures Decimal(n) != "" && AllDigits(Decimal(n), 10) && ReadDigits(Decimal(n), 10) == DigitsOf(n, 10)
  {
    ReadRendered(DigitsOf(n, 10), 10);
  }

  lemma DecimalInjective(a: nat, b: nat)
    requires Decimal(a) == Decimal(b)
    ensures a == b
  {
    DecimalReads(a);
    DecimalReads(b);
    DigitsValue(a, 10);
    DigitsValue(b, 10);
  }

  lemma DecimalLength(n: nat, k: nat)
    requires k >= 1
    ensures |Decimal(n)| <= k <==> n < Pow(10, k)
  {
    DigitsLength(n, 10, k);
  }

  /** The strict parser for user input: plain decimal digits, within 64 bits. */
  function ParseU64(raw: string): Option<nat> {
    if raw == "" || !AllDigits(raw, 10) then None
    else
      var parsed := Value(ReadDigits(raw, 10), 10);
      if parsed > U64_MAX then None else Some(parsed)
  }

  /** A number's decimal text after `k` more zeros. */
  function ZeroPadded(k: nat, n: nat): string {
    seq(k, _ => '0') + Decimal(n)
  }

  lemma RenderZeros(k: nat, ds: seq<nat>)
    requires AllBelow(ds, 16)
    ensures Render(Zeros(k) + ds) == seq(k, _ => '0') + Render(ds)
  {
    assert DigitChar(0) == '0';
  }

  lemma RenderRead(raw: string)
    requires AllDigits(raw, 10)
    ensures Render(ReadDigits(raw, 10)) == raw
  {
    forall i | 0 <= i < |raw| ensures DigitChar(ReadDigits(raw, 10)[i]) == raw[i] { DecimalChar(raw[i]); }
  }

  lemma ParseZeroPadded(k: nat, n: nat)
    requires n <= U64_MAX
    ensures ParseU64(ZeroPadded(k, n)) == Some(n)
  {
    hide DigitsOf, ReadDigits, Value, Render;
    var ds := Zeros(k) + DigitsOf(n, 10);
    RenderZeros(k, DigitsOf(n, 10));
    ReadRendered(ds, 10);
    LeadingZeros(k, DigitsOf(n, 10), 10);
    DigitsValue(n, 10);
  }

  /** Whatever is accepted is the decimal text of a 64-bit number, up to leading zeros. */
  lemma ParsedIsZeroPadded(raw: string) returns (k: nat)
    requires ParseU64(raw).Some?
    ensures ParseU64(raw).value <= U64_MAX && raw == ZeroPadded(k, ParseU64(raw).value)
  {
    hide DigitsOf, Value, Render, ReadDigits, CharValue;
    var ds := ReadDigits(raw, 10);
    var t := Trimmed(ds);
    k := |ds| - |t|;
    assert AllBelow(t, 10) by { assert forall i :: 0 <= i < |t| ==> t[i] == ds[k + i]; }
    DigitsUnique(t, 10);
    LeadingZeros(k, t, 10);
    RenderRead(raw);
    RenderZeros(k, t);
  }

  lemma DecimalChar(c: char)
    requires CharValue(c, 10).Some?
    ensures c == DigitChar(CharValue(c, 10).value)
  {
  }

  lemma U64RoundTrip(n: nat)
    ensures ParseU64(Decimal(n)) == if n <= U64_MAX then Some(n) else None
  {
    DecimalReads(n);
    DigitsValue(n, 10);
  }
}
