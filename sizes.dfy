/** The byte-size formatter shared by both variants of the tool
    (`formatSize`): a count below 1024 prints as a signed decimal integer
    followed by " B"; anything larger is divided by 1024 until the quotient
    drops below 1024, and the number of divisions picks the unit letter
    from "KMGTPE". The floating-point `%.1f` rendering of the scaled value
    is not modelled: a scaled result is kept as its integer part, divisor
    and unit. */
module SizeFormat {

  /** Bounds of Go's `int64`, the type of every size in the tool. */
  const Int64Min: int := -0x8000_0000_0000_0000
  const Int64Max: int := 0x7FFF_FFFF_FFFF_FFFF

  predicate IsInt64(x: int) {
    Int64Min <= x <= Int64Max
  }

  /** Go's `+` on int64 operands: the exact sum brought into the int64
      range by whole multiples of 2^64, so an overflow wraps around. */
  function Wrap(x: int): (r: int)
    ensures IsInt64(r)
    ensures IsInt64(x) ==> r == x
    decreases if x > Int64Max then x - Int64Max else if x < Int64Min then Int64Min - x else 0
  {
    if x > Int64Max then Wrap(x - 0x1_0000_0000_0000_0000)
    else if x < Int64Min then Wrap(x + 0x1_0000_0000_0000_0000)
    else x
  }

  /** Shifting by whole multiples of 2^64 does not change the remainder. */
  lemma ModShift(x: int, q: int)
    ensures (x - 0x1_0000_0000_0000_0000 * q) % 0x1_0000_0000_0000_0000 == x % 0x1_0000_0000_0000_0000
  {
    var d, m := x / 0x1_0000_0000_0000_0000, x % 0x1_0000_0000_0000_0000;
    assert x - 0x1_0000_0000_0000_0000 * q == 0x1_0000_0000_0000_0000 * (d - q) + m;
  }

  /** The wrapped value is the remainder of x - Int64Min modulo 2^64,
      moved back to start at Int64Min. */
  lemma {:induction false} WrapIsMod(x: int)
    ensures Wrap(x) == (x - Int64Min) % 0x1_0000_0000_0000_0000 + Int64Min
    decreases if x > Int64Max then x - Int64Max else if x < Int64Min then Int64Min - x else 0
  {
    if x > Int64Max {
      WrapIsMod(x - 0x1_0000_0000_0000_0000);
      ModShift(x - Int64Min, 1);
    } else if x < Int64Min {
      WrapIsMod(x + 0x1_0000_0000_0000_0000);
      ModShift(x - Int64Min, -1);
    }
  }

  /** Wrapping after every addition ends where wrapping once at the end
      does: a running int64 total is the wrapped exact sum. */
  lemma WrapAdd(a: int, b: int)
    ensures Wrap(Wrap(a) + b) == Wrap(a + b)
  {
    WrapIsMod(a);
    WrapIsMod(Wrap(a) + b);
    WrapIsMod(a + b);
    var q := (a - Int64Min) / 0x1_0000_0000_0000_0000;
    assert Wrap(a) + b - Int64Min == (a + b - Int64Min) - 0x1_0000_0000_0000_0000 * q;
    ModShift(a + b - Int64Min, q);
  }

  /** The binary scaling step. */
  const Unit: int := 1024

  /** The unit letters, indexed by the number of extra divisions. */
  const Suffixes: string := "KMGTPE"

  /** A formatted size: the plain text of a small count, or a scaled one
      with the integer part `whole` of the magnitude bytes/div, the divisor
      and the unit letter (printed as bytes/div with one decimal). */
  datatype SizeText =
    | Plain(text: string)
    | Scaled(whole: int, div: int, exp: nat, suffix: char)

  /** 1024 to the power k. */
  function Pow(k: nat): (p: nat)
    ensures p >= 1
  {
    if k == 0 then 1 else 1024 * Pow(k - 1)
  }

  lemma {:induction false} PowMonotone(i: nat, j: nat)
    requires i <= j
    ensures Pow(i) <= Pow(j)
    decreases j
  {
    if i < j {
      PowMonotone(i, j - 1);
    }
  }

  lemma PowTable()
    ensures Pow(1) == 1024
    ensures Pow(6) == 0x1000_0000_0000_0000
    ensures Pow(7) == 0x40_0000_0000_0000_0000
  {
  }

  lemma {:induction false} PowStrictlyMonotoneConverse(i: nat, j: nat)
    requires Pow(i) < Pow(j)
    ensures i < j
  {
    if j <= i {
      PowMonotone(j, i);
    }
  }

  /** How many further divisions by 1024 the loop of `formatSize` performs
      once it holds the quotient q = bytes / 1024. */
  function UnitExponent(q: int): nat
    requires q >= 1
    decreases q
  {
    if q < 1024 then 0 else 1 + UnitExponent(q / 1024)
  }

  /** The quotient q lies between 1024^e and 1024^(e+1) for e = UnitExponent(q). */
  lemma {:induction false} UnitExponentRange(q: int)
    requires q >= 1
    ensures Pow(UnitExponent(q)) <= q < Pow(UnitExponent(q) + 1)
    decreases q
  {
    if q >= 1024 {
      var q' := q / 1024;
      UnitExponentRange(q');
      var e' := UnitExponent(q');
      assert 1024 * q' <= q < 1024 * (q' + 1);
      assert Pow(e' + 1) == 1024 * Pow(e');
      assert Pow(e' + 2) == 1024 * Pow(e' + 1);
    }
  }

  /** ... and it is the only exponent with that property. */
  lemma UnitExponentUnique(q: int, k: nat)
    requires q >= 1
    requires Pow(k) <= q < Pow(k + 1)
    ensures UnitExponent(q) == k
  {
    var e := UnitExponent(q);
    UnitExponentRange(q);
    if e < k {
      PowMonotone(e + 1, k);
    } else if e > k {
      PowMonotone(k + 1, e);
    }
  }

  /** Dividing by 1024 moves a value one power of 1024 down, both ways. */
  lemma DivUnitBetween(bytes: int, k: nat)
    requires bytes >= 1024
    ensures Pow(k) <= bytes / 1024 < Pow(k + 1) <==> Pow(k + 1) <= bytes < Pow(k + 2)
  {
  }

  /** Every int64 gives an exponent of at most 5, so "KMGTPE"[exp] is in
      bounds and the divisor 1024^(exp+1) stays below 2^63. */
  lemma ExponentBounded(bytes: int)
    requires 1024 <= bytes <= Int64Max
    ensures UnitExponent(bytes / 1024) <= 5
    ensures Pow(UnitExponent(bytes / 1024) + 1) <= Int64Max
  {
    var e := UnitExponent(bytes / 1024);
    UnitExponentRange(bytes / 1024);
    DivUnitBetween(bytes, e);
    PowTable();
    PowStrictlyMonotoneConverse(e + 1, 7);
    PowMonotone(e + 1, 6);
  }

  /** The decimal digits of a natural number, most significant first. */
  function Digits(n: nat): (s: string)
    ensures |s| >= 1
    ensures forall i :: 0 <= i < |s| ==> '0' <= s[i] <= '9'
    decreases n
  {
    if n < 10 then ["0123456789"[n]] else Digits(n / 10) + ["0123456789"[n % 10]]
  }

  /** Go's `%d` for a signed integer: an optional minus sign, then the digits. */
  function Decimal(x: int): (s: string)
    ensures |s| >= 1
    ensures s[0] == '-' <==> x < 0
  {
    if x < 0 then "-" + Digits(-x) else Digits(x)
  }

  predicate AllDigits(s: string) {
    forall i :: 0 <= i < |s| ==> '0' <= s[i] <= '9'
  }

  /** Reads a string of decimal digits back as a number. */
  function ParseDigits(s: string): nat
    requires AllDigits(s)
    decreases |s|
  {
    if s == [] then 0 else 10 * ParseDigits(s[..|s| - 1]) + (s[|s| - 1] - '0') as int
  }

  /** Reads back what `Decimal` prints. */
  function ParseDecimal(s: string): int
    requires |s| >= 1
    requires if s[0] == '-' then AllDigits(s[1..]) else AllDigits(s)
  {
    if s[0] == '-' then 0 - ParseDigits(s[1..]) else ParseDigits(s)
  }

  lemma {:induction false} DigitsRoundTrip(n: nat)
    ensures ParseDigits(Digits(n)) == n
    decreases n
  {
    var s := Digits(n);
    if n < 10 {
      DigitValue(n);
      assert s[..0] == [];
    } else {
      var p, c := Digits(n / 10), "0123456789"[n % 10];
      assert s == p + [c];
      assert s[..|s| - 1] == p && s[|s| - 1] == c;
      DigitsRoundTrip(n / 10);
      DigitValue(n % 10);
      assert ParseDigits(s) == 10 * ParseDigits(p) + (c - '0') as int;
    }
  }

  /** The digit character for d reads back as d. */
  lemma DigitValue(d: nat)
    requires d < 10
    ensures ("0123456789"[d] - '0') as int == d
  {
  }

  /** The decimal text of a count has no superfluous leading zero. */
  lemma {:induction false} DigitsNoLeadingZero(n: nat)
    ensures Digits(n)[0] == '0' <==> n == 0
    decreases n
  {
    if n >= 10 {
      DigitsNoLeadingZero(n / 10);
    }
  }

  /** `%d` loses nothing: the printed count reads back as the count. */
  lemma DecimalRoundTrip(x: int)
    ensures |Decimal(x)| >= 1
    ensures ParseDecimal(Decimal(x)) == x
  {
    if x < 0 {
      var n: nat := -x;
      var d := Digits(n);
      DigitsRoundTrip(n);
      var s := "-" + d;
      assert s[0] == '-' && s[1..] == d;
      assert ParseDecimal(s) == x;
      assert Decimal(x) == s;
    } else {
      DigitsRoundTrip(x);
    }
  }

  /** What `formatSize` produces for an int64, with the float rendering
      reduced to its integer part, divisor and unit. */
  function Rendered(bytes: int): (r: SizeText)
    requires IsInt64(bytes)
    ensures r.Plain? <==> bytes < 1024
  {
    if bytes < 1024 then
      Plain(Decimal(bytes) + " B")
    else
      var e := UnitExponent(bytes / 1024);
      ExponentBounded(bytes);
      Scaled(bytes / Pow(e + 1), Pow(e + 1), e, Suffixes[e])
  }

  /** A scaled result picks the unique power of 1024 whose band holds the
      value: 1024^(exp+1) <= bytes < 1024^(exp+2), so the printed magnitude
      bytes/div is at least 1 and below 1024. Conversely, any exponent with
      that band is the one chosen, and its letter is "KMGTPE"[exp]. */
  lemma {:induction false} RenderedBand(bytes: int, k: nat)
    requires 1024 <= bytes <= Int64Max
    ensures Rendered(bytes).Scaled?
    ensures Rendered(bytes).exp <= 5
    ensures Rendered(bytes).div == Pow(Rendered(bytes).exp + 1)
    ensures Pow(Rendered(bytes).exp + 1) <= bytes < Pow(Rendered(bytes).exp + 2)
    ensures 1 <= bytes / Rendered(bytes).div < 1024
    ensures Rendered(bytes).whole == bytes / Rendered(bytes).div
    ensures 1 <= Rendered(bytes).whole < 1024
    ensures Rendered(bytes).exp == k <==> Pow(k + 1) <= bytes < Pow(k + 2)
    ensures Pow(k + 1) <= bytes < Pow(k + 2) ==> k <= 5 && Rendered(bytes).suffix == Suffixes[k]
  {
    var q := bytes / 1024;
    var e := UnitExponent(q);
    ExponentBounded(bytes);
    UnitExponentRange(q);
    DivUnitBetween(bytes, e);
    DivUnitBetween(bytes, k);
    if Pow(k) <= q < Pow(k + 1) {
      UnitExponentUnique(q, k);
    }
    var d := Pow(e + 1);
    assert Pow(e + 2) == 1024 * d;
    assert d * 1 <= bytes < d * 1024;
    assert 1 <= bytes / d < 1024 by {
      DivBetween(bytes, d);
    }
  }

  lemma DivBetween(x: int, d: int)
    requires d >= 1
    requires d <= x < d * 1024
    ensures 1 <= x / d < 1024
  {
  }

  /** The unit letters for the first bands: K from 1024 to 1048575, M from
      1048576 to 1024^3 - 1, G from 1024^3 to 1024^4 - 1. */
  lemma FirstUnits(bytes: int)
    requires 1024 <= bytes <= Int64Max
    ensures bytes < 0x10_0000 ==> Rendered(bytes).suffix == 'K'
    ensures 0x10_0000 <= bytes < 0x4000_0000 ==> Rendered(bytes).suffix == 'M'
    ensures 0x4000_0000 <= bytes < 0x100_0000_0000 ==> Rendered(bytes).suffix == 'G'
  {
    assert Pow(2) == 0x10_0000;
    assert Pow(3) == 0x4000_0000;
    assert Pow(4) == 0x100_0000_0000;
    if bytes < 0x10_0000 {
      RenderedBand(bytes, 0);
    } else if bytes < 0x4000_0000 {
      RenderedBand(bytes, 1);
    } else if bytes < 0x100_0000_0000 {
      RenderedBand(bytes, 2);
    }
  }

  /** `formatSize`, integer part: the loop keeps dividing the quotient by
      1024 and multiplying the divisor by 1024, counting the steps. */
  method FormatSize(bytes: int) returns (r: SizeText)
    requires IsInt64(bytes)
    ensures r == Rendered(bytes)
    ensures bytes < 1024 ==> r == Plain(Decimal(bytes) + " B")
    ensures bytes >= 1024 ==>
      && r.Scaled? && r.exp <= 5
      && r.div == Pow(r.exp + 1)
      && Pow(r.exp + 1) <= bytes < Pow(r.exp + 2)
      && 1 <= bytes / r.div < 1024
      && r.whole == bytes / r.div && 1 <= r.whole < 1024
      && r.suffix == Suffixes[r.exp]
  {
    if bytes < Unit {
      return Plain(Decimal(bytes) + " B");
    }
    ghost var e := UnitExponent(bytes / Unit);
    ExponentBounded(bytes);
    var div, exp := Unit, 0;
    var n := bytes / Unit;
    while n >= Unit
      invariant n >= 1
      invariant div == Pow(exp + 1)
      invariant exp + UnitExponent(n) == e
      decreases n
    {
      PowMonotone(exp + 2, e + 1);
      div := div * Unit;
      assert IsInt64(div);
      exp := exp + 1;
      n := n / Unit;
    }
    r := Scaled(bytes / div, div, exp, Suffixes[exp]);
    RenderedBand(bytes, exp);
  }
}
