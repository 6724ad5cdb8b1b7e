/** Sums of amounts over tables, and rounding to a market's precision. */
module Amounts {
  function Sum<T>(s: seq<T>, f: T -> real): real {
    if s == [] then 0.0 else Sum(s[..|s| - 1], f) + f(s[|s| - 1])
  }

  lemma {:induction false} SumAppend<T>(s: seq<T>, x: T, f: T -> real)
    ensures Sum(s + [x], f) == Sum(s, f) + f(x)
  {
    assert (s + [x])[..|s|] == s;
  }

  lemma {:induction false} SumUpdate<T>(s: seq<T>, i: nat, x: T, f: T -> real)
    requires i < |s|
    ensures Sum(s[i := x], f) == Sum(s, f) - f(s[i]) + f(x)
  {
    var n := |s| - 1;
    if i == n {
      assert s[i := x][..n] == s[..n];
    } else {
      assert s[i := x][..n] == s[..n][i := x];
      SumUpdate(s[..n], i, x, f);
    }
  }

  lemma {:induction false} SumSame<T>(s: seq<T>, t: seq<T>, f: T -> real, g: T -> real)
    requires |s| == |t| && forall i | 0 <= i < |s| :: f(s[i]) == g(t[i])
    ensures Sum(s, f) == Sum(t, g)
  {
    if s == [] {
    } else {
      SumSame(s[..|s| - 1], t[..|t| - 1], f, g);
    }
  }

  // A sum of non-negative amounts is at least each of them, and each sum of a part.
  lemma {:induction false} SumCovers<T>(s: seq<T>, i: nat, f: T -> real)
    requires i < |s| && forall x | x in s :: f(x) >= 0.0
    ensures Sum(s, f) >= f(s[i])
  {
    SumNonNegative(s[..|s| - 1], f);
    if i < |s| - 1 {
      SumCovers(s[..|s| - 1], i, f);
    }
  }

  lemma {:induction false} SumNonNegative<T>(s: seq<T>, f: T -> real)
    requires forall x | x in s :: f(x) >= 0.0
    ensures Sum(s, f) >= 0.0
  {
    if s == [] {
    } else {
      SumNonNegative(s[..|s| - 1], f);
    }
  }

  lemma {:induction false} SumZero<T>(s: seq<T>, f: T -> real)
    requires forall i | 0 <= i < |s| :: f(s[i]) == 0.0
    ensures Sum(s, f) == 0.0
  {
    if s == [] {
    } else {
      SumZero(s[..|s| - 1], f);
    }
  }

  // --- Precision ------------------------------------------------------------

  function Pow10(digits: nat): (p: real)
    ensures p >= 1.0
  {
    if digits == 0 then 1.0 else 10.0 * Pow10(digits - 1)
  }

  // Rounding toward zero to a whole number.
  function Chop(x: real): int { if x >= 0.0 then x.Floor else -((-x).Floor) }

  function Up(d: real, p: real): real { d * p }

  function Down(x: real, p: real): real
    requires p > 0.0
  {
    x / p
  }

  // `d.round(digits, 2)`: mode 2 drops the digits beyond, toward zero.
  function Truncate(d: real, digits: nat): real {
    Down(Chop(Up(d, Pow10(digits))) as real, Pow10(digits))
  }

  lemma {:induction false} DownMonotone(x: real, y: real, p: real)
    requires p > 0.0 && x <= y
    ensures Down(x, p) <= Down(y, p)
  {
    assert y / p - x / p == (y - x) / p;
  }

  lemma {:induction false} UpMonotone(c: real, d: real, p: real)
    requires p > 0.0 && c <= d
    ensures Up(c, p) <= Up(d, p)
  {
    assert (d - c) * p >= 0.0;
  }

  lemma {:induction false} UpDown(x: real, p: real)
    requires p > 0.0
    ensures Up(Down(x, p), p) == x && Down(Up(x, p), p) == x && Up(0.0, p) == 0.0 && Down(0.0, p) == 0.0
  {
  }

  // One unit of the last digit.
  function Unit(digits: nat): real { Down(1.0, Pow10(digits)) }

  lemma {:induction false} DownApart(x: real, y: real, p: real)
    requires p > 0.0 && x < y + 1.0
    ensures Down(x, p) < Down(y, p) + Down(1.0, p)
  {
    assert (y + 1.0 - x) / p > 0.0;
    assert y / p + 1.0 / p - x / p == (y + 1.0 - x) / p;
  }

  // Truncation brings an amount nearer to zero, by less than one unit of the last digit.
  lemma {:induction false} TruncateShrinks(d: real, digits: nat)
    ensures d >= 0.0 ==> 0.0 <= Truncate(d, digits) <= d < Truncate(d, digits) + Unit(digits)
    ensures d <= 0.0 ==> Truncate(d, digits) - Unit(digits) < d <= Truncate(d, digits) <= 0.0
  {
    var p := Pow10(digits);
    var k := Chop(Up(d, p)) as real;
    UpDown(d, p);
    if d >= 0.0 {
      UpMonotone(0.0, d, p);
      DownMonotone(0.0, k, p);
      DownMonotone(k, Up(d, p), p);
      DownApart(Up(d, p), k, p);
    } else {
      UpMonotone(d, 0.0, p);
      DownMonotone(Up(d, p), k, p);
      DownMonotone(k, 0.0, p);
      DownApart(k, Up(d, p), p);
    }
  }

  // What is cut to nothing: exactly what is less than one unit.
  lemma {:induction false} TruncateToNothing(d: real, digits: nat)
    requires d >= 0.0
    ensures Truncate(d, digits) == 0.0 <==> d < Unit(digits)
  {
    var p := Pow10(digits);
    TruncateShrinks(d, digits);
    UpDown(d, p);
    UpDown(1.0, p);
    if d < Unit(digits) {
      UpLess(d, Unit(digits), p);
      UpMonotone(0.0, d, p);
    }
  }

  lemma {:induction false} UpLess(c: real, d: real, p: real)
    requires p > 0.0 && c < d
    ensures Up(c, p) < Up(d, p)
  {
    assert (d - c) * p > 0.0;
  }

  // It never swaps two amounts.
  lemma {:induction false} TruncateMonotone(c: real, d: real, digits: nat)
    requires c <= d
    ensures Truncate(c, digits) <= Truncate(d, digits)
  {
    var p := Pow10(digits);
    UpMonotone(c, d, p);
    assert Chop(Up(c, p)) <= Chop(Up(d, p));
    DownMonotone(Chop(Up(c, p)) as real, Chop(Up(d, p)) as real, p);
  }

  // Between two numbers at the precision there is nothing less than a unit.
  lemma {:induction false} NoWholeUnitMore(d: real, limit: real, digits: nat)
    requires d >= 0.0 && limit >= 0.0 && Truncate(limit, digits) == limit && d < limit + Unit(digits)
    ensures Truncate(d, digits) <= limit
  {
    var p := Pow10(digits);
    var l := Chop(Up(limit, p));
    UpDown(l as real, p);
    UpDown(1.0, p);
    UpLess(d, limit + Unit(digits), p);
    assert Up(limit + Unit(digits), p) == Up(limit, p) + Up(Unit(digits), p);
    assert Chop(Up(d, p)) <= l by {
      UpMonotone(0.0, d, p);
    }
    DownMonotone(Chop(Up(d, p)) as real, l as real, p);
  }

  // A number already at the precision stays as it is.
  lemma {:induction false} TruncateIdempotent(d: real, digits: nat)
    ensures Truncate(Truncate(d, digits), digits) == Truncate(d, digits)
  {
    UpDown(Chop(Up(d, Pow10(digits))) as real, Pow10(digits));
  }
}
