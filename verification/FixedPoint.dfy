/** fixed_point: an integer of fixed width and a scale, denoting value * base^scale. */
module FixedPoint {
  datatype Radix = Two | Ten

  datatype Fixed = Fixed(value: int, scale: int)

  datatype Result = Ok(x: Fixed) | Overflow

  // ---------------------------------------------------------------- powers

  function Base(b: Radix): int { if b.Two? then 2 else 10 }

  function Pow(b: Radix, e: nat): (r: int)
    ensures r >= 1
  {
    if e == 0 then 1 else if b.Two? then 2 * Pow(b, e - 1) else 10 * Pow(b, e - 1)
  }

  lemma {:induction false} PowAdd(b: Radix, i: nat, j: nat)
    ensures Pow(b, i + j) == Pow(b, i) * Pow(b, j)
  {
    if i > 0 {
      PowAdd(b, i - 1, j);
      assert i + j - 1 == (i - 1) + j;
      Scaling(Pow(b, i - 1), Pow(b, j));
    }
  }

  lemma Scaling(x: int, y: int)
    ensures (2 * x) * y == 2 * (x * y) && (10 * x) * y == 10 * (x * y)
    ensures x * (2 * y) == 2 * (x * y) && x * (10 * y) == 10 * (x * y)
  {
  }

  lemma {:induction false} PowGrows(b: Radix, i: nat, j: nat)
    requires i <= j
    ensures Pow(b, i) <= Pow(b, j)
  {
    if i < j { PowGrows(b, i, j - 1); }
  }

  /** A multiplication in the representation type: it must not leave the range. */
  method Times(x: int, y: int, max: int) returns (r: int)
    requires 0 <= x * y <= max
    ensures r == x * y
  {
    r := x * y;
  }

  /** A product of two powers is a power, and fits if the result does. */
  lemma ProductFits(b: Radix, i: nat, j: nat, n: nat)
    requires i + j <= n
    ensures Pow(b, i) * Pow(b, j) == Pow(b, i + j) && 0 <= Pow(b, i) * Pow(b, j) <= Pow(b, n)
  {
    PowAdd(b, i, j);
    PowGrows(b, i + j, n);
  }

  lemma Twice(k: nat, e: nat)
    requires e >= 1
    ensures (k + k) * e == k * (2 * e) && k + k <= (k + k) * e
    ensures k * (2 * e + 1) == k * (2 * e) + k
  {
  }

  /** detail::ipow: whenever the power fits, so does every product on the way. */
  method IPow(b: Radix, exponent: nat, max: int) returns (r: int)
    requires Pow(b, exponent) <= max
    ensures r == Pow(b, exponent)
  {
    if exponent == 0 { return 1; }
    var extra, square, e := 1, Base(b), exponent;
    ghost var j, k: nat := 0, 1;
    assert Pow(b, 0) == 1 && Pow(b, 1) == Base(b);
    while e > 1
      invariant e >= 1 && extra == Pow(b, j) && square == Pow(b, k) && j + k * e == exponent
    {
      ghost var h := e / 2;
      Twice(k, h);
      if e % 2 == 1 {
        ProductFits(b, j, k, exponent);
        extra := Times(extra, square, max);
        e := e - 1;
        j := j + k;
      }
      e := e / 2;
      ProductFits(b, k, k, exponent);
      square := Times(square, square, max);
      k := k + k;
    }
    ProductFits(b, k, j, exponent);
    r := Times(square, extra, max);
  }

  // ---------------------------------------------------------------- what a number denotes

  /** x * base^s. */
  ghost function Scaled(b: Radix, x: real, s: int): real
    decreases if s < 0 then -s else s
  {
    if s == 0 then x
    else if s > 0 then (if b.Two? then 2.0 * Scaled(b, x, s - 1) else 10.0 * Scaled(b, x, s - 1))
    else if b.Two? then Scaled(b, x, s + 1) / 2.0 else Scaled(b, x, s + 1) / 10.0
  }

  ghost function Value(b: Radix, x: Fixed): real {
    Scaled(b, x.value as real, x.scale)
  }

  lemma ScaledNext(b: Radix, x: real, s: int)
    ensures Scaled(b, x, s + 1) == if b.Two? then 2.0 * Scaled(b, x, s) else 10.0 * Scaled(b, x, s)
  {
  }

  /** Scaling keeps sums and order. */
  lemma {:induction false} ScaledLinear(b: Radix, x: real, y: real, s: int)
    ensures Scaled(b, x + y, s) == Scaled(b, x, s) + Scaled(b, y, s)
    ensures Scaled(b, x - y, s) == Scaled(b, x, s) - Scaled(b, y, s)
    ensures x < y <==> Scaled(b, x, s) < Scaled(b, y, s)
    ensures Scaled(b, 0.0, s) == 0.0
    decreases if s < 0 then -s else s
  {
    if s > 0 { ScaledLinear(b, x, y, s - 1); }
    if s < 0 { ScaledLinear(b, x, y, s + 1); }
  }

  lemma {:induction false} ScaledMore(b: Radix, x: real, s: int)
    ensures Scaled(b, 2.0 * x, s) == 2.0 * Scaled(b, x, s) && Scaled(b, 10.0 * x, s) == 10.0 * Scaled(b, x, s)
    decreases if s < 0 then -s else s
  {
    if s > 0 { ScaledMore(b, x, s - 1); }
    if s < 0 { ScaledMore(b, x, s + 1); }
  }

  /** One more digit in the integer is one less in the scale. */
  lemma {:induction false} ScaledShift(b: Radix, n: int, s: int, d: nat)
    ensures Scaled(b, (n * Pow(b, d)) as real, s) == Scaled(b, n as real, s + d)
    decreases d
  {
    if d > 0 {
      ScaledShift(b, n, s, d - 1);
      var m := n * Pow(b, d - 1);
      Scaling(n, Pow(b, d - 1));
      assert (2 * m) as real == 2.0 * m as real && (10 * m) as real == 10.0 * m as real;
      ScaledMore(b, m as real, s);
      ScaledNext(b, n as real, s + d - 1);
    } else {
      assert n * Pow(b, 0) == n;
    }
  }

  // ---------------------------------------------------------------- rescaling

  predicate Fits(max: int, n: int) { -max - 1 <= n <= max }

  /** C++ division: toward zero. */
  function Quot(a: int, d: int): int
    requires d != 0
  {
    if a >= 0 then (if d > 0 then a / d else -(a / -d)) else (if d > 0 then -(-a / d) else (-a) / (-d))
  }

  function Rem(a: int, d: int): int
    requires d != 0
  {
    a - d * Quot(a, d)
  }

  /** fixed_point::rescaled: a finer scale multiplies, a coarser one divides toward zero. */
  function Rescaled(b: Radix, x: Fixed, scale: int): Fixed {
    if scale == x.scale then x
    else if scale > x.scale then Fixed(Quot(x.value, Pow(b, scale - x.scale)), scale)
    else Fixed(x.value * Pow(b, x.scale - scale), scale)
  }

  lemma RescaledValue(b: Radix, x: Fixed, scale: int)
    requires scale <= x.scale
    ensures Value(b, Rescaled(b, x, scale)) == Value(b, x) && Rescaled(b, x, scale).scale == scale
  {
    ScaledShift(b, x.value, scale, x.scale - scale);
  }

  lemma QuotTimes(n: int, p: int)
    requires p >= 1
    ensures Quot(n * p, p) == n
  {
    var m := Abs(n);
    FloorBound(m, m * p, p);
    FloorBound(m + 1, m * p, p);
    assert (m + 1) * p == m * p + p;
    SignKept(n, p);
    assert n < 0 ==> m * p == -(n * p);
  }

  /** Refining and coming back gives the same number. */
  lemma RescaleRoundTrip(b: Radix, x: Fixed, scale: int)
    requires scale <= x.scale
    ensures Rescaled(b, Rescaled(b, x, scale), x.scale) == x
  {
    QuotTimes(x.value, Pow(b, x.scale - scale));
  }

  /** r units of p come nearest to n from the side of zero. */
  predicate Truncates(r: int, p: int, n: int) {
    && -p < n - r * p < p
    && (n >= 0 ==> 0 <= r * p <= n) && (n <= 0 ==> n <= r * p <= 0)
  }

  /** There is only one such number. */
  lemma TruncatesOnce(r: int, q: int, p: int, n: int)
    requires p >= 1 && Truncates(r, p, n) && Truncates(q, p, n)
    ensures r == q
  {
    MulOrder(r + 1, q, p);
    MulOrder(q + 1, r, p);
    assert (r + 1) * p == r * p + p && (q + 1) * p == q * p + p;
  }

  lemma QuotTruncates(n: int, p: int)
    requires p >= 1
    ensures Truncates(Quot(n, p), p, n)
  {
    var m := Abs(n);
    assert m == (m / p) * p + m % p;
    SignKept(m / p, p);
    assert (-(m / p)) * p == -((m / p) * p);
  }

  /** A coarser scale loses less than one unit of it, always toward zero. */
  lemma CoarserTruncates(b: Radix, x: Fixed, scale: int)
    requires scale > x.scale
    ensures Truncates(Rescaled(b, x, scale).value, Pow(b, scale - x.scale), x.value)
    ensures Rescaled(b, x, scale).scale == scale
  {
    QuotTruncates(x.value, Pow(b, scale - x.scale));
  }

  /** The same on the numbers denoted. */
  lemma CoarserValue(b: Radix, x: Fixed, scale: int)
    requires scale > x.scale
    ensures var v, w := Value(b, x), Value(b, Rescaled(b, x, scale));
      && -Scaled(b, 1.0, scale) < v - w < Scaled(b, 1.0, scale)
      && (v >= 0.0 ==> 0.0 <= w <= v) && (v <= 0.0 ==> v <= w <= 0.0)
  {
    var d, r := scale - x.scale, Rescaled(b, x, scale).value;
    var p := Pow(b, d);
    CoarserTruncates(b, x, scale);
    ScaledShift(b, r, x.scale, d);
    ScaledShift(b, 1, x.scale, d);
    assert 1 * p == p;
    ScaledOrder(b, x.value, r * p, x.scale);
    ScaledOrder(b, r * p, x.value, x.scale);
    ScaledOrder(b, x.value - r * p, p, x.scale);
    ScaledOrder(b, r * p - x.value, p, x.scale);
    ScaledOrder(b, 0, x.value, x.scale);
    ScaledOrder(b, x.value, 0, x.scale);
    ScaledOrder(b, 0, r * p, x.scale);
    ScaledOrder(b, r * p, 0, x.scale);
    ScaledLinear(b, x.value as real, (r * p) as real, x.scale);
    ScaledLinear(b, (r * p) as real, x.value as real, x.scale);
  }

  /** Integers at one scale are in order as their numbers are. */
  lemma ScaledOrder(b: Radix, m: int, n: int, s: int)
    ensures m < n <==> Scaled(b, m as real, s) < Scaled(b, n as real, s)
    ensures Scaled(b, 0 as real, s) == 0.0
  {
    ScaledLinear(b, m as real, n as real, s);
  }

  /** rescaled, to a coarser scale: the power fits, and the quotient always does. */
  method Coarsen(b: Radix, max: int, x: Fixed, scale: int) returns (v: int)
    requires scale >= x.scale && Fits(max, x.value) && (scale == x.scale || Pow(b, scale - x.scale) <= max)
    ensures Fits(max, v) && v == Rescaled(b, x, scale).value && Truncates(v, Pow(b, scale - x.scale), x.value)
  {
    if scale == x.scale { return x.value; }
    var p := IPow(b, scale - x.scale, max);
    CoarserTruncates(b, x, scale);
    v := Quot(x.value, p);
    SmallerSide(v, p, max);
  }

  lemma SmallerSide(v: int, p: int, max: int)
    requires p >= 1 && -max - 1 <= v * p <= max
    ensures Fits(max, v)
  {
    MulOrder(max + 1, v, p);
    MulOrder(v, -max - 2, p);
    MulOrder(1, p, max + 1);
  }

  function Min(i: int, j: int): int { if i < j then i else j }

  predicate Equals(b: Radix, x: Fixed, y: Fixed) {
    var s := Min(x.scale, y.scale);
    Rescaled(b, x, s).value == Rescaled(b, y, s).value
  }

  predicate LessThan(b: Radix, x: Fixed, y: Fixed) {
    var s := Min(x.scale, y.scale);
    Rescaled(b, x, s).value < Rescaled(b, y, s).value
  }

  /** The comparisons are those of the denoted numbers. */
  lemma CompareByValue(b: Radix, x: Fixed, y: Fixed)
    ensures Equals(b, x, y) <==> Value(b, x) == Value(b, y)
    ensures LessThan(b, x, y) <==> Value(b, x) < Value(b, y)
  {
    var s := Min(x.scale, y.scale);
    RescaledValue(b, x, s);
    RescaledValue(b, y, s);
    var l, r := Rescaled(b, x, s).value, Rescaled(b, y, s).value;
    ScaledLinear(b, l as real, r as real, s);
    ScaledLinear(b, r as real, l as real, s);
  }

  // ---------------------------------------------------------------- overflow guards

  predicate AdditionOverflow(max: int, l: int, r: int) {
    if r > 0 then l > max - r else l < (-max - 1) - r
  }

  predicate SubtractionOverflow(max: int, l: int, r: int) {
    if r > 0 then l < (-max - 1) + r else l > max + r
  }

  predicate MultiplicationOverflow(max: int, l: int, r: int) {
    var min := -max - 1;
    if r > 0 then l > Quot(max, r) || l < Quot(min, r)
    else if r < -1 then l > Quot(min, r) || l < Quot(max, r)
    else r == -1 && l == min
  }

  predicate DivisionOverflow(max: int, l: int, r: int) { l == -max - 1 && r == -1 }

  /** The sum and difference guards hold exactly when the true result leaves the range. */
  lemma AddGuards(max: int, l: int, r: int)
    requires max >= 0 && Fits(max, l) && Fits(max, r)
    ensures AdditionOverflow(max, l, r) <==> !Fits(max, l + r)
    ensures SubtractionOverflow(max, l, r) <==> !Fits(max, l - r)
  {
  }

  /** m <= a / d exactly when m * d <= a, for a positive divisor. */
  lemma FloorBound(m: int, a: nat, d: int)
    requires d >= 1
    ensures m <= a / d <==> m * d <= a
  {
    var q := a / d;
    assert a == q * d + a % d;
    MulOrder(m, q, d);
    MulOrder(q + 1, m, d);
    assert (q + 1) * d == q * d + d;
  }

  lemma MulOrder(x: int, y: int, d: int)
    requires d >= 1
    ensures x <= y <==> x * d <= y * d
  {
    assert (y - x) * d == y * d - x * d;
    if x <= y { assert (y - x) * d >= 0; } else { assert (x - y) * d >= 1; }
  }

  /** The product guard, in all its sign cases under truncating division. */
  lemma MulGuard(max: int, l: int, r: int)
    requires max >= 0 && Fits(max, l) && Fits(max, r)
    ensures MultiplicationOverflow(max, l, r) <==> !Fits(max, l * r)
  {
    var min := -max - 1;
    if r > 0 {
      FloorBound(l, max, r);
      FloorBound(-l, -min, r);
      assert (-l) * r == -(l * r);
    } else if r < 0 {
      FloorBound(l, -min, -r);
      FloorBound(-l, max, -r);
      assert l * (-r) == -(l * r) && (-l) * (-r) == l * r;
      assert r == -1 ==> l * r == -l;
    }
  }

  /** The quotient leaves the range only for the smallest number over minus one. */
  lemma DivGuard(max: int, l: int, r: int)
    requires max >= 0 && Fits(max, l) && Fits(max, r) && r != 0
    ensures DivisionOverflow(max, l, r) <==> !Fits(max, Quot(l, r))
  {
    var a, d := if l < 0 then -l else l, if r < 0 then -r else r;
    FloorBound(max + 1, a, d);
    FloorBound(0, a, d);
    MulOrder(1, d, max + 1);
    assert max + 1 <= a / d ==> (max + 1) * d <= max + 1;
    MulOrder(2, d, max + 1);
    assert 2 <= d ==> (max + 1) * d >= 2 * (max + 1);
    assert d == 1 ==> a / d == a;
  }

  // ---------------------------------------------------------------- arithmetic

  /** The two integers at the finer of the two scales. */
  function Left(b: Radix, x: Fixed, y: Fixed): int { Rescaled(b, x, Min(x.scale, y.scale)).value }

  function Right(b: Radix, x: Fixed, y: Fixed): int { Rescaled(b, y, Min(x.scale, y.scale)).value }

  /** A number can be brought to a finer scale without leaving the range: the power fits, which is needed even
      to rescale zero, and so does the product. */
  predicate Refinable(b: Radix, max: int, x: Fixed, scale: int) {
    scale <= x.scale && (scale == x.scale || Pow(b, x.scale - scale) <= max) && Fits(max, Rescaled(b, x, scale).value)
  }

  /** Both operands can be brought to the finer of their scales. */
  predicate Alignable(b: Radix, max: int, x: Fixed, y: Fixed) {
    Refinable(b, max, x, Min(x.scale, y.scale)) && Refinable(b, max, y, Min(x.scale, y.scale))
  }

  /** rescaled, to a finer scale: no power and no product on the way leaves the range. */
  method Refine(b: Radix, max: int, x: Fixed, scale: int) returns (v: int)
    requires Refinable(b, max, x, scale)
    ensures v == Rescaled(b, x, scale).value
  {
    if scale == x.scale { return x.value; }
    var p := IPow(b, x.scale - scale, max);
    v := x.value * p;
  }

  /** The comparison operators, inside the range of the type. */
  method Compare(b: Radix, max: int, x: Fixed, y: Fixed) returns (equal: bool, less: bool)
    requires Alignable(b, max, x, y)
    ensures equal <==> Value(b, x) == Value(b, y)
    ensures less <==> Value(b, x) < Value(b, y)
  {
    var s := Min(x.scale, y.scale);
    var l := Refine(b, max, x, s);
    var r := Refine(b, max, y, s);
    CompareByValue(b, x, y);
    equal, less := l == r, l < r;
  }

  /** Zero at a coarse scale cannot be compared with a number at a fine one, although its value is in range. */
  lemma ZeroNotAlignable(v: int)
    ensures !Alignable(Ten, 0x7FFF_FFFF, Fixed(0, 50), Fixed(v, 0))
    ensures Fits(0x7FFF_FFFF, Rescaled(Ten, Fixed(0, 50), 0).value)
  {
    PowGrows(Ten, 10, 50);
    assert Pow(Ten, 2) == 100 && Pow(Ten, 4) == 10000;
    PowAdd(Ten, 4, 4);
    PowAdd(Ten, 8, 2);
  }

  function Add(b: Radix, max: int, x: Fixed, y: Fixed): Result {
    var l, r := Left(b, x, y), Right(b, x, y);
    if AdditionOverflow(max, l, r) then Overflow else Ok(Fixed(l + r, Min(x.scale, y.scale)))
  }

  function Subtract(b: Radix, max: int, x: Fixed, y: Fixed): Result {
    var l, r := Left(b, x, y), Right(b, x, y);
    if SubtractionOverflow(max, l, r) then Overflow else Ok(Fixed(l - r, Min(x.scale, y.scale)))
  }

  function Multiply(max: int, x: Fixed, y: Fixed): Result {
    if MultiplicationOverflow(max, x.value, y.value) then Overflow
    else Ok(Fixed(x.value * y.value, x.scale + y.scale))
  }

  function Divide(max: int, x: Fixed, y: Fixed): Result
    requires y.value != 0
  {
    if DivisionOverflow(max, x.value, y.value) then Overflow
    else Ok(Fixed(Quot(x.value, y.value), x.scale - y.scale))
  }

  function Modulo(b: Radix, x: Fixed, y: Fixed): Fixed
    requires Right(b, x, y) != 0
  {
    Fixed(Rem(Left(b, x, y), Right(b, x, y)), Min(x.scale, y.scale))
  }

  lemma AlignedValues(b: Radix, x: Fixed, y: Fixed)
    ensures Scaled(b, Left(b, x, y) as real, Min(x.scale, y.scale)) == Value(b, x)
    ensures Scaled(b, Right(b, x, y) as real, Min(x.scale, y.scale)) == Value(b, y)
  {
    RescaledValue(b, x, Min(x.scale, y.scale));
    RescaledValue(b, y, Min(x.scale, y.scale));
  }

  /** A sum is refused exactly when the true result does not fit at the finer scale, and exact otherwise. */
  lemma AddExact(b: Radix, max: int, x: Fixed, y: Fixed)
    requires max >= 0 && Alignable(b, max, x, y)
    ensures Add(b, max, x, y).Ok? <==> Fits(max, Left(b, x, y) + Right(b, x, y))
    ensures Add(b, max, x, y).Ok? ==> Value(b, Add(b, max, x, y).x) == Value(b, x) + Value(b, y)
  {
    AddGuards(max, Left(b, x, y), Right(b, x, y));
    AlignedValues(b, x, y);
    ScaledLinear(b, Left(b, x, y) as real, Right(b, x, y) as real, Min(x.scale, y.scale));
  }

  lemma SubtractExact(b: Radix, max: int, x: Fixed, y: Fixed)
    requires max >= 0 && Alignable(b, max, x, y)
    ensures Subtract(b, max, x, y).Ok? <==> Fits(max, Left(b, x, y) - Right(b, x, y))
    ensures Subtract(b, max, x, y).Ok? ==> Value(b, Subtract(b, max, x, y).x) == Value(b, x) - Value(b, y)
  {
    AddGuards(max, Left(b, x, y), Right(b, x, y));
    AlignedValues(b, x, y);
    ScaledLinear(b, Left(b, x, y) as real, Right(b, x, y) as real, Min(x.scale, y.scale));
  }

  lemma Factor(a: real, c: real)
    ensures (2.0 * a) * c == 2.0 * (a * c) && (10.0 * a) * c == 10.0 * (a * c)
    ensures a * (2.0 * c) == 2.0 * (a * c) && a * (10.0 * c) == 10.0 * (a * c)
  {
  }

  /** z is the exact product of a and c. */
  ghost predicate IsProduct(z: real, a: real, c: real) { z == a * c }

  lemma ConstStep(b: Radix, c: real, y: real, y1: real, z: real, z1: real)
    requires y1 == (if b.Two? then 2.0 * y else 10.0 * y) && z1 == (if b.Two? then 2.0 * z else 10.0 * z)
    ensures IsProduct(z, c, y) <==> IsProduct(z1, c, y1)
  {
    Factor(c, y);
  }

  lemma {:induction false} ScaledConst(b: Radix, c: real, y: real, z: real, t: int)
    requires IsProduct(z, c, y)
    ensures IsProduct(Scaled(b, z, t), c, Scaled(b, y, t))
    decreases if t < 0 then -t else t
  {
    if t != 0 {
      ScaledConst(b, c, y, z, if t > 0 then t - 1 else t + 1);
      var r := if t > 0 then t - 1 else t;
      ConstStep(b, c, Scaled(b, y, r), Scaled(b, y, r + 1), Scaled(b, z, r), Scaled(b, z, r + 1));
    }
  }

  /** One step of the scale of one factor. */
  lemma FactorStep(b: Radix, a: real, a1: real, c: real, z: real, z1: real)
    requires a1 == (if b.Two? then 2.0 * a else 10.0 * a) && z1 == (if b.Two? then 2.0 * z else 10.0 * z)
    ensures z == a * c <==> z1 == a1 * c
  {
    Factor(a, c);
  }

  lemma ProductStep(b: Radix, x: real, z: real, c: real, s: int, t: int)
    ensures IsProduct(Scaled(b, z, s + t), Scaled(b, x, s), c) <==>
      IsProduct(Scaled(b, z, s + 1 + t), Scaled(b, x, s + 1), c)
  {
    ScaledNext(b, z, s + t);
    ScaledNext(b, x, s);
    FactorStep(b, Scaled(b, x, s), Scaled(b, x, s + 1), c, Scaled(b, z, s + t), Scaled(b, z, s + t + 1));
  }

  /** Scales add when numbers multiply. */
  lemma {:induction false} ScaledProduct(b: Radix, x: real, z: real, c: real, s: int, t: int)
    requires IsProduct(Scaled(b, z, t), x, c)
    ensures IsProduct(Scaled(b, z, s + t), Scaled(b, x, s), c)
    decreases if s < 0 then -s else s
  {
    if s > 0 {
      ScaledProduct(b, x, z, c, s - 1, t);
      ProductStep(b, x, z, c, s - 1, t);
    } else if s < 0 {
      ScaledProduct(b, x, z, c, s + 1, t);
      ProductStep(b, x, z, c, s, t);
    }
  }

  /** A product is refused exactly when the true product of the integers does not fit. */
  lemma MultiplyFits(max: int, x: Fixed, y: Fixed)
    requires max >= 0 && Fits(max, x.value) && Fits(max, y.value)
    ensures Multiply(max, x, y).Ok? <==> Fits(max, x.value * y.value)
  {
    MulGuard(max, x.value, y.value);
  }

  /** A product that is not refused is exact. */
  lemma MultiplyExact(b: Radix, max: int, x: Fixed, y: Fixed)
    requires Multiply(max, x, y).Ok?
    ensures IsProduct(Value(b, Multiply(max, x, y).x), Value(b, x), Value(b, y))
  {
    ProductValue(b, x.value, y.value, Multiply(max, x, y).x.value, x.scale, y.scale);
  }

  lemma RealProduct(l: int, r: int, m: int)
    requires m == l * r
    ensures IsProduct(m as real, l as real, r as real)
  {
  }

  lemma ProductValue(b: Radix, l: int, r: int, m: int, s: int, t: int)
    requires m == l * r
    ensures IsProduct(Value(b, Fixed(m, s + t)), Value(b, Fixed(l, s)), Value(b, Fixed(r, t)))
  {
    RealProduct(l, r, m);
    ScaledConst(b, l as real, r as real, m as real, t);
    ScaledProduct(b, l as real, m as real, Scaled(b, r as real, t), s, t);
  }

  function Abs(a: int): int { if a < 0 then -a else a }

  /** The remainder is less than the divisor in size and has the sign of the dividend. */
  lemma RemBounds(a: int, d: int)
    requires d != 0
    ensures -Abs(d) < Rem(a, d) < Abs(d)
    ensures (a >= 0 ==> Rem(a, d) >= 0) && (a <= 0 ==> Rem(a, d) <= 0)
  {
    var m, k := Abs(a), Abs(d);
    var q := m / k;
    assert m == k * q + m % k;
    assert k * q == (-k) * (-q) && k * -q == -(k * q) && (-k) * q == -(k * q);
  }

  lemma NonZero(v: int, p: int)
    requires v != 0 && p >= 1
    ensures v * p != 0
  {
  }

  lemma SignKept(v: int, p: int)
    requires p >= 1
    ensures (v >= 0 ==> v * p >= 0) && (v <= 0 ==> v * p <= 0)
  {
  }

  /** Alignment keeps zero and the sign. */
  lemma AlignedSigns(b: Radix, x: Fixed, y: Fixed)
    ensures y.value != 0 ==> Right(b, x, y) != 0
    ensures (x.value >= 0 ==> Left(b, x, y) >= 0) && (x.value <= 0 ==> Left(b, x, y) <= 0)
  {
    var s := Min(x.scale, y.scale);
    if y.value != 0 { NonZero(y.value, Pow(b, y.scale - s)); }
    SignKept(x.value, Pow(b, x.scale - s));
  }

  lemma RemainderValue(b: Radix, l: int, r: int, k: int, m: int, s: int)
    requires m == l - r * k
    ensures IsProduct(Scaled(b, l as real, s) - Scaled(b, m as real, s), k as real, Scaled(b, r as real, s))
  {
    RealProduct(k, r, l - m);
    ScaledLinear(b, l as real, m as real, s);
    ScaledConst(b, k as real, r as real, (l - m) as real, s);
  }

  /** x % y differs from x by a whole multiple of y. */
  lemma ModuloExact(b: Radix, x: Fixed, y: Fixed)
    requires Right(b, x, y) != 0
    ensures IsProduct(Value(b, x) - Value(b, Modulo(b, x, y)), Quot(Left(b, x, y), Right(b, x, y)) as real, Value(b, y))
  {
    AlignedValues(b, x, y);
    RemainderValue(b, Left(b, x, y), Right(b, x, y), Quot(Left(b, x, y), Right(b, x, y)), Modulo(b, x, y).value,
        Min(x.scale, y.scale));
  }

  /** It is smaller than y and has the sign of x. */
  lemma ModuloBounds(b: Radix, x: Fixed, y: Fixed)
    requires y.value != 0
    ensures Right(b, x, y) != 0 && -Abs(Right(b, x, y)) < Modulo(b, x, y).value < Abs(Right(b, x, y))
    ensures (x.value >= 0 ==> Modulo(b, x, y).value >= 0) && (x.value <= 0 ==> Modulo(b, x, y).value <= 0)
  {
    AlignedSigns(b, x, y);
    RemBounds(Left(b, x, y), Right(b, x, y));
  }

  /** A remainder in the representation type: the quotient must not leave the range. */
  method Remainder(l: int, r: int, max: int) returns (m: int)
    requires r != 0 && Fits(max, Quot(l, r))
    ensures m == Rem(l, r)
  {
    m := Rem(l, r);
  }

  /** Inside the range, once the operands can be aligned: the remainder always fits, and the quotient that has to fit
      for it to be defined does unless the aligned operands are the smallest number and minus one. */
  lemma ModuloFits(b: Radix, max: int, x: Fixed, y: Fixed)
    requires max >= 0 && Alignable(b, max, x, y) && y.value != 0
    ensures Right(b, x, y) != 0 && Fits(max, Modulo(b, x, y).value)
    ensures Fits(max, Quot(Left(b, x, y), Right(b, x, y))) <==>
      !DivisionOverflow(max, Left(b, x, y), Right(b, x, y))
  {
    AlignedSigns(b, x, y);
    RemBounds(Left(b, x, y), Right(b, x, y));
    DivGuard(max, Left(b, x, y), Right(b, x, y));
  }

  /** The operator % inside the range of the type: exact, smaller than y and with the sign of x. */
  method Mod(b: Radix, max: int, x: Fixed, y: Fixed) returns (z: Fixed)
    requires max >= 0 && Alignable(b, max, x, y) && y.value != 0
    requires !DivisionOverflow(max, Left(b, x, y), Right(b, x, y))
    ensures Fits(max, z.value) && z.scale == Min(x.scale, y.scale) && Right(b, x, y) != 0
    ensures IsProduct(Value(b, x) - Value(b, z), Quot(Left(b, x, y), Right(b, x, y)) as real, Value(b, y))
    ensures -Abs(Right(b, x, y)) < z.value < Abs(Right(b, x, y))
    ensures (x.value >= 0 ==> z.value >= 0) && (x.value <= 0 ==> z.value <= 0)
  {
    var s := Min(x.scale, y.scale);
    var l := Refine(b, max, x, s);
    var r := Refine(b, max, y, s);
    ModuloFits(b, max, x, y);
    ModuloExact(b, x, y);
    ModuloBounds(b, x, y);
    var m := Remainder(l, r, max);
    z := Fixed(m, s);
  }

  /** At any scale the smallest number modulo minus one is undefined, though the operands and the remainder are in
      range. */
  lemma ModuloUndefined(b: Radix, max: int, s: int)
    requires max >= 0
    ensures var x, y := Fixed(-max - 1, s), Fixed(-1, s);
      Alignable(b, max, x, y) && Modulo(b, x, y).value == 0 && !Fits(max, Quot(Left(b, x, y), Right(b, x, y)))
  {
    var x, y := Fixed(-max - 1, s), Fixed(-1, s);
    assert Pow(b, 0) == 1;
    ModuloFits(b, max, x, y);
    ModuloBounds(b, x, y);
  }

  /** A quotient is refused exactly when it does not fit. */
  lemma DivideFits(max: int, x: Fixed, y: Fixed)
    requires max >= 0 && Fits(max, x.value) && Fits(max, y.value) && y.value != 0
    ensures Divide(max, x, y).Ok? <==> Fits(max, Quot(x.value, y.value))
  {
    DivGuard(max, x.value, y.value);
  }

  /** Division truncates the quotient of the integers, at the difference of the scales: multiplied
      back it misses x by the remainder of the integers. */
  lemma DivideExact(b: Radix, max: int, x: Fixed, y: Fixed)
    requires y.value != 0 && Divide(max, x, y).Ok?
    ensures IsProduct(Value(b, x) - Value(b, Fixed(Rem(x.value, y.value), x.scale)), Value(b, Divide(max, x, y).x),
      Value(b, y))
  {
    QuotientValue(b, x.value, y.value, Quot(x.value, y.value), Rem(x.value, y.value), x.scale, y.scale);
  }

  lemma QuotientValue(b: Radix, l: int, r: int, q: int, m: int, s: int, t: int)
    requires m == l - r * q
    ensures IsProduct(Value(b, Fixed(l, s)) - Value(b, Fixed(m, s)), Value(b, Fixed(q, s - t)), Value(b, Fixed(r, t)))
  {
    ProductValue(b, q, r, l - m, s - t, t);
    ScaledLinear(b, l as real, m as real, s);
  }
}
