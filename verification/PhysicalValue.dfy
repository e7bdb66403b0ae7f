/** physical_value: the order of index keys across types. */
module PhysicalValue {
  datatype IntType = U8 | I8 | U16 | I16 | U32 | I32 | U64 | I64

  datatype FloatType = Single | Double

  /** A key. Floating-point values are finite and given by the number they denote. */
  datatype Value = Bool(b: bool) | Int(t: IntType, n: int) | Float(p: FloatType, v: real) | Str(s: seq<nat>) | Null

  predicate Signed(t: IntType) { t in {I8, I16, I32, I64} }

  function Modulus(t: IntType): int {
    match t
    case U8 => 0x100
    case I8 => 0x100
    case U16 => 0x1_0000
    case I16 => 0x1_0000
    case U32 => 0x1_0000_0000
    case I32 => 0x1_0000_0000
    case U64 => 0x1_0000_0000_0000_0000
    case I64 => 0x1_0000_0000_0000_0000
  }

  predicate InRange(t: IntType, n: int) {
    if Signed(t) then -Modulus(t) <= 2 * n < Modulus(t) else 0 <= n < Modulus(t)
  }

  function Pow2(e: nat): (r: int)
    ensures r > 0
  {
    if e == 0 then 1 else 2 * Pow2(e - 1)
  }

  /** Bits of precision and the exponents of the unit in the last place. */
  function Bits(p: FloatType): nat { if p.Single? then 24 else 53 }

  function MinExp(p: FloatType): nat { if p.Single? then 149 else 1074 }

  function MaxExp(p: FloatType): nat { if p.Single? then 104 else 971 }

  /** m units of 2^e, with a negative exponent in the divisor. */
  ghost predicate Representable(v: real, p: FloatType) {
    exists m: int, e: nat, d: nat :: IsUnits(v, p, m, e, d)
  }

  ghost predicate IsUnits(v: real, p: FloatType, m: int, e: nat, d: nat) {
    -Pow2(Bits(p)) < m < Pow2(Bits(p)) && e <= MaxExp(p) && d <= MinExp(p)
        && v * Pow2(d) as real == (m * Pow2(e)) as real
  }

  ghost predicate Wf(a: Value) {
    match a
    case Int(t, n) => InRange(t, n)
    case Float(p, v) => Representable(v, p)
    case _ => true
  }

  // ---------------------------------------------------------------- integer to floating point

  /** The smallest e with a below 2^(bits + e). */
  function Excess(a: nat, bits: nat): (e: nat)
    ensures a < Pow2(bits + e) && (e > 0 ==> a >= Pow2(bits + e - 1))
  {
    ExcessFrom(a, bits, 0)
  }

  function ExcessFrom(a: nat, bits: nat, e: nat): (r: nat)
    requires e > 0 ==> a >= Pow2(bits + e - 1)
    ensures a < Pow2(bits + r) && (r > 0 ==> a >= Pow2(bits + r - 1)) && r >= e
    decreases a - Pow2(bits + e)
  {
    if a < Pow2(bits + e) then e else ExcessFrom(a, bits, e + 1)
  }

  /** a / u to the nearest integer, ties to the even one. */
  function NearestEven(a: nat, u: int): (m: nat)
    requires u > 0
    ensures a / u <= m <= a / u + 1
  {
    var m, r := a / u, a % u;
    if 2 * r < u || (2 * r == u && m % 2 == 0) then m else m + 1
  }

  /** m units of u are as near to a as can be, and of two that are equally near m is even. */
  predicate Nearest(m: int, a: nat, u: int) {
    var d := m * u - a; -u <= 2 * d <= u && (2 * d == u || 2 * d == -u ==> m % 2 == 0)
  }

  /** Nothing is nearer, and a tie goes to the even number. */
  lemma NearestIsNearest(a: nat, u: int)
    requires u > 0
    ensures Nearest(NearestEven(a, u), a, u)
  {
    var m := a / u;
    assert a == m * u + a % u;
    assert (m + 1) * u == m * u + u;
  }

  /** So there is only one result. */
  lemma NearestOnce(m: int, n: int, a: nat, u: int)
    requires u > 0 && Nearest(m, a, u) && Nearest(n, a, u)
    ensures m == n
  {
    NearestTwice(m, n, a, u);
    NearestTwice(n, m, a, u);
  }

  lemma NearestTwice(m: int, n: int, a: nat, u: int)
    requires u > 0 && Nearest(m, a, u) && Nearest(n, a, u)
    ensures m <= n
  {
    var x, y := m * u, n * u;
    assert (m - n) * u == x - y;
    if m > n + 1 {
      MulMonotone(m - n, 2, u);
      assert false;
    }
    if m == n + 1 { assert false; }
  }

  function RoundNat(a: nat, bits: nat): int {
    var u := Pow2(Excess(a, bits)); NearestEven(a, u) * u
  }

  /** The conversion of an integer to a floating-point type, rounding to nearest, ties to even. */
  function Round(n: int, p: FloatType): int {
    if n >= 0 then RoundNat(n, Bits(p)) else -RoundNat(-n, Bits(p))
  }

  // ---------------------------------------------------------------- the comparison

  /** make_unsigned of an integer type: the value modulo two to its width. */
  function ToUnsigned(t: IntType, n: int): int { n % Modulus(t) }

  /** cmp_less on two integers. */
  predicate IntLess(t: IntType, n: int, u: IntType, k: int) {
    if Signed(t) == Signed(u) then n < k
    else if Signed(t) then n < 0 || ToUnsigned(t, n) < k
    else k >= 0 && n < ToUnsigned(u, k)
  }

  /** string_view comparison: unsigned bytes, then length. */
  predicate StrLess(a: seq<nat>, b: seq<nat>) {
    if a == [] then b != []
    else if b == [] then false
    else if a[0] != b[0] then a[0] < b[0]
    else StrLess(a[1..], b[1..])
  }

  predicate Numeric(a: Value) { a.Int? || a.Float? }

  function TypeCode(a: Value): nat {
    match a
    case Bool(b) => if b then 1 else 0
    case Int(t, _) => (
      match t
      case U8 => 2 case I8 => 3 case U16 => 4 case I16 => 5 case U32 => 6 case I32 => 7 case U64 => 8 case I64 => 9)
    case Float(p, _) => if p.Single? then 13 else 14
    case Str(_) => 15
    case Null => 127
  }

  /** cmp_less on two numbers: an integer is converted to the other side's floating-point type. */
  predicate NumLess(a: Value, b: Value)
    requires Numeric(a) && Numeric(b)
  {
    if a.Float? && b.Float? then a.v < b.v
    else if a.Float? then a.v < Round(b.n, a.p) as real
    else if b.Float? then Round(a.n, b.p) as real < b.v
    else IntLess(a.t, a.n, b.t, b.n)
  }

  /** physical_value::operator<. */
  predicate Less(a: Value, b: Value) {
    if a.Null? then false
    else if b.Null? then true
    else if a.Str? && b.Str? then StrLess(a.s, b.s)
    else if !Numeric(a) || !Numeric(b) then TypeCode(a) < TypeCode(b)
    else NumLess(a, b)
  }

  predicate Greater(a: Value, b: Value) { Less(b, a) }

  predicate Equal(a: Value, b: Value) { !Less(a, b) && !Greater(a, b) }

  predicate AtMost(a: Value, b: Value) { !Greater(a, b) }

  predicate AtLeast(a: Value, b: Value) { !Less(a, b) }

  // ---------------------------------------------------------------- the order it should be

  /** Booleans, numbers, strings, null, in this order. */
  function Kind(a: Value): nat {
    if a.Bool? then 0 else if Numeric(a) then 1 else if a.Str? then 2 else 3
  }

  function Number(a: Value): real
    requires Numeric(a)
  {
    if a.Int? then a.n as real else a.v
  }

  /** Kinds in order; inside a kind, false before true, numbers by value, strings lexicographically. */
  ghost predicate Before(a: Value, b: Value) {
    || Kind(a) < Kind(b)
    || (a.Bool? && b.Bool? && !a.b && b.b)
    || (Numeric(a) && Numeric(b) && Number(a) < Number(b))
    || (a.Str? && b.Str? && Lexicographic(a.s, b.s))
  }

  /** A proper prefix, or smaller at the first difference. */
  ghost predicate Lexicographic(a: seq<nat>, b: seq<nat>) {
    exists k: nat :: DiffersAt(a, b, k)
  }

  predicate DiffersAt(a: seq<nat>, b: seq<nat>, k: nat) {
    k <= |a| && k < |b| && a[..k] == b[..k] && (k < |a| ==> a[k] < b[k])
  }

  lemma FirstSame(a: seq<nat>, b: seq<nat>, k: nat)
    requires DiffersAt(a, b, k)
    ensures k > 0 ==> a != [] && b != [] && a[0] == b[0]
  {
    if k > 0 { assert a[..k][0] == a[0] && b[..k][0] == b[0]; }
  }

  lemma TailOfPrefix(a: seq<nat>, k: nat)
    requires 0 < k <= |a|
    ensures a[1..][..k - 1] == a[..k][1..]
  {
  }

  lemma {:induction false} StrLessLexicographic(a: seq<nat>, b: seq<nat>)
    ensures StrLess(a, b) <==> Lexicographic(a, b)
  {
    if a == [] || b == [] || a[0] != b[0] {
      if StrLess(a, b) { assert DiffersAt(a, b, 0); }
      if Lexicographic(a, b) {
        var k: nat :| DiffersAt(a, b, k);
        FirstSame(a, b, k);
      }
    } else {
      StrLessLexicographic(a[1..], b[1..]);
      if StrLess(a[1..], b[1..]) {
        var k: nat :| DiffersAt(a[1..], b[1..], k);
        assert a[..k + 1] == [a[0]] + a[1..][..k] && b[..k + 1] == [b[0]] + b[1..][..k];
        assert DiffersAt(a, b, k + 1);
      }
      if Lexicographic(a, b) {
        var k: nat :| DiffersAt(a, b, k);
        TailOfPrefix(a, k);
        TailOfPrefix(b, k);
        assert DiffersAt(a[1..], b[1..], k - 1);
      }
    }
  }

  lemma {:induction false} StrOrder(a: seq<nat>, b: seq<nat>, c: seq<nat>)
    ensures !StrLess(a, a)
    ensures StrLess(a, b) && StrLess(b, c) ==> StrLess(a, c)
    ensures !StrLess(a, b) && !StrLess(b, a) ==> a == b
  {
    if a != [] && b != [] {
      StrOrder(a[1..], b[1..], if c == [] then [] else c[1..]);
      assert a == [a[0]] + a[1..] && b == [b[0]] + b[1..];
    } else if a != [] {
      StrOrder(a[1..], [], []);
    }
  }

  /** An integer survives the conversion it is compared under. */
  predicate Exact(a: Value, b: Value) {
    a.Int? && b.Float? ==> Round(a.n, b.p) == a.n
  }

  lemma IntLessByValue(t: IntType, n: int, u: IntType, k: int)
    requires InRange(t, n) && InRange(u, k)
    ensures IntLess(t, n, u, k) <==> n < k
  {
  }

  /** operator< is the intended order on every pair whose integers survive conversion; in particular on
      all pairs of booleans, integers of mixed width and sign, strings and null. */
  lemma LessIsBefore(a: Value, b: Value)
    requires Wf(a) && Wf(b) && Exact(a, b) && Exact(b, a)
    ensures Less(a, b) <==> Before(a, b)
  {
    if a.Int? && b.Int? { IntLessByValue(a.t, a.n, b.t, b.n); }
    if a.Str? && b.Str? { StrLessLexicographic(a.s, b.s); }
  }

  lemma BeforeIsStrictWeak(a: Value, b: Value, c: Value)
    ensures !Before(a, a)
    ensures Before(a, b) && Before(b, c) ==> Before(a, c)
    ensures !Before(a, b) && !Before(b, a) && !Before(b, c) && !Before(c, b) ==> !Before(a, c) && !Before(c, a)
  {
    var sa, sb, sc := if a.Str? then a.s else [], if b.Str? then b.s else [], if c.Str? then c.s else [];
    StrOrder(sa, sb, sc);
    StrOrder(sb, sc, sa);
    StrLessLexicographic(sa, sa);
    StrLessLexicographic(sa, sb);
    StrLessLexicographic(sb, sa);
    StrLessLexicographic(sb, sc);
    StrLessLexicographic(sc, sb);
    StrLessLexicographic(sa, sc);
    StrLessLexicographic(sc, sa);
  }

  /** No two of the values are an integer and a floating-point type that cannot hold it. */
  ghost predicate Comparable(a: Value, b: Value) { Wf(a) && Wf(b) && Exact(a, b) && Exact(b, a) }

  /** A strict weak order whose equivalence is the derived ==. */
  lemma LessIsStrictWeak(a: Value, b: Value, c: Value)
    requires Comparable(a, b) && Comparable(b, c) && Comparable(a, c)
    ensures !Less(a, a)
    ensures Less(a, b) && Less(b, c) ==> Less(a, c)
    ensures Equal(a, b) && Equal(b, c) ==> Equal(a, c)
    ensures AtMost(a, b) <==> Less(a, b) || Equal(a, b)
    ensures AtLeast(a, b) <==> Greater(a, b) || Equal(a, b)
  {
    BeforeIsStrictWeak(a, b, c);
    BeforeIsStrictWeak(b, a, b);
    LessIsBefore(a, a);
    LessIsBefore(a, b);
    LessIsBefore(b, a);
    LessIsBefore(b, c);
    LessIsBefore(c, b);
    LessIsBefore(a, c);
    LessIsBefore(c, a);
  }

  /** == means the same boolean, the same number, the same string, or both null. */
  lemma EqualMeans(a: Value, b: Value)
    requires Comparable(a, b)
    ensures Equal(a, b) <==> Kind(a) == Kind(b)
                             && (a.Bool? && b.Bool? ==> a.b == b.b)
                             && (Numeric(a) && Numeric(b) ==> Number(a) == Number(b))
                             && (a.Str? && b.Str? ==> a.s == b.s)
  {
    LessIsBefore(a, b);
    LessIsBefore(b, a);
    if a.Str? && b.Str? {
      StrOrder(a.s, b.s, a.s);
      StrLessLexicographic(a.s, b.s);
      StrLessLexicographic(b.s, a.s);
    }
  }

  /** numeric_limits: nothing is below false or above null. */
  lemma Limits(a: Value)
    ensures !Less(a, Bool(false)) && !Less(Null, a)
    ensures a != Bool(false) ==> Less(Bool(false), a)
    ensures a != Null ==> Less(a, Null)
  {
  }

  // ---------------------------------------------------------------- integers against floats

  lemma {:induction false} Pow2Add(a: nat, b: nat)
    ensures Pow2(a + b) == Pow2(a) * Pow2(b)
  {
    if b > 0 {
      Pow2Add(a, b - 1);
      assert Pow2(a + b) == 2 * Pow2(a + (b - 1));
    }
  }

  lemma MulMonotone(q: int, k: int, u: int)
    requires u > 0
    ensures q >= k ==> q * u >= k * u
  {
    assert (q - k) * u == q * u - k * u;
  }

  lemma Halve(m: int, k: int, u: int, w: int)
    requires w == 2 * u
    ensures m == 2 * k ==> m * u == k * w
  {
  }

  lemma QuotientBelow(a: nat, k: int, u: int)
    requires u > 0 && a < k * u
    ensures a / u < k
  {
    assert a == (a / u) * u + a % u;
    MulMonotone(a / u, k, u);
  }

  /** Rounding leaves at most 2^bits units. */
  lemma RoundUnits(a: nat, bits: nat)
    ensures NearestEven(a, Pow2(Excess(a, bits))) <= Pow2(bits)
  {
    var e := Excess(a, bits);
    Pow2Add(bits, e);
    QuotientBelow(a, Pow2(bits), Pow2(e));
  }

  lemma {:induction false} ExcessSmall(a: nat, bits: nat, top: nat)
    requires a < Pow2(top) && bits <= top
    ensures Excess(a, bits) <= top - bits
  {
    var e := Excess(a, bits);
    if e > top - bits { Pow2Grows(top, bits + e - 1); }
  }

  lemma {:induction false} Pow2Grows(a: nat, b: nat)
    requires a <= b
    ensures Pow2(a) <= Pow2(b)
  {
    if a < b { Pow2Grows(a, b - 1); }
  }

  lemma IntegerUnits(v: int, s: int, f: nat, p: FloatType)
    requires -Pow2(Bits(p)) < s < Pow2(Bits(p)) && f <= MaxExp(p) && v == s * Pow2(f)
    ensures Representable(v as real, p)
  {
    assert Pow2(0) == 1;
    assert IsUnits(v as real, p, s, f, 0);
  }

  /** Up to 2^bits units either way; at the limit the unit is doubled. */
  lemma UnitsRepresentable(v: int, m: int, e: nat, p: FloatType)
    requires -Pow2(Bits(p)) <= m <= Pow2(Bits(p)) && e < MaxExp(p) && v == m * Pow2(e)
    ensures Representable(v as real, p)
  {
    var top, k := Pow2(Bits(p)), Pow2(Bits(p) - 1);
    var half := if m == top then k else -k;
    Halve(m, half, Pow2(e), Pow2(e + 1));
    if -top < m < top { IntegerUnits(v, m, e, p); } else { IntegerUnits(v, half, e + 1, p); }
  }

  lemma Negate(m: int, u: int)
    ensures (-m) * u == -(m * u)
  {
  }

  lemma RoundInUnits(n: int, p: FloatType) returns (m: int, e: nat)
    requires -Pow2(64) < n < Pow2(64)
    ensures Round(n, p) == m * Pow2(e) && -Pow2(Bits(p)) <= m <= Pow2(Bits(p)) && e < MaxExp(p)
  {
    var a := if n < 0 then -n else n;
    e := Excess(a, Bits(p));
    RoundUnits(a, Bits(p));
    ExcessSmall(a, Bits(p), 64);
    m := NearestEven(a, Pow2(e));
    Negate(m, Pow2(e));
    if n < 0 { m := -m; }
  }

  /** The conversion yields a value of the floating-point type. */
  lemma RoundRepresentable(n: int, p: FloatType)
    requires -Pow2(64) < n < Pow2(64)
    ensures Representable(Round(n, p) as real, p)
  {
    var m, e := RoundInUnits(n, p);
    UnitsRepresentable(Round(n, p), m, e, p);
  }

  lemma Pow2Of64()
    ensures Pow2(64) == 0x1_0000_0000_0000_0000
  {
    Pow2Add(32, 32);
    Pow2Of16();
    Pow2Add(16, 16);
  }

  lemma Pow2Of16()
    ensures Pow2(16) == 0x1_0000
  {
    assert Pow2(8) == 256;
    Pow2Add(8, 8);
  }

  /** The unit in the last place of a number below 2^64: the smallest power of two that leaves at most so many bits. */
  ghost predicate LastPlace(a: nat, bits: nat, e: nat) {
    a < Pow2(bits + e) && (e > 0 ==> a >= Pow2(bits + e - 1))
  }

  lemma OneLastPlace(a: nat, bits: nat, e: nat)
    requires LastPlace(a, bits, e)
    ensures e == Excess(a, bits)
  {
    var f := Excess(a, bits);
    if e < f { Pow2Grows(bits + e, bits + f - 1); }
    if f < e { Pow2Grows(bits + f, bits + e - 1); }
  }

  /** An integer compares with a floating-point number as the nearest multiple of its last place does, of two the even
      one, whether or not it is that multiple. */
  lemma FloatCompareNearest(t: IntType, n: int, p: FloatType, v: real, e: nat, m: nat)
    requires var a := if n < 0 then -n else n; LastPlace(a, Bits(p), e) && Nearest(m, a, Pow2(e))
    ensures var w := (if n < 0 then -(m * Pow2(e)) else m * Pow2(e)) as real;
      && (Less(Int(t, n), Float(p, v)) <==> w < v) && (Less(Float(p, v), Int(t, n)) <==> v < w)
  {
    var a := if n < 0 then -n else n;
    OneLastPlace(a, Bits(p), e);
    NearestIsNearest(a, Pow2(e));
    NearestOnce(m, NearestEven(a, Pow2(e)), a, Pow2(e));
  }

  /** An integer compares by value with every number of a floating-point type exactly when the
      conversion does not change it. */
  lemma FloatCompareExact(t: IntType, n: int, p: FloatType)
    requires InRange(t, n)
    ensures (forall v: real :: Representable(v, p) ==>
      (Less(Int(t, n), Float(p, v)) <==> n as real < v) && (Less(Float(p, v), Int(t, n)) <==> v < n as real))
      <==> Round(n, p) == n
  {
    if Round(n, p) != n {
      Pow2Of64();
      RoundRepresentable(n, p);
      var v := Round(n, p) as real;
      assert Representable(v, p) && !Less(Int(t, n), Float(p, v)) && !Less(Float(p, v), Int(t, n));
      assert n as real != v;
    }
  }

  lemma Pow2Of24()
    ensures Pow2(24) == 0x100_0000 && Pow2(25) == 0x200_0000 && Pow2(1) == 2
  {
    Pow2Add(12, 12);
    assert Pow2(12) == 4096;
  }

  /** With a float between two integers it cannot tell apart, == is not transitive. */
  lemma FloatBreaksEquivalence()
    ensures var a, f, b := Int(I32, 16777216), Float(Single, 16777216.0), Int(I32, 16777217);
      Wf(a) && Wf(f) && Wf(b) && Equal(a, f) && Equal(f, b) && Less(a, b)
  {
    Pow2Of24();
    ExcessSmall(16777216, 24, 25);
    ExcessSmall(16777217, 24, 25);
    assert RoundNat(16777216, 24) == 16777216;
    assert RoundNat(16777217, 24) == 16777216;
    assert Pow2(0) == 1;
    UnitsRepresentable(16777216, 16777216, 0, Single);
  }
}
