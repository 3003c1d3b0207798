/**
 Double-long arithmetic: 64-bit numbers held as four 16-bit digits, most significant first
 (local_include/dlong.h). The accumulator dlong_ac_t is a 32-bit unsigned long, and `long` is
 32-bit two's complement. The macros assign digits one by one through the accumulator, and the
 result may be one of the operands.
 */
module Dlong {

  const BASE := 0x1_0000
  const ACC := 0x1_0000_0000
  const TOP := 0x1_0000_0000_0000_0000

  predicate IsLong(x: int) {
    -0x8000_0000 <= x < 0x8000_0000
  }

  predicate IsULong(x: int) {
    0 <= x < ACC
  }

  predicate IsShort(x: int) {
    -0x8000 <= x < 0x8000
  }

  predicate IsUShort(x: int) {
    0 <= x < BASE
  }

  datatype Num = Num(d0: int, d1: int, d2: int, d3: int) {

    predicate Valid() {
      0 <= d0 < BASE && 0 <= d1 < BASE && 0 <= d2 < BASE && 0 <= d3 < BASE
    }

    /** The number without sign. */
    function Value(): int {
      ((d0 * BASE + d1) * BASE + d2) * BASE + d3
    }

    /** The number in two's complement. */
    function Signed(): int {
      if Value() < TOP / 2 then Value() else Value() - TOP
    }
  }

  /** The most significant digit comes first. */
  lemma ValueIs(n: Num)
    ensures n.Value() == n.d0 * 0x1_0000_0000_0000 + n.d1 * 0x1_0000_0000 + n.d2 * 0x1_0000 + n.d3
    ensures n.Valid() && n.d0 < 0x8000 ==> n.Signed() == n.Value()
    ensures n.Valid() && n.d0 >= 0x8000 ==> n.Signed() == n.Value() - 0x1_0000_0000_0000_0000
  {
  }

  /** The only digits with a given value. */
  function Digits(v: int): (n: Num)
    requires 0 <= v < TOP
    ensures n.Valid() && n.Value() == v
  {
    var q2 := v / BASE;
    var q1 := q2 / BASE;
    Num(q1 / BASE, q1 % BASE, q2 % BASE, v % BASE)
  }

  lemma DigitsUnique(n: Num, v: int)
    requires n.Valid() && n.Value() % TOP == v % TOP
    ensures 0 <= v % TOP && n == Digits(v % TOP)
  {
    InRange(n);
    Small(n.Value());
    DigitsOf(n);
  }

  lemma Small(v: int)
    requires 0 <= v < TOP
    ensures v % TOP == v
  {
  }

  lemma DigitsOf(n: Num)
    requires n.Valid()
    ensures 0 <= n.Value() < TOP && n == Digits(n.Value())
  {
    InRange(n);
    var q1 := n.d0 * BASE + n.d1;
    var q2 := q1 * BASE + n.d2;
    Tail(q2, n.d3);
    Tail(q1, n.d2);
    Tail(n.d0, n.d1);
  }

  lemma InRange(n: Num)
    requires n.Valid()
    ensures 0 <= n.Value() < TOP
  {
  }

  lemma Tail(q: int, r: int)
    requires 0 <= r < BASE
    ensures (q * BASE + r) / BASE == q && (q * BASE + r) % BASE == r
  {
  }

  // The accumulator.

  /** An expression assigned to the accumulator. */
  function Acc(x: int): int {
    x % ACC
  }

  /** Assignment to a digit keeps the low 16 bits. */
  function Low(ac: int): int {
    ac % BASE
  }

  function High(ac: int): int {
    ac / BASE
  }

  /** `digit = ac = t`, and then `ac >> dlong_base_bits`. */
  method Carry(t: int) returns (digit: int, carry: int)
    requires 0 <= t < 2 * BASE
    ensures 0 <= digit < BASE && 0 <= carry <= 1 && digit + carry * BASE == t
  {
    var ac := Acc(t);
    digit, carry := Low(ac), High(ac);
  }

  /** `digit = ac = t`, and then `(ac >> dlong_base_bits) ? 1 : 0`: a negative `t` leaves a number
      close to 2^32 in the accumulator. */
  method Borrow(t: int) returns (digit: int, borrow: int)
    requires -BASE <= t < BASE
    ensures 0 <= digit < BASE && 0 <= borrow <= 1 && digit - borrow * BASE == t
  {
    var ac := Acc(t);
    digit := Low(ac);
    borrow := if High(ac) != 0 then 1 else 0;
    if t < 0 {
      assert ac == t + ACC;
      assert digit == t + BASE;
    }
  }

  /** Digit sums with carries (or, with negative carries, differences with borrows) add up. */
  lemma AddsUp(r: Num, t3: int, t2: int, t1: int, t0: int, c3: int, c2: int, c1: int, c0: int)
    requires r.d3 + c3 * BASE == t3 && r.d2 + c2 * BASE == t2 + c3
    requires r.d1 + c1 * BASE == t1 + c2 && r.d0 + c0 * BASE == t0 + c1
    ensures r.Value() + c0 * TOP == ((t0 * BASE + t1) * BASE + t2) * BASE + t3
  {
  }

  lemma ModUnique(v: int, c: int, s: int)
    requires v + c * TOP == s
    ensures v % TOP == s % TOP
  {
    ModPlus(v, c);
  }

  lemma ModPlus(v: int, c: int)
    ensures (v + c * TOP) % TOP == v % TOP
    decreases if c < 0 then -c else c
  {
    if c > 0 {
      ModPlus(v, c - 1);
      assert v + c * TOP == v + (c - 1) * TOP + TOP;
    } else if c < 0 {
      ModPlus(v, c + 1);
      assert v + c * TOP == v + (c + 1) * TOP - TOP;
    }
  }

  /** Digits that add up to `s`, up to a carry out, are the digits of `s` modulo 2^64. */
  lemma Settle(r: Num, c0: int, s: int)
    requires r.Valid() && r.Value() + c0 * TOP == s
    ensures r == Digits(s % TOP)
  {
    ModUnique(r.Value(), c0, s);
    DigitsUnique(r, s);
  }

  /** The digits of a sum, with the carries between them. */
  lemma SumSettles(r: Num, a: Num, b: Num, c3: int, c2: int, c1: int, c0: int)
    requires r.Valid()
    requires r.d3 + c3 * BASE == a.d3 + b.d3 && r.d2 + c2 * BASE == a.d2 + b.d2 + c3
    requires r.d1 + c1 * BASE == a.d1 + b.d1 + c2 && r.d0 + c0 * BASE == a.d0 + b.d0 + c1
    ensures r == Digits((a.Value() + b.Value()) % TOP)
  {
    AddsUp(r, a.d3 + b.d3, a.d2 + b.d2, a.d1 + b.d1, a.d0 + b.d0, c3, c2, c1, c0);
    Settle(r, c0, a.Value() + b.Value());
  }

  /** The digits of a difference, with the borrows between them. */
  lemma DifferenceSettles(r: Num, a: Num, b: Num, c3: int, c2: int, c1: int, c0: int)
    requires r.Valid()
    requires r.d3 - c3 * BASE == a.d3 - b.d3 && r.d2 - c2 * BASE == a.d2 - b.d2 - c3
    requires r.d1 - c1 * BASE == a.d1 - b.d1 - c2 && r.d0 - c0 * BASE == a.d0 - b.d0 - c1
    ensures r == Digits((a.Value() - b.Value()) % TOP)
  {
    AddsUp(r, a.d3 - b.d3, a.d2 - b.d2, a.d1 - b.d1, a.d0 - b.d0, 0 - c3, 0 - c2, 0 - c1, 0 - c0);
    Settle(r, 0 - c0, a.Value() - b.Value());
  }

  /** struct dlong_t: the four digits in memory. */
  class DlongT {
    var d0: int
    var d1: int
    var d2: int
    var d3: int

    constructor ()
      ensures N() == Num(0, 0, 0, 0)
    {
      d0, d1, d2, d3 := 0, 0, 0, 0;
    }

    function N(): Num
      reads this
    {
      Num(d0, d1, d2, d3)
    }

    ghost predicate Valid()
      reads this
    {
      N().Valid()
    }
  }

  // DLONG_ADD, DLONG_NEG, DLONG_SUB.

  method Add(result: DlongT, x: DlongT, y: DlongT)
    requires x.Valid() && y.Valid()
    modifies result
    ensures result.N() == Digits((old(x.N()).Value() + old(y.N()).Value()) % TOP)
  {
    ghost var a, b := x.N(), y.N();
    var d, c3 := Carry(x.d3 + y.d3);
    result.d3 := d;
    var c2, c1, c0;
    d, c2 := Carry(x.d2 + y.d2 + c3);
    result.d2 := d;
    d, c1 := Carry(x.d1 + y.d1 + c2);
    result.d1 := d;
    d, c0 := Carry(x.d0 + y.d0 + c1);
    result.d0 := d;
    SumSettles(result.N(), a, b, c3, c2, c1, c0);
  }

  method Neg(result: DlongT, x: DlongT)
    requires x.Valid()
    modifies result
    ensures result.N() == Digits((0 - old(x.N()).Value()) % TOP)
  {
    ghost var a := x.N();
    var d, c3 := Borrow(0 - x.d3);
    result.d3 := d;
    var c2, c1, c0;
    d, c2 := Borrow(0 - x.d2 - c3);
    result.d2 := d;
    d, c1 := Borrow(0 - x.d1 - c2);
    result.d1 := d;
    d, c0 := Borrow(0 - x.d0 - c1);
    result.d0 := d;
    DifferenceSettles(result.N(), Num(0, 0, 0, 0), a, c3, c2, c1, c0);
  }

  method Sub(result: DlongT, x: DlongT, y: DlongT)
    requires x.Valid() && y.Valid()
    modifies result
    ensures result.N() == Digits((old(x.N()).Value() - old(y.N()).Value()) % TOP)
  {
    ghost var a, b := x.N(), y.N();
    var d, c3 := Borrow(x.d3 - y.d3);
    result.d3 := d;
    var c2, c1, c0;
    d, c2 := Borrow(x.d2 - y.d2 - c3);
    result.d2 := d;
    d, c1 := Borrow(x.d1 - y.d1 - c2);
    result.d1 := d;
    d, c0 := Borrow(x.d0 - y.d0 - c1);
    result.d0 := d;
    DifferenceSettles(result.N(), a, b, c3, c2, c1, c0);
  }

  // Scalars to dlongs and back. An arithmetic right shift is division rounding down.

  method FromLong(result: DlongT, x: int)
    requires IsLong(x)
    modifies result
    ensures result.N() == Digits(x % TOP)
  {
    if x < 0 {
      result.d0, result.d1 := 0xffff, 0xffff;
    } else {
      result.d0, result.d1 := 0, 0;
    }
    result.d2 := Low(x / BASE);
    result.d3 := Low(x);
    Settle(result.N(), if x < 0 then -1 else 0, x);
  }

  method FromULong(result: DlongT, x: int)
    requires IsULong(x)
    modifies result
    ensures result.N() == Digits(x % TOP)
  {
    result.d0, result.d1 := 0, 0;
    result.d2 := Low(x / BASE);
    result.d3 := Low(x);
    Settle(result.N(), 0, x);
  }

  method FromShort(result: DlongT, x: int)
    requires IsShort(x)
    modifies result
    ensures result.N() == Digits(x % TOP)
  {
    if x < 0 {
      result.d0, result.d1, result.d2 := 0xffff, 0xffff, 0xffff;
    } else {
      result.d0, result.d1, result.d2 := 0, 0, 0;
    }
    result.d3 := Low(x);
    Settle(result.N(), if x < 0 then -1 else 0, x);
  }

  method FromUShort(result: DlongT, x: int)
    requires IsUShort(x)
    modifies result
    ensures result.N() == Digits(x % TOP)
  {
    result.d0, result.d1, result.d2 := 0, 0, 0;
    result.d3 := Low(x);
    Settle(result.N(), 0, x);
  }

  /** DLONG_TO_U_LONG and DLONG_TO_LONG. */
  function ToULong(n: Num): int {
    n.d2 * BASE + n.d3
  }

  function ToLong(n: Num): int {
    if ToULong(n) < ACC / 2 then ToULong(n) else ToULong(n) - ACC
  }

  function ToUShort(n: Num): int {
    n.d3
  }

  function ToShort(n: Num): int {
    if n.d3 < BASE / 2 then n.d3 else n.d3 - BASE
  }

  /** DLONG_SGN */
  function Sgn(n: Num): int {
    if n.d3 == 0 && n.d2 == 0 && n.d1 == 0 && n.d0 == 0 then 0
    else if n.d0 >= BASE / 2 then -1
    else 1
  }

  // The composite operations, which skip the high digits when they can.

  /** The digits that the code takes a scalar for: `top` twice, and the halves of the scalar. */
  function Scalar(x: int, negative: bool): Num {
    var top := if negative then BASE - 1 else 0;
    Num(top, top, (x / BASE) % BASE, x % BASE)
  }

  lemma ScalarIs(x: int, negative: bool)
    requires if negative then IsLong(x) && x < 0 else IsULong(x)
    ensures Scalar(x, negative).Valid()
    ensures Scalar(x, negative).Value() == if negative then x + TOP else x
  {
  }

  /** Adding the digits is adding the scalar, and so for subtracting. */
  lemma ScalarMod(v: int, x: int, negative: bool)
    requires if negative then IsLong(x) && x < 0 else IsULong(x)
    ensures (v + Scalar(x, negative).Value()) % TOP == (v + x) % TOP
    ensures (v - Scalar(x, negative).Value()) % TOP == (v - x) % TOP
  {
    ScalarIs(x, negative);
    ModPlus(v + x, if negative then 1 else 0);
    ModPlus(v - x, if negative then -1 else 0);
  }

  /** The two high digits, left alone when the sign digits and the carry cancel out. */
  method HighAddLong(result: DlongT, negative: bool, c2: int) returns (c1: int, c0: int)
    requires result.Valid() && 0 <= c2 <= 1
    modifies result`d0, result`d1
    ensures result.Valid()
    ensures result.d1 + c1 * BASE == old(result.d1) + (if negative then BASE - 1 else 0) + c2
    ensures result.d0 + c0 * BASE == old(result.d0) + (if negative then BASE - 1 else 0) + c1
  {
    var d;
    if !negative {
      c1, c0 := 0, 0;
      if c2 != 0 {
        d, c1 := Carry(result.d1 + 1);
        result.d1 := d;
        if c1 != 0 {
          d, c0 := Carry(result.d0 + 1);
          result.d0 := d;
        }
      }
    } else {
      c1, c0 := 1, 1;
      if c2 == 0 {
        d, c1 := Carry(result.d1 + (BASE - 1));
        result.d1 := d;
        if c1 == 0 {
          d, c0 := Carry(result.d0 + (BASE - 1));
          result.d0 := d;
        }
      }
    }
  }

  method AddLong(result: DlongT, x: int)
    requires result.Valid() && IsLong(x)
    modifies result
    ensures result.N() == Digits((old(result.N()).Value() + x) % TOP)
  {
    ghost var a, b := result.N(), Scalar(x, x < 0);
    var lo, hi := x % BASE, (x / BASE) % BASE;
    var d, c3 := Carry(result.d3 + lo);
    result.d3 := d;
    var c2;
    d, c2 := Carry(result.d2 + hi + c3);
    result.d2 := d;
    var c1, c0 := HighAddLong(result, x < 0, c2);
    SumSettles(result.N(), a, b, c3, c2, c1, c0);
    ScalarMod(a.Value(), x, x < 0);
  }

  /** The two high digits, touched only as far as the carry goes. */
  method HighCarry(result: DlongT, c2: int) returns (c1: int, c0: int)
    requires result.Valid() && 0 <= c2 <= 1
    modifies result`d0, result`d1
    ensures result.Valid()
    ensures result.d1 + c1 * BASE == old(result.d1) + c2 && result.d0 + c0 * BASE == old(result.d0) + c1
  {
    c1, c0 := 0, 0;
    if c2 != 0 {
      var d;
      d, c1 := Carry(result.d1 + 1);
      result.d1 := d;
      if c1 != 0 {
        d, c0 := Carry(result.d0 + 1);
        result.d0 := d;
      }
    }
  }

  method AddULong(result: DlongT, x: int)
    requires result.Valid() && IsULong(x)
    modifies result
    ensures result.N() == Digits((old(result.N()).Value() + x) % TOP)
  {
    ghost var a, b := result.N(), Scalar(x, false);
    var lo, hi := x % BASE, (x / BASE) % BASE;
    var d, c3 := Carry(result.d3 + lo);
    result.d3 := d;
    var c2, c1, c0;
    d, c2 := Carry(result.d2 + hi + c3);
    result.d2 := d;
    c1, c0 := HighCarry(result, c2);
    SumSettles(result.N(), a, b, c3, c2, c1, c0);
    ScalarMod(a.Value(), x, false);
  }

  /** The two high digits, left alone when the sign digits and the borrow cancel out. */
  method HighSubLong(result: DlongT, negative: bool, c2: int) returns (c1: int, c0: int)
    requires result.Valid() && 0 <= c2 <= 1
    modifies result`d0, result`d1
    ensures result.Valid()
    ensures result.d1 - c1 * BASE == old(result.d1) - (if negative then BASE - 1 else 0) - c2
    ensures result.d0 - c0 * BASE == old(result.d0) - (if negative then BASE - 1 else 0) - c1
  {
    var d;
    if !negative {
      c1, c0 := 0, 0;
      if c2 != 0 {
        d, c1 := Borrow(result.d1 - 1);
        result.d1 := d;
        if c1 != 0 {
          d, c0 := Borrow(result.d0 - 1);
          result.d0 := d;
        }
      }
    } else {
      c1, c0 := 1, 1;
      if c2 == 0 {
        d, c1 := Borrow(result.d1 - (BASE - 1));
        result.d1 := d;
        if c1 == 0 {
          d, c0 := Borrow(result.d0 - (BASE - 1));
          result.d0 := d;
        }
      }
    }
  }

  method SubLong(result: DlongT, x: int)
    requires result.Valid() && IsLong(x)
    modifies result
    ensures result.N() == Digits((old(result.N()).Value() - x) % TOP)
  {
    ghost var a, b := result.N(), Scalar(x, x < 0);
    var lo, hi := x % BASE, (x / BASE) % BASE;
    var d, c3 := Borrow(result.d3 - lo);
    result.d3 := d;
    var c2;
    d, c2 := Borrow(result.d2 - hi - c3);
    result.d2 := d;
    var c1, c0 := HighSubLong(result, x < 0, c2);
    DifferenceSettles(result.N(), a, b, c3, c2, c1, c0);
    ScalarMod(a.Value(), x, x < 0);
  }

  /** The two high digits, touched only as far as the borrow goes. */
  method HighBorrow(result: DlongT, c2: int) returns (c1: int, c0: int)
    requires result.Valid() && 0 <= c2 <= 1
    modifies result`d0, result`d1
    ensures result.Valid()
    ensures result.d1 - c1 * BASE == old(result.d1) - c2 && result.d0 - c0 * BASE == old(result.d0) - c1
  {
    c1, c0 := 0, 0;
    if c2 != 0 {
      var d;
      d, c1 := Borrow(result.d1 - 1);
      result.d1 := d;
      if c1 != 0 {
        d, c0 := Borrow(result.d0 - 1);
        result.d0 := d;
      }
    }
  }

  method SubULong(result: DlongT, x: int)
    requires result.Valid() && IsULong(x)
    modifies result
    ensures result.N() == Digits((old(result.N()).Value() - x) % TOP)
  {
    ghost var a, b := result.N(), Scalar(x, false);
    var lo, hi := x % BASE, (x / BASE) % BASE;
    var d, c3 := Borrow(result.d3 - lo);
    result.d3 := d;
    var c2, c1, c0;
    d, c2 := Borrow(result.d2 - hi - c3);
    result.d2 := d;
    c1, c0 := HighBorrow(result, c2);
    DifferenceSettles(result.N(), a, b, c3, c2, c1, c0);
    ScalarMod(a.Value(), x, false);
  }

  // Laws.

  lemma ModAdd(a: int, x: int)
    ensures (a + x % TOP) % TOP == (a + x) % TOP
    ensures (a - x % TOP) % TOP == (a - x) % TOP
  {
    ModPlus(a + x % TOP, x / TOP);
    ModPlus(a - x % TOP, -(x / TOP));
    assert x == x % TOP + (x / TOP) * TOP;
  }

  /** The composite forms give the digits of converting the scalar and adding or subtracting. */
  lemma CompositeIsConvertThenOperate(n: Num, x: int)
    requires n.Valid() && (IsLong(x) || IsULong(x))
    ensures Digits((n.Value() + x) % TOP) == Digits((n.Value() + Digits(x % TOP).Value()) % TOP)
    ensures Digits((n.Value() - x) % TOP) == Digits((n.Value() - Digits(x % TOP).Value()) % TOP)
  {
    ModAdd(n.Value(), x);
  }

  lemma SubIsAddNeg(a: Num, b: Num)
    requires a.Valid() && b.Valid()
    ensures Digits((a.Value() - b.Value()) % TOP)
            == Digits((a.Value() + Digits((0 - b.Value()) % TOP).Value()) % TOP)
  {
    ModAdd(a.Value(), 0 - b.Value());
  }

  lemma AddThenSub(a: Num, b: Num)
    requires a.Valid() && b.Valid()
    ensures Digits((Digits((a.Value() + b.Value()) % TOP).Value() - b.Value()) % TOP) == a
  {
    InRange(a);
    ModAdd(0 - b.Value(), a.Value() + b.Value());
    DigitsUnique(a, a.Value());
  }

  /** Where the true sum fits in 64 bits signed, it is what the digits stand for. */
  lemma SignedAdd(a: Num, b: Num)
    requires a.Valid() && b.Valid()
    requires -(TOP / 2) <= a.Signed() + b.Signed() < TOP / 2
    ensures Digits((a.Value() + b.Value()) % TOP).Signed() == a.Signed() + b.Signed()
  {
    InRange(a);
    InRange(b);
    SignedMod(a.Value() + b.Value(), a.Signed() + b.Signed());
  }

  lemma SignedMod(v: int, s: int)
    requires -(TOP / 2) <= s < TOP / 2 && (v == s || v == s + TOP || v == s + 2 * TOP)
    ensures Digits(v % TOP).Signed() == s
  {
  }

  lemma RoundTrips(x: int)
    ensures IsLong(x) ==> ToLong(Digits(x % TOP)) == x && Digits(x % TOP).Signed() == x
    ensures IsULong(x) ==> ToULong(Digits(x % TOP)) == x && Digits(x % TOP).Value() == x
    ensures IsShort(x) ==> ToShort(Digits(x % TOP)) == x
    ensures IsUShort(x) ==> ToUShort(Digits(x % TOP)) == x
  {
  }

  /** Conversion to a scalar keeps the low bits. */
  lemma Truncates(n: Num)
    requires n.Valid()
    ensures ToULong(n) == n.Value() % ACC && ToUShort(n) == n.Value() % BASE
  {
    Tail((n.d0 * BASE + n.d1) * BASE + n.d2, n.d3);
    TailAcc(n.d0 * BASE + n.d1, ToULong(n));
  }

  lemma TailAcc(q: int, r: int)
    requires 0 <= r < ACC
    ensures (q * ACC + r) % ACC == r
  {
  }

  lemma SgnIsSign(n: Num)
    requires n.Valid()
    ensures Sgn(n) == if n.Signed() > 0 then 1 else if n.Signed() == 0 then 0 else -1
  {
    InRange(n);
  }
}
