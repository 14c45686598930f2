/** The PMIC clock divider: rates rounded to a power-of-two divider, and the divider programmed only
    while the output is off. Rates are 32-bit unsigned, as on this machine, and a rounded rate is
    returned as a 32-bit signed number. */
module ClkDiv {
  import opened Arithmetic

  const ULONG_LIMIT := 0x1_0000_0000
  const LONG_LIMIT := 0x8000_0000
  const DIV_MASK: bv8 := 0x07
  const EN_MASK: bv8 := 0x80
  const MAX_FACTOR := 7

  // ----- Dividers and factors -----

  /** The position of the highest set bit; -1 for zero. */
  function Ilog2(n: nat): (r: int)
    ensures -1 <= r
  {
    if n == 0 then -1 else 1 + Ilog2(n / 2)
  }

  function DivToFactor(div: nat): (f: nat)
    ensures f <= MAX_FACTOR
  {
    if Ilog2(div) + 1 < MAX_FACTOR then Ilog2(div) + 1 else MAX_FACTOR
  }

  function FactorToDiv(factor: nat): (d: nat)
    ensures d >= 1
  {
    Pow2((if factor == 0 then 1 else factor) - 1)
  }

  /** Unsigned division. */
  function Quot(n: nat, d: nat): (q: int)
    requires d > 0
    ensures q >= 0
  {
    n / d
  }

  lemma QuotBounds(n: nat, d: nat)
    requires d > 0
    ensures Quot(n, d) * d <= n < Quot(n, d) * d + d
  {
  }

  /** DIV_ROUND_UP on unsigned long: the sum may wrap. */
  function DivRoundUp(n: nat, d: nat): nat
    requires d > 0
  {
    Quot((n + d - 1) % ULONG_LIMIT, d)
  }

  /** An unsigned long returned as a long, and the reverse. */
  function ToLong(q: nat): int {
    if q % ULONG_LIMIT < LONG_LIMIT then q % ULONG_LIMIT else q % ULONG_LIMIT - ULONG_LIMIT
  }

  function ToUlong(r: int): nat {
    r % ULONG_LIMIT
  }

  /** The parent's rate divided by the divider chosen for a rate. */
  function RoundQuot(rate: nat, parent: nat): nat
    requires 0 < rate < ULONG_LIMIT && parent < ULONG_LIMIT
  {
    Quot(parent, FactorToDiv(DivToFactor(DivRoundUp(parent, rate))))
  }

  function RoundRate(rate: nat, parent: nat): int
    requires 0 < rate < ULONG_LIMIT && parent < ULONG_LIMIT
  {
    ToLong(RoundQuot(rate, parent))
  }

  /** The factor set_rate programs. */
  function RateFactor(rate: nat, parent: nat): (f: nat)
    requires 0 < rate
    ensures f <= MAX_FACTOR
  {
    DivToFactor(Quot(parent, rate))
  }

  function RecalcRate(factor: nat, parent: nat): nat {
    Quot(parent, FactorToDiv(factor))
  }

  // ----- What rounding does -----

  lemma {:induction false} Ilog2Is(n: nat, k: nat)
    requires Pow2(k) <= n < 2 * Pow2(k)
    ensures Ilog2(n) == k
    decreases k
  {
    if k > 0 {
      Ilog2Is(n / 2, k - 1);
    }
  }

  lemma {:induction false} Ilog2Bounds(n: nat)
    requires n > 0
    ensures Ilog2(n) >= 0 && Pow2(Ilog2(n)) <= n < 2 * Pow2(Ilog2(n))
  {
    if n > 1 {
      Ilog2Bounds(n / 2);
    }
  }

  lemma {:induction false} Pow2Monotone(j: nat, k: nat)
    requires j <= k
    ensures Pow2(j) <= Pow2(k)
    decreases k
  {
    if j < k {
      Pow2Monotone(j, k - 1);
    }
  }

  /** d is the divider for a quotient q: the largest power of two not above it, but at most 64. */
  ghost predicate IsDivider(d: nat, q: nat) {
    exists j: nat :: j <= 6 && d == Pow2(j) && (d <= q || j == 0) && (j < 6 ==> q < 2 * d)
  }

  lemma DividerFor(q: nat)
    ensures IsDivider(FactorToDiv(DivToFactor(q)), q)
  {
    if q > 0 {
      Ilog2Bounds(q);
      var k: nat := Ilog2(q);
      if k > 6 {
        Pow2Monotone(6, k);
      }
      assert FactorToDiv(DivToFactor(q)) == Pow2(if k < 6 then k else 6);
    } else {
      assert FactorToDiv(DivToFactor(0)) == Pow2(0);
    }
  }

  /** The factors and their dividers, as the hardware has them. */
  lemma FactorTable()
    ensures FactorToDiv(0) == 1 && FactorToDiv(1) == 1 && FactorToDiv(2) == 2 && FactorToDiv(3) == 4
    ensures FactorToDiv(4) == 8 && FactorToDiv(5) == 16 && FactorToDiv(6) == 32 && FactorToDiv(7) == 64
  {
    assert Pow2(3) == 8;
  }

  /** The factor programmed for a rate: its divider is the largest of those not above the quotient, which is rounded
      down; and it is 0 if and only if the rate is above the parent's. */
  lemma RateFactorIs(rate: nat, parent: nat)
    requires 0 < rate
    ensures IsDivider(FactorToDiv(RateFactor(rate, parent)), parent / rate)
    ensures RateFactor(rate, parent) == 0 <==> parent < rate
  {
    DividerFor(Quot(parent, rate));
    if parent >= rate {
      QuotBetween(parent, rate, 1, parent + 1) by { ProductMonotone(1, rate, parent + 1); }
      Ilog2Bounds(Quot(parent, rate));
    } else {
      QuotBetween(parent, rate, 0, 1);
    }
  }

  /** Any quotient between a divider and twice it gives that divider again; above 64 any does. */
  lemma SameDivider(j: nat, q: nat)
    requires j <= 6 && Pow2(j) <= q && (j < 6 ==> q < 2 * Pow2(j))
    ensures FactorToDiv(DivToFactor(q)) == Pow2(j)
  {
    if j < 6 {
      Ilog2Is(q, j);
    } else {
      Ilog2Bounds(q);
      var k: nat := Ilog2(q);
      if k < 6 {
        Pow2Monotone(k + 1, 6);
      }
    }
  }

  lemma QuotBetween(n: nat, r: nat, lo: nat, hi: nat)
    requires r > 0 && lo * r <= n < hi * r
    ensures lo <= Quot(n, r) < hi
  {
    QuotBounds(n, r);
    var q: nat := Quot(n, r);
    if q < lo {
      ProductMonotone(q + 1, lo, r);
    } else if q >= hi {
      ProductMonotone(hi, q, r);
    }
  }

  lemma SumBelowProduct(r: nat, d: nat)
    requires r > 0 && d > 0
    ensures r + d - 1 <= r * d
  {
    ProductMonotone(1, d, r - 1);
    assert r * d == d * (r - 1) + d;
  }

  lemma RoundedPositive(parent: nat, d: nat)
    requires 0 < d <= parent
    ensures 0 < Quot(parent, d) <= parent
  {
    ProductMonotone(1, d, parent + 1);
    QuotBetween(parent, d, 1, parent + 1);
  }

  /** Dividing the parent by a rounded rate gives its divider back, and less than twice that even when rounding up. */
  lemma RoundedQuotient(parent: nat, d: nat)
    requires 0 < d <= parent
    ensures 0 < Quot(parent, d) <= parent
    ensures var r: nat := Quot(parent, d); d <= Quot(parent, r) < 2 * d && d <= Quot(parent + r - 1, r) < 2 * d
  {
    RoundedPositive(parent, d);
    QuotBounds(parent, d);
    var r: nat := Quot(parent, d);
    var p := r * d;
    assert p <= parent < p + d;
    SumBelowProduct(r, d);
    assert d * r == p && (2 * d) * r == 2 * p by { Commutes(d, r); }
    QuotBetween(parent, r, d, 2 * d);
    QuotBetween(parent + r - 1, r, d, 2 * d);
  }

  lemma Commutes(d: nat, r: nat)
    ensures d * r == r * d && (2 * d) * r == 2 * (r * d)
  {
  }

  lemma CeilingAtMost(parent: nat, rate: nat)
    requires 0 < rate && 0 < parent
    ensures 1 <= Quot(parent + rate - 1, rate) <= parent
  {
    SumBelowProduct(parent, rate);
    assert parent + rate - 1 < (parent + 1) * rate by { assert (parent + 1) * rate == parent * rate + rate; }
    QuotBetween(parent + rate - 1, rate, 1, parent + 1);
  }

  /** When the sum does not fit 32 bits the rounded quotient comes out as 0, and the parent's rate is returned. */
  lemma WrappedRound(rate: nat, parent: nat)
    requires 0 < rate < ULONG_LIMIT && parent < ULONG_LIMIT && parent + rate - 1 >= ULONG_LIMIT
    ensures RoundQuot(rate, parent) == parent
  {
    hide Quot;
    var n := (parent + rate - 1) % ULONG_LIMIT;
    assert n == parent + rate - 1 - ULONG_LIMIT < rate;
    QuotBetween(n, rate, 0, 1);
    assert Ilog2(0) == -1 && Pow2(0) == 1;
    QuotBetween(parent, 1, parent, parent + 1);
  }

  lemma PlainRound(rate: nat, parent: nat)
    requires 0 < rate < ULONG_LIMIT && parent < ULONG_LIMIT && parent + rate - 1 < ULONG_LIMIT
    ensures RoundQuot(rate, parent) == Quot(parent, FactorToDiv(DivToFactor(Quot(parent + rate - 1, rate))))
  {
    hide Quot, FactorToDiv, DivToFactor;
    assert (parent + rate - 1) % ULONG_LIMIT == parent + rate - 1;
  }

  /** Every rate is rounded to the parent divided by a power of two up to 64: the largest not above the
      quotient of parent and rate, rounded up. The result is a rate the divider can produce. */
  lemma RoundRateIs(rate: nat, parent: nat) returns (j: nat)
    requires 0 < rate < ULONG_LIMIT && 0 < parent < ULONG_LIMIT
    ensures j <= 6 && Pow2(j) <= parent && RoundQuot(rate, parent) == Quot(parent, Pow2(j))
    ensures 0 < Quot(parent, Pow2(j)) <= parent && RoundRate(rate, parent) == ToLong(Quot(parent, Pow2(j)))
    ensures parent + rate - 1 < ULONG_LIMIT ==> IsDivider(Pow2(j), Quot(parent + rate - 1, rate))
    ensures parent + rate - 1 >= ULONG_LIMIT ==> j == 0
  {
    hide Quot, RoundQuot, FactorToDiv, DivToFactor, Ilog2, ToLong;
    if parent + rate - 1 >= ULONG_LIMIT {
      WrappedRound(rate, parent);
      QuotBetween(parent, 1, parent, parent + 1);
      j := 0;
    } else {
      var q: nat := Quot(parent + rate - 1, rate);
      CeilingAtMost(parent, rate);
      PlainRound(rate, parent);
      DividerFor(q);
      var d := FactorToDiv(DivToFactor(q));
      j :| j <= 6 && d == Pow2(j) && (d <= q || j == 0) && (j < 6 ==> q < 2 * d);
    }
    RoundedPositive(parent, Pow2(j));
  }

  lemma LongOf(q: nat)
    requires q < ULONG_LIMIT
    ensures ToUlong(ToLong(q)) == q && (ToLong(q) >= 0 <==> q < LONG_LIMIT)
    ensures q < LONG_LIMIT ==> ToLong(q) == q
  {
  }

  /** The divider is 1 if and only if the rate is at least the parent's or the sum wraps. */
  lemma UndividedExactly(rate: nat, parent: nat, j: nat)
    requires 0 < rate < ULONG_LIMIT && 0 < parent < ULONG_LIMIT && j <= 6
    requires parent + rate - 1 < ULONG_LIMIT ==> IsDivider(Pow2(j), Quot(parent + rate - 1, rate))
    requires parent + rate - 1 >= ULONG_LIMIT ==> j == 0
    ensures j == 0 <==> rate >= parent || parent + rate - 1 >= ULONG_LIMIT
  {
    hide Quot;
    if parent + rate - 1 < ULONG_LIMIT {
      CeilingAtMost(parent, rate);
      var q: nat := Quot(parent + rate - 1, rate);
      if rate >= parent {
        QuotBetween(parent + rate - 1, rate, 1, 2);
      } else {
        QuotBetween(parent + rate - 1, rate, 2, parent + 1) by {
          CeilingBelow(rate, parent);
        }
      }
      DividerIsOne(j, q);
    }
  }

  lemma CeilingBelow(rate: nat, parent: nat)
    requires 0 < rate && 0 < parent
    ensures parent + rate - 1 < (parent + 1) * rate
  {
    SumBelowProduct(parent, rate);
    assert (parent + 1) * rate == parent * rate + rate;
  }

  lemma DividerIsOne(j: nat, q: nat)
    requires j <= 6 && q > 0 && IsDivider(Pow2(j), q)
    ensures j == 0 <==> q == 1
  {
    var k: nat :| k <= 6 && Pow2(j) == Pow2(k) && (Pow2(j) <= q || k == 0) && (k < 6 ==> q < 2 * Pow2(j));
    if j > 0 { Pow2Monotone(1, j); }
    if k > 0 { Pow2Monotone(1, k); }
    assert Pow2(0) == 1 && Pow2(1) == 2;
  }

  /** The rounded rate comes back negative, which its caller takes for an error, if and only if the parent's rate does
      not fit a signed long and is not divided. */
  lemma NegativeExactly(rate: nat, parent: nat)
    requires 0 < rate < ULONG_LIMIT && 0 < parent < ULONG_LIMIT
    ensures RoundRate(rate, parent) != 0
    ensures RoundRate(rate, parent) < 0 <==> RoundQuot(rate, parent) >= LONG_LIMIT
    ensures RoundRate(rate, parent) < 0 <==> parent >= LONG_LIMIT && (rate >= parent || parent + rate - 1 >= ULONG_LIMIT)
    ensures RoundRate(rate, parent) < 0 ==> RoundQuot(rate, parent) == parent
  {
    hide Quot, RoundQuot, ToLong, ToUlong;
    var j := RoundRateIs(rate, parent);
    var q: nat := Quot(parent, Pow2(j));
    LongOf(q);
    UndividedExactly(rate, parent, j);
    if j == 0 {
      assert Pow2(0) == 1;
      QuotBetween(parent, 1, parent, parent + 1);
    } else {
      Pow2Monotone(1, j);
      assert Pow2(1) == 2;
      HalfAtMost(parent, Pow2(j));
    }
  }

  lemma HalfAtMost(parent: nat, d: nat)
    requires d >= 2 && parent < ULONG_LIMIT
    ensures Quot(parent, d) < LONG_LIMIT
  {
    ProductMonotone(2, d, LONG_LIMIT);
    assert LONG_LIMIT * d == d * LONG_LIMIT;
    QuotBetween(parent, d, 0, LONG_LIMIT);
  }

  /** Setting a rounded rate and reading it back gives exactly the rounded rate, if and only if it was not negative. */
  lemma RoundedIsExact(rate: nat, parent: nat)
    requires 0 < rate < ULONG_LIMIT && 0 < parent < ULONG_LIMIT
    ensures var r := RoundRate(rate, parent);
      && 0 < ToUlong(r) <= parent && ToUlong(r) == RoundQuot(rate, parent)
      && (r > 0 <==> RoundQuot(rate, parent) < LONG_LIMIT)
      && (r > 0 ==> ToUlong(r) == r)
      && (RecalcRate(RateFactor(ToUlong(r), parent), parent) == r <==> r > 0)
  {
    hide Quot, ToLong, ToUlong;
    var j := RoundRateIs(rate, parent);
    var q: nat := Quot(parent, Pow2(j));
    LongOf(q);
    RoundedQuotient(parent, Pow2(j));
    SameDivider(j, Quot(parent, q));
  }

  /** The unsigned long of a rounded rate rounds to the same again if and only if the sum made to round up fits 32 bits,
      or the rate was the parent's anyway. */
  lemma RoundingIdempotent(rate: nat, parent: nat)
    requires 0 < rate < ULONG_LIMIT && 0 < parent < ULONG_LIMIT
    ensures var r := RoundRate(rate, parent);
      && 0 < ToUlong(r) < ULONG_LIMIT
      && (RoundRate(ToUlong(r), parent) == r <==> parent + ToUlong(r) - 1 < ULONG_LIMIT || ToUlong(r) == parent)
  {
    RoundedIsExact(rate, parent);
    var q := ToUlong(RoundRate(rate, parent));
    QuotIdempotent(rate, parent);
    RoundedIsExact(q, parent);
    hide ToLong, RoundQuot, ToUlong;
    assert RoundRate(q, parent) == ToLong(RoundQuot(q, parent)) && RoundRate(rate, parent) == ToLong(q);
  }

  lemma QuotIdempotent(rate: nat, parent: nat)
    requires 0 < rate < ULONG_LIMIT && 0 < parent < ULONG_LIMIT
    ensures var q := RoundQuot(rate, parent);
      0 < q <= parent && (RoundQuot(q, parent) == q <==> parent + q - 1 < ULONG_LIMIT || q == parent)
  {
    hide Quot, ToLong;
    var j := RoundRateIs(rate, parent);
    var q := RoundQuot(rate, parent);
    RoundedQuotient(parent, Pow2(j));
    if parent + q - 1 < ULONG_LIMIT {
      PlainRound(q, parent);
      SameDivider(j, Quot(parent + q - 1, q));
    } else {
      WrappedRound(q, parent);
    }
  }

  /** A parent of at most half the range never wraps, and its rounded rates are positive, with one exception: the
      parent 2^31 undivided. */
  lemma IdempotentBelowHalf(rate: nat, parent: nat)
    requires 0 < rate < ULONG_LIMIT && 0 < parent <= ULONG_LIMIT / 2
    ensures ToUlong(RoundRate(rate, parent)) > 0 && RoundRate(ToUlong(RoundRate(rate, parent)), parent) == RoundRate(rate, parent)
    ensures RoundRate(rate, parent) > 0 <==> !(parent == LONG_LIMIT && rate >= parent)
  {
    hide Quot, RoundQuot, RoundRate, ToUlong;
    RoundedIsExact(rate, parent);
    RoundingIdempotent(rate, parent);
    NegativeExactly(rate, parent);
  }

  /** The largest parent: the slowest rate rounds to a 64th of it, and that rounds to the parent itself, returned as -1. */
  lemma WrapBreaksIdempotence()
    ensures RoundRate(1, 0xFFFF_FFFF) == 0x3FF_FFFF && RoundRate(0x3FF_FFFF, 0xFFFF_FFFF) == -1
  {
    var parent := 0xFFFF_FFFF;
    QuotBetween(parent, 1, parent, parent + 1);
    assert Pow2(6) == 64 by { assert Pow2(3) == 8; }
    SameDivider(6, parent);
    QuotBetween(parent, 64, 0x3FF_FFFF, 0x400_0000);
    WrappedRound(0x3FF_FFFF, parent);
  }

  /** A parent of 2^31 asked for its own rate: the divider would give it, but what is returned is -2^31. */
  lemma LargeRateIsNegative()
    ensures RoundQuot(LONG_LIMIT, LONG_LIMIT) == LONG_LIMIT && RoundRate(LONG_LIMIT, LONG_LIMIT) == -LONG_LIMIT
  {
    NegativeExactly(LONG_LIMIT, LONG_LIMIT);
  }

  // ----- The registers -----

  datatype Reg = DivCtl | EnCtl

  /** A register write, whether it went through, and whether the output was enabled when it was made. */
  datatype Write = Write(reg: Reg, ok: bool, enabled: bool)

  const EIO := -5

  /** The field under the mask replaced, the other bits kept. */
  function UpdateBits(was: bv8, mask: bv8, val: bv8): bv8 {
    (was & !mask) | (val & mask)
  }

  function Field(factor: nat): bv8
    requires factor <= MAX_FACTOR
  {
    factor as bv8
  }

  function FactorIn(divCtl: bv8): nat {
    (divCtl & DIV_MASK) as nat
  }

  lemma FactorReadsBack(divCtl: bv8, factor: nat)
    requires factor <= MAX_FACTOR
    ensures FactorIn(UpdateBits(divCtl, DIV_MASK, Field(factor))) == factor
  {
    var f := Field(factor);
    assert f <= 7;
    assert UpdateBits(divCtl, DIV_MASK, f) & DIV_MASK == f;
    assert f as nat == factor;
  }

  /** The registers bit by bit: the factor is in the low three bits, the output enable in the top one, and an update
      of either leaves the others alone. */
  lemma FieldsInPlace(was: bv8, factor: nat)
    requires factor <= 7
    ensures var now := UpdateBits(was, DIV_MASK, Field(factor));
      now & 0xF8 == was & 0xF8 && (now & 0x07) as nat == factor && FactorIn(now) == factor
    ensures UpdateBits(was, EN_MASK, EN_MASK) == was | 0x80 && UpdateBits(was, EN_MASK, 0) == was & 0x7F
  {
    var f := Field(factor);
    FactorReadsBack(was, factor);
    OtherBits(was, f);
  }

  lemma OtherBits(was: bv8, f: bv8)
    ensures UpdateBits(was, DIV_MASK, f) & 0xF8 == was & 0xF8
    ensures UpdateBits(was, EN_MASK, EN_MASK) == was | 0x80 && UpdateBits(was, EN_MASK, 0) == was & 0x7F
  {
  }

  lemma UpdateTwice(was: bv8)
    requires was & EN_MASK != 0
    ensures UpdateBits(was, EN_MASK, 0) != was && UpdateBits(was, EN_MASK, 0) & EN_MASK == 0
    ensures UpdateBits(UpdateBits(was, EN_MASK, 0), EN_MASK, EN_MASK) == was
  {
  }

  class Divider {
    const bus: nat -> bool  // whether the n-th register access goes through
    var accesses: nat
    var divCtl: bv8
    var enCtl: bv8
    var writes: seq<Write>

    constructor (bus: nat -> bool, divCtl: bv8, enCtl: bv8)
      ensures this.bus == bus && this.divCtl == divCtl && this.enCtl == enCtl && accesses == 0 && writes == []
    {
      this.bus, this.divCtl, this.enCtl, accesses, writes := bus, divCtl, enCtl, 0, [];
    }

    predicate Enabled()
      reads this
    {
      enCtl & EN_MASK != 0
    }

    ghost predicate FailedSince(n: nat)
      reads this
    {
      exists i :: n <= i < accesses && !bus(i)
    }

    method Access() returns (ok: bool)
      modifies this`accesses
      ensures accesses == old(accesses) + 1 && ok == bus(old(accesses))
    {
      ok := bus(accesses);
      accesses := accesses + 1;
    }

    /** A failed read counts as disabled. */
    method IsEnabled() returns (enabled: bool)
      modifies this`accesses
      ensures accesses == old(accesses) + 1 && enabled == (bus(old(accesses)) && Enabled())
    {
      var ok := Access();
      enabled := ok && Enabled();
    }

    /** regmap_update_bits on the enable bit: read, and write only what changes. */
    method UpdateEnable(enable: bool) returns (ret: int)
      modifies this`accesses, this`enCtl, this`writes
      ensures old(accesses) < accesses && (ret == 0 || ret == EIO)
      ensures ret != 0 <==> FailedSince(old(accesses))
      ensures enCtl == if ret == 0 then UpdateBits(old(enCtl), EN_MASK, if enable then EN_MASK else 0) else old(enCtl)
      ensures writes == old(writes) +
        if bus(old(accesses)) && enable != old(Enabled()) then [Write(EnCtl, ret == 0, old(Enabled()))] else []
    {
      var ok := Access();
      if !ok {
        return EIO;
      }
      var val := UpdateBits(enCtl, EN_MASK, if enable then EN_MASK else 0);
      assert val != enCtl <==> enable != Enabled();
      if val != enCtl {
        ok := Access();
        writes := writes + [Write(EnCtl, ok, Enabled())];
        if !ok {
          return EIO;
        }
        enCtl := val;
      }
      ret := 0;
    }

    /** And on the factor. */
    method UpdateFactor(factor: nat) returns (ret: int)
      requires factor <= MAX_FACTOR
      modifies this`accesses, this`divCtl, this`writes
      ensures old(accesses) < accesses && (ret == 0 || ret == EIO)
      ensures ret != 0 <==> FailedSince(old(accesses))
      ensures divCtl == if ret == 0 then UpdateBits(old(divCtl), DIV_MASK, Field(factor)) else old(divCtl)
      ensures writes == old(writes) +
        if bus(old(accesses)) && UpdateBits(old(divCtl), DIV_MASK, Field(factor)) != old(divCtl) then [Write(DivCtl, ret == 0, Enabled())] else []
    {
      var ok := Access();
      if !ok {
        return EIO;
      }
      var val := UpdateBits(divCtl, DIV_MASK, Field(factor));
      if val != divCtl {
        ok := Access();
        writes := writes + [Write(DivCtl, ok, Enabled())];
        if !ok {
          return EIO;
        }
        divCtl := val;
      }
      ret := 0;
    }

    /** Switch the output off before a change of factor; the factor is read for the delay alone. */
    method Disable() returns (ret: int)
      modifies this`accesses, this`enCtl, this`writes
      ensures old(accesses) < accesses && (ret == 0 || ret == EIO)
      ensures ret != 0 ==> FailedSince(old(accesses)) && enCtl == old(enCtl)
      ensures ret == 0 ==> enCtl == UpdateBits(old(enCtl), EN_MASK, 0)
      ensures old(writes) <= writes && forall i :: |old(writes)| <= i < |writes| ==> writes[i].reg == EnCtl
    {
      var _ := Access();
      ret := UpdateEnable(false);
    }

    ghost predicate WroteWhileEnabled(n: nat)
      reads this
    {
      exists i :: n <= i < |writes| && writes[i].reg == DivCtl && writes[i].enabled
    }

    /** Program the divider for a rate. On success the factor is in, and every other bit, the enable bit among them, is
        as before; a failure leaves things as they were, except that past the first write the output stays off. The
        divider is written while the output is enabled if and only if reading the enable bit failed and the update
        then went on to change the factor. */
    method SetRate(rate: nat, parent: nat) returns (ret: int)
      requires 0 < rate
      modifies this`accesses, this`divCtl, this`enCtl, this`writes
      ensures old(writes) <= writes && old(accesses) < accesses
      ensures WroteWhileEnabled(|old(writes)|) <==>
        && old(Enabled()) && !bus(old(accesses)) && bus(old(accesses) + 1)
        && UpdateBits(old(divCtl), DIV_MASK, Field(RateFactor(rate, parent))) != old(divCtl)
      ensures ret == 0 ==> enCtl == old(enCtl) && divCtl == UpdateBits(old(divCtl), DIV_MASK, Field(RateFactor(rate, parent)))
      ensures ret == 0 ==> FactorIn(divCtl) == RateFactor(rate, parent)
      ensures ret == 0 || ret == EIO
      ensures ret != 0 ==> FailedSince(old(accesses) + 1)
      ensures ret != 0 && !old(Enabled()) ==> enCtl == old(enCtl) && divCtl == old(divCtl)
      ensures ret != 0 && old(Enabled()) ==> (enCtl == old(enCtl) && divCtl == old(divCtl)) || !Enabled()
    {
      hide UpdateBits, RateFactor, FactorIn;
      var factor := RateFactor(rate, parent);
      FactorReadsBack(divCtl, factor);
      var enabled := IsEnabled();
      if enabled {
        UpdateTwice(enCtl);
        ret := Disable();
        if ret != 0 {
          return;
        }
      }
      ghost var before := |writes|;
      assert enabled ==> !Enabled();
      ret := UpdateFactor(factor);
      assert |writes| > before ==> writes[before].reg == DivCtl && writes[before].enabled == Enabled();
      if ret != 0 {
        return;
      }
      if enabled {
        ret := UpdateEnable(true);
      }
    }

    function Recalc(parent: nat): nat
      reads this
    {
      RecalcRate(FactorIn(divCtl), parent)
    }

    /** What the clock framework does with a rate: round it, give up if that is negative, set it, read it back.
        The rate promised is the rate read. */
    method SetRoundedRate(rate: nat, parent: nat) returns (ret: int)
      requires 0 < rate < ULONG_LIMIT && 0 < parent < ULONG_LIMIT
      modifies this`accesses, this`divCtl, this`enCtl, this`writes
      ensures ret == 0 ==> RoundRate(rate, parent) > 0 && Recalc(parent) == RoundRate(rate, parent) && enCtl == old(enCtl)
      ensures RoundRate(rate, parent) < 0 ==> ret == RoundRate(rate, parent) && divCtl == old(divCtl) && enCtl == old(enCtl) && writes == old(writes)
    {
      hide RoundQuot, RecalcRate, RateFactor, FactorIn;
      RoundedIsExact(rate, parent);
      var r := RoundRate(rate, parent);
      if r < 0 {
        return r;
      }
      ret := SetRate(r, parent);
    }
  }

  /** A failed read of the enable bit, and the divider is written with the output on. */
  method WrittenWhileEnabled() returns (d: Divider, ret: int)
    ensures ret == 0 && d.Enabled() && d.WroteWhileEnabled(0)
  {
    d := new Divider(n => n > 0, 0, EN_MASK);
    assert Quot(64, 1) == 64;
    assert Pow2(6) == 64 by { assert Pow2(3) == 8; }
    Ilog2Is(64, 6);
    assert RateFactor(1, 64) == 7;
    ret := d.SetRate(1, 64);
    assert !d.FailedSince(1);
  }
}
