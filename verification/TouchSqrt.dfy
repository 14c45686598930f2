/** The touch controller's integer square root: bitwise, rounding to nearest, 32 bits in and 16 out. */
module TouchSqrt {
  import opened Arithmetic

  const Z_MIN_TO_SQRT := 2
  const U16_MAX := 0xFFFF
  const U32_LIMIT := 0x1_0000_0000

  /** x with one bit, given by its value, inverted. */
  function Toggle(x: nat, bit: nat): nat
    requires bit > 0
  {
    if x / bit % 2 == 0 then x + bit else x - bit
  }

  /** r is the integer nearest to the square root of num: num lies strictly between the squares of r - 1/2 and r + 1/2. */
  ghost predicate NearestRoot(num: nat, r: nat) {
    && 4 * num < (2 * r + 1) * (2 * r + 1)
    && (r > 0 ==> (2 * r - 1) * (2 * r - 1) < 4 * num)
  }

  lemma SquareMonotone(a: nat, b: nat)
    requires a <= b
    ensures a * a <= b * b
  {
    ProductMonotone(a, b, a);
    ProductMonotone(a, b, b);
  }

  /** Every number has exactly one nearest root: half-integers squared are never integers, so there are no ties. */
  lemma NearestRootUnique(num: nat, r: nat, q: nat)
    requires NearestRoot(num, r) && NearestRoot(num, q)
    ensures r == q
  {
    if r < q {
      SquareMonotone(2 * r + 1, 2 * q - 1);
    } else if q < r {
      SquareMonotone(2 * q + 1, 2 * r - 1);
    }
  }

  lemma ToggleClear(x: nat, bit: nat)
    requires bit > 0 && x % (2 * bit) == 0
    ensures Toggle(x, bit) == x + bit && Toggle(x + bit, bit) == x
    ensures x % bit == 0 && (x + bit) % bit == 0
  {
    var q := x / (2 * bit);
    assert x == 2 * bit * q;
    DivideMultiple(x, bit, 2 * q);
    DivideMultiple(x + bit, bit, 2 * q + 1);
  }

  lemma Remainder(d: nat, q: nat, t: int, r: int)
    requires t >= 0 && d * q == d * t + r
    ensures t < q ==> r >= d
    ensures t > q ==> r + d <= 0
  {
    if t < q {
      ProductMonotone(1, q - t, d);
    } else if t > q {
      ProductMonotone(1, t - q, d);
    }
  }

  lemma DivideMultiple(x: nat, d: nat, q: nat)
    requires d > 0 && x == d * q
    ensures x / d == q && x % d == 0
  {
    DivisionBounds(x, d);
    Remainder(d, q, x / d, x - d * (x / d));
  }

  lemma DivisionBounds(x: nat, d: nat)
    requires d > 0
    ensures x / d >= 0 && 0 <= x - d * (x / d) < d && x % d == x - d * (x / d)
  {
  }

  /** The last step: the larger of the two candidates is taken when it is nearer. */
  lemma RoundsToNearest(num: nat, g: nat)
    requires g * g <= num < (g + 1) * (g + 1)
    ensures NearestRoot(num, if num - g * g > g * g + 2 * g + 1 - num then g + 1 else g)
  {
  }

  /** For every 32-bit number, the integer nearest to its square root, or 65535 if that is less. */
  method Sqrt(num: nat) returns (r: nat)
    requires num < U32_LIMIT
    ensures r <= U16_MAX
    ensures NearestRoot(num, r) || (r == U16_MAX && NearestRoot(num, r + 1))
  {
    if num < Z_MIN_TO_SQRT {
      return num;
    }
    hide Bracketed, NearestRoot, Toggle;
    var mask: nat, guess: nat := 0x8000, 0;
    ghost var gap := 0x1_0000;
    BracketedAtFirst(num);
    while mask != 0
      invariant gap == (if mask == 0 then 1 else 2 * mask) && PowerOrZero(mask)
      invariant Bracketed(num, guess, gap)
      decreases mask
    {
      Halve(num, guess, mask);
      gap := mask;
      guess := Toggle(guess, mask);
      var prod := guess * guess;
      if num < prod {
        guess := Toggle(guess, mask);
      }
      PowerHalf(mask);
      mask := mask / 2;
    }
    BracketedByOne(num, guess);
    RoundsToNearest(num, guess);
    r := guess;
    if guess != U16_MAX {
      var prod := guess * guess;
      if num - prod > prod + 2 * guess + 1 - num {
        r := guess + 1;
      }
    }
  }

  /** The root of num is at least guess and less than guess + gap, and guess has no bit below gap. */
  ghost predicate Bracketed(num: nat, guess: nat, gap: nat) {
    && gap > 0 && guess % gap == 0 && guess + gap <= 0x10000
    && guess * guess <= num < (guess + gap) * (guess + gap)
  }

  lemma BracketedAtFirst(num: nat)
    requires num < U32_LIMIT
    ensures Bracketed(num, 0, 0x1_0000) && PowerOrZero(0x8000)
  {
    assert Pow2(15) == 0x8000 by { assert Pow2(8) == 256; }
  }

  lemma BracketedByOne(num: nat, guess: nat)
    requires Bracketed(num, guess, 1)
    ensures guess <= U16_MAX && guess * guess <= num < (guess + 1) * (guess + 1)
  {
  }

  /** The mask: a power of two, or 0 once it is shifted out. */
  ghost predicate PowerOrZero(mask: nat) {
    mask == 0 || exists k: nat :: mask == Pow2(k)
  }

  lemma PowerHalf(mask: nat)
    requires mask > 0 && PowerOrZero(mask)
    ensures PowerOrZero(mask / 2) && (mask / 2 > 0 ==> mask == 2 * (mask / 2)) && (mask / 2 == 0 ==> mask == 1)
  {
    var k: nat :| mask == Pow2(k);
    if k > 0 {
      assert mask / 2 == Pow2(k - 1);
    }
  }

  /** One probe: the bit is set, and cleared again if the square is too large. */
  lemma Halve(num: nat, guess: nat, bit: nat)
    requires bit > 0 && Bracketed(num, guess, 2 * bit)
    ensures Toggle(guess, bit) == guess + bit && Toggle(guess + bit, bit) == guess
    ensures Bracketed(num, if num < (guess + bit) * (guess + bit) then guess else guess + bit, bit)
  {
    ToggleClear(guess, bit);
    assert guess + 2 * bit == guess + bit + bit;
  }
}
