/** Bitwise arithmetic on 64-bit unsigned words, as numbers. */
module Bits {
  import opened Wrappers

  const WIDTH: nat := 64

  function Pow2(n: nat): (r: nat)
    ensures r > 0
  {
    if n == 0 then 1 else 2 * Pow2(n - 1)
  }

  const WORD: nat := TWO_TO_THE_64

  type Word64 = w: nat | w < WORD

  lemma {:induction false} Pow2Sum(j: nat, k: nat)
    ensures Pow2(j + k) == Pow2(j) * Pow2(k)
  {
    if k > 0 {
      Pow2Sum(j, k - 1);
      assert 2 * (Pow2(j) * Pow2(k - 1)) == Pow2(j) * (2 * Pow2(k - 1));
    }
  }

  lemma Pow2Twice(n: nat, p: nat)
    requires Pow2(n) == p
    ensures Pow2(n + n) == p * p
  {
    Pow2Sum(n, n);
  }

  lemma WordSize()
    ensures Pow2(WIDTH) == WORD
  {
    Pow2Twice(1, 2);
    Pow2Twice(2, 4);
    Pow2Twice(4, 0x10);
    Pow2Twice(8, 0x100);
    Pow2Twice(16, 0x1_0000);
    Pow2Twice(32, 0x1_0000_0000);
  }

  /** Bit `b` of a number, counting from the least significant. */
  predicate Test(x: nat, b: nat) {
    if b == 0 then x % 2 == 1 else Test(x / 2, b - 1)
  }

  /** `x & y` */
  function And(x: nat, y: nat): nat {
    if x == 0 || y == 0 then 0 else 2 * And(x / 2, y / 2) + if x % 2 + y % 2 == 2 then 1 else 0
  }

  /** `x | y` */
  function Or(x: nat, y: nat): nat {
    if x == 0 then y else if y == 0 then x else 2 * Or(x / 2, y / 2) + if x % 2 + y % 2 > 0 then 1 else 0
  }

  /** `~x` in a word */
  function Not(x: Word64): Word64 {
    WORD - 1 - x
  }

  lemma {:induction false} TestZero(b: nat)
    ensures !Test(0, b)
  {
    if b > 0 { TestZero(b - 1); }
  }

  lemma {:induction false} TestAnd(x: nat, y: nat, b: nat)
    ensures Test(And(x, y), b) == (Test(x, b) && Test(y, b))
  {
    TestZero(b);
    if b > 0 { TestAnd(x / 2, y / 2, b - 1); }
  }

  lemma {:induction false} TestOr(x: nat, y: nat, b: nat)
    ensures Test(Or(x, y), b) == (Test(x, b) || Test(y, b))
  {
    TestZero(b);
    if b > 0 { TestOr(x / 2, y / 2, b - 1); }
  }

  lemma ComplementHalves(q: nat, x: nat)
    requires x < 2 * q
    ensures (2 * q - 1 - x) / 2 == q - 1 - x / 2 && (2 * q - 1 - x) % 2 == 1 - x % 2
  {
  }

  lemma {:induction false} TestComplement(x: nat, n: nat, b: nat)
    requires b < n && x < Pow2(n)
    ensures Test(Pow2(n) - 1 - x, b) == !Test(x, b)
  {
    ComplementHalves(Pow2(n - 1), x);
    if b > 0 { TestComplement(x / 2, n - 1, b - 1); }
  }

  lemma TestNot(x: Word64, b: nat)
    requires b < WIDTH
    ensures Test(Not(x), b) == !Test(x, b)
  {
    WordSize();
    TestComplement(x, WIDTH, b);
  }

  lemma {:induction false} TestPow2(n: nat, b: nat)
    ensures Test(Pow2(n), b) == (b == n)
  {
    if b > 0 && n > 0 { TestPow2(n - 1, b - 1); }
    if n == 0 && b > 0 { TestZero(b - 1); }
  }

  /** A number with no bit set is zero. */
  lemma {:induction false} SomeBit(x: nat) returns (b: nat)
    requires x > 0
    ensures Test(x, b)
  {
    if x % 2 == 1 {
      b := 0;
    } else {
      b := SomeBit(x / 2);
      b := b + 1;
    }
  }

  /** `x & (1 << b)` tests bit `b`. */
  lemma TestIsAnd(x: nat, b: nat)
    ensures And(x, Pow2(b)) != 0 <==> Test(x, b)
  {
    TestAnd(x, Pow2(b), b);
    TestPow2(b, b);
    TestZero(b);
    if And(x, Pow2(b)) != 0 {
      var c := SomeBit(And(x, Pow2(b)));
      TestAnd(x, Pow2(b), c);
      TestPow2(b, c);
    }
  }

  /** `x | (1 << b)` sets bit `b` and no other. */
  lemma SetsOne(x: nat, b: nat, c: nat)
    ensures Test(Or(x, Pow2(b)), c) == (b == c || Test(x, c))
  {
    TestOr(x, Pow2(b), c);
    TestPow2(b, c);
  }

  /** `x & ~(1 << b)` clears bit `b` and no other. */
  lemma ClearsOne(x: nat, b: nat, c: nat)
    requires b < WIDTH && c < WIDTH && Pow2(b) < WORD
    ensures Test(And(x, Not(Pow2(b))), c) == (b != c && Test(x, c))
  {
    TestAnd(x, Not(Pow2(b)), c);
    TestNot(Pow2(b), c);
    TestPow2(b, c);
  }

  lemma {:induction false} Pow2Grows(b: nat, n: nat)
    requires b < n
    ensures Pow2(b) < Pow2(n)
  {
    if b < n - 1 { Pow2Grows(b, n - 1); }
  }

  lemma {:induction false} OrFits(x: nat, y: nat, n: nat)
    requires x < Pow2(n) && y < Pow2(n)
    ensures Or(x, y) < Pow2(n)
  {
    if x > 0 && y > 0 { OrFits(x / 2, y / 2, n - 1); }
  }

  lemma {:induction false} AndFits(x: nat, y: nat)
    ensures And(x, y) <= x
  {
    if x > 0 && y > 0 { AndFits(x / 2, y / 2); }
  }

  lemma BitFits(b: nat)
    requires b < WIDTH
    ensures Pow2(b) < WORD
  {
    Pow2Grows(b, WIDTH);
    WordSize();
  }

  /** `x | (1 << b)` in a word */
  function WithBit(x: Word64, b: nat): Word64
    requires b < WIDTH
  {
    BitFits(b);
    WordSize();
    OrFits(x, Pow2(b), WIDTH);
    Or(x, Pow2(b))
  }

  /** `x & ~(1 << b)` in a word */
  function WithoutBit(x: Word64, b: nat): Word64
    requires b < WIDTH
  {
    BitFits(b);
    AndFits(x, Not(Pow2(b)));
    And(x, Not(Pow2(b)))
  }

  // ---------------------------------------------------------------------------
  // Rounding
  // ---------------------------------------------------------------------------

  /** A multiple of `2^k`: its last `k` bits are zero. */
  predicate Aligned(x: nat, k: nat) {
    k == 0 || (x % 2 == 0 && Aligned(x / 2, k - 1))
  }

  lemma AlignedDouble(y: nat, k: nat)
    ensures Aligned(2 * y, k + 1) == Aligned(y, k)
  {
  }

  lemma {:induction false} MultipleIsAligned(q: nat, k: nat)
    ensures Aligned(q * Pow2(k), k)
  {
    if k > 0 {
      MultipleIsAligned(q, k - 1);
      AlignedDouble(q * Pow2(k - 1), k - 1);
      assert q * Pow2(k) == 2 * (q * Pow2(k - 1));
    }
  }

  lemma {:induction false} AlignedQuotient(x: nat, k: nat) returns (q: nat)
    requires Aligned(x, k)
    ensures x == q * Pow2(k)
  {
    if k == 0 {
      q := x;
    } else {
      q := AlignedQuotient(x / 2, k - 1);
      assert q * Pow2(k) == 2 * (q * Pow2(k - 1));
    }
  }

  lemma AlignedIsMultiple(x: nat, k: nat)
    ensures Aligned(x, k) <==> exists q: nat :: x == q * Pow2(k)
  {
    if Aligned(x, k) {
      var q := AlignedQuotient(x, k);
    }
    forall q: nat ensures Aligned(q * Pow2(k), k) {
      MultipleIsAligned(q, k);
    }
  }

  lemma {:induction false} AlignedApart(x: nat, y: nat, k: nat)
    requires Aligned(x, k) && Aligned(y, k) && x < y
    ensures x + Pow2(k) <= y
  {
    if k > 0 { AlignedApart(x / 2, y / 2, k - 1); }
  }

  lemma {:induction false} CoarserAligned(x: nat, j: nat, k: nat)
    requires j <= k && Aligned(x, k)
    ensures Aligned(x, j)
  {
    if j > 0 { CoarserAligned(x / 2, j - 1, k - 1); }
  }

  lemma {:induction false} Pow2Aligned(n: nat, k: nat)
    requires k <= n
    ensures Aligned(Pow2(n), k)
  {
    if k > 0 { Pow2Aligned(n - 1, k - 1); }
  }

  lemma {:induction false} AndAllOnes(x: nat, n: nat)
    requires x < Pow2(n)
    ensures And(x, Pow2(n) - 1) == x
  {
    if x > 0 { AndAllOnes(x / 2, n - 1); }
  }

  lemma AndEven(x: nat, y: nat)
    ensures And(x, 2 * y) == 2 * And(x / 2, y)
  {
  }

  /** Masking off the last `k` of `n` bits rounds down to a multiple of `2^k`. */
  lemma {:induction false} MaskRoundsDown(x: nat, k: nat, n: nat)
    requires k <= n && x < Pow2(n)
    ensures Pow2(k) <= Pow2(n)
    ensures var r := And(x, Pow2(n) - Pow2(k)); r <= x < r + Pow2(k) && Aligned(r, k)
  {
    if k == 0 {
      AndAllOnes(x, n);
    } else {
      MaskRoundsDown(x / 2, k - 1, n - 1);
      var mask := Pow2(n - 1) - Pow2(k - 1);
      assert Pow2(n) - Pow2(k) == 2 * mask;
      AndEven(x, mask);
      AlignedDouble(And(x / 2, mask), k - 1);
    }
  }

  /** `(x + 2^k - 1) & ~(2^k - 1)` is the least multiple of `2^k` from `x` on. */
  lemma MaskRoundsUp(x: nat, k: nat)
    requires k <= WIDTH && x + Pow2(k) - 1 < WORD
    ensures var r := And(x + Pow2(k) - 1, Not(Pow2(k) - 1));
            && x <= r < x + Pow2(k) && Aligned(r, k)
            && forall y: nat :: x <= y && Aligned(y, k) ==> r <= y
  {
    WordSize();
    MaskRoundsDown(x + Pow2(k) - 1, k, WIDTH);
    var r := And(x + Pow2(k) - 1, Not(Pow2(k) - 1));
    forall y: nat | x <= y && Aligned(y, k) ensures r <= y {
      if y < r { AlignedApart(y, r, k); }
    }
  }

  /** Flags below the alignment of an address can be or-ed in or added. */
  lemma {:induction false} OrIsSum(x: nat, y: nat, k: nat)
    requires Aligned(x, k) && y < Pow2(k)
    ensures Or(x, y) == x + y
  {
    if x > 0 && y > 0 { OrIsSum(x / 2, y / 2, k - 1); }
  }

  lemma {:induction false} AlignedTest(x: nat, k: nat, b: nat)
    requires Aligned(x, k) && b < k
    ensures !Test(x, b)
  {
    if b > 0 { AlignedTest(x / 2, k - 1, b - 1); }
  }
}
