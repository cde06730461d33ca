/** Numbers as lists of bits, most significant first. */
module Bits {
  import opened Sequences

  type Bit = b: nat | b < 2

  function Pow2(k: nat): (p: nat)
    ensures p > 0
  {
    if k == 0 then 1 else 2 * Pow2(k - 1)
  }

  /** The bits of `n` without leading zeros; none for 0. */
  function ToBits(n: nat): seq<Bit> {
    if n == 0 then [] else ToBits(n / 2) + [n % 2]
  }

  function FromBits(bits: seq<Bit>): nat {
    if bits == [] then 0 else 2 * FromBits(bits[..|bits| - 1]) + bits[|bits| - 1]
  }

  /** The low `k` bits of `n`. */
  function Fixed(n: nat, k: nat): (bits: seq<Bit>)
    ensures |bits| == k
  {
    if k == 0 then [] else Fixed(n / 2, k - 1) + [n % 2]
  }

  function Zeros(k: nat): (bits: seq<Bit>)
    ensures |bits| == k && forall i :: 0 <= i < k ==> bits[i] == 0
  {
    if k == 0 then [] else Zeros(k - 1) + [0]
  }

  lemma {:induction false} FromFixed(n: nat, k: nat)
    requires n < Pow2(k)
    ensures FromBits(Fixed(n, k)) == n
    decreases k
  {
    if k > 0 {
      FromFixed(n / 2, k - 1);
      assert Fixed(n, k)[..k - 1] == Fixed(n / 2, k - 1);
    }
  }

  lemma {:induction false} FixedFrom(bits: seq<Bit>)
    ensures FromBits(bits) < Pow2(|bits|) && Fixed(FromBits(bits), |bits|) == bits
    decreases |bits|
  {
    if bits != [] {
      FixedFrom(bits[..|bits| - 1]);
      assert bits == bits[..|bits| - 1] + [bits[|bits| - 1]];
    }
  }

  /** The bits of a number are those of its quotient followed by those of its remainder. */
  lemma {:induction false} FixedSplits(n: nat, q: nat, r: nat, j: nat, k: nat)
    requires n == q * Pow2(k) + r && r < Pow2(k)
    ensures Fixed(n, j + k) == Fixed(q, j) + Fixed(r, k)
    decreases k
  {
    if k == 0 {
      assert Fixed(n, j) + [] == Fixed(n, j);
    } else {
      Twice(q, Pow2(k - 1));
      FixedSplits(n / 2, q, r / 2, j, k - 1);
      FixedJoins(n, q, r, j, k);
    }
  }

  lemma {:induction false} FixedJoins(n: nat, q: nat, r: nat, j: nat, k: nat)
    requires k > 0 && r % 2 == n % 2
    requires Fixed(n / 2, j + (k - 1)) == Fixed(q, j) + Fixed(r / 2, k - 1)
    ensures Fixed(n, j + k) == Fixed(q, j) + Fixed(r, k)
  {
    Assoc(Fixed(q, j), Fixed(r / 2, k - 1), [n % 2]);
  }

  lemma {:induction false} Twice(x: nat, y: nat)
    ensures 2 * (x * y) == 2 * x * y == x * (2 * y)
  {
  }

  /** Padding the shortest form with zeros gives the fixed width. */
  lemma {:induction false} PaddedIsFixed(n: nat, k: nat)
    requires n < Pow2(k)
    ensures |ToBits(n)| <= k && Zeros(k - |ToBits(n)|) + ToBits(n) == Fixed(n, k)
    decreases k
  {
    if n == 0 {
      ZeroIsZeros(k);
      assert Zeros(k) + [] == Zeros(k);
    } else {
      PaddedIsFixed(n / 2, k - 1);
      assert Zeros(k - |ToBits(n)|) + ToBits(n) == (Zeros(k - |ToBits(n)|) + ToBits(n / 2)) + [n % 2];
    }
  }

  lemma {:induction false} ZeroIsZeros(k: nat)
    ensures Fixed(0, k) == Zeros(k)
    decreases k
  {
    if k > 0 {
      ZeroIsZeros(k - 1);
    }
  }

  lemma {:induction false} FromConcat(a: seq<Bit>, b: seq<Bit>)
    ensures FromBits(a + b) == FromBits(a) * Pow2(|b|) + FromBits(b)
    decreases |b|
  {
    if b == [] {
      assert a + b == a;
    } else {
      var k := |b| - 1;
      assert (a + b)[..|a + b| - 1] == a + b[..k];
      FromConcat(a, b[..k]);
      FromDoubled(FromBits(a), Pow2(k), FromBits(b[..k]), b[k]);
    }
  }

  lemma {:induction false} FromDoubled(x: nat, p: nat, y: nat, z: nat)
    ensures 2 * (x * p + y) + z == x * (2 * p) + (2 * y + z)
  {
  }

  lemma {:induction false} SplitAt2(n: nat, j: nat)
    ensures Fixed(n, j + 2) == Fixed(n / 4, j) + Fixed(n % 4, 2)
  {
    assert Pow2(2) == 4 by { assert Pow2(2) == 2 * Pow2(1); }
    FixedSplits(n, n / 4, n % 4, j, 2);
  }

  lemma {:induction false} SplitAt4(n: nat, j: nat)
    ensures Fixed(n, j + 4) == Fixed(n / 16, j) + Fixed(n % 16, 4)
  {
    assert Pow2(4) == 16 by { assert Pow2(4) == 2 * Pow2(3) && Pow2(2) == 2 * Pow2(1); }
    FixedSplits(n, n / 16, n % 16, j, 4);
  }

  lemma {:induction false} SplitAt6(n: nat, j: nat)
    ensures Fixed(n, j + 6) == Fixed(n / 64, j) + Fixed(n % 64, 6)
  {
    assert Pow2(6) == 64 by { assert Pow2(6) == 2 * Pow2(5) && Pow2(4) == 2 * Pow2(3) && Pow2(2) == 2 * Pow2(1); }
    FixedSplits(n, n / 64, n % 64, j, 6);
  }
}
