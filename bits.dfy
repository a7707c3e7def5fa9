/**
 * Unsigned bitwise AND on naturals, and the fact the shared-memory ring
 * relies on: masking with `n - 1` is reduction modulo `n` exactly when `n`
 * is a power of two.
 */
module Bits {

  /** `a & b`, bit by bit from the least significant bit. */
  function BitAnd(a: nat, b: nat): (r: nat)
    ensures r <= a && r <= b
  {
    if a == 0 || b == 0 then 0
    else 2 * BitAnd(a / 2, b / 2) + (if a % 2 == 1 && b % 2 == 1 then 1 else 0)
  }

  /** `n` is 2^k for some k. */
  predicate IsPow2(n: nat)
    decreases n
  {
    n == 1 || (n >= 2 && n % 2 == 0 && IsPow2(n / 2))
  }

  lemma MulAtLeast(n: int, k: int)
    requires n > 0 && k >= 1
    ensures n * k >= n
  {
    assert n * k == n * (k - 1) + n;
  }

  lemma DivModUnique(x: int, n: int, q: int, r: int)
    requires n > 0 && 0 <= r < n && x == n * q + r
    ensures x / n == q && x % n == r
  {
    var q', r' := x / n, x % n;
    assert x == n * q' + r';
    if q' < q {
      assert n * q == n * q' + n * (q - q');
      MulAtLeast(n, q - q');
      assert false;
    } else if q' > q {
      assert n * q' == n * q + n * (q' - q);
      MulAtLeast(n, q' - q);
      assert false;
    }
  }

  /** Removing the lowest bit commutes with reduction modulo an even modulus. */
  lemma HalveMod(x: nat, n: nat)
    requires n >= 2 && n % 2 == 0
    ensures x % n == 2 * ((x / 2) % (n / 2)) + x % 2
  {
    var h, q, b := n / 2, x / 2, x % 2;
    var t, s := q / h, q % h;
    assert x == 2 * q + b;
    assert q == h * t + s;
    assert x == n * t + (2 * s + b);
    DivModUnique(x, n, t, 2 * s + b);
  }

  /** The mask `n - 1` reduces modulo `n` whenever `n` is a power of two. */
  lemma {:induction false} MaskIsMod(x: nat, n: nat)
    requires IsPow2(n)
    ensures BitAnd(x, n - 1) == x % n
    decreases n
  {
    if n == 1 {
    } else if x == 0 {
    } else {
      var h := n / 2;
      MaskIsMod(x / 2, h);
      MaskUnfold(x, n);
      HalveMod(x, n);
    }
  }

  /** One step of `BitAnd` against an all-ones mask `n - 1`. */
  lemma MaskUnfold(x: nat, n: nat)
    requires x > 0 && n >= 2 && n % 2 == 0
    ensures BitAnd(x, n - 1) == 2 * BitAnd(x / 2, n / 2 - 1) + x % 2
  {
    assert (n - 1) / 2 == n / 2 - 1 && (n - 1) % 2 == 1;
  }

  /** Products of powers of two are powers of two. */
  lemma {:induction false} IsPow2Mul(a: nat, b: nat)
    requires IsPow2(a) && IsPow2(b)
    ensures IsPow2(a * b)
    decreases b
  {
    if b > 1 {
      var h := b / 2;
      IsPow2Mul(a, h);
      var m := a * h;
      assert b == 2 * h;
      assert a * b == 2 * m by { assert a * (2 * h) == 2 * (a * h); }
      assert m >= 1 by { assert a >= 1 && h >= 1; MulAtLeast(a, h); }
      DivModUnique(2 * m, 2, m, 0);
    }
  }

  /** Without a power of two the mask is not reduction modulo `n`: for n = 12288
      (3 × 4096), 4098 keeps only its low bit pattern 2 instead of staying 4098. */
  lemma MaskDivergesWithoutPow2()
    ensures !IsPow2(12288)
    ensures BitAnd(4098, 12287) == 2 && 4098 % 12288 == 4098
  {
    assert !IsPow2(3);
    assert !IsPow2(6);
    assert !IsPow2(12);
    assert !IsPow2(24);
    assert !IsPow2(48);
    assert !IsPow2(96);
    assert !IsPow2(192);
    assert !IsPow2(384);
    assert !IsPow2(768);
    assert !IsPow2(1536);
    assert !IsPow2(3072);
    assert !IsPow2(6144);
    assert !IsPow2(12288);
    assert BitAnd(1, 2) == 0;
    assert BitAnd(2, 5) == 0;
    assert BitAnd(4, 11) == 0;
    assert BitAnd(8, 23) == 0;
    assert BitAnd(16, 47) == 0;
    assert BitAnd(32, 95) == 0;
    assert BitAnd(64, 191) == 0;
    assert BitAnd(128, 383) == 0;
    assert BitAnd(256, 767) == 0;
    assert BitAnd(512, 1535) == 0;
    assert BitAnd(1024, 3071) == 0;
    assert BitAnd(2049, 6143) == 1;
    assert BitAnd(4098, 12287) == 2;
  }
}
