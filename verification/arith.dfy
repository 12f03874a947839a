/** Division, powers of two and shifts. Shifts are defined by doubling and halving, so that facts
    about them need no multiplication of two variables. */
module Arith {

  lemma MulMono(a: int, x: int, y: int)
    requires a >= 0 && x <= y
    ensures a * x <= a * y
  {
  }

  lemma DivUnique(a: int, k: int, r: int)
    requires 0 <= r < a
    ensures (a * k + r) / a == k && (a * k + r) % a == r
  {
    var n := a * k + r;
    var q := n / a;
    assert n == a * q + n % a;
    if q > k {
      MulMono(a, k + 1, q);
    } else if q < k {
      MulMono(a, q + 1, k);
    }
  }

  lemma DivMod(a: nat, p: nat)
    requires p > 0
    ensures a == p * (a / p) + a % p && 0 <= a % p < p && a / p >= 0
  {
  }

  lemma MulNext(a: int, k: int)
    ensures a * (k + 1) == a * k + a
  {
  }

  lemma MulAdd(a: int, k: int, j: int)
    ensures a * (k + j) == a * k + a * j
  {
  }

  lemma DoubleProduct(a: int, b: int)
    ensures (2 * a) * b == 2 * (a * b)
  {
  }

  // ----- powers of two and shifts -----

  function Pow2(k: nat): (p: nat)
    ensures p > 0
  {
    if k == 0 then 1 else 2 * Pow2(k - 1)
  }

  /** x << k, without a limit on the number of bits. */
  function Shl(x: nat, k: nat): nat {
    if k == 0 then x else 2 * Shl(x, k - 1)
  }

  /** x >> k */
  function Shr(x: nat, k: nat): nat {
    if k == 0 then x else Shr(x / 2, k - 1)
  }

  /** x & ((1 << k) - 1) */
  function Mask(x: nat, k: nat): nat {
    if k == 0 then 0 else 2 * Mask(x / 2, k - 1) + x % 2
  }

  lemma {:induction false} Pow2Mono(k: nat, j: nat)
    ensures Pow2(k) > Pow2(j) ==> j <= k
    ensures j <= k ==> Pow2(j) <= Pow2(k)
    decreases k
  {
    if k > 0 && j > 0 {
      Pow2Mono(k - 1, j - 1);
    }
  }

  lemma {:induction false} ShlOne(k: nat)
    ensures Shl(1, k) == Pow2(k)
  {
    if k > 0 {
      ShlOne(k - 1);
    }
  }

  lemma {:induction false} ShlAdd(x: nat, y: nat, k: nat)
    ensures Shl(x + y, k) == Shl(x, k) + Shl(y, k)
  {
    if k > 0 {
      ShlAdd(x, y, k - 1);
    }
  }

  lemma {:induction false} ShlShl(x: nat, j: nat, k: nat)
    ensures Shl(Shl(x, j), k) == Shl(x, j + k)
  {
    if k > 0 {
      ShlShl(x, j, k - 1);
    }
  }

  lemma {:induction false} ShlMono(x: nat, y: nat, k: nat)
    requires x <= y
    ensures Shl(x, k) <= Shl(y, k)
  {
    if k > 0 {
      ShlMono(x, y, k - 1);
    }
  }

  /** Below 2^j, shifted by k, with any k bits below it, is below 2^(j + k). */
  lemma ShlBelow(x: nat, v: nat, j: nat, k: nat)
    requires x < Pow2(j) && v < Pow2(k)
    ensures Shl(x, k) + v < Pow2(j + k)
  {
    ShlOne(j);
    ShlOne(k);
    ShlOne(j + k);
    ShlShl(1, j, k);
    ShlAdd(x, 1, k);
    ShlMono(x + 1, Pow2(j), k);
  }

  /** Shifting by k multiplies by 2^k. */
  lemma {:induction false} ShlMul(x: nat, k: nat)
    ensures Shl(x, k) == Pow2(k) * x
  {
    if k > 0 {
      ShlMul(x, k - 1);
      DoubleProduct(Pow2(k - 1), x);
    }
  }

  /** A number consists of its high bits and its low bits. */
  lemma {:induction false} Parts(x: nat, k: nat)
    ensures x == Shl(Shr(x, k), k) + Mask(x, k) && Mask(x, k) < Pow2(k)
    decreases k
  {
    if k > 0 {
      Parts(x / 2, k - 1);
    }
  }

  lemma {:induction false} ShrBelow(x: nat, j: nat, k: nat)
    requires x < Pow2(j + k)
    ensures Shr(x, k) < Pow2(j)
    decreases k
  {
    if k > 0 {
      ShrBelow(x / 2, j, k - 1);
    }
  }

  /** The remainder by a power of two is the low bits. */
  lemma ModPow2(x: nat, k: nat)
    ensures x % Pow2(k) == Mask(x, k)
  {
    hide Pow2, Shl, Shr, Mask;
    Parts(x, k);
    ShlMul(Shr(x, k), k);
    DivUnique(Pow2(k), Shr(x, k), Mask(x, k));
  }

  /** A multiple of 2^k is a multiple of every lower power. */
  lemma {:induction false} LowerMask(x: nat, j: nat, k: nat)
    requires j <= k && Mask(x, k) == 0
    ensures Mask(x, j) == 0
    decreases k
  {
    if j > 0 {
      LowerMask(x / 2, j - 1, k - 1);
    }
  }
}
