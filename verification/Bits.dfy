/** Powers of two and bit masks: the arithmetic behind every `x & mask` in the source. */
module Bits {

  type byte = x: int | 0 <= x < 256
  type Bytes = seq<byte>

  /** A hash callback, a function of the key. */
  type Hash = Bytes -> nat

  datatype Option<+T> = None | Some(value: T)

  predicate IsPow2(n: nat)
  {
    n == 1 || (n > 0 && n % 2 == 0 && IsPow2(n / 2))
  }

  /** Bitwise conjunction of two naturals, one binary digit at a time. */
  function BitAnd(x: nat, y: nat): nat
  {
    if x == 0 || y == 0 then 0 else (if x % 2 == 1 && y % 2 == 1 then 1 else 0) + 2 * BitAnd(x / 2, y / 2)
  }

  /** Masking by `n - 1` is reduction modulo `n` when `n` is a power of two. */
  lemma {:induction false} MaskIsMod(x: nat, n: nat)
    requires IsPow2(n)
    ensures BitAnd(x, n - 1) == x % n
  {
    if n == 1 {
    } else if x == 0 {
      ModUnique(0, n, 0, 0);
    } else {
      var m, q, r := n / 2, x / 2, x % 2;
      MaskIsMod(q, m);
      MaskStep(q, r, m);
    }
  }

  lemma MaskStep(q: nat, r: nat, m: nat)
    requires m > 0 && r < 2 && BitAnd(q, m - 1) == q % m
    ensures BitAnd(2 * q + r, 2 * m - 1) == (2 * q + r) % (2 * m)
  {
    var x, y := 2 * q + r, 2 * m - 1;
    assert x / 2 == q && x % 2 == r && y / 2 == m - 1 && y % 2 == 1;
    ModDouble(q, m, r);
    if x != 0 {
      assert BitAnd(x, y) == r + 2 * BitAnd(q, m - 1);
    }
  }

  lemma ModDouble(q: nat, m: nat, r: nat)
    requires m > 0 && r < 2
    ensures (2 * q + r) % (2 * m) == 2 * (q % m) + r
  {
    var d, t := q / m, q % m;
    assert q == m * d + t;
    assert 2 * q + r == (2 * m) * d + (2 * t + r);
    ModUnique(2 * q + r, 2 * m, d, 2 * t + r);
  }

  lemma ModUnique(x: int, n: nat, d: int, r: nat)
    requires r < n && x == n * d + r
    ensures x % n == r
  {
    assert x == n * (x / n) + x % n;
    assert n * (d - x / n) == x % n - r;
    MultipleBelow(n, d - x / n);
  }

  lemma MultipleBelow(n: int, k: int)
    requires -n < n * k < n
    ensures k == 0
  {
    if k >= 1 {
      MulGrows(n, k);
    }
    if k <= -1 {
      MulGrows(n, -k);
    }
  }

  lemma MulGrows(n: int, k: int)
    requires n >= 0 && k >= 1
    ensures n * k >= n
  {
    assert n * k == n + n * (k - 1);
  }

  lemma {:induction false} Pow2Double(n: nat)
    requires IsPow2(n)
    ensures IsPow2(2 * n) && (n > 1 ==> IsPow2(n / 2))
  {
    assert 2 * n / 2 == n;
  }

  function Pow2(k: nat): (r: nat)
    ensures r > 0 && IsPow2(r)
  {
    if k == 0 then 1 else Pow2Step(Pow2(k - 1))
  }

  function Pow2Step(n: nat): (r: nat)
    requires IsPow2(n)
    ensures r == 2 * n && IsPow2(r)
  {
    Pow2Double(n);
    2 * n
  }

  /** A power of two that reaches `n` from a smaller power of two passes through a doubling. */
  lemma {:induction false} NoPow2Between(a: nat, b: nat)
    requires IsPow2(a) && IsPow2(b) && a < b
    ensures 2 * a <= b
  {
    if a != 1 {
      NoPow2Between(a / 2, b / 2);
    }
  }

  lemma {:induction false} Pow2Product(a: nat, k: nat)
    requires IsPow2(a)
    ensures IsPow2(a * Pow2(k)) && a * Pow2(k) >= a
    decreases k
  {
    if k != 0 {
      Pow2Product(a, k - 1);
      Pow2Double(a * Pow2(k - 1));
      MulTwice(a, Pow2(k - 1));
    }
  }

  lemma MulTwice(a: int, b: int)
    ensures a * (2 * b) == 2 * (a * b)
  {
  }

  /** Two numbers with the same residue are equal or at least a full cycle apart. */
  lemma SameSlot(a: nat, b: nat, n: nat)
    requires n > 0 && a % n == b % n && a < b
    ensures a + n <= b
  {
    assert a == n * (a / n) + a % n && b == n * (b / n) + b % n;
    MulPositive(n, b / n - a / n);
  }

  lemma MulPositive(n: nat, d: int)
    requires n * d > 0
    ensures n * d >= n
  {
    MulGrows(n, if d >= 1 then d else 1);
  }
}
