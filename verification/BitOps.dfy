/** Bitwise or on natural numbers, as the varint loop uses it. */
module BitOps {
  import opened RingBuffer

  function Pow2(n: nat): (r: nat)
    ensures r > 0
  {
    if n == 0 then 1 else 2 * Pow2(n - 1)
  }

  /** `x | y`, bit by bit. */
  function BitOr(x: nat, y: nat): nat {
    if x == 0 then y
    else if y == 0 then x
    else (if x % 2 == 1 || y % 2 == 1 then 1 else 0) + 2 * BitOr(x / 2, y / 2)
  }

  lemma {:induction false} Pow2Adds(n: nat, m: nat)
    ensures Pow2(n + m) == Pow2(n) * Pow2(m)
  {
    if n > 0 {
      Pow2Adds(n - 1, m);
      Regroup(Pow2(n - 1), Pow2(m));
    }
  }

  lemma Regroup(a: nat, b: nat)
    ensures 2 * (a * b) == (2 * a) * b
  {
  }

  /** Bits above all bits of `x` are added by an or. */
  lemma {:induction false} OrOfGroups(x: nat, g: nat, shift: nat)
    requires x < Pow2(shift)
    ensures BitOr(x, g * Pow2(shift)) == x + g * Pow2(shift)
  {
    if x > 0 && g * Pow2(shift) > 0 {
      var half := g * Pow2(shift - 1);
      assert g * Pow2(shift) == 2 * half by { assert Pow2(shift) == 2 * Pow2(shift - 1); Swap(g, Pow2(shift - 1)); }
      OrOfGroups(x / 2, g, shift - 1);
    }
  }

  lemma Swap(a: nat, b: nat)
    ensures a * (2 * b) == 2 * (a * b)
  {
  }

  // Modular arithmetic with the modulus as a variable.

  lemma RemainderOf(x: nat, c: nat, m: nat)
    requires x < m
    ensures (x + c * m) % m == x
  {
    RemainderUnique(x + c * m, m, c, x);
  }

  lemma AddMultiple(x: nat, c: nat, m: nat)
    requires m > 0
    ensures (x + c * m) % m == x % m
  {
    var q, r := x / m, x % m;
    assert x == q * m + r;
    Distribute(q, c, m);
    RemainderUnique(x + c * m, m, q + c, r);
  }

  lemma SplitProduct(g: nat, p: nat, m: nat, n: nat, q: nat, r: nat)
    requires m == p * n && g == n * q + r
    ensures g * p == r * p + q * m
  {
    Distribute(n * q, r, p);
    Rotate(n, q, p);
  }

  lemma Distribute(a: nat, b: nat, p: nat)
    ensures (a + b) * p == a * p + b * p
  {
  }

  lemma Rotate(n: nat, c: nat, p: nat)
    ensures n * c * p == c * (p * n)
  {
  }

  lemma Divide(g: nat, n: nat) returns (q: nat, r: nat)
    requires n > 0
    ensures g == n * q + r && r < n
  {
    q, r := g / n, g % n;
  }

  lemma BelowProduct(x: nat, r: nat, p: nat, n: nat)
    requires x < p && r < n
    ensures x + r * p < p * n
  {
    assert r * p + p == (r + 1) * p <= n * p;
  }

  lemma OrOfLow(raw: nat, low: nat, all: nat, q: nat, m: nat)
    requires all == low + q * m && raw + low < m && BitOr(raw, low) == raw + low
    ensures BitOr(raw % m, all % m) == (raw + all) % m
  {
    RemainderOf(low, q, m);
    RemainderOf(raw + low, q, m);
    RemainderOf(raw, 0, m);
  }

  /** The group lies inside the variable, at least in part. */
  lemma OrBelow(raw: nat, g: nat, shift: nat, p: nat, n: nat, m: nat, q: nat, r: nat)
    requires p == Pow2(shift) && m == p * n && raw < p && g == n * q + r && r < n
    ensures m > 0 && BitOr(raw % m, (g * p) % m) == (raw + g * p) % m
  {
    BelowProduct(raw, r, p, n);
    SplitProduct(g, p, m, n, q, r);
    OrOfGroups(raw, r, shift);
    OrOfLow(raw, r * p, g * p, q, m);
  }

  /** The group lies above the variable and is shifted out. */
  lemma OrAbove(raw: nat, g: nat, p: nat, n: nat, m: nat)
    requires m > 0 && p == m * n
    ensures BitOr(raw % m, (g * p) % m) == (raw + g * p) % m
  {
    assert g * p == (g * n) * m by { Shuffle(g, m, n); }
    assert (g * p) % m == 0 by { RemainderOf(0, g * n, m); }
    AddMultiple(raw, g * n, m);
  }

  lemma Shuffle(g: nat, m: nat, n: nat)
    ensures g * (m * n) == (g * n) * m
  {
  }

  /** Or-ing the next group, cut to the width of the variable, adds it modulo that width. */
  lemma OrStep(raw: nat, g: nat, shift: nat, width: nat)
    requires raw < Pow2(shift)
    ensures var m := Pow2(width); BitOr(raw % m, (g * Pow2(shift)) % m) == (raw + g * Pow2(shift)) % m
  {
    if shift >= width {
      Pow2Adds(width, shift - width);
      OrAbove(raw, g, Pow2(shift), Pow2(shift - width), Pow2(width));
    } else {
      Pow2Adds(shift, width - shift);
      var n := Pow2(width - shift);
      var q, r := Divide(g, n);
      OrBelow(raw, g, shift, Pow2(shift), n, Pow2(width), q, r);
    }
  }

  lemma Widths()
    ensures Pow2(32) == TWO_32 && Pow2(64) == TWO_64
  {
    assert Pow2(8) == 256;
    Pow2Adds(8, 8);
    Pow2Adds(16, 16);
    Pow2Adds(32, 32);
  }
}
