/** Ring buffers indexed by counters that wrap: the ring has `n` slots and the
    counters are kept modulo `mod`, a multiple of `n`. */
module WrappedRing {

  lemma Remainder(x: nat, q: nat, r: nat, mod: nat)
    requires x == q * mod + r && r < mod
    ensures x % mod == r && x / mod == q
  {
    var d := x / mod - q;
    assert d * mod == r - x % mod by {
      assert x == x / mod * mod + x % mod;
      Distribute(x / mod, q, mod);
    }
    if d >= 1 {
      Scale(1, d, mod);
    } else if d <= -1 {
      Scale(d, -1, mod);
    }
  }

  lemma Distribute(a: int, b: int, mod: nat)
    ensures (a - b) * mod == a * mod - b * mod
  {
  }

  lemma Scale(a: int, b: int, mod: nat)
    requires a <= b
    ensures a * mod <= b * mod
  {
  }

  /** Adding to a wrapped counter. */
  lemma Wrap(r: nat, d: nat, mod: nat)
    requires d < mod
    ensures (r + d) % mod == (r % mod + d) % mod
    ensures (r % mod + d) % mod == if r % mod + d < mod then r % mod + d else r % mod + d - mod
  {
    var q, s := r / mod, r % mod;
    assert r == q * mod + s;
    if s + d < mod {
      Remainder(r + d, q, s + d, mod);
      Remainder(s + d, 0, s + d, mod);
    } else {
      Distribute(q + 1, 1, mod);
      Remainder(r + d, q + 1, s + d - mod, mod);
      Remainder(s + d, 1, s + d - mod, mod);
    }
  }

  lemma Regroup(q: nat, p: nat, n: nat, c: nat)
    ensures q * (n * c) + p * n == (q * c + p) * n
  {
    assert q * (n * c) == (q * c) * n;
  }

  /** The slot of an entry is the same for the wrapped counter. */
  lemma SlotOf(k: nat, n: nat, c: nat)
    requires 0 < n && 0 < n * c
    ensures k % (n * c) % n == k % n
  {
    var q, s := k / (n * c), k % (n * c);
    var p, r := s / n, s % n;
    Regroup(q, p, n, c);
    Quotient(k, q, n * c, s);
    Quotient(s, p, n, r);
    Remainder(k, q * c + p, r, n);
  }

  lemma Quotient(k: nat, q: nat, mod: nat, s: nat)
    requires 0 < mod && q == k / mod && s == k % mod
    ensures k == q * mod + s
  {
  }

  /** Entries less than a ring apart have different slots. */
  lemma SlotsDiffer(a: nat, b: nat, n: nat)
    requires a < b < a + n
    ensures a % n != b % n
  {
    Wrap(a, b - a, n);
  }
}
