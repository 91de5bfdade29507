/** Masks and shifts by powers of two, as the hash table computes bucket numbers and chain lengths. */
module HashBits {
  import opened Arith

  function Pow2(k: nat): (p: nat)
    ensures p > 0
  {
    if k == 0 then 1 else 2 * Pow2(k - 1)
  }

  /** Bitwise conjunction. */
  function And(a: nat, b: nat): nat {
    if a == 0 || b == 0 then 0 else (a % 2) * (b % 2) + 2 * And(a / 2, b / 2)
  }

  /** Right shift. */
  function Shr(a: nat, k: nat): nat {
    if k == 0 then a else Shr(a / 2, k - 1)
  }

  lemma MaskStep(a: nat, m: nat)
    requires m > 0
    ensures And(a, 2 * m - 1) == a % 2 + 2 * And(a / 2, m - 1)
  {
  }

  lemma MaskOfOne(a: nat)
    ensures And(a, Pow2(0) - 1) == a % Pow2(0)
  {
  }

  lemma PowStep(k: nat)
    ensures Pow2(k + 1) == 2 * Pow2(k)
  {
  }

  /** Masking with 2^k - 1 is the remainder modulo 2^k. */
  lemma {:induction false} MaskIsMod(a: nat, k: nat)
    ensures And(a, Pow2(k) - 1) == a % Pow2(k)
  {
    hide *;
    if k == 0 {
      MaskOfOne(a);
    } else {
      MaskIsMod(a / 2, k - 1);
      PowStep(k - 1);
      MaskStep(a, Pow2(k - 1));
      ModDouble(a, Pow2(k - 1));
    }
  }

  lemma Regroup(p: nat, e: nat, n: nat)
    ensures (2 * p + e) * n == p * (2 * n) + e * n
  {
  }

  lemma ModDouble(a: nat, m: nat)
    requires m > 0
    ensures a % (2 * m) == a % 2 + 2 * (a / 2 % m) && a / (2 * m) == a / 2 / m
  {
    var q, r := a / 2 / m, a / 2 % m;
    DivMod(a / 2, m);
    Regroup(q, 0, m);
    DivModUnique(a, 2 * m, q, 2 * r + a % 2);
  }

  /** Shifting by k divides by 2^k. */
  lemma {:induction false} ShrIsDiv(a: nat, k: nat)
    ensures Shr(a, k) == a / Pow2(k)
  {
    if k > 0 {
      ShrIsDiv(a / 2, k - 1);
      ModDouble(a, Pow2(k - 1));
    }
  }

  /** Doubling the bucket count sends an item of bucket i to bucket i or i + n. */
  lemma DoubledBucket(hashv: nat, k: nat)
    ensures var i := And(hashv, Pow2(k) - 1); var j := And(hashv, 2 * Pow2(k) - 1);
            i < Pow2(k) && (j == i || j == i + Pow2(k))
  {
    MaskIsMod(hashv, k);
    MaskIsMod(hashv, k + 1);
    SplitRemainder(hashv, Pow2(k));
  }

  lemma SplitRemainder(h: nat, n: nat)
    requires n > 0
    ensures h % (2 * n) == h % n || h % (2 * n) == h % n + n
  {
    var q, p, e, r := h / n, h / n / 2, h / n % 2, h % n;
    DivMod(h, n);
    Regroup(p, e, n);
    assert q == 2 * p + e;
    assert h == p * (2 * n) + (e * n + r);
    assert e * n == if e == 0 then 0 else n;
    DivModUnique(h, 2 * n, p, e * n + r);
  }

  /** The shift-and-mask expression of HASH_EXPAND_BUCKETS is the ceiling of the quotient. */
  lemma CeilByShift(items: nat, k: nat)
    ensures var c := Shr(items, k) + (if And(items, Pow2(k) - 1) != 0 then 1 else 0);
            items <= c * Pow2(k) && (items > 0 ==> (c - 1) * Pow2(k) < items)
  {
    MaskIsMod(items, k);
    ShrIsDiv(items, k);
    CeilDiv(items, Pow2(k));
  }
}
