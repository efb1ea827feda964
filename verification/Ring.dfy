/** Ring indexing shared by every queue: position `p` of an unbounded count lives in
    cell `p % capacity` of a fixed array. */
module Ring {

  function Index(p: nat, capacity: nat): (i: nat)
    requires 0 < capacity
    ensures i < capacity
  {
    p % capacity
  }

  lemma DivMod(p: nat, c: nat)
    requires 0 < c
    ensures p == c * (p / c) + Index(p, c)
  {
  }

  lemma MulBounds(c: nat, k: int)
    requires 0 < c
    ensures 0 < k ==> c <= c * k
    ensures k <= 0 ==> c * k <= 0
  {
    if 0 < k {
      assert c * k == c + c * (k - 1);
    }
  }

  /** Any `capacity` consecutive positions occupy distinct cells. */
  lemma Distinct(p: nat, q: nat, c: nat)
    requires p < q < p + c
    ensures Index(p, c) != Index(q, c)
  {
    DivMod(p, c);
    DivMod(q, c);
    if Index(p, c) == Index(q, c) {
      assert q - p == c * (q / c - p / c);
      MulBounds(c, q / c - p / c);
    }
  }

  /** The same, for two positions that may be given in either order. */
  lemma DistinctEither(p: nat, q: nat, c: nat)
    requires p != q && q < p + c && p < q + c
    ensures Index(p, c) != Index(q, c)
  {
    if p < q {
      Distinct(p, q, c);
    } else {
      Distinct(q, p, c);
    }
  }

  /** Quotient and remainder are determined by the division equation. */
  lemma Unique(p: nat, c: nat, k: nat, r: nat)
    requires r < c && p == c * k + r
    ensures p / c == k && Index(p, c) == r
  {
    DivMod(p, c);
    assert c * (p / c - k) == r - Index(p, c);
    MulBounds(c, p / c - k);
    MulBounds(c, k - p / c);
    assert c * (k - p / c) == -(c * (p / c - k));
  }

  /** One lap later: the same cell, one generation up. */
  lemma Lap(p: nat, c: nat)
    requires 0 < c
    ensures Index(p + c, c) == Index(p, c)
    ensures (p + c) / c == p / c + 1
  {
    DivMod(p, c);
    assert c * (p / c + 1) == c * (p / c) + c;
    Unique(p + c, c, p / c + 1, Index(p, c));
  }

  /** Positions below the capacity are their own index. */
  lemma FirstLap(p: nat, c: nat)
    requires p < c
    ensures Index(p, c) == p && p / c == 0
  {
    Unique(p, c, 0, p);
  }

  /** Two positions in the same cell are at least one lap apart. */
  lemma SameCell(p: nat, q: nat, c: nat)
    requires 0 < c && p < q && Index(p, c) == Index(q, c)
    ensures p + c <= q
  {
    if q < p + c {
      Distinct(p, q, c);
    }
  }

  /** Every position has a unique representative in each window of `capacity` positions;
      this one is the representative of `p` in `[lo, lo + c)` for `p <= lo`. */
  ghost function Representative(p: nat, lo: nat, c: nat): (q: nat)
    requires 0 < c && p <= lo
    ensures lo <= q < lo + c && p <= q
    ensures Index(q, c) == Index(p, c)
    ensures p < lo ==> p + c <= q
    decreases lo - p
  {
    if p == lo then p
    else
      Lap(p, c);
      if lo <= p + c then p + c else Representative(p + c, lo, c)
  }
}
