/** The capacity check and the mask indexing of the MPMC ring, on the binary digits. */
module Capacity {
  import opened Results
  import opened Ring

  /** Bitwise and of two unsigned integers, digit by digit. */
  function BitAnd(a: nat, b: nat): nat {
    if a == 0 || b == 0 then 0
    else 2 * BitAnd(a / 2, b / 2) + (a % 2) * (b % 2)
  }

  function Pow2(k: nat): (n: nat)
    ensures 0 < n
  {
    if k == 0 then 1 else 2 * Pow2(k - 1)
  }

  /** `validate_capacity`: `None` stands for the exception. */
  function ValidateCapacity(capacity: nat): Option<nat> {
    if capacity < 2 || BitAnd(capacity, capacity - 1) != 0 then None else Some(capacity)
  }

  lemma {:induction false} ClearsLowestBit(k: nat)
    ensures BitAnd(Pow2(k), Pow2(k) - 1) == 0
  {
    if k > 0 {
      assert (Pow2(k) - 1) / 2 == Pow2(k - 1) - 1;
      ClearsLowestBit(k - 1);
    }
  }

  lemma {:induction false} OnlyPowersClear(n: nat) returns (k: nat)
    requires 0 < n && BitAnd(n, n - 1) == 0
    ensures n == Pow2(k)
  {
    if n == 1 {
      k := 0;
    } else if n % 2 == 1 {
      EvenHalves(n);
      BitAndSelf(n / 2);
      assert false;
    } else {
      EvenHalves(n);
      var j := OnlyPowersClear(n / 2);
      k := j + 1;
    }
  }

  lemma EvenHalves(n: nat)
    requires 2 <= n
    ensures n % 2 == 1 ==> (n - 1) / 2 == n / 2 && BitAnd(n, n - 1) == 2 * BitAnd(n / 2, n / 2)
    ensures n % 2 == 0 ==> (n - 1) / 2 == n / 2 - 1 && BitAnd(n, n - 1) == 2 * BitAnd(n / 2, n / 2 - 1)
  {
  }

  lemma {:induction false} BitAndSelf(n: nat)
    ensures BitAnd(n, n) == n
  {
    if n > 0 {
      BitAndSelf(n / 2);
    }
  }

  /** The capacity check accepts exactly the powers of two from two up. */
  lemma AcceptsExactlyPowersOfTwo(capacity: nat)
    ensures ValidateCapacity(capacity).Some? <==> exists k: nat :: 1 <= k && capacity == Pow2(k)
    ensures ValidateCapacity(capacity).Some? ==> ValidateCapacity(capacity).value == capacity
  {
    if ValidateCapacity(capacity).Some? {
      var k := OnlyPowersClear(capacity);
      assert 1 <= k && capacity == Pow2(k);
    }
    forall k: nat | 1 <= k && capacity == Pow2(k)
      ensures ValidateCapacity(capacity).Some?
    {
      ClearsLowestBit(k);
      assert Pow2(k) == 2 * Pow2(k - 1);
    }
  }

  /** Modulo an even number, digit by digit. */
  lemma EvenIndex(p: nat, h: nat)
    requires 0 < h
    ensures Index(p, 2 * h) == 2 * Index(p / 2, h) + p % 2
  {
    var k := (p / 2) / h;
    DivMod(p / 2, h);
    assert p == 2 * (p / 2) + p % 2;
    assert (2 * h) * k == 2 * (h * k);
    Unique(p, 2 * h, k, 2 * Index(p / 2, h) + p % 2);
  }

  lemma {:induction false} MaskOfPower(p: nat, k: nat)
    ensures BitAnd(p, Pow2(k) - 1) == Index(p, Pow2(k))
  {
    if k == 0 {
      Unique(p, 1, p, 0);
    } else if p == 0 {
      FirstLap(0, Pow2(k));
    } else {
      var h := Pow2(k - 1);
      EvenIndex(p, h);
      MaskOfPower(p / 2, k - 1);
      assert (2 * h - 1) / 2 == h - 1 && (2 * h - 1) % 2 == 1;
      MaskDigits(p, 2 * h - 1);
    }
  }

  lemma MaskDigits(a: nat, b: nat)
    requires 0 < a && 0 < b && b % 2 == 1
    ensures BitAnd(a, b) == 2 * BitAnd(a / 2, b / 2) + a % 2
  {
  }

  /** For an accepted capacity, masking a position is taking it modulo the capacity. */
  lemma MaskIsModulo(p: nat, capacity: nat)
    requires ValidateCapacity(capacity).Some?
    ensures BitAnd(p, capacity - 1) == Index(p, capacity)
  {
    var k := OnlyPowersClear(capacity);
    MaskOfPower(p, k);
  }

  /** So any `capacity` consecutive positions are masked to distinct cells. */
  lemma MaskedCellsDistinct(p: nat, q: nat, capacity: nat)
    requires ValidateCapacity(capacity).Some? && p < q < p + capacity
    ensures BitAnd(p, capacity - 1) != BitAnd(q, capacity - 1)
  {
    MaskIsModulo(p, capacity);
    MaskIsModulo(q, capacity);
    Distinct(p, q, capacity);
  }
}
