/** Small types shared by every module. */
module Wrappers {
  datatype Option<+T> = None | Some(value: T)

  /** One octet, kept as a number so that header arithmetic is plain. */
  type byte = b: int | 0 <= b < 0x100

  /** One 16-bit field in host order. */
  type uint16 = n: int | 0 <= n < 0x1_0000

  /** One 32-bit word. */
  type uint32 = n: int | 0 <= n < 0x1_0000_0000

  /** Bitwise and. */
  function And(a: nat, b: nat): nat
  {
    if a == 0 || b == 0 then 0
    else 2 * And(a / 2, b / 2) + (if a % 2 == 1 && b % 2 == 1 then 1 else 0)
  }

  lemma {:induction false} AndSelf(a: nat)
    ensures And(a, a) == a
  {
    if a > 0 {
      AndSelf(a / 2);
    }
  }

  /** Bit number k of n. */
  predicate Bit(n: nat, k: nat)
  {
    if k == 0 then n % 2 == 1 else Bit(n / 2, k - 1)
  }

  /** Every bit of a is a bit of b. */
  ghost predicate Within(a: nat, b: nat)
  {
    forall k: nat :: Bit(a, k) ==> Bit(b, k)
  }

  lemma {:induction false} NoBits(k: nat)
    ensures !Bit(0, k)
  {
    if k > 0 {
      NoBits(k - 1);
    }
  }

  lemma HalvesWithin(a: nat, b: nat)
    ensures Within(a, b) <==> (a % 2 == 1 ==> b % 2 == 1) && Within(a / 2, b / 2)
  {
    if Within(a, b) {
      assert Bit(a, 0) ==> Bit(b, 0);
      forall k: nat
        ensures Bit(a / 2, k) ==> Bit(b / 2, k)
      {
        assert Bit(a, k + 1) ==> Bit(b, k + 1);
      }
    }
    if (a % 2 == 1 ==> b % 2 == 1) && Within(a / 2, b / 2) {
      forall k: nat
        ensures Bit(a, k) ==> Bit(b, k)
      {
        assert k > 0 ==> (Bit(a / 2, k - 1) ==> Bit(b / 2, k - 1));
      }
    }
  }

  /** The parser's test of a mark against a mask. */
  lemma {:induction false} AndKeepsAll(a: nat, b: nat)
    ensures And(a, b) == a <==> Within(a, b)
  {
    if a == 0 {
      forall k: nat
        ensures !Bit(0, k)
      {
        NoBits(k);
      }
    } else {
      AndKeepsAll(a / 2, b / 2);
      HalvesWithin(a, b);
      assert And(a, b) == 2 * And(a / 2, b / 2) + (if a % 2 == 1 && b % 2 == 1 then 1 else 0);
    }
  }

  /** The two IP families the program can serve. */
  datatype Family = V4 | V6

  /** Division by a positive number, as a range. */
  lemma DivisionRange(a: nat, q: nat, size: nat)
    requires size > 0
    ensures a / size == q <==> q * size <= a < q * size + size
  {
    assert a == a / size * size + a % size;
    if a / size < q {
      assert (a / size + 1) * size <= q * size;
    } else if a / size > q {
      assert (q + 1) * size <= a / size * size;
    }
  }

  /** The successor of a remainder, which wraps at the end. */
  lemma NextRemainder(k: nat, n: nat)
    requires n > 0
    ensures (k + 1) % n == if k % n + 1 == n then 0 else k % n + 1
  {
    var q, r := k / n, k % n;
    assert k == q * n + r;
    if r + 1 == n {
      assert k + 1 == (q + 1) * n + 0;
      QuotientIsUnique(k + 1, n, q + 1, 0);
    } else {
      QuotientIsUnique(k + 1, n, q, r + 1);
    }
  }

  lemma QuotientIsUnique(k: nat, n: nat, q: nat, r: nat)
    requires r < n && k == q * n + r
    ensures k / n == q && k % n == r
  {
    DivisionRange(k, q, n);
    assert k == k / n * n + k % n;
  }
}
