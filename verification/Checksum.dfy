/**
 The Internet checksum (RFC 1071): sixteen-bit words added with end-around carry. The program's
 library computes it this way; that is assumed, the sums below are proved.
 */
module Checksum {
  import opened Wrappers

  /** The big-endian words of `b` added up; a last odd byte is padded with a zero byte. */
  function WordSum(b: seq<byte>): nat
  {
    if |b| == 0 then 0
    else if |b| == 1 then b[0] * 0x100
    else b[0] * 0x100 + b[1] + WordSum(b[2..])
  }

  /** Carries out of 16 bits are added back in, one at a time, until there are none. */
  function Fold(sum: nat): uint16
  {
    if sum < 0x1_0000 then sum else Fold(sum - 0x1_0000 + 1)
  }

  /** What a sender puts in a checksum field that was zero while it summed. */
  function Complement(sum: nat): uint16
  {
    0xFFFF - Fold(sum)
  }

  /** The UDP form: a computed zero is sent as all ones, since zero means "no checksum". */
  function UdpComplement(sum: nat): uint16
  {
    if Complement(sum) == 0 then 0xFFFF else Complement(sum)
  }

  /**
   The field for `b`, whose own checksum bytes are zero, on top of a pseudo-header's sum. As in the
   library, the words are added one after another and folded at the end.
   */
  function Field(b: seq<byte>, sum: nat, udp: bool): uint16
    decreases |b|
  {
    if |b| >= 2 then Field(b[2..], sum + (b[0] as int) * 0x100 + b[1], udp)
    else
      var total := if |b| == 1 then sum + (b[0] as int) * 0x100 else sum;
      if udp then UdpComplement(total) else Complement(total)
  }

  lemma {:induction false} FieldMeans(b: seq<byte>, sum: nat, udp: bool)
    ensures Field(b, sum, udp) == if udp then UdpComplement(sum + WordSum(b)) else Complement(sum + WordSum(b))
    decreases |b|
  {
    if |b| >= 2 {
      FieldMeans(b[2..], sum + (b[0] as int) * 0x100 + b[1], udp);
    }
  }

  /** A receiver accepts when everything, checksum included, adds up to all ones. */
  predicate Verifies(sum: nat)
  {
    Fold(sum) == 0xFFFF
  }

  lemma {:induction false} FoldIsResidue(sum: nat)
    ensures Fold(sum) % 0xFFFF == sum % 0xFFFF
    ensures Fold(sum) == 0 <==> sum == 0
  {
    if sum >= 0x1_0000 {
      FoldIsResidue(sum - 0x1_0000 + 1);
    }
  }

  /** The usual way to fold, all carries of a round at once, gives the same. */
  lemma FoldByHalves(sum: nat)
    ensures Fold(sum / 0x1_0000 + sum % 0x1_0000) == Fold(sum)
  {
    var q, r := sum / 0x1_0000, sum % 0x1_0000;
    assert sum == q * 0xFFFF + (q + r);
    MultipleVanishes(q, q + r);
    FoldIsResidue(sum);
    FoldIsResidue(q + r);
  }

  lemma {:induction false} MultipleVanishes(q: nat, n: nat)
    ensures (q * 0xFFFF + n) % 0xFFFF == n % 0xFFFF
  {
    if q > 0 {
      MultipleVanishes(q - 1, n);
      assert q * 0xFFFF + n == ((q - 1) * 0xFFFF + n) + 0xFFFF;
    }
  }

  /** The receiver's test, freed from the folding. */
  lemma VerifiesMeans(sum: nat)
    ensures Verifies(sum) <==> sum > 0 && sum % 0xFFFF == 0
  {
    FoldIsResidue(sum);
  }

  /**
   The value the sender picks is the only non-zero one that a receiver accepts, for every sum of
   the rest of the packet, the computed-zero case included.
   */
  lemma UdpComplementIsUnique(sum: nat, field: uint16)
    requires field != 0
    ensures Verifies(sum + field) <==> field == UdpComplement(sum)
  {
    FoldIsResidue(sum);
    VerifiesMeans(sum + field);
    SameResidue(sum, Fold(sum), field);
    SmallMultiples(Fold(sum) + field);
  }

  lemma SmallMultiples(n: nat)
    requires 0 < n <= 2 * 0xFFFF
    ensures n % 0xFFFF == 0 <==> n == 0xFFFF || n == 2 * 0xFFFF
  {
  }

  lemma SameResidue(a: nat, b: nat, c: nat)
    requires a % 0xFFFF == b % 0xFFFF
    ensures (a + c) % 0xFFFF == (b + c) % 0xFFFF
  {
  }

  /** An IPv4 header sum is never zero, so its complement always verifies. */
  lemma ComplementVerifies(sum: nat)
    requires sum > 0
    ensures Verifies(sum + Complement(sum))
  {
    FoldIsResidue(sum);
    VerifiesMeans(sum + Complement(sum));
    SameResidue(sum, Fold(sum), Complement(sum));
  }

  lemma {:induction false} WordSumConcat(a: seq<byte>, b: seq<byte>)
    requires |a| % 2 == 0
    ensures WordSum(a + b) == WordSum(a) + WordSum(b)
  {
    if a == [] {
      assert a + b == b;
    } else {
      assert (a + b)[2..] == a[2..] + b;
      WordSumConcat(a[2..], b);
    }
  }

}
