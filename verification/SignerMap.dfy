/** The signer bitmap on the wire: its number of bits, and its bits packed from the back. */
module SignerMaps {
  import opened AggregationTrees
  import opened Blocks
  import opened Sequences

  const U32: nat := 0x1_0000_0000

  /** A bitmap as sent, before the list framing. */
  datatype Packed = Packed(numBits: nat, bytes: seq<bv8>)

  function NumBytes(n: nat): nat {
    (n + 7) / 8
  }

  predicate Bit(b: bv8, k: nat)
    requires k < 8
  {
    (b >> k) & 1 == 1
  }

  /** Bit `i` of the bytes, counted from the last bit of the last byte. */
  predicate BitFromBack(bytes: seq<bv8>, i: nat)
    requires i < 8 * |bytes|
  {
    Bit(bytes[|bytes| - 1 - i / 8], i % 8)
  }

  lemma SetBit(b: bv8, k: nat, j: nat)
    requires k < 8 && j < 8
    ensures Bit(b | (1 << k), j) <==> j == k || Bit(b, j)
  {
    match j {
      case 0 => case 1 => case 2 => case 3 => case 4 => case 5 => case 6 => case 7 =>
    }
  }

  lemma SameByte(a: bv8, b: bv8)
    requires forall k: nat | k < 8 :: Bit(a, k) == Bit(b, k)
    ensures a == b
  {
    assert Bit(a, 0) == Bit(b, 0) && Bit(a, 1) == Bit(b, 1) && Bit(a, 2) == Bit(b, 2) && Bit(a, 3) == Bit(b, 3);
    assert Bit(a, 4) == Bit(b, 4) && Bit(a, 5) == Bit(b, 5) && Bit(a, 6) == Bit(b, 6) && Bit(a, 7) == Bit(b, 7);
  }

  lemma SameBytes(a: seq<bv8>, b: seq<bv8>)
    requires |a| == |b| && forall i: nat | i < 8 * |a| :: BitFromBack(a, i) == BitFromBack(b, i)
    ensures a == b
  {
    hide Bit;
    forall j | 0 <= j < |a|
      ensures a[j] == b[j]
    {
      var back := |a| - 1 - j;
      forall k: nat | k < 8
        ensures Bit(a[j], k) == Bit(b[j], k)
      {
        var i := 8 * back + k;
        assert i / 8 == back && i % 8 == k;
        assert BitFromBack(a, i) == BitFromBack(b, i);
      }
      SameByte(a[j], b[j]);
    }
  }

  /** The first `n` bits from the back are those of the bitmap, and no other bit is set. */
  ghost predicate Holds(mask: seq<bool>, bytes: seq<bv8>, n: nat)
    requires n <= |mask| <= 8 * |bytes|
  {
    forall i: nat | i < 8 * |bytes| :: BitFromBack(bytes, i) <==> i < n && mask[|mask| - 1 - i]
  }

  /** The message that stands for the bitmap; the length is cut to 32 bits. */
  ghost predicate IsEncoding(mask: seq<bool>, p: Packed) {
    p.numBits == |mask| % U32 && |p.bytes| == NumBytes(|mask|) && Holds(mask, p.bytes, |mask|)
  }

  /** The one byte that an added bit touches. */
  lemma SetBitFromBack(bytes: seq<bv8>, n: nat, i: nat)
    requires n < 8 * |bytes| && i < 8 * |bytes|
    ensures var at := |bytes| - 1 - n / 8;
            BitFromBack(bytes[at := bytes[at] | (1 << (n % 8))], i) <==> i == n || BitFromBack(bytes, i)
  {
    hide Bit;
    if i / 8 == n / 8 {
      SetBit(bytes[|bytes| - 1 - n / 8], n % 8, i % 8);
      assert i % 8 == n % 8 ==> i == n;
    }
  }

  lemma HoldsStep(mask: seq<bool>, bytes: seq<bv8>, n: nat)
    requires n < |mask| <= 8 * |bytes| && Holds(mask, bytes, n)
    ensures var at := |bytes| - 1 - n / 8;
            Holds(mask, if mask[|mask| - 1 - n] then bytes[at := bytes[at] | (1 << (n % 8))] else bytes, n + 1)
  {
    hide BitFromBack;
    var at := |bytes| - 1 - n / 8;
    var next := if mask[|mask| - 1 - n] then bytes[at := bytes[at] | (1 << (n % 8))] else bytes;
    forall i: nat | i < 8 * |bytes|
      ensures BitFromBack(next, i) <==> i < n + 1 && mask[|mask| - 1 - i]
    {
      SetBitFromBack(bytes, n, i);
      assert BitFromBack(bytes, i) <==> i < n && mask[|mask| - 1 - i];
    }
  }

  method Encode(mask: seq<bool>) returns (r: Packed)
    ensures IsEncoding(mask, r)
  {
    var numBytes := NumBytes(|mask|);
    var buf: seq<bv8> := seq(numBytes, _ => 0);
    hide Bit;
    assert forall i: nat | i < 8 * |buf| :: !BitFromBack(buf, i) by {
      NoBit();
    }
    for n := 0 to |mask|
      invariant |buf| == numBytes
      invariant Holds(mask, buf, n)
    {
      HoldsStep(mask, buf, n);
      if mask[|mask| - 1 - n] {
        var at := |buf| - 1 - n / 8;
        buf := buf[at := buf[at] | (1 << (n % 8))];
      }
    }
    return Packed(|mask| % U32, buf);
  }

  lemma NoBit()
    ensures forall k: nat | k < 8 :: !Bit(0, k)
  {
  }

  predicate Accepted(p: Packed) {
    p.numBits <= MAX_SIGNERS && |p.bytes| == NumBytes(p.numBits)
  }

  /** Reads the bits from the back, then reverses them. */
  method Decode(p: Packed) returns (r: Option<seq<bool>>)
    ensures r.Some? <==> Accepted(p)
    ensures r.Some? ==> |r.value| == p.numBits && r.value == Unpacked(p)
  {
    if p.numBits > MAX_SIGNERS {
      return None;
    }
    if |p.bytes| != NumBytes(p.numBits) {
      return None;
    }
    hide Bit;
    var bits: seq<bool> := [];
    while |bits| < p.numBits
      invariant |bits| <= p.numBits
      invariant forall i | 0 <= i < |bits| :: bits[i] == BitFromBack(p.bytes, i)
    {
      bits := bits + [BitFromBack(p.bytes, |bits|)];
    }
    forall k: nat | k < |bits|
      ensures Reversed(bits)[k] == Unpacked(p)[k]
    {
      ReversedAt(bits, k);
    }
    return Some(Reversed(bits));
  }

  function Unpacked(p: Packed): seq<bool>
    requires Accepted(p)
  {
    seq(p.numBits, i requires 0 <= i < p.numBits => BitFromBack(p.bytes, p.numBits - 1 - i))
  }

  /** A bitmap survives the wire exactly when it is not longer than the limit. */
  lemma RoundTrip(mask: seq<bool>, p: Packed)
    requires IsEncoding(mask, p)
    ensures Accepted(p) <==> |mask| <= MAX_SIGNERS
    ensures Accepted(p) ==> Unpacked(p) == mask
  {
    if |mask| <= MAX_SIGNERS {
      forall i | 0 <= i < |mask|
        ensures Unpacked(p)[i] == mask[i]
      {
        assert BitFromBack(p.bytes, |mask| - 1 - i) <==> mask[i];
      }
    } else if |mask| >= U32 {
      assert NumBytes(|mask|) > NumBytes(MAX_SIGNERS);
    }
  }

  /** There is one encoding only. */
  lemma EncodingUnique(mask: seq<bool>, p: Packed, q: Packed)
    requires IsEncoding(mask, p) && IsEncoding(mask, q)
    ensures p == q
  {
    hide BitFromBack;
    SameBytes(p.bytes, q.bytes);
  }

  /** The bits before the first one of the bitmap are clear. */
  predicate PaddingClear(p: Packed)
    requires Accepted(p)
  {
    forall i: nat | p.numBits <= i < 8 * |p.bytes| :: !BitFromBack(p.bytes, i)
  }

  /** An accepted message is what its bitmap encodes to exactly when its padding is clear. */
  lemma CanonicalIffPaddingClear(p: Packed)
    requires Accepted(p)
    ensures IsEncoding(Unpacked(p), p) <==> PaddingClear(p)
  {
    hide BitFromBack;
    var mask := Unpacked(p);
    assert forall i | 0 <= i < p.numBits :: mask[p.numBits - 1 - i] == BitFromBack(p.bytes, i);
    if IsEncoding(mask, p) {
      forall i: nat | p.numBits <= i < 8 * |p.bytes|
        ensures !BitFromBack(p.bytes, i)
      {
        assert i >= |mask|;
      }
    }
  }

  /** Two messages can stand for one bitmap: the decoder does not look at the padding. */
  lemma PaddingIgnored()
    ensures Accepted(Packed(1, [1])) && Accepted(Packed(1, [3]))
    ensures Unpacked(Packed(1, [1])) == Unpacked(Packed(1, [3]))
  {
    assert BitFromBack([1], 0) && BitFromBack([3], 0);
  }
}
