/** Recursive length prefix, Appendix B of the Ethereum Yellow Paper. */
module Rlp {

  /** One more than the largest 64-bit length. */
  const LIMIT: nat := 0x1_0000_0000_0000_0000

  type Byte = b: nat | b < 256

  datatype Item = Str(bytes: seq<Byte>) | List(items: seq<Item>)

  /** The big-endian digits of a number, without leading zeros. */
  function BigEndian(n: nat): seq<nat> {
    if n == 0 then [] else BigEndian(n / 256) + [n % 256]
  }

  /** The number that big-endian digits stand for. */
  function Value(digits: seq<nat>): nat {
    if digits == [] then 0 else 256 * Value(digits[..|digits|-1]) + digits[|digits|-1]
  }

  function Prefix(base: nat, n: nat): seq<nat> {
    if n < 56 then [base + n] else [base + 55 + |BigEndian(n)|] + BigEndian(n)
  }

  predicate IsByteItself(x: Item) {
    x.Str? && |x.bytes| == 1 && x.bytes[0] < 128
  }

  /** What follows the prefix. */
  function Content(x: Item): seq<nat>
    decreases x, 0
  {
    match x
    case Str(bytes) => bytes
    case List(items) => EncodeAll(items)
  }

  function Encode(x: Item): seq<nat>
    decreases x, 1
  {
    if IsByteItself(x) then Content(x)
    else Prefix(if x.Str? then 0x80 else 0xc0, |Content(x)|) + Content(x)
  }

  function EncodeAll(items: seq<Item>): seq<nat>
    decreases items
  {
    if items == [] then [] else Encode(items[0]) + EncodeAll(items[1..])
  }

  predicate Bytes(s: seq<nat>) {
    forall i | 0 <= i < |s| :: s[i] < 256
  }

  // ---------------------------------------------------------------- lengths

  lemma {:induction false} BigEndianValue(n: nat)
    ensures Value(BigEndian(n)) == n && Bytes(BigEndian(n))
    ensures n > 0 ==> BigEndian(n) != [] && BigEndian(n)[0] != 0
  {
    if n > 0 {
      BigEndianValue(n / 256);
      assert BigEndian(n)[..|BigEndian(n)|-1] == BigEndian(n / 256);
    }
  }

  function Power256(k: nat): nat {
    if k == 0 then 1 else 256 * Power256(k - 1)
  }

  lemma {:induction false} BigEndianLength(n: nat, k: nat)
    ensures |BigEndian(n)| <= k <==> n < Power256(k)
    decreases n
  {
    if n > 0 && k > 0 {
      BigEndianLength(n / 256, k - 1);
    } else {
      Power256Positive(k);
    }
  }

  lemma {:induction false} Power256Positive(k: nat)
    ensures Power256(k) > 0
  {
    if k > 0 {
      Power256Positive(k - 1);
    }
  }

  lemma LengthInEightBytes(n: nat)
    ensures |BigEndian(n)| <= 8 <==> n < LIMIT
  {
    BigEndianLength(n, 8);
    assert Power256(4) == 256 * 256 * 256 * 256;
    assert Power256(8) == 256 * 256 * 256 * 256 * Power256(4);
  }

  // ---------------------------------------------------------------- bytes

  lemma PrefixIsBytes(base: nat, n: nat)
    requires base <= 0xc0 && n < LIMIT
    ensures Bytes(Prefix(base, n))
  {
    if n >= 56 {
      BigEndianValue(n);
      LengthInEightBytes(n);
    }
  }

  /** An item shorter than the limit encodes to bytes. */
  lemma {:induction false} EncodingIsBytes(x: Item)
    requires |Encode(x)| < LIMIT
    ensures Bytes(Encode(x))
    decreases x, 0
  {
    if x.List? {
      EncodingsAreBytes(x.items);
    }
    if !IsByteItself(x) {
      PrefixIsBytes(if x.Str? then 0x80 else 0xc0, |Content(x)|);
    }
  }

  lemma {:induction false} EncodingsAreBytes(items: seq<Item>)
    requires |EncodeAll(items)| < LIMIT
    ensures Bytes(EncodeAll(items))
    decreases items
  {
    if items != [] {
      EncodingIsBytes(items[0]);
      EncodingsAreBytes(items[1..]);
    }
  }
}
