/** Finding the items of an encoded list without decoding them, on a machine with 64-bit addresses.
    An overflow is an outcome of its own here: a panic in a build with overflow checks. */
module RlpScanning {
  import opened Rlp

  datatype Outcome<+T> = Ok(value: T) | Err | Panic | Overflow {
    predicate IsFailure() {
      !Ok?
    }

    function PropagateFailure<U>(): Outcome<U>
      requires IsFailure()
    {
      if Err? then Err else if Panic? then Panic else Overflow
    }

    function Extract(): T
      requires Ok?
    {
      value
    }
  }

  datatype Range = Range(start: nat, end: nat)

  datatype TxByteOffsets = TxByteOffsets(tx: Range, receipt: Range, trace: Range)

  function Plus(a: nat, b: nat): Outcome<nat> {
    if a + b < LIMIT then Ok(a + b) else Overflow
  }

  // ---------------------------------------------------------------- lengths

  /** The number that big-endian bytes stand for, refused with leading zeros. */
  function Uint(bytes: seq<Byte>): Outcome<nat> {
    if bytes == [] || (bytes[0] == 0 && |bytes| > 1) || Value(bytes) >= LIMIT then Err else Ok(Value(bytes))
  }

  /** The lengths of the content and of the whole item at a position, before any overflow. */
  function ItemLength(data: seq<Byte>, pos: nat): (r: Outcome<(nat, nat)>)
    ensures r.Ok? ==> r.value.0 <= r.value.1 && 0 < r.value.1 && pos < |data|
    ensures !r.Overflow?
  {
    if pos > |data| then Panic
    else if pos == |data| then Err
    else
      var first := data[pos];
      if first <= 0x7f then Ok((1, 1))
      else if first <= 0xb7 then Ok((first - 0x80, first - 0x80 + 1))
      else if first <= 0xbf then LongLength(data, pos, first - 0xb7)
      else if first <= 0xf7 then Ok((first - 0xc0, first - 0xc0 + 1))
      else LongLength(data, pos, first - 0xf7)
  }

  function LongLength(data: seq<Byte>, pos: nat, k: nat): (r: Outcome<(nat, nat)>)
    requires pos < |data|
    ensures r.Ok? ==> r.value.0 < r.value.1
    ensures !r.Overflow?
  {
    if |data| - pos < 1 + k then Err
    else
      var n :- Uint(data[pos + 1..pos + 1 + k]);
      Ok((n, 1 + k + n))
  }

  function Checked(length: Outcome<(nat, nat)>): Outcome<(nat, nat)> {
    if length.Ok? && length.value.1 >= LIMIT then Overflow else length
  }

  /** The lengths as the scanner computes them. */
  function LengthAt(data: seq<Byte>, pos: nat): (r: Outcome<(nat, nat)>)
    ensures r.Ok? ==> r.value.0 <= r.value.1 && 0 < r.value.1 < LIMIT
  {
    Checked(ItemLength(data, pos))
  }

  lemma {:induction false} ValueGrows(digits: seq<nat>, i: nat)
    requires i <= |digits|
    ensures Value(digits[..i]) <= Value(digits)
    decreases |digits|
  {
    if i < |digits| {
      assert digits[..|digits|-1][..i] == digits[..i];
      ValueGrows(digits[..|digits|-1], i);
    } else {
      assert digits[..i] == digits;
    }
  }

  class RlpScanner {
    const data: seq<Byte>
    var position: nat

    constructor (data: seq<Byte>)
      ensures this.data == data && position == 0
    {
      this.data, position := data, 0;
    }

    method DecodeLength() returns (r: Outcome<(nat, nat)>)
      ensures r == LengthAt(data, position)
    {
      if position > |data| {
        return Panic;
      }
      if position == |data| {
        return Err;
      }
      var first := data[position];
      if first <= 0x7f {
        return Ok((1, 1));
      } else if first <= 0xb7 {
        return Ok((first - 0x80, first - 0x80 + 1));
      } else if first <= 0xbf {
        r := DecodeLongLength(first - 0xb7);
      } else if first <= 0xf7 {
        return Ok((first - 0xc0, first - 0xc0 + 1));
      } else {
        r := DecodeLongLength(first - 0xf7);
      }
    }

    method DecodeLongLength(k: nat) returns (r: Outcome<(nat, nat)>)
      requires position < |data|
      ensures r == Checked(LongLength(data, position, k))
    {
      if |data| - position < 1 + k {
        return Err;
      }
      var n :- DecodeUint(data[position + 1..position + 1 + k]);
      var total :- Plus(1 + k, n);
      return Ok((n, total));
    }

    method DecodeUint(bytes: seq<Byte>) returns (r: Outcome<nat>)
      ensures r == Uint(bytes)
    {
      if bytes == [] {
        return Err;
      }
      if bytes[0] == 0 && |bytes| > 1 {
        return Err;
      }
      var result := 0;
      for i := 0 to |bytes|
        invariant result == Value(bytes[..i]) < LIMIT
      {
        assert bytes[..i + 1][..i] == bytes[..i];
        ValueGrows(bytes, i + 1);
        if result * 256 >= LIMIT {
          return Err;
        }
        result := result * 256;
        if result + bytes[i] >= LIMIT {
          return Err;
        }
        result := result + bytes[i];
      }
      assert bytes[..|bytes|] == bytes;
      return Ok(result);
    }

    /** Collects the ranges of the items up to `end`. */
    method CollectRanges(end: nat) returns (r: Outcome<seq<Range>>)
      modifies `position
      ensures r == Scan(data, old(position), end)
    {
      var ranges := [];
      PrependTwice([], [], Scan(data, position, end));
      while position < end
        invariant Scan(data, old(position), end) == Prepend(ranges, Scan(data, position, end))
        decreases end - position
      {
        var start := position;
        var length :- DecodeLength();
        var next :- Plus(position, length.1);
        position := next;
        PrependTwice(ranges, [Range(start, position)], Scan(data, position, end));
        ranges := ranges + [Range(start, position)];
      }
      assert ranges + [] == ranges;
      return Ok(ranges);
    }
  }

  // ---------------------------------------------------------------- ranges

  /** The ranges of consecutive items until `end` is reached or passed. */
  function Scan(data: seq<Byte>, pos: nat, end: nat): Outcome<seq<Range>>
    decreases end - pos
  {
    if pos >= end then Ok([])
    else
      var (_, len) :- LengthAt(data, pos);
      var next :- Plus(pos, len);
      Prepend([Range(pos, next)], Scan(data, next, end))
  }

  function Prepend(ranges: seq<Range>, more: Outcome<seq<Range>>): Outcome<seq<Range>> {
    var rest :- more;
    Ok(ranges + rest)
  }

  lemma PrependTwice(a: seq<Range>, b: seq<Range>, more: Outcome<seq<Range>>)
    ensures Prepend(a, Prepend(b, more)) == Prepend(a + b, more)
    ensures Prepend([], more) == more
  {
    if more.Ok? {
      assert a + (b + more.value) == a + b + more.value;
      assert [] + more.value == more.value;
    }
  }

  function ListRanges(data: seq<Byte>): Outcome<seq<Range>> {
    var (content, total) :- LengthAt(data, 0);
    Scan(data, total - content, total)
  }

  /** Where the transaction list starts: behind the block's prefix and the header. */
  function TransactionsAt(block: seq<Byte>): Outcome<nat> {
    var (content, total) :- LengthAt(block, 0);
    var (_, header) :- LengthAt(block, total - content);
    Plus(total - content, header)
  }

  function TransactionRanges(block: seq<Byte>): Outcome<seq<Range>> {
    var at :- TransactionsAt(block);
    var (content, total) :- LengthAt(block, at);
    var start :- Plus(at, total - content);
    var end :- Plus(start, content);
    Scan(block, start, end)
  }

  function Moved(ranges: seq<Range>, offset: nat): seq<Range> {
    seq(|ranges|, i requires 0 <= i < |ranges| => Range(ranges[i].start + offset, ranges[i].end + offset))
  }

  predicate CanMove(ranges: seq<Range>, offset: nat) {
    forall i | 0 <= i < |ranges| :: ranges[i].start + offset < LIMIT && ranges[i].end + offset < LIMIT
  }

  function Shifted(ranges: seq<Range>, offset: nat): Outcome<seq<Range>> {
    if CanMove(ranges, offset) then Ok(Moved(ranges, offset)) else Overflow
  }

  function Zipped(txs: seq<Range>, receipts: seq<Range>, traces: seq<Range>): (r: seq<TxByteOffsets>)
    requires |txs| == |receipts| == |traces|
  {
    seq(|txs|, i requires 0 <= i < |txs| => TxByteOffsets(txs[i], receipts[i], traces[i]))
  }

  function AllTxOffsets(block: seq<Byte>, receipts: seq<Byte>, traces: seq<Byte>): Outcome<seq<TxByteOffsets>> {
    var at :- TransactionsAt(block);
    var (_, total) :- LengthAt(block, at);
    var end :- Plus(at, total);
    if end > |block| then Panic
    else
      var inList :- ListRanges(block[at..end]);
      var ofReceipts :- ListRanges(receipts);
      var ofTraces :- ListRanges(traces);
      var ofTxs :- Shifted(inList, at);
      if |ofTxs| != |ofReceipts| || |ofTxs| != |ofTraces| then Err
      else Ok(Zipped(ofTxs, ofReceipts, ofTraces))
  }

  method GetRlpListRanges(data: seq<Byte>) returns (r: Outcome<seq<Range>>)
    ensures r == ListRanges(data)
  {
    hide LengthAt, Scan;
    var scanner := new RlpScanner(data);
    var list :- scanner.DecodeLength();
    var start := scanner.position + (list.1 - list.0);
    scanner.position := start;
    var end := start + list.0;
    r := scanner.CollectRanges(end);
  }

  method GetTransactionRanges(block: seq<Byte>) returns (r: Outcome<seq<Range>>)
    ensures r == TransactionRanges(block)
  {
    hide LengthAt, Scan;
    var scanner := new RlpScanner(block);
    var whole :- scanner.DecodeLength();
    scanner.position := scanner.position + (whole.1 - whole.0);
    var header :- scanner.DecodeLength();
    var listAt :- Plus(scanner.position, header.1);
    scanner.position := listAt;
    var list :- scanner.DecodeLength();
    var start :- Plus(scanner.position, list.1 - list.0);
    scanner.position := start;
    var end :- Plus(start, list.0);
    r := scanner.CollectRanges(end);
  }

  method GetAllTxOffsets(block: seq<Byte>, receipts: seq<Byte>,
                         traces: seq<Byte>) returns (r: Outcome<seq<TxByteOffsets>>)
    ensures r == AllTxOffsets(block, receipts, traces)
  {
    hide LengthAt, Scan, ListRanges, Shifted;
    var scanner := new RlpScanner(block);
    var whole :- scanner.DecodeLength();
    scanner.position := scanner.position + (whole.1 - whole.0);
    var header :- scanner.DecodeLength();
    var listAt :- Plus(scanner.position, header.1);
    scanner.position := listAt;
    var list :- scanner.DecodeLength();
    var start := scanner.position;
    var end :- Plus(start, list.1);
    if end > |block| {
      return Panic;
    }
    var inList :- GetRlpListRanges(block[start..end]);
    var ofReceipts :- GetRlpListRanges(receipts);
    var ofTraces :- GetRlpListRanges(traces);
    var ofTxs :- Shifted(inList, start);
    if |ofTxs| != |ofReceipts| || |ofTxs| != |ofTraces| {
      return Err;
    }
    return Ok(Zipped(ofTxs, ofReceipts, ofTraces));
  }
}
