/** What the scanner finds in encoded lists and blocks. */
module RlpRanges {
  import opened Rlp
  import opened RlpScanning

  /** The bytes `s` stand at a position of the data. */
  predicate At(data: seq<Byte>, pos: nat, s: seq<nat>) {
    pos + |s| <= |data| && forall i | 0 <= i < |s| :: data[pos + i] == s[i]
  }

  lemma AtSplit(data: seq<Byte>, pos: nat, a: seq<nat>, b: seq<nat>)
    requires At(data, pos, a + b)
    ensures At(data, pos, a) && At(data, pos + |a|, b)
  {
    assert forall i | 0 <= i < |a| :: a[i] == (a + b)[i];
    forall i | 0 <= i < |b|
      ensures data[pos + |a| + i] == b[i]
    {
      assert b[i] == (a + b)[|a| + i];
    }
  }

  lemma AtSlice(data: seq<Byte>, pos: nat, s: seq<nat>)
    requires At(data, pos, s)
    ensures pos + |s| <= |data| && data[pos..pos + |s|] == s
    ensures s != [] ==> data[pos] == s[0]
  {
  }

  // ---------------------------------------------------------------- one item

  lemma LengthFromDigits(data: seq<Byte>, pos: nat, n: nat)
    requires 0 < n && 1 + |BigEndian(n)| + n < LIMIT && At(data, pos + 1, BigEndian(n))
    ensures LongLength(data, pos, |BigEndian(n)|) == Ok((n, 1 + |BigEndian(n)| + n))
  {
    BigEndianValue(n);
    hide At, BigEndian, Value;
    AtSlice(data, pos + 1, BigEndian(n));
  }

  lemma LongPrefix(base: nat, n: nat)
    requires n >= 56
    ensures Prefix(base, n) == [base + 55 + |BigEndian(n)|] + BigEndian(n) && BigEndian(n) != []
  {
    BigEndianValue(n);
  }

  lemma LengthOfLong(data: seq<Byte>, pos: nat, base: nat, n: nat)
    requires n >= 56 && At(data, pos, Prefix(base, n)) && n + |Prefix(base, n)| < LIMIT
    ensures 1 <= |BigEndian(n)| <= 8 && pos < |data| && data[pos] == base + 55 + |BigEndian(n)|
    ensures LongLength(data, pos, |BigEndian(n)|) == Ok((n, |Prefix(base, n)| + n))
  {
    hide At, LongLength, BigEndian, Value, Prefix;
    var digits := BigEndian(n);
    LengthInEightBytes(n);
    LongPrefix(base, n);
    AtSplit(data, pos, [base + 55 + |digits|], digits);
    AtSlice(data, pos, Prefix(base, n));
    LengthFromDigits(data, pos, n);
  }

  /** The scanner reads the length of an item off its encoding. */
  lemma LengthOfItem(data: seq<Byte>, pos: nat, x: Item)
    requires |data| < LIMIT && At(data, pos, Encode(x))
    ensures LengthAt(data, pos) == Ok((|Content(x)|, |Encode(x)|))
  {
    var n := |Content(x)|;
    var base := if x.Str? then 0x80 else 0xc0;
    AtSlice(data, pos, Encode(x));
    hide At;
    if !IsByteItself(x) && n >= 56 {
      AtSplit(data, pos, Prefix(base, n), Content(x));
      LengthOfLong(data, pos, base, n);
      hide Prefix, BigEndian, LongLength, Content;
    }
  }

  // ---------------------------------------------------------------- consecutive items

  function RangesOf(pos: nat, items: seq<Item>): (r: seq<Range>)
    ensures |r| == |items|
    decreases |items|
  {
    if items == [] then []
    else
      var next := pos + |Encode(items[0])|;
      [Range(pos, next)] + RangesOf(next, items[1..])
  }

  lemma ScanStep(data: seq<Byte>, pos: nat, end: nat, len: nat)
    requires pos < end && LengthAt(data, pos).Ok? && LengthAt(data, pos).value.1 == len && pos + len < LIMIT
    ensures Scan(data, pos, end) == Prepend([Range(pos, pos + len)], Scan(data, pos + len, end))
  {
    hide LengthAt;
  }

  lemma {:induction false} ScanItems(data: seq<Byte>, pos: nat, items: seq<Item>)
    requires |data| < LIMIT && At(data, pos, EncodeAll(items))
    ensures Scan(data, pos, pos + |EncodeAll(items)|) == Ok(RangesOf(pos, items))
    decreases |items|
  {
    hide At, LengthAt, Encode;
    if items != [] {
      var first, tail := Encode(items[0]), EncodeAll(items[1..]);
      assert EncodeAll(items) == first + tail;
      hide EncodeAll;
      AtSplit(data, pos, first, tail);
      AtSlice(data, pos, first);
      LengthOfItem(data, pos, items[0]);
      ScanItems(data, pos + |first|, items[1..]);
      hide Scan;
      ScanStep(data, pos, pos + |first + tail|, |first|);
    }
  }

  /** One range after the other, from `start` to `end`. */
  predicate Contiguous(ranges: seq<Range>, start: nat, end: nat) {
    && (if ranges == [] then start == end else ranges[0].start == start && ranges[|ranges|-1].end == end)
    && (forall i | 0 < i < |ranges| :: ranges[i - 1].end == ranges[i].start)
  }

  /** The ranges cut the encodings of the items out of the data, in order and without gaps. */
  predicate Delimits(data: seq<Byte>, ranges: seq<Range>, items: seq<Item>, start: nat, end: nat) {
    && |ranges| == |items|
    && Contiguous(ranges, start, end)
    && forall i | 0 <= i < |ranges| ::
         ranges[i].start <= ranges[i].end <= |data| && data[ranges[i].start..ranges[i].end] == Encode(items[i])
  }

  lemma DelimitsMore(data: seq<Byte>, first: Range, ranges: seq<Range>, item: Item, items: seq<Item>, end: nat)
    requires first.start <= first.end <= |data| && data[first.start..first.end] == Encode(item)
    requires Delimits(data, ranges, items, first.end, end)
    ensures Delimits(data, [first] + ranges, [item] + items, first.start, end)
  {
    hide Encode;
    var all := [first] + ranges;
    forall i | 0 < i < |all|
      ensures all[i - 1].end == all[i].start
    {
      if i > 1 {
        assert all[i - 1] == ranges[i - 2] && ranges[i - 2].end == ranges[i - 1].start;
      }
    }
  }

  lemma {:induction false} RangesDelimit(data: seq<Byte>, pos: nat, items: seq<Item>)
    requires At(data, pos, EncodeAll(items))
    ensures Delimits(data, RangesOf(pos, items), items, pos, pos + |EncodeAll(items)|)
    decreases |items|
  {
    hide At, Encode, Delimits;
    if items == [] {
      NothingDelimits(data, pos);
    } else {
      var first, tail := Encode(items[0]), EncodeAll(items[1..]);
      assert EncodeAll(items) == first + tail;
      AtSplit(data, pos, first, tail);
      AtSlice(data, pos, first);
      RangesDelimit(data, pos + |first|, items[1..]);
      DelimitsMore(data, Range(pos, pos + |first|), RangesOf(pos + |first|, items[1..]), items[0], items[1..],
          pos + |EncodeAll(items)|);
      assert items == [items[0]] + items[1..];
    }
  }

  lemma NothingDelimits(data: seq<Byte>, pos: nat)
    ensures Delimits(data, [], [], pos, pos)
  {
  }

  // ---------------------------------------------------------------- lists

  /** The number of bytes before the items of a list. */
  function PrefixLength(items: seq<Item>): nat {
    |Prefix(0xc0, |EncodeAll(items)|)|
  }

  lemma ListEncoding(items: seq<Item>)
    ensures Encode(List(items)) == Prefix(0xc0, |EncodeAll(items)|) + EncodeAll(items)
    ensures |Content(List(items))| == |EncodeAll(items)|
    ensures |Encode(List(items))| == PrefixLength(items) + |EncodeAll(items)|
  {
  }

  lemma InsideList(data: seq<Byte>, pos: nat, items: seq<Item>)
    requires At(data, pos, Encode(List(items)))
    ensures At(data, pos + PrefixLength(items), EncodeAll(items))
  {
    hide At, Encode, EncodeAll, Prefix;
    ListEncoding(items);
    AtSplit(data, pos, Prefix(0xc0, |EncodeAll(items)|), EncodeAll(items));
  }

  /** In an encoded list the scanner finds exactly the items, even with bytes left behind it. */
  lemma ListRangesExact(data: seq<Byte>, items: seq<Item>)
    requires |data| < LIMIT && At(data, 0, Encode(List(items)))
    ensures ListRanges(data) == Ok(RangesOf(PrefixLength(items), items))
    ensures Delimits(data, ListRanges(data).value, items, PrefixLength(items), |Encode(List(items))|)
  {
    hide Encode, EncodeAll, Content, LengthAt, PrefixLength, At, Delimits, Scan;
    LengthOfItem(data, 0, List(items));
    ListEncoding(items);
    InsideList(data, 0, items);
    ScanItems(data, PrefixLength(items), items);
    RangesDelimit(data, PrefixLength(items), items);
  }

  // ---------------------------------------------------------------- blocks

  /** A block is a list of its header, its transactions, and more. */
  function Block(header: Item, txs: seq<Item>, rest: seq<Item>): Item {
    List([header, List(txs)] + rest)
  }

  /** Where the transaction list of an encoded block starts. */
  function ListOffset(header: Item, txs: seq<Item>, rest: seq<Item>): nat {
    PrefixLength([header, List(txs)] + rest) + |Encode(header)|
  }

  lemma EncodeTwo(a: Item, b: Item, rest: seq<Item>)
    ensures EncodeAll([a, b] + rest) == Encode(a) + (Encode(b) + EncodeAll(rest))
  {
    var all := [a, b] + rest;
    assert all[1..] == [b] + rest && ([b] + rest)[1..] == rest;
    assert EncodeAll([b] + rest) == Encode(b) + EncodeAll(rest);
  }

  lemma BlockLayout(block: seq<Byte>, header: Item, txs: seq<Item>, rest: seq<Item>)
    requires |block| < LIMIT && At(block, 0, Encode(Block(header, txs, rest)))
    ensures At(block, ListOffset(header, txs, rest), Encode(List(txs)))
    ensures TransactionsAt(block) == Ok(ListOffset(header, txs, rest))
  {
    hide Encode, EncodeAll, Content, LengthAt, PrefixLength, At;
    var items := [header, List(txs)] + rest;
    var p := PrefixLength(items);
    LengthOfItem(block, 0, List(items));
    ListEncoding(items);
    InsideList(block, 0, items);
    EncodeTwo(header, List(txs), rest);
    AtSplit(block, p, Encode(header), Encode(List(txs)) + EncodeAll(rest));
    AtSplit(block, p + |Encode(header)|, Encode(List(txs)), EncodeAll(rest));
    LengthOfItem(block, p, header);
    AtSlice(block, p, Encode(header));
  }

  /** The ranges of the transactions of an encoded block. */
  lemma TransactionRangesAre(block: seq<Byte>, header: Item, txs: seq<Item>, rest: seq<Item>)
    requires |block| < LIMIT && At(block, 0, Encode(Block(header, txs, rest)))
    ensures TransactionRanges(block) == Ok(RangesOf(ListOffset(header, txs, rest) + PrefixLength(txs), txs))
  {
    hide Encode, EncodeAll, Content, LengthAt, PrefixLength, TransactionsAt, ListOffset, Block, At, Scan;
    var at := ListOffset(header, txs, rest);
    BlockLayout(block, header, txs, rest);
    LengthOfItem(block, at, List(txs));
    ListEncoding(txs);
    AtSlice(block, at, Encode(List(txs)));
    InsideList(block, at, txs);
    ScanItems(block, at + PrefixLength(txs), txs);
  }

  /** In an encoded block the scanner finds exactly the transactions. */
  lemma TransactionRangesExact(block: seq<Byte>, header: Item, txs: seq<Item>, rest: seq<Item>)
    requires |block| < LIMIT && At(block, 0, Encode(Block(header, txs, rest)))
    ensures TransactionRanges(block).Ok?
    ensures var at := ListOffset(header, txs, rest);
            Delimits(block, TransactionRanges(block).value, txs, at + PrefixLength(txs), at + |Encode(List(txs))|)
  {
    hide Encode, EncodeAll, Content, LengthAt, PrefixLength, TransactionsAt, ListOffset, Block, At, Delimits, Scan;
    var at := ListOffset(header, txs, rest);
    BlockLayout(block, header, txs, rest);
    ListEncoding(txs);
    InsideList(block, at, txs);
    TransactionRangesAre(block, header, txs, rest);
    RangesDelimit(block, at + PrefixLength(txs), txs);
  }

  // ---------------------------------------------------------------- all offsets of a block

  lemma AtSliced(data: seq<Byte>, pos: nat, s: seq<nat>)
    requires At(data, pos, s)
    ensures pos + |s| <= |data| && At(data[pos..pos + |s|], 0, s)
  {
  }

  lemma MovedMore(first: Range, rest: seq<Range>, offset: nat)
    requires first.start + offset < LIMIT && first.end + offset < LIMIT && CanMove(rest, offset)
    ensures CanMove([first] + rest, offset)
    ensures Moved([first] + rest, offset) == [Range(first.start + offset, first.end + offset)] + Moved(rest, offset)
  {
    var all := [first] + rest;
    assert forall i | 0 < i < |all| :: all[i] == rest[i - 1];
  }

  lemma {:induction false} RangesMoved(pos: nat, offset: nat, items: seq<Item>)
    requires pos + offset + |EncodeAll(items)| < LIMIT
    ensures CanMove(RangesOf(pos, items), offset)
    ensures Moved(RangesOf(pos, items), offset) == RangesOf(pos + offset, items)
    decreases |items|
  {
    if items != [] {
      hide Encode, Moved, CanMove;
      var next, tail := pos + |Encode(items[0])|, items[1..];
      assert EncodeAll(items) == Encode(items[0]) + EncodeAll(tail);
      assert RangesOf(pos, items) == [Range(pos, next)] + RangesOf(next, tail);
      assert RangesOf(pos + offset, items) == [Range(pos + offset, next + offset)] + RangesOf(next + offset, tail) by {
        assert pos + offset + |Encode(items[0])| == next + offset;
      }
      hide EncodeAll, RangesOf;
      RangesMoved(next, offset, tail);
      MovedMore(Range(pos, next), RangesOf(next, tail), offset);
    }
  }

  /** The ranges found in the slice that holds the transaction list are those found in the block. */
  lemma SlicedRanges(block: seq<Byte>, header: Item, txs: seq<Item>, rest: seq<Item>)
    requires |block| < LIMIT && At(block, 0, Encode(Block(header, txs, rest)))
    ensures var at, end := ListOffset(header, txs, rest), ListOffset(header, txs, rest) + |Encode(List(txs))|;
            && end <= |block|
            && ListRanges(block[at..end]).Ok?
            && Shifted(ListRanges(block[at..end]).value, at) == Ok(RangesOf(at + PrefixLength(txs), txs))
  {
    hide Encode, EncodeAll, Content, LengthAt, PrefixLength, TransactionsAt, ListOffset, Block, At, Delimits,
        Scan, CanMove, Moved, ListRanges;
    var at := ListOffset(header, txs, rest);
    var end := at + |Encode(List(txs))|;
    BlockLayout(block, header, txs, rest);
    AtSliced(block, at, Encode(List(txs)));
    ListRangesExact(block[at..end], txs);
    ListEncoding(txs);
    RangesMoved(PrefixLength(txs), at, txs);
  }

  /** The offsets pair the transactions with the items of two more lists. */
  predicate Pairs(offsets: seq<TxByteOffsets>, txs: seq<Range>, receipts: seq<Range>, traces: seq<Range>) {
    && |offsets| == |txs| == |receipts| == |traces|
    && forall i | 0 <= i < |offsets| ::
        offsets[i].tx == txs[i] && offsets[i].receipt == receipts[i] && offsets[i].trace == traces[i]
  }

  /** For an encoded block, receipts and traces the offsets fail exactly when the counts differ;
      otherwise they pair the three lists, with the transaction ranges found in the block. */
  lemma AllTxOffsetsExact(block: seq<Byte>, receipts: seq<Byte>, traces: seq<Byte>,
                          header: Item, txs: seq<Item>, rest: seq<Item>, rs: seq<Item>, ts: seq<Item>)
    requires |block| < LIMIT && At(block, 0, Encode(Block(header, txs, rest)))
    requires |receipts| < LIMIT && At(receipts, 0, Encode(List(rs)))
    requires |traces| < LIMIT && At(traces, 0, Encode(List(ts)))
    ensures TransactionRanges(block).Ok? && ListRanges(receipts).Ok? && ListRanges(traces).Ok?
    ensures var r := AllTxOffsets(block, receipts, traces);
            if |txs| == |rs| == |ts|
            then r.Ok? && Pairs(r.value, TransactionRanges(block).value, ListRanges(receipts).value,
                ListRanges(traces).value)
            else r == Err
  {
    hide Encode, EncodeAll, Content, LengthAt, PrefixLength, TransactionsAt, ListOffset, Block, At, Delimits,
        Scan, Shifted, ListRanges, TransactionRanges;
    var at := ListOffset(header, txs, rest);
    BlockLayout(block, header, txs, rest);
    LengthOfItem(block, at, List(txs));
    SlicedRanges(block, header, txs, rest);
    TransactionRangesAre(block, header, txs, rest);
    ListRangesExact(receipts, rs);
    ListRangesExact(traces, ts);
  }

  // ---------------------------------------------------------------- arbitrary input

  /** Ranges that follow each other from `pos`, are not empty, start inside the data and before
      `end`, and reach it. */
  predicate Reaches(ranges: seq<Range>, size: nat, pos: nat, end: nat) {
    && (forall i | 0 <= i < |ranges| ::
        ranges[i].start < ranges[i].end && ranges[i].start < end && ranges[i].start < size)
    && (if ranges == [] then pos >= end
        else ranges[|ranges|-1].end >= end && Contiguous(ranges, pos, ranges[|ranges|-1].end))
  }

  lemma ReachesMore(first: Range, rest: seq<Range>, size: nat, end: nat)
    requires first.start < first.end && first.start < end && first.start < size && Reaches(rest, size, first.end, end)
    ensures Reaches([first] + rest, size, first.start, end)
  {
    var all := [first] + rest;
    forall i | 0 < i < |all|
      ensures all[i - 1].end == all[i].start
    {
      if i > 1 {
        assert all[i - 1] == rest[i - 2] && rest[i - 2].end == rest[i - 1].start;
      }
    }
  }

  /** This holds of whatever the scanner finds, whatever the data. */
  lemma {:induction false} ScanReaches(data: seq<Byte>, pos: nat, end: nat)
    requires Scan(data, pos, end).Ok?
    ensures Reaches(Scan(data, pos, end).value, |data|, pos, end)
    decreases end - pos
  {
    if pos < end {
      var len := LengthAt(data, pos).value.1;
      assert pos < |data|;
      hide LengthAt, Reaches;
      ScanReaches(data, pos + len, end);
      ReachesMore(Range(pos, pos + len), Scan(data, pos + len, end).value, |data|, end);
    }
  }

  lemma SliceOfSlice(block: seq<Byte>, at: nat, end: nat, lo: nat, hi: nat)
    requires at <= end <= |block| && lo <= hi <= end - at
    ensures block[at..end][lo..hi] == block[at + lo..at + hi]
  {
    var a, b := block[at..end][lo..hi], block[at + lo..at + hi];
    assert forall i | 0 <= i < |a| :: a[i] == block[at..end][lo + i] == block[at + lo + i] == b[i];
  }

  lemma LengthInSlice(block: seq<Byte>, at: nat, end: nat, pos: nat)
    requires at <= end <= |block| && LengthAt(block[at..end], pos).Ok?
    ensures LengthAt(block, at + pos) == LengthAt(block[at..end], pos)
  {
    var slice := block[at..end];
    var first := slice[pos];
    assert first == block[at + pos];
    hide Uint;
    if 0xb7 < first <= 0xbf {
      SliceOfSlice(block, at, end, pos + 1, pos + 1 + (first - 0xb7));
    } else if 0xf7 < first {
      SliceOfSlice(block, at, end, pos + 1, pos + 1 + (first - 0xf7));
    }
  }

  lemma {:induction false} ScanInSlice(block: seq<Byte>, at: nat, end: nat, pos: nat, stop: nat)
    requires at <= end <= |block| && Scan(block[at..end], pos, stop).Ok?
    requires CanMove(Scan(block[at..end], pos, stop).value, at)
    ensures Scan(block, at + pos, at + stop) == Ok(Moved(Scan(block[at..end], pos, stop).value, at))
    decreases stop - pos
  {
    hide LengthAt;
    if pos < stop {
      var slice := block[at..end];
      var len := LengthAt(slice, pos).value.1;
      var ranges, rest := Scan(slice, pos, stop).value, Scan(slice, pos + len, stop).value;
      assert ranges == [Range(pos, pos + len)] + rest;
      assert ranges[0] == Range(pos, pos + len) && forall i | 0 <= i < |rest| :: rest[i] == ranges[i + 1];
      LengthInSlice(block, at, end, pos);
      assert CanMove(rest, at);
      ScanInSlice(block, at, end, pos + len, stop);
      MovedMore(Range(pos, pos + len), rest, at);
      hide Scan, Moved, CanMove;
      ScanStep(block, at + pos, at + stop, len);
      assert at + (pos + len) == at + pos + len;
      assert Scan(block, at + pos, at + stop) == Prepend([Range(at + pos, at + pos + len)], Ok(Moved(rest, at)));
    } else {
      assert Moved([], at) == [];
    }
  }

  /** Whatever the three inputs: if there are offsets, their transaction ranges are those that
      `TransactionRanges` finds. */
  lemma OffsetsAgree(block: seq<Byte>, receipts: seq<Byte>, traces: seq<Byte>)
    requires AllTxOffsets(block, receipts, traces).Ok?
    ensures TransactionRanges(block).Ok? && ListRanges(receipts).Ok? && ListRanges(traces).Ok?
    ensures Pairs(AllTxOffsets(block, receipts, traces).value,
                  TransactionRanges(block).value, ListRanges(receipts).value, ListRanges(traces).value)
  {
    hide LengthAt, Scan, CanMove, Moved, TransactionsAt;
    var at := TransactionsAt(block).value;
    var (content, total) := LengthAt(block, at).value;
    LengthInSlice(block, at, at + total, 0);
    ScanInSlice(block, at, at + total, total - content, total);
  }
}
