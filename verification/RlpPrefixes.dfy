/** What the scanner reads off arbitrary bytes. */
module RlpPrefixes {
  import opened Rlp
  import opened RlpScanning
  import opened RlpRanges

  // ---------------------------------------------------------------- numbers

  /** Digits without a leading zero are those of their number. */
  lemma {:induction false} DigitsOfValue(digits: seq<nat>)
    requires Bytes(digits) && (digits != [] ==> digits[0] != 0)
    ensures BigEndian(Value(digits)) == digits
    decreases |digits|
  {
    if digits != [] {
      var init, last := digits[..|digits|-1], digits[|digits|-1];
      assert digits == init + [last];
      DigitsOfValue(init);
      if init == [] {
        assert Value(digits) == last && BigEndian(last / 256) == [];
      } else {
        assert Value(digits) / 256 == Value(init) && Value(digits) % 256 == last;
        ValuePositive(init);
      }
    }
  }

  lemma ValuePositive(digits: seq<nat>)
    requires digits != [] && digits[0] != 0
    ensures Value(digits) > 0
    decreases |digits|
  {
    if |digits| > 1 {
      ValuePositive(digits[..|digits|-1]);
    }
  }

  /** The digits of a length in a prefix; zero is written as one digit. */
  function LengthDigits(n: nat): seq<nat> {
    if n == 0 then [0] else BigEndian(n)
  }

  /** The number reader accepts exactly the shortest digits of the numbers below the limit. */
  lemma UintIff(bytes: seq<Byte>, n: nat)
    ensures Uint(bytes) == Ok(n) <==> n < LIMIT && bytes == LengthDigits(n)
    ensures Uint(bytes).Ok? || Uint(bytes) == Err
  {
    BigEndianValue(n);
    if bytes != [] && bytes[0] != 0 {
      DigitsOfValue(bytes);
      ValuePositive(bytes);
    } else if |bytes| == 1 {
      assert bytes == [0] && bytes[..0] == [];
    }
    if n == 0 && bytes == [0] {
      assert bytes[..0] == [];
    }
  }

  // ---------------------------------------------------------------- prefixes

  /** A prefix of a string (base 0x80) or a list (base 0xc0) at the position says that so many bytes
      of content follow: in one byte up to 55, or after the number of its digits. */
  ghost predicate Says(data: seq<Byte>, pos: nat, base: nat, content: nat, prefix: nat) {
    || (content < 56 && prefix == 1 && At(data, pos, [base + content]))
    || (content < LIMIT && 1 <= |LengthDigits(content)| <= 8 && prefix == 1 + |LengthDigits(content)|
        && At(data, pos, [base + 55 + |LengthDigits(content)|] + LengthDigits(content)))
  }

  /** The item at a position, as far as its prefix tells: a byte of its own, a string or a list. */
  ghost predicate ItemAt(data: seq<Byte>, pos: nat, content: nat, total: nat) {
    || (pos < |data| && data[pos] < 0x80 && content == total == 1)
    || (content < total && Says(data, pos, 0x80, content, total - content))
    || (content < total && Says(data, pos, 0xc0, content, total - content))
  }

  lemma LongLengthIff(data: seq<Byte>, pos: nat, k: nat, content: nat, total: nat)
    requires pos < |data|
    ensures LongLength(data, pos, k) == Ok((content, total)) <==>
              content < LIMIT && |LengthDigits(content)| == k && At(data, pos + 1, LengthDigits(content))
              && total == 1 + k + content
  {
    if |data| - pos >= 1 + k {
      var bytes := data[pos + 1..pos + 1 + k];
      UintIff(bytes, content);
      assert bytes == LengthDigits(content) <==>
               |LengthDigits(content)| == k && At(data, pos + 1, LengthDigits(content));
      if LongLength(data, pos, k) == Ok((content, total)) {
        assert Uint(bytes) == Ok(content);
      }
    }
  }

  lemma SaysLong(data: seq<Byte>, pos: nat, base: nat, content: nat)
    ensures At(data, pos, [base + 55 + |LengthDigits(content)|] + LengthDigits(content)) <==>
              pos < |data| && data[pos] == base + 55 + |LengthDigits(content)|
              && At(data, pos + 1, LengthDigits(content))
  {
    var digits := LengthDigits(content);
    var all := [base + 55 + |digits|] + digits;
    assert all[0] == base + 55 + |digits|;
    assert forall i | 0 <= i < |digits| :: all[i + 1] == digits[i];
    if pos < |data| && data[pos] == all[0] && At(data, pos + 1, digits) {
      forall i | 0 <= i < |all|
        ensures data[pos + i] == all[i]
      {
        if i > 0 {
          assert data[pos + 1 + (i - 1)] == digits[i - 1];
        }
      }
    }
  }

  lemma SaysShort(data: seq<Byte>, pos: nat, base: nat, content: nat)
    ensures At(data, pos, [base + content]) <==> pos < |data| && data[pos] == base + content
  {
    assert [base + content][0] == base + content;
  }

  lemma SaysIff(data: seq<Byte>, pos: nat, base: nat, content: nat, total: nat)
    requires pos < |data| && (base == 0x80 || base == 0xc0) && base <= data[pos] < base + 0x40
    ensures ItemLength(data, pos) == Ok((content, total)) <==>
              content < total && Says(data, pos, base, content, total - content)
  {
    SaysShort(data, pos, base, content);
    SaysLong(data, pos, base, content);
    hide At, LengthDigits, LongLength;
    var k := data[pos] - base - 55;
    if k > 0 {
      assert ItemLength(data, pos) == LongLength(data, pos, k);
      LongLengthIff(data, pos, k, content, total);
      hide ItemLength;
    } else {
      assert ItemLength(data, pos) == Ok((data[pos] - base, data[pos] - base + 1));
      hide ItemLength;
    }
  }

  lemma SaysOnly(data: seq<Byte>, pos: nat, base: nat, content: nat, prefix: nat)
    requires Says(data, pos, base, content, prefix)
    ensures pos < |data| && base <= data[pos] < base + 0x40
  {
    SaysLong(data, pos, base, content);
    if content < 56 && At(data, pos, [base + content]) {
      assert data[pos] == [base + content][0];
    }
  }

  /** The lengths read at a position are exactly those that the prefix there tells; there is no
      reading past the end, and none at it. */
  lemma ItemLengthIff(data: seq<Byte>, pos: nat, content: nat, total: nat)
    ensures ItemLength(data, pos) == Ok((content, total)) <==> ItemAt(data, pos, content, total)
    ensures ItemLength(data, pos) == Panic <==> pos > |data|
  {
    hide Says;
    if content < total && Says(data, pos, 0x80, content, total - content) {
      SaysOnly(data, pos, 0x80, content, total - content);
    }
    if content < total && Says(data, pos, 0xc0, content, total - content) {
      SaysOnly(data, pos, 0xc0, content, total - content);
    }
    if pos < |data| && data[pos] >= 0xc0 {
      SaysIff(data, pos, 0xc0, content, total);
    } else if pos < |data| && data[pos] >= 0x80 {
      SaysIff(data, pos, 0x80, content, total);
    }
    if pos < |data| {
      NoPanic(data, pos);
    }
  }

  lemma NoPanic(data: seq<Byte>, pos: nat)
    requires pos < |data|
    ensures !ItemLength(data, pos).Panic?
  {
    forall bytes: seq<Byte>
      ensures !Uint(bytes).Panic?
    {
      UintIff(bytes, 0);
    }
  }

  /** A total length that does not fit the machine is an overflow, and nothing else is. */
  lemma OverflowIff(data: seq<Byte>, pos: nat)
    ensures LengthAt(data, pos) == Overflow <==> 
              exists content: nat, total: nat :: ItemAt(data, pos, content, total) && total >= LIMIT
  {
    hide ItemAt, ItemLength;
    if ItemLength(data, pos).Ok? {
      var (content, total) := ItemLength(data, pos).value;
      ItemLengthIff(data, pos, content, total);
    }
    if content: nat, total: nat :| ItemAt(data, pos, content, total) && total >= LIMIT {
      ItemLengthIff(data, pos, content, total);
    }
  }

  /** A block whose list of transactions, behind the block's prefix and the header, runs past the end
      of the data makes the search for offsets panic. */
  lemma TruncatedPanics(block: seq<Byte>, receipts: seq<Byte>, traces: seq<Byte>, content: nat, total: nat,
                        inHeader: nat, header: nat, inList: nat, list: nat)
    requires ItemAt(block, 0, content, total) && content <= total < LIMIT
    requires ItemAt(block, total - content, inHeader, header) && header < LIMIT
    requires ItemAt(block, total - content + header, inList, list) && list < LIMIT
    requires |block| < total - content + header + list < LIMIT
    ensures AllTxOffsets(block, receipts, traces) == Panic
  {
    hide ItemAt, ItemLength;
    ItemLengthIff(block, 0, content, total);
    ItemLengthIff(block, total - content, inHeader, header);
    ItemLengthIff(block, total - content + header, inList, list);
  }

  // ---------------------------------------------------------------- lists

  ghost predicate HasLength(data: seq<Byte>, pos: nat, total: nat) {
    exists content :: ItemAt(data, pos, content, total)
  }

  /** The range is that of one item. */
  ghost predicate IsItem(data: seq<Byte>, r: Range) {
    r.start < r.end < LIMIT && HasLength(data, r.start, r.end - r.start)
  }

  /** One item after the other from `pos`, each starting before `end`, up to `end` or beyond. */
  ghost predicate Tiles(data: seq<Byte>, ranges: seq<Range>, pos: nat, end: nat)
    decreases |ranges|
  {
    if ranges == [] then pos >= end
    else pos < end && ranges[0].start == pos && IsItem(data, ranges[0]) && Tiles(data, ranges[1..], ranges[0].end, end)
  }

  lemma ItemIff(data: seq<Byte>, r: Range)
    requires r.start < r.end
    ensures IsItem(data, r) <==> LengthAt(data, r.start).Ok? && LengthAt(data, r.start).value.1 == r.end - r.start
                                 && r.end < LIMIT
  {
    var total := r.end - r.start;
    if IsItem(data, r) {
      var content :| ItemAt(data, r.start, content, total);
      ItemLengthIff(data, r.start, content, total);
    }
    if LengthAt(data, r.start).Ok? && LengthAt(data, r.start).value.1 == total {
      ItemLengthIff(data, r.start, LengthAt(data, r.start).value.0, total);
    }
  }

  /** The scan succeeds with these ranges exactly if they are items one after the other up to the
      end. */
  lemma {:induction false} ScanIff(data: seq<Byte>, pos: nat, end: nat, ranges: seq<Range>)
    ensures Scan(data, pos, end) == Ok(ranges) <==> Tiles(data, ranges, pos, end)
    decreases end - pos
  {
    if pos < end {
      hide LengthAt, IsItem;
      if LengthAt(data, pos).Ok? && pos + LengthAt(data, pos).value.1 < LIMIT {
        var next := pos + LengthAt(data, pos).value.1;
        var first := Range(pos, next);
        ItemIff(data, first);
        ScanIff(data, next, end, if ranges == [] then [] else ranges[1..]);
        if ranges != [] {
          assert ranges == [ranges[0]] + ranges[1..];
          if ranges[0].start == pos && pos < ranges[0].end {
            ItemIff(data, ranges[0]);
          }
          StartsBefore(data, ranges[0]);
          if Scan(data, next, end).Ok? {
            assert ([first] + Scan(data, next, end).value)[1..] == Scan(data, next, end).value;
          }
        }
      } else if ranges != [] && ranges[0].start == pos {
        StartsBefore(data, ranges[0]);
        if IsItem(data, ranges[0]) {
          ItemIff(data, ranges[0]);
        }
      }
    }
  }

  lemma StartsBefore(data: seq<Byte>, r: Range)
    ensures IsItem(data, r) ==> r.start < r.end
  {
  }
}
