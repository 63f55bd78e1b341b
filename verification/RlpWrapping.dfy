/** The scanner in a build without overflow checks, where positions wrap around at 2^64: the loop
    over the items need not end. */
module RlpWrapping {
  import opened Blocks
  import opened Rlp
  import opened RlpScanning
  import opened RlpRanges

  /** Where the loop goes from a position: nowhere once it has reached the end or has failed. */
  function Next(data: seq<Byte>, end: nat, pos: nat): Option<nat> {
    if pos < end && ItemLength(data, pos).Ok? then Some((pos + ItemLength(data, pos).value.1) % LIMIT) else None
  }

  /** The ranges found within `turns` turns of the loop, if it has ended by then. */
  function WrappedScan(data: seq<Byte>, pos: nat, end: nat, turns: nat): Option<Outcome<seq<Range>>>
    decreases turns
  {
    if turns == 0 then None
    else if pos >= end then Some(Ok([]))
    else
      var length := ItemLength(data, pos);
      if length.IsFailure() then Some(length.PropagateFailure())
      else
        var next := (pos + length.value.1) % LIMIT;
        match WrappedScan(data, next, end, turns - 1)
        case None => None
        case Some(rest) => Some(Prepend([Range(pos, next)], rest))
  }

  /** The position after `turns` turns, if the loop goes that far. */
  function Orbit(data: seq<Byte>, end: nat, pos: nat, turns: nat): Option<nat>
    decreases turns
  {
    if turns == 0 then Some(pos)
    else
      match Next(data, end, pos)
      case None => None
      case Some(next) => Orbit(data, end, next, turns - 1)
  }

  lemma {:induction false} EndedIffNoOrbit(data: seq<Byte>, pos: nat, end: nat, turns: nat)
    ensures WrappedScan(data, pos, end, turns).None? <==> Orbit(data, end, pos, turns).Some?
    decreases turns
  {
    if turns > 0 && Next(data, end, pos).Some? {
      EndedIffNoOrbit(data, Next(data, end, pos).value, end, turns - 1);
    }
  }

  /** Once the loop has ended, more turns change nothing. */
  lemma {:induction false} MoreTurns(data: seq<Byte>, pos: nat, end: nat, turns: nat, more: nat)
    requires turns <= more && WrappedScan(data, pos, end, turns).Some?
    ensures WrappedScan(data, pos, end, more) == WrappedScan(data, pos, end, turns)
    decreases turns
  {
    if pos < end && ItemLength(data, pos).Ok? {
      MoreTurns(data, (pos + ItemLength(data, pos).value.1) % LIMIT, end, turns - 1, more - 1);
    }
  }

  // ---------------------------------------------------------------- when it ends

  lemma {:induction false} OrbitJoin(data: seq<Byte>, end: nat, pos: nat, a: nat, b: nat)
    ensures Orbit(data, end, pos, a).None? ==> Orbit(data, end, pos, a + b).None?
    ensures Orbit(data, end, pos, a).Some? ==>
              Orbit(data, end, pos, a + b) == Orbit(data, end, Orbit(data, end, pos, a).value, b)
    decreases a
  {
    hide Next;
    var next := Next(data, end, pos);
    if a > 0 && next.Some? {
      OrbitJoin(data, end, next.value, a - 1, b);
      assert Orbit(data, end, pos, a) == Orbit(data, end, next.value, a - 1);
      assert Orbit(data, end, pos, a + b) == Orbit(data, end, next.value, a - 1 + b);
    }
  }

  /** A position that is met again is met over and over. */
  lemma {:induction false} Cycles(data: seq<Byte>, end: nat, pos: nat, i: nat, j: nat, turns: nat)
    requires i < j && Orbit(data, end, pos, i).Some? && Orbit(data, end, pos, i) == Orbit(data, end, pos, j)
    ensures Orbit(data, end, pos, turns).Some?
    decreases turns
  {
    if turns <= j {
      OrbitJoin(data, end, pos, turns, j - turns);
    } else {
      OrbitJoin(data, end, pos, j, turns - j);
      OrbitJoin(data, end, pos, i, turns - j);
      Cycles(data, end, pos, i, j, i + (turns - j));
    }
  }

  /** The positions of the first turns. */
  ghost function Visited(data: seq<Byte>, end: nat, pos: nat, turns: nat): (r: seq<nat>)
    requires Orbit(data, end, pos, turns).Some?
    ensures |r| == turns
  {
    seq<nat>(turns, i requires 0 <= i < turns =>
      (OrbitPrefix(data, end, pos, turns, i); Orbit(data, end, pos, i).value))
  }

  lemma OrbitPrefix(data: seq<Byte>, end: nat, pos: nat, turns: nat, i: nat)
    requires Orbit(data, end, pos, turns).Some? && i <= turns
    ensures Orbit(data, end, pos, i).Some?
    ensures i < turns ==> Orbit(data, end, pos, i).value < |data|
  {
    OrbitJoin(data, end, pos, i, turns - i);
    if i < turns {
      assert Next(data, end, Orbit(data, end, pos, i).value).Some?;
    }
  }

  lemma {:induction false} Pigeonhole(s: seq<nat>, n: nat) returns (i: nat, j: nat)
    requires |s| > n && forall k | 0 <= k < |s| :: s[k] < n
    ensures i < j < |s| && s[i] == s[j]
    decreases n
  {
    var last := |s| - 1;
    if k: nat :| k < last && s[k] == s[last] {
      return k, last;
    }
    // rename the largest value to that of the last element, which occurs nowhere else
    var t := seq(last, k requires 0 <= k < last => if s[k] == n - 1 then s[last] else s[k]);
    i, j := Pigeonhole(t, n - 1);
  }

  /** A loop that goes on for more turns than there are bytes comes back to some position. */
  lemma ComesBack(data: seq<Byte>, pos: nat, end: nat) returns (i: nat, j: nat)
    requires WrappedScan(data, pos, end, |data| + 1).None?
    ensures i < j && Orbit(data, end, pos, i).Some? && Orbit(data, end, pos, i) == Orbit(data, end, pos, j)
  {
    var n := |data| + 1;
    EndedIffNoOrbit(data, pos, end, n);
    forall k | 0 <= k < n
      ensures Visited(data, end, pos, n)[k] < |data|
    {
      OrbitPrefix(data, end, pos, n, k);
    }
    i, j := Pigeonhole(Visited(data, end, pos, n), |data|);
    OrbitPrefix(data, end, pos, n, i);
    OrbitPrefix(data, end, pos, n, j);
  }

  /** A loop that comes back to a position never ends. */
  lemma NeverEnds(data: seq<Byte>, pos: nat, end: nat, i: nat, j: nat)
    requires i < j && Orbit(data, end, pos, i).Some? && Orbit(data, end, pos, i) == Orbit(data, end, pos, j)
    ensures forall turns: nat :: WrappedScan(data, pos, end, turns).None?
  {
    forall turns: nat
      ensures WrappedScan(data, pos, end, turns).None?
    {
      Cycles(data, end, pos, i, j, turns);
      EndedIffNoOrbit(data, pos, end, turns);
    }
  }

  /** The loop ends iff it meets no position twice, and iff it has ended after as many turns as there
      are bytes, and one. */
  lemma EndsIff(data: seq<Byte>, pos: nat, end: nat)
    ensures (exists turns: nat :: WrappedScan(data, pos, end, turns).Some?) <==>
            forall i: nat, j: nat | i < j && Orbit(data, end, pos, j).Some? ::
              Orbit(data, end, pos, i) != Orbit(data, end, pos, j)
    ensures (exists turns: nat :: WrappedScan(data, pos, end, turns).Some?) <==>
            WrappedScan(data, pos, end, |data| + 1).Some?
  {
    hide WrappedScan, Orbit;
    var enough := |data| + 1;
    if WrappedScan(data, pos, end, enough).None? {
      var i, j := ComesBack(data, pos, end);
      NeverEnds(data, pos, end, i, j);
      assert i < j && Orbit(data, end, pos, j).Some?;
    } else {
      forall i: nat, j: nat | i < j && Orbit(data, end, pos, j).Some?
        ensures Orbit(data, end, pos, i) != Orbit(data, end, pos, j)
      {
        if Orbit(data, end, pos, i) == Orbit(data, end, pos, j) {
          NeverEnds(data, pos, end, i, j);
          assert false;
        }
      }
      assert exists turns: nat :: WrappedScan(data, pos, end, turns).Some? by {
        assert WrappedScan(data, pos, end, enough).Some?;
      }
    }
  }

  // ---------------------------------------------------------------- where the builds agree

  /** As long as no position overflows, the loop ends and finds what it finds with overflow checks. */
  lemma {:induction false} AgreesUnlessOverflow(data: seq<Byte>, pos: nat, end: nat, turns: nat)
    requires !Scan(data, pos, end).Overflow? && turns >= 1 && turns >= |data| - pos + 1
    ensures WrappedScan(data, pos, end, turns) == Some(Scan(data, pos, end))
    decreases turns
  {
    hide ItemLength;
    if pos < end && LengthAt(data, pos).Ok? {
      var len := LengthAt(data, pos).value.1;
      assert pos + len < LIMIT;
      Unwrapped(pos + len);
      AgreesUnlessOverflow(data, pos + len, end, turns - 1);
    }
  }

  lemma Unwrapped(n: nat)
    requires n < LIMIT
    ensures n % LIMIT == n
  {
  }

  /** In that case the ranges found reach the end of the list, whatever the data. */
  lemma WrappedReaches(data: seq<Byte>, pos: nat, end: nat, turns: nat)
    requires Scan(data, pos, end).Ok? && turns >= 1 && turns >= |data| - pos + 1
    ensures var r := WrappedScan(data, pos, end, turns);
            r.Some? && r.value.Ok? && Reaches(r.value.value, |data|, pos, end)
  {
    hide Scan, WrappedScan, Reaches;
    AgreesUnlessOverflow(data, pos, end, turns);
    ScanReaches(data, pos, end);
  }

  /** So it does on every encoded list. */
  lemma WrappedListExact(data: seq<Byte>, items: seq<Item>, turns: nat)
    requires |data| < LIMIT && At(data, 0, Encode(List(items))) && turns >= |data| + 1
    ensures WrappedScan(data, PrefixLength(items), |Encode(List(items))|, turns)
            == Some(Ok(RangesOf(PrefixLength(items), items)))
  {
    hide Encode, EncodeAll, At, Scan, WrappedScan, PrefixLength;
    ListEncoding(items);
    InsideList(data, 0, items);
    ScanItems(data, PrefixLength(items), items);
    AgreesUnlessOverflow(data, PrefixLength(items), |Encode(List(items))|, turns);
  }

  // ---------------------------------------------------------------- where it does not end

  function AllOnes(n: nat): (r: seq<Byte>)
    ensures |r| == n
  {
    if n == 0 then [] else AllOnes(n - 1) + [0xff]
  }

  lemma {:induction false} AllOnesValue(n: nat)
    ensures Value(AllOnes(n)) == Power256(n) - 1
  {
    if n > 0 {
      AllOnesValue(n - 1);
      assert AllOnes(n)[..n - 1] == AllOnes(n - 1);
    }
  }

  /** Eight bytes that stand for a length just below 2^64. */
  lemma HugeLength(last: Byte)
    ensures Value(AllOnes(7) + [last]) == LIMIT - 256 + last
  {
    AllOnesValue(7);
    assert (AllOnes(7) + [last])[..7] == AllOnes(7);
    assert Power256(4) == 256 * 256 * 256 * 256;
    assert Power256(7) == 256 * 256 * 256 * Power256(4);
  }

  /** A string item with such a length. */
  function Huge(last: Byte): seq<Byte> {
    [0xbf] + AllOnes(7) + [last]
  }

  lemma {:induction false} AllOnesFirst(n: nat)
    requires n > 0
    ensures AllOnes(n)[0] == 0xff
  {
    if n > 1 {
      AllOnesFirst(n - 1);
    }
  }

  lemma HugeItem(data: seq<Byte>, pos: nat, last: Byte)
    requires pos + 9 == |data| && data[pos..] == Huge(last)
    ensures ItemLength(data, pos).Ok? && ItemLength(data, pos).value.1 == LIMIT - 247 + last
  {
    HugeLength(last);
    assert data[pos] == data[pos..][0] && data[pos + 1..pos + 9] == data[pos..][1..9];
    assert Huge(last)[1..9] == AllOnes(7) + [last];
    assert AllOnes(7)[0] == 0xff by { AllOnesFirst(7); }
    hide Value, AllOnes;
  }

  /** A list whose one item has a total length of zero: the loop stays where it is. */
  lemma StandsStill()
    ensures var data := [0xc9] + Huge(0xf7);
            LengthAt(data, 0) == Ok((9, 10)) && forall turns :: WrappedScan(data, 1, 10, turns).None?
  {
    var data: seq<Byte> := [0xc9] + Huge(0xf7);
    assert data[1..] == Huge(0xf7);
    HugeItem(data, 1, 0xf7);
    hide ItemLength;
    assert (1 + LIMIT) % LIMIT == 1;
    assert Next(data, 10, 1) == Some(1);
    assert Orbit(data, 10, 1, 0) == Some(1) && Orbit(data, 10, 1, 1) == Some(1);
    NeverEnds(data, 1, 10, 0, 1);
  }

  /** A list of two items, neither of total length zero: the second leads back to the first. */
  lemma GoesRound()
    ensures var data := [0xca, 0x00] + Huge(0xf6);
            && LengthAt(data, 0) == Ok((10, 11))
            && ItemLength(data, 1) == Ok((1, 1)) && ItemLength(data, 2).Ok? && ItemLength(data, 2).value.1 % LIMIT != 0
            && forall turns :: WrappedScan(data, 1, 11, turns).None?
  {
    var data: seq<Byte> := [0xca, 0x00] + Huge(0xf6);
    assert data[2..] == Huge(0xf6);
    HugeItem(data, 2, 0xf6);
    assert ItemLength(data, 1) == Ok((1, 1));
    hide ItemLength;
    assert (2 + (LIMIT - 1)) % LIMIT == 1 && (LIMIT - 1) % LIMIT != 0;
    assert Next(data, 11, 1) == Some(2) && Next(data, 11, 2) == Some(1);
    assert Orbit(data, 11, 1, 0) == Some(1) && Orbit(data, 11, 2, 1) == Some(1) && Orbit(data, 11, 1, 2) == Some(1);
    NeverEnds(data, 1, 11, 0, 2);
  }
}
