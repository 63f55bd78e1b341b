/** Timeout certificates: how timeouts are bundled into one, and what a verifier demands of it. */
module Timeouts {
  import opened Blocks
  import opened Ranks
  import opened Sequences

  datatype TimeoutInfo = TimeoutInfo(epoch: nat, round: Round, highQcRound: Round, highTipRound: Round)

  datatype HighExtendVote<Sig> = VoteQc(qc: QC) | VoteTip(header: Header, vote: Option<Sig>)

  datatype Timeout<Sig> = Timeout(info: TimeoutInfo, signature: Sig, extend: HighExtendVote<Sig>)

  /** Who sent what. */
  type Sent<Sig> = (NodeId, Timeout<Sig>)

  datatype TipRounds<Sct> = TipRounds(highQcRound: Round, highTipRound: Round, sigs: Sct)

  datatype Certificate<Sct> = Certificate(epoch: nat, round: Round, tipRounds: seq<TipRounds<Sct>>,
      highExtend: HighExtend)

  const GENESIS_QC: QC := QC(Digest(0), GENESIS_ROUND)

  function WithoutVote<Sig>(e: HighExtendVote<Sig>): HighExtend {
    match e
    case VoteQc(qc) => Qc(qc)
    case VoteTip(header, _) => Tip(header)
  }

  /** No tip is written as a tip of the genesis round. */
  function RoundsRank(highQcRound: Round, highTipRound: Round): Rank {
    if highTipRound == GENESIS_ROUND then QcRank(highQcRound) else TipRank(highTipRound, highQcRound)
  }

  function InfoRank(info: TimeoutInfo): Rank {
    RoundsRank(info.highQcRound, info.highTipRound)
  }

  function TipRoundsRank<Sct>(t: TipRounds<Sct>): Rank {
    RoundsRank(t.highQcRound, t.highTipRound)
  }

  /** The rounds of an info are those of what is extended: a tip with its certificate, or a
      certificate with no tip. */
  predicate HoldsRounds(info: TimeoutInfo, e: HighExtend) {
    match e
    case Tip(h) => info.highTipRound == h.round > GENESIS_ROUND && info.highQcRound == h.qc.round
    case Qc(qc) => info.highTipRound == GENESIS_ROUND && info.highQcRound == qc.round
  }

  /** An info ranks as an extend exactly if it holds the rounds of the extend. */
  lemma RanksAsExtendIff(info: TimeoutInfo, e: HighExtend)
    ensures InfoRank(info) == RankOf(e) <==> HoldsRounds(info, e)
  {
  }

  /** Signature collections: how one is built over a message, who signed it, and how many. */
  datatype Scheme<!Sig, !Sct> = Scheme(
    build: (seq<(NodeId, Sig)>, TimeoutInfo) -> Option<Sct>,
    signers: (Sct, TimeoutInfo) -> Option<seq<NodeId>>,
    count: Sct -> nat)

  // ---------------------------------------------------------------- the highest extend

  /** The fold over the timeouts, from the genesis certificate. */
  function Highest<Sig>(ts: seq<Sent<Sig>>): HighExtend {
    if ts == [] then Qc(GENESIS_QC)
    else
      var best, e := Highest(ts[..|ts|-1]), WithoutVote(ts[|ts|-1].1.extend);
      if PartialCompare(e, best) == Some(Greater) then e else best
  }

  function ExtendRank<Sig>(t: Sent<Sig>): Rank {
    RankOf(WithoutVote(t.1.extend))
  }

  /** `m` is the largest of the ranks and that of the genesis certificate. */
  ghost predicate IsMax(m: Rank, ranks: seq<Rank>) {
    && AtMost(QcRank(GENESIS_ROUND), m)
    && (forall i | 0 <= i < |ranks| :: AtMost(ranks[i], m))
    && (m == QcRank(GENESIS_ROUND) || m in ranks)
  }

  lemma MaxUnique(a: Rank, b: Rank, xs: seq<Rank>, ys: seq<Rank>)
    requires IsMax(a, xs) && IsMax(b, ys) && forall x :: x in xs <==> x in ys
    ensures a == b
  {
    assert a in ys || a == QcRank(GENESIS_ROUND);
    assert b in xs || b == QcRank(GENESIS_ROUND);
  }

  lemma MaxStep(m: Rank, ranks: seq<Rank>, r: Rank)
    requires IsMax(m, ranks)
    ensures IsMax(if Below(m, r) then r else m, ranks + [r])
  {
    var best := if Below(m, r) then r else m;
    forall i | 0 <= i < |ranks + [r]|
      ensures AtMost((ranks + [r])[i], best)
    {
      if i < |ranks| {
        AtMostTransitive(ranks[i], m, best);
      }
    }
    assert (ranks + [r])[|ranks|] == r;
  }

  function ExtendRanks<Sig>(ts: seq<Sent<Sig>>): (r: seq<Rank>)
    ensures |r| == |ts|
  {
    seq(|ts|, i requires 0 <= i < |ts| => ExtendRank(ts[i]))
  }

  /** The fold finds the highest rank. */
  lemma {:induction false} HighestIsMax<Sig>(ts: seq<Sent<Sig>>)
    ensures IsMax(RankOf(Highest(ts)), ExtendRanks(ts))
    decreases |ts|
  {
    if ts != [] {
      var init, last := ts[..|ts|-1], ts[|ts|-1];
      HighestIsMax(init);
      PartialCompareGreater(WithoutVote(last.1.extend), Highest(init));
      assert ExtendRanks(ts) == ExtendRanks(init) + [ExtendRank(last)];
      hide Below, PartialCompare, AtMost, RankOf;
      MaxStep(RankOf(Highest(init)), ExtendRanks(init), ExtendRank(last));
    }
  }

  /** Among extends of the highest rank the fold keeps the first. */
  lemma {:induction false} HighestIsFirst<Sig>(ts: seq<Sent<Sig>>)
    ensures || Highest(ts) == Qc(GENESIS_QC)
            || exists i :: 0 <= i < |ts| && WithoutVote(ts[i].1.extend) == Highest(ts)
                 && forall j | 0 <= j < i :: Below(ExtendRank(ts[j]), RankOf(Highest(ts)))
    decreases |ts|
  {
    if ts != [] {
      var n := |ts| - 1;
      var init, e := ts[..n], WithoutVote(ts[n].1.extend);
      PartialCompareGreater(e, Highest(init));
      if Below(RankOf(Highest(init)), RankOf(e)) {
        HighestIsMax(init);
        forall j | 0 <= j < n
          ensures Below(ExtendRank(ts[j]), RankOf(e))
        {
          assert init[j] == ts[j] && ExtendRanks(init)[j] == ExtendRank(ts[j]);
        }
        assert WithoutVote(ts[n].1.extend) == Highest(ts);
      } else {
        HighestIsFirst(init);
        if Highest(ts) != Qc(GENESIS_QC) {
          var i :| 0 <= i < n && WithoutVote(init[i].1.extend) == Highest(init)
                   && forall j | 0 <= j < i :: Below(ExtendRank(init[j]), RankOf(Highest(init)));
          assert forall j | 0 <= j < n :: init[j] == ts[j];
        }
      }
    }
  }

  /** The rank that is found does not depend on the order of the timeouts, nor on repetitions. */
  lemma HighestOrderIrrelevant<Sig>(xs: seq<Sent<Sig>>, ys: seq<Sent<Sig>>)
    requires forall t :: t in xs <==> t in ys
    ensures RankOf(Highest(xs)) == RankOf(Highest(ys))
  {
    HighestIsMax(xs);
    HighestIsMax(ys);
    SameRanks(xs, ys);
    SameRanks(ys, xs);
    MaxUnique(RankOf(Highest(xs)), RankOf(Highest(ys)), ExtendRanks(xs), ExtendRanks(ys));
  }

  lemma SameRanks<Sig>(xs: seq<Sent<Sig>>, ys: seq<Sent<Sig>>)
    requires forall t :: t in xs ==> t in ys
    ensures forall r :: r in ExtendRanks(xs) ==> r in ExtendRanks(ys)
  {
    forall r | r in ExtendRanks(xs)
      ensures r in ExtendRanks(ys)
    {
      var i :| 0 <= i < |xs| && ExtendRanks(xs)[i] == r;
      assert xs[i] in xs;
      var j :| 0 <= j < |ys| && ys[j] == xs[i];
      assert ExtendRanks(ys)[j] == r;
    }
  }

  // ---------------------------------------------------------------- the groups

  /** The signatures over one timeout info, in the order they came. */
  function SignedOver<Sig>(ts: seq<Sent<Sig>>, info: TimeoutInfo): seq<(NodeId, Sig)> {
    if ts == [] then []
    else
      var (id, t) := ts[|ts|-1];
      SignedOver(ts[..|ts|-1], info) + if t.info == info then [(id, t.signature)] else []
  }

  function Infos<Sig>(ts: seq<Sent<Sig>>): set<TimeoutInfo> {
    if ts == [] then {} else Infos(ts[..|ts|-1]) + {ts[|ts|-1].1.info}
  }

  lemma {:induction false} InfosElements<Sig>(ts: seq<Sent<Sig>>)
    ensures forall info :: info in Infos(ts) <==> exists j :: 0 <= j < |ts| && ts[j].1.info == info
    ensures |Infos(ts)| <= |ts|
    decreases |ts|
  {
    if ts != [] {
      var init := ts[..|ts|-1];
      InfosElements(init);
      assert forall j | 0 <= j < |init| :: init[j] == ts[j];
    }
  }

  function Ids<T>(s: seq<(NodeId, T)>): set<NodeId> {
    if s == [] then {} else Ids(s[..|s|-1]) + {s[|s|-1].0}
  }

  lemma {:induction false} IdsElements<T>(s: seq<(NodeId, T)>, id: NodeId)
    ensures id in Ids(s) <==> exists j :: 0 <= j < |s| && s[j].0 == id
    decreases |s|
  {
    if s != [] {
      var init := s[..|s|-1];
      IdsElements(init, id);
      assert forall j | 0 <= j < |init| :: init[j] == s[j];
      assert s[|init|].0 == s[|s|-1].0;
    }
  }

  lemma IdsSnoc<T>(s: seq<(NodeId, T)>, x: (NodeId, T))
    ensures Ids(s + [x]) == Ids(s) + {x.0}
  {
    assert (s + [x])[..|s|] == s;
  }

  /** The signers in a group are the senders of its timeouts. */
  lemma {:induction false} GroupSenders<Sig>(ts: seq<Sent<Sig>>, info: TimeoutInfo, id: NodeId)
    ensures id in Ids(SignedOver(ts, info)) <==> exists j :: 0 <= j < |ts| && ts[j].0 == id && ts[j].1.info == info
    decreases |ts|
  {
    if ts != [] {
      var init, last := ts[..|ts|-1], ts[|ts|-1];
      GroupSenders(init, info, id);
      IdsSnoc(SignedOver(init, info), (last.0, last.1.signature));
      if last.1.info == info {
        assert SignedOver(ts, info) == SignedOver(init, info) + [(last.0, last.1.signature)];
      } else {
        assert SignedOver(ts, info) == SignedOver(init, info);
      }
      assert forall j | 0 <= j < |init| :: init[j] == ts[j];
      assert ts[|init|] == last;
      hide Ids, SignedOver;
    }
  }

  ghost function Signatures<Sig>(ts: seq<Sent<Sig>>): multiset<(NodeId, Sig)> {
    if ts == [] then multiset{}
    else Signatures(ts[..|ts|-1]) + multiset{(ts[|ts|-1].0, ts[|ts|-1].1.signature)}
  }

  /** All signatures in the groups of the listed infos. */
  ghost function Grouped<Sig>(ts: seq<Sent<Sig>>, infos: seq<TimeoutInfo>): multiset<(NodeId, Sig)> {
    if infos == [] then multiset{}
    else Grouped(ts, infos[..|infos|-1]) + multiset(SignedOver(ts, infos[|infos|-1]))
  }

  lemma GroupSnoc<Sig>(ts: seq<Sent<Sig>>, t: Sent<Sig>, info: TimeoutInfo)
    ensures multiset(SignedOver(ts + [t], info))
         == multiset(SignedOver(ts, info)) + if t.1.info == info then multiset{(t.0, t.1.signature)} else multiset{}
  {
    assert (ts + [t])[..|ts|] == ts;
  }

  lemma {:induction false} GroupedStep<Sig>(ts: seq<Sent<Sig>>, t: Sent<Sig>, infos: seq<TimeoutInfo>)
    requires NoDup(infos)
    ensures Grouped(ts + [t], infos)
         == Grouped(ts, infos) + if t.1.info in infos then multiset{(t.0, t.1.signature)} else multiset{}
    decreases |infos|
  {
    if infos != [] {
      var init, last := infos[..|infos|-1], infos[|infos|-1];
      assert last !in init && infos == init + [last];
      GroupedStep(ts, t, init);
      GroupSnoc(ts, t, last);
      hide SignedOver;
    }
  }

  lemma {:induction false} GroupedNothing<Sig>(infos: seq<TimeoutInfo>)
    ensures Grouped<Sig>([], infos) == multiset{}
    decreases |infos|
  {
    if infos != [] {
      GroupedNothing<Sig>(infos[..|infos|-1]);
    }
  }

  /** The groups partition the timeouts: every signature is in the groups as often as it came. */
  lemma {:induction false} GroupsPartition<Sig>(ts: seq<Sent<Sig>>, infos: seq<TimeoutInfo>)
    requires NoDup(infos) && forall j | 0 <= j < |ts| :: ts[j].1.info in infos
    ensures Grouped(ts, infos) == Signatures(ts)
    decreases |ts|
  {
    if ts == [] {
      GroupedNothing<Sig>(infos);
    } else {
      var init, last := ts[..|ts|-1], ts[|ts|-1];
      GroupsPartition(init, infos);
      GroupedStep(init, last, infos);
      assert ts == init + [last] && last.1.info in infos;
      hide SignedOver, Grouped, NoDup;
    }
  }

  // ---------------------------------------------------------------- building a certificate

  /** All infos of the timeouts, each once, in some order. */
  ghost predicate ListsInfos<Sig>(ts: seq<Sent<Sig>>, infos: seq<TimeoutInfo>) {
    NoDup(infos) && forall info :: info in infos <==> info in Infos(ts)
  }

  /** One signature collection for each info. */
  ghost predicate Bundles<Sig, Sct>(ts: seq<Sent<Sig>>, scheme: Scheme<Sig, Sct>, infos: seq<TimeoutInfo>,
                                    tips: seq<TipRounds<Sct>>) {
    && |tips| == |infos|
    && forall i | 0 <= i < |infos| ::
         var info := infos[i];
         && scheme.build(SignedOver(ts, info), info) == Some(tips[i].sigs)
         && tips[i].highQcRound == info.highQcRound && tips[i].highTipRound == info.highTipRound
  }

  ghost predicate IsCertificate<Sig, Sct>(epoch: nat, round: Round, ts: seq<Sent<Sig>>, scheme: Scheme<Sig, Sct>,
                                          tc: Certificate<Sct>) {
    && tc.epoch == epoch && tc.round == round && tc.highExtend == Highest(ts)
    && exists infos :: ListsInfos(ts, infos) && Bundles(ts, scheme, infos, tc.tipRounds)
  }

  /** The loop over the timeouts has seen all of `ts`. */
  ghost predicate Gathered<Sig>(ts: seq<Sent<Sig>>, groups: map<TimeoutInfo, seq<(NodeId, Sig)>>, highest: HighExtend) {
    && highest == Highest(ts)
    && groups.Keys == Infos(ts)
    && forall info :: SignedOver(ts, info) == if info in groups then groups[info] else []
  }

  lemma GatherNone<Sig>()
    ensures Gathered<Sig>([], map[], Qc(GENESIS_QC))
  {
  }

  lemma GatherStep<Sig>(ts: seq<Sent<Sig>>, t: Sent<Sig>, groups: map<TimeoutInfo, seq<(NodeId, Sig)>>,
                        highest: HighExtend)
    requires Gathered(ts, groups, highest)
    ensures var entry := if t.1.info in groups then groups[t.1.info] else [];
            var extend := WithoutVote(t.1.extend);
            Gathered(ts + [t], groups[t.1.info := entry + [(t.0, t.1.signature)]],
                     if PartialCompare(extend, highest) == Some(Greater) then extend else highest)
  {
    hide PartialCompare;
    assert (ts + [t])[..|ts|] == ts;
    assert forall info :: SignedOver(ts + [t], info) == SignedOver(ts, info) + if t.1.info
        == info then [(t.0, t.1.signature)] else [];
  }

  method GroupTimeouts<Sig>(ts: seq<Sent<Sig>>)
    returns (highest: HighExtend, groups: map<TimeoutInfo, seq<(NodeId, Sig)>>)
    ensures Gathered(ts, groups, highest)
  {
    hide Gathered, PartialCompare, Highest, Infos, SignedOver, WithoutVote;
    highest, groups := Qc(GENESIS_QC), map[];
    GatherNone<Sig>();
    assert ts[..0] == [];
    for n := 0 to |ts|
      invariant Gathered(ts[..n], groups, highest)
    {
      var (id, t) := ts[n];
      GatherStep(ts[..n], ts[n], groups, highest);
      assert ts[..n + 1] == ts[..n] + [ts[n]];
      var entry := if t.info in groups then groups[t.info] else [];
      groups := groups[t.info := entry + [(id, t.signature)]];
      var extend := WithoutVote(t.extend);
      if PartialCompare(extend, highest) == Some(Greater) {
        highest := extend;
      }
    }
    assert ts[..|ts|] == ts;
  }

  lemma BundlesStep<Sig, Sct>(ts: seq<Sent<Sig>>, scheme: Scheme<Sig, Sct>, infos: seq<TimeoutInfo>,
                              tips: seq<TipRounds<Sct>>, 
                              info: TimeoutInfo, sigs: Sct)
    requires Bundles(ts, scheme, infos, tips) && scheme.build(SignedOver(ts, info), info) == Some(sigs)
    ensures Bundles(ts, scheme, infos + [info], tips + [TipRounds(info.highQcRound, info.highTipRound, sigs)])
  {
    hide SignedOver;
  }

  method NewCertificate<Sig, Sct>(epoch: nat, round: Round, ts: seq<Sent<Sig>>, scheme: Scheme<Sig, Sct>)
    returns (r: Option<Certificate<Sct>>)
    ensures r.Some? <==> forall info <- Infos(ts) :: scheme.build(SignedOver(ts, info), info).Some?
    ensures r.Some? ==> IsCertificate(epoch, round, ts, scheme, r.value)
  {
    hide Highest, Infos, SignedOver;
    var highest, groups := GroupTimeouts(ts);
    var rest := groups.Keys;
    var tips: seq<TipRounds<Sct>>, infos: seq<TimeoutInfo> := [], [];
    while rest != {}
      invariant rest <= groups.Keys
      invariant NoDup(infos) && forall info :: info in infos <==> info in groups && info !in rest
      invariant Bundles(ts, scheme, infos, tips)
      decreases |rest|
    {
      var info :| info in rest;
      rest := rest - {info};
      var sigs := scheme.build(groups[info], info);
      if sigs.None? {
        assert info in Infos(ts) && groups[info] == SignedOver(ts, info);
        return None;
      }
      BundlesStep(ts, scheme, infos, tips, info, sigs.value);
      infos := infos + [info];
      tips := tips + [TipRounds(info.highQcRound, info.highTipRound, sigs.value)];
    }
    assert ListsInfos(ts, infos);
    BundlesBuilt(ts, scheme, infos, tips);
    return Some(Certificate(epoch, round, tips, highest));
  }

  lemma BundlesBuilt<Sig, Sct>(ts: seq<Sent<Sig>>, scheme: Scheme<Sig, Sct>, infos: seq<TimeoutInfo>,
                               tips: seq<TipRounds<Sct>>)
    requires Bundles(ts, scheme, infos, tips)
    ensures forall info <- infos :: scheme.build(SignedOver(ts, info), info).Some?
  {
  }
}
