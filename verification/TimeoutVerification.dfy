/** What a verifier demands of a timeout certificate, and that a certificate bundled from
    well-formed timeouts meets it. */
module TimeoutVerification {
  import opened Blocks
  import opened Ranks
  import opened Sequences
  import opened Timeouts

  datatype Verdict =
    | Verified
    | InvalidEpoch
    | ValidatorSetUnavailable
    | TooManyTipRounds
    | InvalidRound
    | DuplicateTipRound
    | EmptySigners
    | InvalidSignature
    | DuplicateSigner
    | InsufficientStake
    | InvalidHighExtend
    | NotWellFormed

  /** A validator set: its size, and which of its members make a super majority. */
  datatype ValidatorSet = ValidatorSet(members: nat, majority: set<NodeId> -> bool)

  /** What the verifier knows besides the certificate: the epoch of a round, the validator set of an
      epoch, the signature scheme, and whether an extend verifies by itself. */
  datatype Context<!Sig, !Sct> = Context(
    epochAt: Round -> Option<nat>, setOf: nat -> Option<ValidatorSet>,
    scheme: Scheme<Sig, Sct>, extendOk: HighExtend -> bool)

  /** The validator set for an epoch and a round of it. */
  function LookUp<Sig, Sct>(c: Context<Sig, Sct>, epoch: nat, round: Round): Option<ValidatorSet> {
    if c.epochAt(round) == Some(epoch) then c.setOf(epoch) else None
  }

  function Message<Sct>(tc: Certificate<Sct>, t: TipRounds<Sct>): TimeoutInfo {
    TimeoutInfo(tc.epoch, tc.round, t.highQcRound, t.highTipRound)
  }

  function HighestRank<Sct>(tips: seq<TipRounds<Sct>>): Rank {
    if tips == [] then QcRank(GENESIS_ROUND)
    else
      var best, r := HighestRank(tips[..|tips|-1]), TipRoundsRank(tips[|tips|-1]);
      if Compare(r, best) == Greater then r else best
  }

  function SignersOf<Sig, Sct>(c: Context<Sig, Sct>, tc: Certificate<Sct>, t: TipRounds<Sct>): seq<NodeId> {
    match c.scheme.signers(t.sigs, Message(tc, t))
    case Some(ids) => ids
    case None => []
  }

  function AllSigners<Sig, Sct>(c: Context<Sig, Sct>, tc: Certificate<Sct>, tips: seq<TipRounds<Sct>>): seq<NodeId> {
    if tips == [] then [] else AllSigners(c, tc, tips[..|tips|-1]) + SignersOf(c, tc, tips[|tips|-1])
  }

  function Elements(ids: seq<NodeId>): set<NodeId> {
    set id | id in ids
  }

  predicate TipOk<Sig, Sct>(c: Context<Sig, Sct>, tc: Certificate<Sct>, t: TipRounds<Sct>) {
    && t.highQcRound < tc.round
    && c.scheme.count(t.sigs) > 0
    && c.scheme.signers(t.sigs, Message(tc, t)).Some?
  }

  function RoundsOf<Sct>(t: TipRounds<Sct>): (Round, Round) {
    (t.highQcRound, t.highTipRound)
  }

  predicate Unbundled<Sct>(tips: seq<TipRounds<Sct>>) {
    forall i, j | 0 <= i < j < |tips| :: RoundsOf(tips[i]) != RoundsOf(tips[j])
  }

  /** A certificate that verifies: one entry for each pair of rounds, no validator signs twice,
      and the extend has the highest rank that was signed. */
  predicate Acceptable<Sig, Sct>(c: Context<Sig, Sct>, tc: Certificate<Sct>) {
    && LookUp(c, tc.epoch, tc.round).Some?
    && |tc.tipRounds| <= LookUp(c, tc.epoch, tc.round).value.members
    && (forall i | 0 <= i < |tc.tipRounds| :: TipOk(c, tc, tc.tipRounds[i]))
    && Unbundled(tc.tipRounds)
    && NoDup(AllSigners(c, tc, tc.tipRounds))
    && LookUp(c, tc.epoch, tc.round).value.majority(Elements(AllSigners(c, tc, tc.tipRounds)))
    && c.extendOk(tc.highExtend)
    && RankOf(tc.highExtend) == HighestRank(tc.tipRounds)
  }

  /** The first `n` entries are in order. */
  predicate GoodUpTo<Sig, Sct>(c: Context<Sig, Sct>, tc: Certificate<Sct>, n: nat)
    requires n <= |tc.tipRounds|
  {
    && (forall i | 0 <= i < n :: TipOk(c, tc, tc.tipRounds[i]))
    && Unbundled(tc.tipRounds[..n])
    && NoDup(AllSigners(c, tc, tc.tipRounds[..n]))
  }

  /** The first check that the entry at `n` fails. */
  function EntryVerdict<Sig, Sct>(c: Context<Sig, Sct>, tc: Certificate<Sct>, n: nat): Verdict
    requires n < |tc.tipRounds|
  {
    var t := tc.tipRounds[n];
    if t.highQcRound >= tc.round then InvalidRound
    else if exists i :: 0 <= i < n && RoundsOf(tc.tipRounds[i]) == RoundsOf(t) then DuplicateTipRound
    else if c.scheme.count(t.sigs) == 0 then EmptySigners
    else if c.scheme.signers(t.sigs, Message(tc, t)).None? then InvalidSignature
    else if !NoDup(AllSigners(c, tc, tc.tipRounds[..n]) + SignersOf(c, tc, t)) then DuplicateSigner
    else Verified
  }

  predicate OnEntry(r: Verdict) {
    r.InvalidRound? || r.DuplicateTipRound? || r.EmptySigners? || r.InvalidSignature? || r.DuplicateSigner?
  }

  /** The entries are in order, and their signers make a super majority or not. */
  predicate EntriesGood<Sig, Sct>(c: Context<Sig, Sct>, tc: Certificate<Sct>, majority: bool) {
    var found := LookUp(c, tc.epoch, tc.round);
    && found.Some? && |tc.tipRounds| <= found.value.members && GoodUpTo(c, tc, |tc.tipRounds|)
    && found.value.majority(Elements(AllSigners(c, tc, tc.tipRounds))) == majority
  }

  /** A refusal names the first demand that is not met, in the order of the checks: the epoch, the
      number of entries, each entry in turn, the majority, the extend and its rank. */
  ghost predicate Explains<Sig, Sct>(c: Context<Sig, Sct>, tc: Certificate<Sct>, r: Verdict) {
    var tips, found := tc.tipRounds, LookUp(c, tc.epoch, tc.round);
    match r
    case Verified => Acceptable(c, tc)
    case InvalidEpoch => c.epochAt(tc.round) != Some(tc.epoch)
    case ValidatorSetUnavailable => c.epochAt(tc.round) == Some(tc.epoch) && c.setOf(tc.epoch).None?
    case TooManyTipRounds => found.Some? && |tips| > found.value.members
    case InsufficientStake => EntriesGood(c, tc, false)
    case InvalidHighExtend => EntriesGood(c, tc, true) && !c.extendOk(tc.highExtend)
    case NotWellFormed =>
      EntriesGood(c, tc, true) && c.extendOk(tc.highExtend) && RankOf(tc.highExtend) != HighestRank(tips)
    case _ =>
      && found.Some? && |tips| <= found.value.members
      && exists n :: 0 <= n < |tips| && GoodUpTo(c, tc, n) && EntryVerdict(c, tc, n) == r
  }

  // ---------------------------------------------------------------- verifying

  lemma {:induction false} AllSignersPrefix<Sig, Sct>(c: Context<Sig, Sct>, tc: Certificate<Sct>,
                                                      tips: seq<TipRounds<Sct>>, n: nat)
    requires n <= |tips|
    ensures AllSigners(c, tc, tips[..n]) <= AllSigners(c, tc, tips)
    decreases |tips|
  {
    if n == |tips| {
      assert tips[..n] == tips;
    } else {
      var init := tips[..|tips|-1];
      assert init[..n] == tips[..n];
      AllSignersPrefix(c, tc, init, n);
    }
  }

  /** The loop over the entries has passed the first `n`. */
  ghost predicate Passed<Sig, Sct>(c: Context<Sig, Sct>, tc: Certificate<Sct>, n: nat,
                                   rounds: set<(Round, Round)>, ids: seq<NodeId>, highest: Rank)
    requires n <= |tc.tipRounds|
  {
    && (forall i | 0 <= i < n :: TipOk(c, tc, tc.tipRounds[i]) && RoundsOf(tc.tipRounds[i]) in rounds)
    && (forall p <- rounds :: exists i :: 0 <= i < n && RoundsOf(tc.tipRounds[i]) == p)
    && Unbundled(tc.tipRounds[..n])
    && ids == AllSigners(c, tc, tc.tipRounds[..n]) && NoDup(ids)
    && highest == HighestRank(tc.tipRounds[..n])
  }

  lemma PassOne<Sig, Sct>(c: Context<Sig, Sct>, tc: Certificate<Sct>, n: nat,
                          rounds: set<(Round, Round)>, ids: seq<NodeId>, highest: Rank)
    requires n < |tc.tipRounds| && Passed(c, tc, n, rounds, ids, highest)
    requires var t := tc.tipRounds[n];
             TipOk(c, tc, t) && RoundsOf(t) !in rounds && NoDup(ids + SignersOf(c, tc, t))
    ensures var t := tc.tipRounds[n];
            Passed(c, tc, n + 1, rounds + {RoundsOf(t)}, ids + SignersOf(c, tc, t),
                   if Compare(TipRoundsRank(t), highest) == Greater then TipRoundsRank(t) else highest)
  {
    hide TipOk, SignersOf, Compare, TipRoundsRank, NoDup;
    var tips, t := tc.tipRounds, tc.tipRounds[n];
    assert tips[..n + 1][..n] == tips[..n];
    forall p <- rounds + {RoundsOf(t)}
      ensures exists i :: 0 <= i < n + 1 && RoundsOf(tips[i]) == p
    {
      if p == RoundsOf(t) {
        assert RoundsOf(tips[n]) == p;
      }
    }
  }

  lemma PassedIsGood<Sig, Sct>(c: Context<Sig, Sct>, tc: Certificate<Sct>, n: nat,
                               rounds: set<(Round, Round)>, ids: seq<NodeId>, highest: Rank)
    requires n < |tc.tipRounds| && Passed(c, tc, n, rounds, ids, highest)
    ensures GoodUpTo(c, tc, n) && ids == AllSigners(c, tc, tc.tipRounds[..n])
    ensures RoundsOf(tc.tipRounds[n]) in rounds <==>
              exists i :: 0 <= i < n && RoundsOf(tc.tipRounds[i]) == RoundsOf(tc.tipRounds[n])
  {
  }

  lemma GoodEntry<Sig, Sct>(c: Context<Sig, Sct>, tc: Certificate<Sct>, n: nat, m: nat)
    requires n < m <= |tc.tipRounds| && GoodUpTo(c, tc, m)
    ensures EntryVerdict(c, tc, n) == Verified
  {
    var tips := tc.tipRounds;
    assert tips[..m][..n + 1] == tips[..n + 1] && tips[..n + 1][..n] == tips[..n];
    AllSignersPrefix(c, tc, tips[..m], n + 1);
    assert TipOk(c, tc, tips[n]);
    assert forall i | 0 <= i <= n :: tips[..m][i] == tips[i];
    assert AllSigners(c, tc, tips[..n + 1]) == AllSigners(c, tc, tips[..n]) + SignersOf(c, tc, tips[n]);
  }

  /** An entry that fails a check is not among the first that are in order. */
  lemma EntryFails<Sig, Sct>(c: Context<Sig, Sct>, tc: Certificate<Sct>, n: nat, m: nat)
    requires n < m <= |tc.tipRounds| && EntryVerdict(c, tc, n) != Verified
    ensures !GoodUpTo(c, tc, m)
  {
    hide GoodUpTo, EntryVerdict;
    if GoodUpTo(c, tc, m) {
      GoodEntry(c, tc, n, m);
    }
  }

  lemma GoodIffAcceptable<Sig, Sct>(c: Context<Sig, Sct>, tc: Certificate<Sct>)
    ensures Acceptable(c, tc) <==>
              && EntriesGood(c, tc, true) && c.extendOk(tc.highExtend)
              && RankOf(tc.highExtend) == HighestRank(tc.tipRounds)
  {
    assert tc.tipRounds[..|tc.tipRounds|] == tc.tipRounds;
  }

  lemma RefusedOnEntry<Sig, Sct>(c: Context<Sig, Sct>, tc: Certificate<Sct>, r: Verdict)
    requires LookUp(c, tc.epoch, tc.round).Some? && |tc.tipRounds| <= LookUp(c, tc.epoch, tc.round).value.members
    requires OnEntry(r) && exists n :: 0 <= n < |tc.tipRounds| && GoodUpTo(c, tc, n) && EntryVerdict(c, tc, n) == r
    ensures !Acceptable(c, tc) && Explains(c, tc, r)
  {
    hide GoodUpTo, EntryVerdict, HighestRank, RankOf, AllSigners, Elements;
    var n :| 0 <= n < |tc.tipRounds| && GoodUpTo(c, tc, n) && EntryVerdict(c, tc, n) == r;
    EntryFails(c, tc, n, |tc.tipRounds|);
    GoodIffAcceptable(c, tc);
  }

  /** There is one verdict only. */
  lemma VerdictUnique<Sig, Sct>(c: Context<Sig, Sct>, tc: Certificate<Sct>, r: Verdict, other: Verdict)
    requires Explains(c, tc, r) && Explains(c, tc, other)
    ensures r == other
  {
    GoodIffAcceptable(c, tc);
    hide Acceptable, GoodUpTo, EntryVerdict, HighestRank, RankOf, AllSigners, Elements;
    if OnEntry(r) {
      var n :| 0 <= n < |tc.tipRounds| && GoodUpTo(c, tc, n) && EntryVerdict(c, tc, n) == r;
      EntryFails(c, tc, n, |tc.tipRounds|);
      if OnEntry(other) {
        var k :| 0 <= k < |tc.tipRounds| && GoodUpTo(c, tc, k) && EntryVerdict(c, tc, k) == other;
        if n < k {
          EntryFails(c, tc, n, k);
        } else if k < n {
          EntryFails(c, tc, k, n);
        }
      }
    } else if OnEntry(other) {
      var k :| 0 <= k < |tc.tipRounds| && GoodUpTo(c, tc, k) && EntryVerdict(c, tc, k) == other;
      EntryFails(c, tc, k, |tc.tipRounds|);
    }
  }

  /** The loop over the entries. */
  method VerifyEntries<Sig, Sct>(c: Context<Sig, Sct>,
                                 tc: Certificate<Sct>) returns (r: Verdict, nodeIds: seq<NodeId>, highest: Rank)
    ensures r == Verified ==> EntriesPassed(c, tc, nodeIds, highest)
    ensures r != Verified ==>
              OnEntry(r) && exists n :: 0 <= n < |tc.tipRounds| && GoodUpTo(c, tc, n) && EntryVerdict(c, tc, n) == r
  {
    var tips := tc.tipRounds;
    hide Compare, TipRoundsRank, Passed, HighestRank, AllSigners, Elements, GoodUpTo;
    nodeIds, highest := [], QcRank(GENESIS_ROUND);
    var rounds: set<(Round, Round)> := {};
    PassedNone(c, tc);
    for n := 0 to |tips|
      invariant Passed(c, tc, n, rounds, nodeIds, highest)
    {
      var t := tips[n];
      PassedIsGood(c, tc, n, rounds, nodeIds, highest);
      if t.highQcRound >= tc.round {
        assert EntryVerdict(c, tc, n) == InvalidRound;
        return InvalidRound, nodeIds, highest;
      }
      if RoundsOf(t) in rounds {
        assert EntryVerdict(c, tc, n) == DuplicateTipRound;
        return DuplicateTipRound, nodeIds, highest;
      }
      if c.scheme.count(t.sigs) == 0 {
        assert EntryVerdict(c, tc, n) == EmptySigners;
        return EmptySigners, nodeIds, highest;
      }
      var signers := c.scheme.signers(t.sigs, Message(tc, t));
      if signers.None? {
        assert EntryVerdict(c, tc, n) == InvalidSignature;
        return InvalidSignature, nodeIds, highest;
      }
      PassedIds(c, tc, n, rounds, nodeIds, highest);
      var areNew := CheckFresh(nodeIds, signers.value);
      if !areNew {
        assert EntryVerdict(c, tc, n) == DuplicateSigner;
        return DuplicateSigner, nodeIds, highest;
      }
      PassOne(c, tc, n, rounds, nodeIds, highest);
      rounds := rounds + {RoundsOf(t)};
      if Compare(TipRoundsRank(t), highest) == Greater {
        highest := TipRoundsRank(t);
      }
      nodeIds := nodeIds + signers.value;
    }
    PassedAll(c, tc, rounds, nodeIds, highest);
    return Verified, nodeIds, highest;
  }

  /** What the loop has found out about all entries. */
  ghost predicate EntriesPassed<Sig, Sct>(c: Context<Sig, Sct>, tc: Certificate<Sct>, ids: seq<NodeId>, highest: Rank) {
    && (forall i | 0 <= i < |tc.tipRounds| :: TipOk(c, tc, tc.tipRounds[i])) && Unbundled(tc.tipRounds)
    && ids == AllSigners(c, tc, tc.tipRounds) && NoDup(ids) && highest == HighestRank(tc.tipRounds)
  }

  method VerifyCertificate<Sig, Sct>(c: Context<Sig, Sct>, tc: Certificate<Sct>) returns (r: Verdict)
    ensures r == Verified <==> Acceptable(c, tc)
    ensures Explains(c, tc, r)
  {
    if c.epochAt(tc.round) != Some(tc.epoch) {
      return InvalidEpoch;
    }
    var found := c.setOf(tc.epoch);
    if found.None? {
      return ValidatorSetUnavailable;
    }
    if |tc.tipRounds| > found.value.members {
      return TooManyTipRounds;
    }
    hide TipOk, Unbundled, NoDup, EntriesPassed, GoodUpTo, EntryVerdict, Acceptable, Explains;
    var nodeIds, highest;
    r, nodeIds, highest := VerifyEntries(c, tc);
    if r == Verified {
      r := VerifyWhole(c, tc, found.value, nodeIds, highest);
    } else {
      RefusedOnEntry(c, tc, r);
    }
  }

  /** The checks after the loop. */
  method VerifyWhole<Sig, Sct>(c: Context<Sig, Sct>, tc: Certificate<Sct>, validators: ValidatorSet,
                               nodeIds: seq<NodeId>, highest: Rank)
    returns (r: Verdict)
    requires LookUp(c, tc.epoch, tc.round) == Some(validators) && |tc.tipRounds| <= validators.members
    requires EntriesPassed(c, tc, nodeIds, highest)
    ensures r == Verified <==> Acceptable(c, tc)
    ensures Explains(c, tc, r)
  {
    assert tc.tipRounds[..|tc.tipRounds|] == tc.tipRounds;
    assert GoodUpTo(c, tc, |tc.tipRounds|);
    hide AllSigners, Elements, TipOk, Unbundled, RankOf, HighestRank, NoDup, LookUp, GoodUpTo;
    if !validators.majority(Elements(nodeIds)) {
      return InsufficientStake;
    }
    if !c.extendOk(tc.highExtend) {
      return InvalidHighExtend;
    }
    if RankOf(tc.highExtend) != highest {
      return NotWellFormed;
    }
    return Verified;
  }

  lemma PassedNone<Sig, Sct>(c: Context<Sig, Sct>, tc: Certificate<Sct>)
    ensures Passed(c, tc, 0, {}, [], QcRank(GENESIS_ROUND))
  {
    assert tc.tipRounds[..0] == [];
  }

  lemma PassedIds<Sig, Sct>(c: Context<Sig, Sct>, tc: Certificate<Sct>, n: nat,
                            rounds: set<(Round, Round)>, ids: seq<NodeId>, highest: Rank)
    requires n <= |tc.tipRounds| && Passed(c, tc, n, rounds, ids, highest)
    ensures ids == AllSigners(c, tc, tc.tipRounds[..n]) && NoDup(ids)
  {
  }

  lemma PassedAll<Sig, Sct>(c: Context<Sig, Sct>, tc: Certificate<Sct>,
                            rounds: set<(Round, Round)>, ids: seq<NodeId>, highest: Rank)
    requires Passed(c, tc, |tc.tipRounds|, rounds, ids, highest)
    ensures EntriesPassed(c, tc, ids, highest)
  {
    assert tc.tipRounds[..|tc.tipRounds|] == tc.tipRounds;
  }

  /** Whether the signers are new and name nobody twice. */
  method CheckFresh(seen: seq<NodeId>, signers: seq<NodeId>) returns (areNew: bool)
    requires NoDup(seen)
    ensures areNew <==> NoDup(seen + signers)
  {
    var ids := Elements(seen);
    assert seen + signers[..0] == seen;
    for k := 0 to |signers|
      invariant ids == Elements(seen + signers[..k]) && NoDup(seen + signers[..k])
    {
      var before := seen + signers[..k];
      assert seen + signers[..k + 1] == before + [signers[k]];
      if signers[k] in ids {
        var i :| 0 <= i < |before| && before[i] == signers[k];
        assert (seen + signers)[i] == (seen + signers)[|before|];
        return false;
      }
      ids := ids + {signers[k]};
    }
    assert signers[..|signers|] == signers;
    return true;
  }

  // ---------------------------------------------------------------- bundled certificates verify

  /** A collection that was built verifies, with the submitters as its signers, each once. */
  ghost predicate Sound<Sig(!new), Sct>(scheme: Scheme<Sig, Sct>) {
    forall subs, info :: scheme.build(subs, info).Some? ==> BuiltRight(scheme, subs, info)
  }

  ghost predicate BuiltRight<Sig, Sct>(scheme: Scheme<Sig, Sct>, subs: seq<(NodeId, Sig)>, info: TimeoutInfo)
    requires scheme.build(subs, info).Some?
  {
    var sigs := scheme.build(subs, info).value;
    var signers := scheme.signers(sigs, info);
    && signers.Some? && NoDup(signers.value) && Elements(signers.value) == Ids(subs)
    && (subs != [] ==> scheme.count(sigs) > 0)
  }

  /** Timeouts of one round by different senders, each well formed: it holds the rounds of what it
      extends. */
  ghost predicate WellFormedTimeouts<Sig>(epoch: nat, round: Round, ts: seq<Sent<Sig>>) {
    && (forall i, j | 0 <= i < j < |ts| :: ts[i].0 != ts[j].0)
    && (forall i | 0 <= i < |ts| ::
          var info := ts[i].1.info;
          info.epoch == epoch && info.round == round && HoldsRounds(info, WithoutVote(ts[i].1.extend)))
  }

  lemma {:induction false} HighestRankIsMax<Sct>(tips: seq<TipRounds<Sct>>)
    ensures IsMax(HighestRank(tips), Ranked(tips))
    decreases |tips|
  {
    if tips != [] {
      var init, last := tips[..|tips|-1], tips[|tips|-1];
      HighestRankIsMax(init);
      CompareIsBelow(TipRoundsRank(last), HighestRank(init));
      assert Ranked(tips) == Ranked(init) + [TipRoundsRank(last)];
      hide Below, Compare, AtMost, TipRoundsRank;
      MaxStep(HighestRank(init), Ranked(init), TipRoundsRank(last));
    }
  }

  function Ranked<Sct>(tips: seq<TipRounds<Sct>>): (r: seq<Rank>)
    ensures |r| == |tips|
  {
    seq(|tips|, i requires 0 <= i < |tips| => TipRoundsRank(tips[i]))
  }

  /** The listed infos carry the same ranks as the extends. */
  lemma BundledRanks<Sig, Sct>(epoch: nat, round: Round, ts: seq<Sent<Sig>>, scheme: Scheme<Sig, Sct>,
                               infos: seq<TimeoutInfo>, tips: seq<TipRounds<Sct>>)
    requires WellFormedTimeouts(epoch, round, ts) && ListsInfos(ts, infos) && Bundles(ts, scheme, infos, tips)
    ensures forall r :: r in Ranked(tips) <==> r in ExtendRanks(ts)
  {
    InfosElements(ts);
    forall r | r in Ranked(tips)
      ensures r in ExtendRanks(ts)
    {
      var i :| 0 <= i < |tips| && Ranked(tips)[i] == r;
      assert infos[i] in infos;
      var j :| 0 <= j < |ts| && ts[j].1.info == infos[i];
      RanksAsExtendIff(infos[i], WithoutVote(ts[j].1.extend));
      assert ExtendRanks(ts)[j] == r;
    }
    forall r | r in ExtendRanks(ts)
      ensures r in Ranked(tips)
    {
      var j :| 0 <= j < |ts| && ExtendRanks(ts)[j] == r;
      assert ts[j].1.info in infos;
      var i :| 0 <= i < |infos| && infos[i] == ts[j].1.info;
      RanksAsExtendIff(infos[i], WithoutVote(ts[j].1.extend));
      assert Ranked(tips)[i] == r;
    }
  }

  /** The extend of the certificate ranks as the highest entry; without timeouts both are the
      genesis rank. */
  lemma ExtendIsHighest<Sig, Sct>(epoch: nat, round: Round, ts: seq<Sent<Sig>>, scheme: Scheme<Sig, Sct>,
                                  tc: Certificate<Sct>)
    requires WellFormedTimeouts(epoch, round, ts) && IsCertificate(epoch, round, ts, scheme, tc)
    ensures RankOf(tc.highExtend) == HighestRank(tc.tipRounds)
  {
    var infos :| ListsInfos(ts, infos) && Bundles(ts, scheme, infos, tc.tipRounds);
    BundledRanks(epoch, round, ts, scheme, infos, tc.tipRounds);
    HighestIsMax(ts);
    HighestRankIsMax(tc.tipRounds);
    MaxUnique(RankOf(Highest(ts)), HighestRank(tc.tipRounds), ExtendRanks(ts), Ranked(tc.tipRounds));
  }

  /** Each entry was built over the message that the verifier checks it against. */
  lemma EntrySigners<Sig(!new), Sct>(c: Context<Sig, Sct>, tc: Certificate<Sct>, ts: seq<Sent<Sig>>,
                                     infos: seq<TimeoutInfo>, i: nat)
    requires Sound(c.scheme) && WellFormedTimeouts(tc.epoch, tc.round, ts)
    requires ListsInfos(ts, infos) && Bundles(ts, c.scheme, infos, tc.tipRounds) && i < |infos|
    ensures TipOk(c, tc, tc.tipRounds[i]) <==> infos[i].highQcRound < tc.round
    ensures NoDup(SignersOf(c, tc, tc.tipRounds[i]))
            && Elements(SignersOf(c, tc, tc.tipRounds[i])) == Ids(SignedOver(ts, infos[i]))
  {
    var info := infos[i];
    InfosElements(ts);
    assert info in infos;
    var j :| 0 <= j < |ts| && ts[j].1.info == info;
    assert Message(tc, tc.tipRounds[i]) == info;
    assert BuiltRight(c.scheme, SignedOver(ts, info), info);
    GroupSenders(ts, info, ts[j].0);
    assert SignedOver(ts, info) != [];
  }

  /** No sender is in two groups. */
  lemma GroupsDisjoint<Sig>(epoch: nat, round: Round, ts: seq<Sent<Sig>>, a: TimeoutInfo, b: TimeoutInfo, id: NodeId)
    requires WellFormedTimeouts(epoch, round, ts) && id in Ids(SignedOver(ts, a)) && id in Ids(SignedOver(ts, b))
    ensures a == b
  {
    GroupSenders(ts, a, id);
    GroupSenders(ts, b, id);
  }

  /** The signers of the first entries are those in their groups, each once. */
  ghost predicate SignedOnce<Sig, Sct>(c: Context<Sig, Sct>, tc: Certificate<Sct>, ts: seq<Sent<Sig>>,
                                       infos: seq<TimeoutInfo>, n: nat)
    requires n <= |infos| == |tc.tipRounds|
  {
    var ids := AllSigners(c, tc, tc.tipRounds[..n]);
    NoDup(ids) && forall id :: id in ids <==> InGroups(ts, infos[..n], id)
  }

  lemma SignedMore<Sig, Sct>(c: Context<Sig, Sct>, tc: Certificate<Sct>, ts: seq<Sent<Sig>>,
                             infos: seq<TimeoutInfo>, n: nat)
    requires n < |infos| == |tc.tipRounds| && SignedOnce(c, tc, ts, infos, n)
    requires var more := SignersOf(c, tc, tc.tipRounds[n]);
             NoDup(more) && Elements(more) == Ids(SignedOver(ts, infos[n]))
    requires forall id :: InGroups(ts, infos[..n], id) ==> id !in Ids(SignedOver(ts, infos[n]))
    ensures SignedOnce(c, tc, ts, infos, n + 1)
  {
    hide SignersOf, SignedOver, Ids, NoDup;
    var before, more := AllSigners(c, tc, tc.tipRounds[..n]), SignersOf(c, tc, tc.tipRounds[n]);
    assert tc.tipRounds[..n + 1][..n] == tc.tipRounds[..n] && infos[..n + 1][..n] == infos[..n];
    assert AllSigners(c, tc, tc.tipRounds[..n + 1]) == before + more;
    hide AllSigners;
    assert forall id :: id in more <==> id in Elements(more);
    NoDupConcat(before, more);
  }

  lemma {:induction false} SignersOnce<Sig(!new), Sct>(c: Context<Sig, Sct>, tc: Certificate<Sct>, ts: seq<Sent<Sig>>,
                                                       infos: seq<TimeoutInfo>, n: nat)
    requires Sound(c.scheme) && WellFormedTimeouts(tc.epoch, tc.round, ts)
    requires ListsInfos(ts, infos) && Bundles(ts, c.scheme, infos, tc.tipRounds) && n <= |infos|
    ensures SignedOnce(c, tc, ts, infos, n)
    decreases n
  {
    if n > 0 {
      SignersOnce(c, tc, ts, infos, n - 1);
      EntrySigners(c, tc, ts, infos, n - 1);
      hide AllSigners, SignersOf, Sound, Bundles, SignedOver, Ids, Elements, TipOk, SignedOnce, WellFormedTimeouts;
      var earlier := infos[..n - 1];
      forall id | InGroups(ts, earlier, id)
        ensures id !in Ids(SignedOver(ts, infos[n - 1]))
      {
        if id in Ids(SignedOver(ts, infos[n - 1])) {
          var i := GroupOf(ts, earlier, id);
          GroupsDisjoint(tc.epoch, tc.round, ts, infos[i], infos[n - 1], id);
          assert false;
        }
      }
      SignedMore(c, tc, ts, infos, n - 1);
    }
  }

  predicate InGroups<Sig>(ts: seq<Sent<Sig>>, infos: seq<TimeoutInfo>, id: NodeId) {
    infos != [] && (InGroups(ts, infos[..|infos|-1], id) || id in Ids(SignedOver(ts, infos[|infos|-1])))
  }

  lemma {:induction false} GroupOf<Sig>(ts: seq<Sent<Sig>>, infos: seq<TimeoutInfo>, id: NodeId) returns (i: nat)
    requires InGroups(ts, infos, id)
    ensures i < |infos| && id in Ids(SignedOver(ts, infos[i]))
    decreases |infos|
  {
    if id in Ids(SignedOver(ts, infos[|infos|-1])) {
      i := |infos| - 1;
    } else {
      i := GroupOf(ts, infos[..|infos|-1], id);
    }
  }

  lemma {:induction false} GroupContains<Sig>(ts: seq<Sent<Sig>>, infos: seq<TimeoutInfo>, id: NodeId, i: nat)
    requires i < |infos| && id in Ids(SignedOver(ts, infos[i]))
    ensures InGroups(ts, infos, id)
    decreases |infos|
  {
    if i < |infos| - 1 {
      GroupContains(ts, infos[..|infos|-1], id, i);
    }
  }

  /** Every sender, and nobody else, is in some group. */
  lemma SendersInGroups<Sig>(ts: seq<Sent<Sig>>, infos: seq<TimeoutInfo>, id: NodeId)
    requires ListsInfos(ts, infos)
    ensures InGroups(ts, infos, id) <==> id in Ids(ts)
  {
    IdsElements(ts, id);
    InfosElements(ts);
    if InGroups(ts, infos, id) {
      var i := GroupOf(ts, infos, id);
      GroupSenders(ts, infos[i], id);
    }
    if id in Ids(ts) {
      var j :| 0 <= j < |ts| && ts[j].0 == id;
      assert ts[j].1.info in infos;
      var i :| 0 <= i < |infos| && infos[i] == ts[j].1.info;
      GroupSenders(ts, infos[i], id);
      GroupContains(ts, infos, id, i);
    }
  }

  lemma DistinctEntries<Sig, Sct>(epoch: nat, round: Round, ts: seq<Sent<Sig>>, scheme: Scheme<Sig, Sct>,
                                  infos: seq<TimeoutInfo>, tips: seq<TipRounds<Sct>>)
    requires WellFormedTimeouts(epoch, round, ts) && ListsInfos(ts, infos) && Bundles(ts, scheme, infos, tips)
    ensures Unbundled(tips) && |tips| <= |ts|
  {
    InfosElements(ts);
    assert forall i | 0 <= i < |infos| :: infos[i] in infos;
    assert forall i | 0 <= i < |infos| :: infos[i].epoch == epoch && infos[i].round == round;
    NoDupSize(infos, Infos(ts));
  }

  lemma {:induction false} NoDupSize<T>(s: seq<T>, all: set<T>)
    requires NoDup(s) && forall x <- s :: x in all
    ensures |s| <= |all|
    decreases |s|
  {
    if s != [] {
      var init, last := s[..|s|-1], s[|s|-1];
      assert last !in init && last in s;
      assert forall x <- init :: x in s;
      NoDupSize(init, all - {last});
    }
  }

  lemma EarlierRounds<Sig>(ts: seq<Sent<Sig>>, infos: seq<TimeoutInfo>, round: Round)
    requires ListsInfos(ts, infos)
    ensures (forall i | 0 <= i < |infos| :: infos[i].highQcRound < round)
       <==> (forall j | 0 <= j < |ts| :: ts[j].1.info.highQcRound < round)
  {
    InfosElements(ts);
    assert forall i | 0 <= i < |infos| :: infos[i] in infos;
    assert forall j | 0 <= j < |ts| :: ts[j].1.info in infos;
  }

  /** The chosen extend is one that came with a timeout, or the genesis certificate; so it verifies
      if those do. */
  lemma HighestVerifies<Sig, Sct>(c: Context<Sig, Sct>, ts: seq<Sent<Sig>>)
    requires ExtendsVerify(c, ts)
    ensures c.extendOk(Highest(ts))
  {
    HighestIsFirst(ts);
  }

  /** The verifier accepted the extend of every timeout; and the genesis certificate, if it comes to
      that because no timeout extends anything higher. */
  ghost predicate ExtendsVerify<Sig, Sct>(c: Context<Sig, Sct>, ts: seq<Sent<Sig>>) {
    && (Highest(ts) == Qc(GENESIS_QC) ==> c.extendOk(Qc(GENESIS_QC)))
    && forall i | 0 <= i < |ts| :: c.extendOk(WithoutVote(ts[i].1.extend))
  }

  /** A certificate bundled from well-formed timeouts of different senders, whose extends verify,
      verifies itself exactly when the senders make a super majority and no timeout holds a
      certificate of the round or later. */
  lemma BundledVerifies<Sig(!new), Sct>(c: Context<Sig, Sct>, ts: seq<Sent<Sig>>, tc: Certificate<Sct>)
    requires Sound(c.scheme) && WellFormedTimeouts(tc.epoch, tc.round, ts) && ExtendsVerify(c, ts)
    requires IsCertificate(tc.epoch, tc.round, ts, c.scheme, tc)
    requires LookUp(c, tc.epoch, tc.round).Some? && |ts| <= LookUp(c, tc.epoch, tc.round).value.members
    ensures Acceptable(c, tc) <==>
              && LookUp(c, tc.epoch, tc.round).value.majority(Ids(ts))
              && forall j | 0 <= j < |ts| :: ts[j].1.info.highQcRound < tc.round
    ensures Elements(AllSigners(c, tc, tc.tipRounds)) == Ids(ts)
  {
    hide AllSigners, InGroups, Sound, WellFormedTimeouts, Highest, Ids, Infos, TipOk, Unbundled, RankOf, HighestRank;
    hide LookUp, ExtendsVerify, Elements, NoDup, Bundles, ListsInfos;
    var tips := tc.tipRounds;
    HighestVerifies(c, ts);
    ExtendIsHighest(tc.epoch, tc.round, ts, c.scheme, tc);
    var infos: seq<TimeoutInfo> :| ListsInfos(ts, infos) && Bundles(ts, c.scheme, infos, tips);
    DistinctEntries(tc.epoch, tc.round, ts, c.scheme, infos, tips);
    BundledSigners(c, tc, ts, infos);
    BundledEntries(c, tc, ts, infos);
  }

  lemma BundledSigners<Sig(!new), Sct>(c: Context<Sig, Sct>, tc: Certificate<Sct>, ts: seq<Sent<Sig>>,
                                       infos: seq<TimeoutInfo>)
    requires Sound(c.scheme) && WellFormedTimeouts(tc.epoch, tc.round, ts)
    requires ListsInfos(ts, infos) && Bundles(ts, c.scheme, infos, tc.tipRounds)
    ensures NoDup(AllSigners(c, tc, tc.tipRounds))
    ensures Elements(AllSigners(c, tc, tc.tipRounds)) == Ids(ts)
  {
    hide AllSigners, InGroups, Sound, WellFormedTimeouts, Ids, ListsInfos, NoDup;
    SignersOnce(c, tc, ts, infos, |infos|);
    assert tc.tipRounds[..|infos|] == tc.tipRounds && infos[..|infos|] == infos;
    forall id
      ensures id in AllSigners(c, tc, tc.tipRounds) <==> id in Ids(ts)
    {
      SendersInGroups(ts, infos, id);
    }
  }

  lemma BundledEntries<Sig(!new), Sct>(c: Context<Sig, Sct>, tc: Certificate<Sct>, ts: seq<Sent<Sig>>,
                                       infos: seq<TimeoutInfo>)
    requires Sound(c.scheme) && WellFormedTimeouts(tc.epoch, tc.round, ts)
    requires ListsInfos(ts, infos) && Bundles(ts, c.scheme, infos, tc.tipRounds)
    ensures (forall i | 0 <= i < |tc.tipRounds| :: TipOk(c, tc, tc.tipRounds[i]))
       <==> (forall j | 0 <= j < |ts| :: ts[j].1.info.highQcRound < tc.round)
  {
    hide Sound, WellFormedTimeouts, ListsInfos, TipOk, SignersOf, Ids, SignedOver, NoDup;
    forall i: nat | i < |tc.tipRounds|
      ensures TipOk(c, tc, tc.tipRounds[i]) <==> infos[i].highQcRound < tc.round
    {
      EntrySigners(c, tc, ts, infos, i);
    }
    EarlierRounds(ts, infos, tc.round);
  }
}
