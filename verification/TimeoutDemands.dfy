/** What an accepted timeout certificate stands for, said entry by entry and signer by signer. */
module TimeoutDemands {
  import opened Blocks
  import opened Ranks
  import opened Sequences
  import opened Timeouts
  import opened TimeoutVerification

  /** What the signers of the `i`-th entry signed. */
  function SignedInfo<Sct>(tc: Certificate<Sct>, i: nat): TimeoutInfo
    requires i < |tc.tipRounds|
  {
    TimeoutInfo(tc.epoch, tc.round, tc.tipRounds[i].highQcRound, tc.tipRounds[i].highTipRound)
  }

  /** The validators whose signatures over that info the `i`-th entry holds. */
  function SignersAt<Sig, Sct>(c: Context<Sig, Sct>, tc: Certificate<Sct>, i: nat): Option<seq<NodeId>>
    requires i < |tc.tipRounds|
  {
    c.scheme.signers(tc.tipRounds[i].sigs, SignedInfo(tc, i))
  }

  /** Each entry holds signatures over an info of this round, of a certificate from before it. */
  predicate EntriesSigned<Sig, Sct>(c: Context<Sig, Sct>, tc: Certificate<Sct>) {
    forall i | 0 <= i < |tc.tipRounds| ::
      && SignedInfo(tc, i).highQcRound < tc.round
      && c.scheme.count(tc.tipRounds[i].sigs) > 0
      && SignersAt(c, tc, i).Some?
  }

  /** No two entries are over one info, and no validator signed twice. */
  predicate SignedApart<Sig, Sct>(c: Context<Sig, Sct>, tc: Certificate<Sct>)
    requires EntriesSigned(c, tc)
  {
    && (forall i | 0 <= i < |tc.tipRounds| :: NoDup(SignersAt(c, tc, i).value))
    && (forall i, j | 0 <= i < j < |tc.tipRounds| ::
          && SignedInfo(tc, i) != SignedInfo(tc, j)
          && forall id <- SignersAt(c, tc, i).value :: id !in SignersAt(c, tc, j).value)
  }

  /** Who signed some entry. */
  function AllSignedBy<Sig, Sct>(c: Context<Sig, Sct>, tc: Certificate<Sct>): set<NodeId>
    requires EntriesSigned(c, tc)
  {
    set i, id | 0 <= i < |tc.tipRounds| && id in SignersAt(c, tc, i).value :: id
  }

  /** No signed info outranks the extend, and it ranks as one of them or as genesis. */
  predicate ExtendOnTop<Sct>(tc: Certificate<Sct>) {
    && AtMost(QcRank(GENESIS_ROUND), RankOf(tc.highExtend))
    && (forall i | 0 <= i < |tc.tipRounds| :: AtMost(InfoRank(SignedInfo(tc, i)), RankOf(tc.highExtend)))
    && (RankOf(tc.highExtend) == QcRank(GENESIS_ROUND)
        || exists i :: 0 <= i < |tc.tipRounds| && HoldsRounds(SignedInfo(tc, i), tc.highExtend))
  }

  lemma {:induction false} AllSignersIff<Sig, Sct>(c: Context<Sig, Sct>, tc: Certificate<Sct>, n: nat, id: NodeId)
    requires n <= |tc.tipRounds| && EntriesSigned(c, tc)
    ensures id in AllSigners(c, tc, tc.tipRounds[..n]) <==> exists i :: 0 <= i < n && id in SignersAt(c, tc, i).value
    decreases n
  {
    if n > 0 {
      assert tc.tipRounds[..n][..n - 1] == tc.tipRounds[..n - 1];
      AllSignersIff(c, tc, n - 1, id);
      assert SignersOf(c, tc, tc.tipRounds[n - 1]) == SignersAt(c, tc, n - 1).value;
    }
  }

  /** The signers of the first `n` entries are all different. */
  predicate ApartUpTo<Sig, Sct>(c: Context<Sig, Sct>, tc: Certificate<Sct>, n: nat)
    requires n <= |tc.tipRounds| && EntriesSigned(c, tc)
  {
    && (forall i | 0 <= i < n :: NoDup(SignersAt(c, tc, i).value))
    && (forall i, j | 0 <= i < j < n :: forall id <- SignersAt(c, tc, i).value :: id !in SignersAt(c, tc, j).value)
  }

  lemma NoDupSplit<T>(a: seq<T>, b: seq<T>)
    requires NoDup(a + b)
    ensures NoDup(a) && NoDup(b) && forall x <- b :: x !in a
  {
    assert forall i | 0 <= i < |a| :: (a + b)[i] == a[i];
    assert forall i | 0 <= i < |b| :: (a + b)[|a| + i] == b[i];
  }

  lemma {:induction false} NoDupIff<Sig, Sct>(c: Context<Sig, Sct>, tc: Certificate<Sct>, n: nat)
    requires n <= |tc.tipRounds| && EntriesSigned(c, tc)
    ensures NoDup(AllSigners(c, tc, tc.tipRounds[..n])) <==> ApartUpTo(c, tc, n)
    decreases n
  {
    if n > 0 {
      var before, more := AllSigners(c, tc, tc.tipRounds[..n - 1]), SignersAt(c, tc, n - 1).value;
      assert tc.tipRounds[..n][..n - 1] == tc.tipRounds[..n - 1];
      assert AllSigners(c, tc, tc.tipRounds[..n]) == before + more;
      NoDupIff(c, tc, n - 1);
      hide AllSigners, NoDup;
      forall id
        ensures id in before <==> exists i :: 0 <= i < n - 1 && id in SignersAt(c, tc, i).value
      {
        AllSignersIff(c, tc, n - 1, id);
      }
      if NoDup(before + more) {
        NoDupSplit(before, more);
      } else if ApartUpTo(c, tc, n) {
        NoDupConcat(before, more);
        assert false;
      }
    } else {
      assert tc.tipRounds[..0] == [];
    }
  }

  lemma OnTopIff<Sct>(tc: Certificate<Sct>)
    ensures RankOf(tc.highExtend) == HighestRank(tc.tipRounds) <==> ExtendOnTop(tc)
  {
    var tips, m := tc.tipRounds, RankOf(tc.highExtend);
    HighestRankIsMax(tips);
    forall i | 0 <= i < |tips|
      ensures Ranked(tips)[i] == InfoRank(SignedInfo(tc, i))
      ensures Ranked(tips)[i] == m <==> HoldsRounds(SignedInfo(tc, i), tc.highExtend)
    {
      RanksAsExtendIff(SignedInfo(tc, i), tc.highExtend);
    }
    hide RankOf, HighestRank, Ranked, AtMost, InfoRank;
    if ExtendOnTop(tc) {
      assert IsMax(m, Ranked(tips));
      MaxUnique(m, HighestRank(tips), Ranked(tips), Ranked(tips));
    }
    if m == HighestRank(tips) && m != QcRank(GENESIS_ROUND) {
      var i :| 0 <= i < |tips| && Ranked(tips)[i] == m;
      assert HoldsRounds(SignedInfo(tc, i), tc.highExtend);
    }
  }

  lemma SignedByIs<Sig, Sct>(c: Context<Sig, Sct>, tc: Certificate<Sct>)
    requires EntriesSigned(c, tc)
    ensures Elements(AllSigners(c, tc, tc.tipRounds)) == AllSignedBy(c, tc)
  {
    assert tc.tipRounds[..|tc.tipRounds|] == tc.tipRounds;
    forall id
      ensures id in Elements(AllSigners(c, tc, tc.tipRounds)) <==> id in AllSignedBy(c, tc)
    {
      AllSignersIff(c, tc, |tc.tipRounds|, id);
    }
  }

  /** A certificate is accepted exactly if it is for a known epoch of its round, has no more entries
      than there are validators, every entry is signed over an info of this round, no two entries are
      over one info and nobody signed twice, the signers make a super majority, and the extend
      verifies and is on top of what was signed. */
  lemma AcceptableIff<Sig, Sct>(c: Context<Sig, Sct>, tc: Certificate<Sct>)
    ensures Acceptable(c, tc) <==>
              && c.epochAt(tc.round) == Some(tc.epoch) && c.setOf(tc.epoch).Some?
              && |tc.tipRounds| <= c.setOf(tc.epoch).value.members
              && EntriesSigned(c, tc) && SignedApart(c, tc)
              && c.setOf(tc.epoch).value.majority(AllSignedBy(c, tc))
              && c.extendOk(tc.highExtend) && ExtendOnTop(tc)
  {
    var tips := tc.tipRounds;
    assert EntriesSigned(c, tc) <==> forall i | 0 <= i < |tips| :: TipOk(c, tc, tips[i]) by {
      assert forall i | 0 <= i < |tips| :: Message(tc, tips[i]) == SignedInfo(tc, i);
    }
    OnTopIff(tc);
    hide ExtendOnTop, HighestRank, RankOf, TipOk;
    if EntriesSigned(c, tc) {
      SignedByIs(c, tc);
      assert tips[..|tips|] == tips;
      NoDupIff(c, tc, |tips|);
      ApartIff(c, tc);
    }
  }

  lemma ApartIff<Sig, Sct>(c: Context<Sig, Sct>, tc: Certificate<Sct>)
    requires EntriesSigned(c, tc)
    ensures SignedApart(c, tc) <==> Unbundled(tc.tipRounds) && ApartUpTo(c, tc, |tc.tipRounds|)
  {
    assert forall i, j | 0 <= i < j < |tc.tipRounds| ::
        SignedInfo(tc, i) != SignedInfo(tc, j) <==> RoundsOf(tc.tipRounds[i]) != RoundsOf(tc.tipRounds[j]);
  }
}
