/** Timeout certificates with the aggregate signatures of this project: honest timeouts make one,
    and it verifies. */
module TimeoutSignatures {
  import opened AggregationTrees
  import opened Blocks
  import opened Groups
  import opened Sequences
  import opened SignatureCollections
  import opened Timeouts
  import opened TimeoutVerification

  /** For each message, the validators with the signatures expected of them. */
  ghost function AggregateScheme<G(!new)>(vs: TimeoutInfo -> Validators<G>): Scheme<G, Node<G>> {
    Scheme(
      (subs: seq<(NodeId, G)>, info: TimeoutInfo) =>
        if ValidatorsOk(vs(info)) then Built(vs(info), subs) else None,
      (node: Node<G>, info: TimeoutInfo) =>
        if ValidatorsOk(vs(info)) && Accepts(vs(info), node) then Some(SignerIds(vs(info).ids, node.signers)) else None,
      (node: Node<G>) => Ones(node.signers))
  }

  lemma {:induction false} SignerIdsElements(ids: seq<NodeId>, mask: seq<bool>, id: NodeId)
    requires |ids| == |mask|
    ensures id in SignerIds(ids, mask) <==> exists k :: 0 <= k < |ids| && ids[k] == id && mask[k]
    decreases |mask|
  {
    if mask != [] {
      var n := |mask| - 1;
      SignerIdsElements(ids[..n], mask[..n], id);
      assert forall k | 0 <= k < n :: ids[..n][k] == ids[k] && mask[..n][k] == mask[k];
    }
  }

  lemma {:induction false} SignerIdsNoDup(ids: seq<NodeId>, mask: seq<bool>)
    requires |ids| == |mask| && NoDup(ids)
    ensures NoDup(SignerIds(ids, mask))
    decreases |mask|
  {
    if mask != [] {
      var n := |mask| - 1;
      SignerIdsNoDup(ids[..n], mask[..n]);
      SignerIdsElements(ids[..n], mask[..n], ids[n]);
      assert forall k | 0 <= k < n :: ids[..n][k] == ids[k];
      NoDupConcat(SignerIds(ids[..n], mask[..n]), if mask[n] then [ids[n]] else []);
    }
  }

  /** The signers of a collection that was built are its submitters. */
  lemma BuiltSigners<G(!new)>(v: Validators<G>, subs: seq<(NodeId, G)>, id: NodeId)
    requires ValidatorsOk(v) && Built(v, subs).Some?
    ensures id in SignerIds(v.ids, Built(v, subs).value.signers) <==> id in Ids(subs)
  {
    hide Abelian, Accepts;
    var mask := Submitters(v, MapOf(subs));
    SignerIdsElements(v.ids, mask, id);
    IdsElements(subs, id);
    MapOfElements(subs);
    if id in Ids(subs) {
      var j :| 0 <= j < |subs| && subs[j].0 == id;
      assert subs[j].0 in v.ids;
      var k :| 0 <= k < |v.ids| && v.ids[k] == id;
      assert mask[k];
    }
  }

  lemma BuiltSomeone<G(!new)>(v: Validators<G>, subs: seq<(NodeId, G)>)
    requires ValidatorsOk(v) && Built(v, subs).Some? && subs != []
    ensures Ones(Built(v, subs).value.signers) > 0
  {
    hide Abelian, Accepts;
    var mask := Submitters(v, MapOf(subs));
    MapOfElements(subs);
    assert subs[0].0 in MapOf(subs) && subs[0].0 in v.ids;
    var k :| 0 <= k < |v.ids| && v.ids[k] == subs[0].0;
    assert mask[k];
    OnesPositive(mask);
  }

  lemma AggregateSchemeSound<G(!new)>(vs: TimeoutInfo -> Validators<G>)
    ensures Sound(AggregateScheme(vs))
  {
    hide Abelian, Accepts, SignerIds, Ids, Ones;
    var scheme := AggregateScheme(vs);
    forall subs, info | scheme.build(subs, info).Some?
      ensures BuiltRight(scheme, subs, info)
    {
      var v := vs(info);
      var node := Built(v, subs).value;
      SignerIdsNoDup(v.ids, node.signers);
      forall id
        ensures id in SignerIds(v.ids, node.signers) <==> id in Ids(subs)
      {
        BuiltSigners(v, subs, id);
      }
      if subs != [] {
        BuiltSomeone(v, subs);
      }
    }
  }

  // ---------------------------------------------------------------- honest timeouts

  /** The sender is a validator and the signature is the one expected of them. */
  ghost predicate HonestSignature<G(!new)>(v: Validators<G>, id: NodeId, sig: G) {
    |v.ids| == |v.expected| && exists k :: 0 <= k < |v.ids| && v.ids[k] == id && v.expected[k] == sig
  }

  ghost predicate HonestTimeouts<G(!new)>(vs: TimeoutInfo -> Validators<G>, ts: seq<Sent<G>>) {
    forall j | 0 <= j < |ts| :: HonestSignature(vs(ts[j].1.info), ts[j].0, ts[j].1.signature)
  }

  lemma {:induction false} HonestGroup<G(!new)>(v: Validators<G>, ts: seq<Sent<G>>, info: TimeoutInfo)
    requires forall j | 0 <= j < |ts| && ts[j].1.info == info :: HonestSignature(v, ts[j].0, ts[j].1.signature)
    ensures forall i | 0 <= i < |SignedOver(ts, info)| ::
            HonestSignature(v, SignedOver(ts, info)[i].0, SignedOver(ts, info)[i].1)
    decreases |ts|
  {
    if ts != [] {
      hide HonestSignature;
      var init := ts[..|ts|-1];
      assert forall j | 0 <= j < |init| :: init[j] == ts[j];
      HonestGroup(v, init, info);
    }
  }

  /** Right signatures whose sum does not cancel out make a collection. */
  lemma HonestBuilt<G(!new)>(v: Validators<G>, subs: seq<(NodeId, G)>)
    requires ValidatorsOk(v) && |v.ids| <= MAX_SIGNERS && subs != []
    requires forall i | 0 <= i < |subs| :: HonestSignature(v, subs[i].0, subs[i].1)
    ensures Built(v, subs).Some? <==> Aggregate(v, MapOf(subs)).sig != v.group.zero
  {
    hide Abelian, Aggregate, Accepts;
    assert Consistent(subs);
    assert v.ids != [] by {
      assert HonestSignature(v, subs[0].0, subs[0].1);
    }
    var m := MapOf(subs);
    MapOfElements(subs);
    forall k | 0 <= k < |v.ids| && v.ids[k] in m
      ensures m[v.ids[k]] == v.expected[k]
    {
      var j :| 0 <= j < |subs| && subs[j] == (v.ids[k], m[v.ids[k]]);
      assert HonestSignature(v, subs[j].0, subs[j].1);
    }
    HonestAccepted(v, m);
  }

  /** End to end: right timeouts of distinct validators are bundled unless the signatures of some
      group cancel out, and the certificate then verifies exactly when the senders make a super
      majority and no timeout holds a certificate of the round or later. */
  lemma HonestTimeoutsVerify<G(!new)>(vs: TimeoutInfo -> Validators<G>, c: Context<G, Node<G>>, epoch: nat,
                                      round: Round, ts: seq<Sent<G>>)
    requires c.scheme == AggregateScheme(vs) && forall info :: ValidatorsOk(vs(info)) && |vs(info).ids| <= MAX_SIGNERS
    requires WellFormedTimeouts(epoch, round, ts) && HonestTimeouts(vs, ts) && ExtendsVerify(c, ts)
    requires LookUp(c, epoch, round).Some? && |ts| <= LookUp(c, epoch, round).value.members
    ensures (forall info <- Infos(ts) :: c.scheme.build(SignedOver(ts, info), info).Some?) <==>
            (forall info <- Infos(ts) :: Aggregate(vs(info), MapOf(SignedOver(ts, info))).sig != vs(info).group.zero)
    ensures forall tc | IsCertificate(epoch, round, ts, c.scheme, tc) ::
              Acceptable(c, tc) <==>
                && LookUp(c, epoch, round).value.majority(Ids(ts))
                && forall j | 0 <= j < |ts| :: ts[j].1.info.highQcRound < round
  {
    forall info <- Infos(ts)
      ensures c.scheme.build(SignedOver(ts, info), info).Some? <==>
              Aggregate(vs(info), MapOf(SignedOver(ts, info))).sig != vs(info).group.zero
    {
      InfosElements(ts);
      var j :| 0 <= j < |ts| && ts[j].1.info == info;
      GroupSenders(ts, info, ts[j].0);
      assert SignedOver(ts, info) != [];
      HonestGroup(vs(info), ts, info);
      hide Built, HonestSignature, SignedOver, Aggregate;
      HonestBuilt(vs(info), SignedOver(ts, info));
    }
    AggregateSchemeSound(vs);
    hide Sound, AggregateScheme, WellFormedTimeouts, ExtendsVerify, LookUp, Acceptable, HonestTimeouts;
    forall tc | IsCertificate(epoch, round, ts, c.scheme, tc)
      ensures Acceptable(c, tc) <==>
                && LookUp(c, epoch, round).value.majority(Ids(ts))
                && forall j | 0 <= j < |ts| :: ts[j].1.info.highQcRound < round
    {
      BundledVerifies(c, ts, tc);
    }
  }
}
