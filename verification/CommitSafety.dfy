/** What consensus promises about certificates, and what a prune owes to it. */
module CommitSafety {
  import opened Blocks
  import opened Forests
  import opened ForestQueries

  /** The certificate that the certified block carries for its parent. */
  function ParentCert(q: QC): QC
    requires q.id.HeaderHash?
  {
    q.id.header.qc
  }

  /** Two certificates in consecutive rounds: `q` commits the parent of the block it certifies. */
  predicate IsCommit(q: QC) {
    q.id.HeaderHash? && q.round == ParentCert(q).round + 1
  }

  /** The certificate is for `id` or for a descendant of it. */
  predicate Supports(p: QC, id: BlockId) {
    p.id == id || Descends(p.id, id)
  }

  /** Commit safety: among all certificates ever formed, those from the round on in which a
      committed block was certified are for it or for its descendants. */
  ghost predicate Safe(certs: iset<QC>) {
    forall q, p | q in certs && p in certs && IsCommit(q) && p.round >= ParentCert(q).round ::
      Supports(p, ParentCert(q).id)
  }

  /** A committed block that had to be proposed again had no rival in between: from the round of
      its first proposal to that of its certificate nothing else was certified. */
  ghost predicate NoRivals(certs: iset<QC>) {
    forall q, p | q in certs && p in certs && IsCommit(q)
        && RoundOf(ParentCert(q).id) <= p.round < ParentCert(q).round ::
      Supports(p, ParentCert(q).id)
  }

  /** Every block of the tree carries one of the certificates. */
  ghost predicate Carries(f: Forest, certs: iset<QC>) {
    forall x <- f.blocks :: f.blocks[x].header.qc in certs
  }

  /** The program's commit rule is that of the certificates. */
  lemma CommitTargetIs(f: Forest, q: QC)
    requires Keyed(f.blocks)
    ensures CommitTarget(f, q).Some? <==> q.id in f.blocks && IsCommit(q)
    ensures CommitTarget(f, q).Some? ==> CommitTarget(f, q).value == ParentCert(q).id
  {
  }

  // ---------------------------------------------------------------- who survives

  /** The block to prune to, committed by `q`. */
  ghost predicate CommittedBy(f: Forest, certs: iset<QC>, q: QC, id: BlockId) {
    && Inv(f) && Carries(f, certs) && q in certs && IsCommit(q) && ParentCert(q).id == id
    && Prunable(f, id) && id != f.root.id
  }

  /** Under commit safety, what survives a prune without descending from the new root carries a
      certificate from between the new root's first proposal and its certification. */
  lemma SurvivorInGap(f: Forest, certs: iset<QC>, q: QC, id: BlockId, x: BlockId)
    requires CommittedBy(f, certs, q, id) && Safe(certs) && x in Prune(f, id).blocks
    ensures Descends(x, id) || RoundOf(id) <= f.blocks[x].header.qc.round < ParentCert(q).round
  {
    assert f.blocks[x].header.qc in certs;
    assert f.blocks[id].header.round == RoundOf(id);
  }

  /** No such certificate is held for another branch. */
  predicate NoRivalIn(f: Forest, ids: set<BlockId>, id: BlockId, certified: Round)
    requires ids <= f.blocks.Keys
  {
    forall x <- ids | RoundOf(id) <= f.blocks[x].header.qc.round < certified :: Supports(f.blocks[x].header.qc, id)
  }

  /** Under commit safety only descendants of the new root survive iff the tree holds no rival
      certificate from that gap. */
  lemma OnlyDescendantsSurviveIff(f: Forest, certs: iset<QC>, q: QC, id: BlockId)
    requires CommittedBy(f, certs, q, id) && Safe(certs)
    ensures (forall x <- Prune(f, id).blocks :: Descends(x, id)) <==>
            NoRivalIn(f, f.blocks.Keys, id, ParentCert(q).round)
  {
    forall x <- f.blocks
      ensures x in Prune(f, id).blocks && !Descends(x, id) ==>
              RoundOf(id) <= f.blocks[x].header.qc.round < ParentCert(q).round
      ensures RoundOf(id) <= f.blocks[x].header.qc.round <==> x in Prune(f, id).blocks
      ensures Descends(x, id) <==> Supports(f.blocks[x].header.qc, id)
    {
      if x in Prune(f, id).blocks {
        SurvivorInGap(f, certs, q, id, x);
      }
    }
  }

  /** When the new root was certified in the round it was proposed in there is no gap. */
  lemma FreshCommitExact(f: Forest, certs: iset<QC>, q: QC, id: BlockId, x: BlockId)
    requires CommittedBy(f, certs, q, id) && Safe(certs) && ParentCert(q).round == RoundOf(id)
    requires x in f.blocks
    ensures x in Prune(f, id).blocks <==> Descends(x, id)
  {
    if x in Prune(f, id).blocks {
      SurvivorInGap(f, certs, q, id, x);
    } else if Descends(x, id) {
      DescendantSurvives(f, id, x);
    }
  }

  /** Under commit safety the prune leaves every coherent block joined to the root iff no coherent
      block carries a rival certificate from the gap. */
  lemma PruneConnectedIffNoRival(f: Forest, certs: iset<QC>, q: QC, id: BlockId)
    requires CommittedBy(f, certs, q, id) && Safe(certs)
    ensures Inv(Prune(f, id))
    ensures CoherentConnected(Prune(f, id)) <==> NoRivalIn(f, f.coherent, id, ParentCert(q).round)
  {
    PruneConnectedIff(f, id);
    forall x <- f.coherent
      ensures x in Prune(f, id).coherent && !Descends(x, id) ==>
              RoundOf(id) <= f.blocks[x].header.qc.round < ParentCert(q).round
      ensures RoundOf(id) <= f.blocks[x].header.qc.round <==> x in Prune(f, id).coherent
      ensures Descends(x, id) <==> Supports(f.blocks[x].header.qc, id)
    {
      if x in Prune(f, id).coherent {
        SurvivorInGap(f, certs, q, id, x);
      }
    }
  }

  /** With both promises a commit on any certificate leaves every coherent block joined. */
  lemma SafeCommitConnected(f: Forest, certs: iset<QC>, q: QC)
    requires Inv(f) && CoherentConnected(f) && Carries(f, certs) && q in certs && Safe(certs) && NoRivals(certs)
    ensures !CommitPanics(f, q)
    ensures Inv(Commit(f, q)) && CoherentConnected(Commit(f, q)) && Carries(Commit(f, q), certs)
  {
    ConnectedNeverPanics(f, q);
    if PruneTarget(f, q).Some? && PruneTarget(f, q).value != f.root.id {
      CommitTargetIs(f, q);
      PruneConnectedIffNoRival(f, certs, q, PruneTarget(f, q).value);
    }
  }
}
