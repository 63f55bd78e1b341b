/** Driving the block tree as consensus does: a commit on a certificate that was received, and a
    commit along the highest committable one after an update. */
module Committing {
  import opened Blocks
  import opened Forests
  import opened ForestQueries
  import opened ForestRuns
  import opened BlockTrees

  /** Commits on any certificate.  Nothing happens when the certified block is not known, the rounds
      are not consecutive or the committed block is not coherent; the prune fails exactly when that
      block is coherent, not the root and not joined to the root. */
  method TryCommitOn(t: BlockTree, qc: QC) returns (r: PruneOutcome)
    requires t.Valid()
    modifies t, t.tree
    ensures r.Panicked? <==> CommitPanics(old(t.View()), qc)
    ensures r.Done? ==>
              && t.Valid()
              && t.View() == Step(old(t.View()), TryCommit(qc))
              && r.commit == Output(old(t.View()), TryCommit(qc))
  {
    if qc.id !in t.tree.entries {
      return Done([]);
    }
    assert t.View().blocks[qc.id] == t.tree.entries[qc.id].block;
    var target := CommittableId(qc, t.tree.entries[qc.id].block.header);
    if target.None? {
      return Done([]);
    }
    var coherent := t.CheckCoherent(target.value);
    if !coherent {
      return Done([]);
    }
    r := t.PruneTo(target.value);
  }

  /** Commits what the highest committable QC commits, if there is one.  This never fails. */
  method CommitHighest(t: BlockTree) returns (r: PruneOutcome)
    requires t.Valid()
    modifies t, t.tree
    ensures r.Done? && t.Valid()
    ensures if exists qc :: IsHighCommittable(old(t.View()), Some(qc))
            then exists qc :: && IsHighCommittable(old(t.View()), Some(qc))
                              && t.View() == Step(old(t.View()), CommitHigh(qc))
                              && r.commit == Output(old(t.View()), CommitHigh(qc))
            else t.View() == old(t.View()) && r.commit == []
  {
    ghost var f := t.View();
    var high := t.GetHighCommittableQc();
    if high.None? {
      forall qc
        ensures !IsHighCommittable(f, Some(qc))
      {
      }
      return Done([]);
    }
    CommitIsLegal(f, high.value);
    r := TryCommitOn(t, high.value);
    assert IsHighCommittable(f, Some(high.value));
  }
}
