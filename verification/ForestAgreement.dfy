/** Two nodes never commit different blocks, and one commit of the highest committable certificate
    leaves nothing to commit. */
module ForestAgreement {
  import opened Blocks
  import opened Forests
  import opened ForestQueries
  import opened CommitSafety
  import opened ForestRuns

  // ---------------------------------------------------------------- chains

  lemma {:induction false} ChainDescends(from: BlockId, blocks: seq<Block>)
    requires IsChain(from, blocks) && blocks != []
    ensures Descends(ChainEnd(from, blocks), from)
    decreases |blocks|
  {
    var init := blocks[..|blocks|-1];
    if init != [] {
      ChainDescends(from, init);
      DescendsTransitive(ChainEnd(from, blocks), ChainEnd(from, init), from);
    }
  }

  ghost predicate BodiesMatch(blocks: seq<Block>) {
    forall b <- blocks :: BodyMatches(b)
  }

  /** A chain is fixed by its ends. */
  lemma {:induction false} ChainUnique(from: BlockId, p: seq<Block>, q: seq<Block>)
    requires IsChain(from, p) && IsChain(from, q) && BodiesMatch(p) && BodiesMatch(q)
    requires ChainEnd(from, q) == ChainEnd(from, p)
    ensures p == q
    decreases |p|
  {
    if p == [] || q == [] {
      if p != q {
        ChainDescends(from, if p == [] then q else p);
        DescendsDeeper(from, from);
      }
    } else {
      var x, y := p[|p|-1], q[|q|-1];
      assert x in p && y in q && x == y;
      ChainUnique(from, p[..|p|-1], q[..|q|-1]);
      assert p == p[..|p|-1] + [x] && q == q[..|q|-1] + [y];
    }
  }

  /** Chains that start at one block and end at comparable ones are prefixes of each other. */
  lemma {:induction false} ChainPrefix(from: BlockId, p: seq<Block>, q: seq<Block>)
    requires IsChain(from, p) && IsChain(from, q) && BodiesMatch(p) && BodiesMatch(q)
    requires ChainEnd(from, q) == ChainEnd(from, p) || Descends(ChainEnd(from, q), ChainEnd(from, p))
    ensures p <= q
    decreases |q|
  {
    if ChainEnd(from, q) == ChainEnd(from, p) {
      ChainUnique(from, p, q);
    } else {
      if p != [] {
        ChainDescends(from, p);
        DescendsDeeper(ChainEnd(from, p), from);
      }
      DescendsDeeper(ChainEnd(from, q), ChainEnd(from, p));
      assert q != [] && q == q[..|q|-1] + [q[|q|-1]];
      ChainPrefix(from, p, q[..|q|-1]);
    }
  }

  // ---------------------------------------------------------------- agreement

  /** The root is where the run started, or some certificates of the set committed it. */
  ghost predicate CommittedIn(certs: iset<QC>, start: BlockId, id: BlockId) {
    id == start || exists q :: q in certs && IsCommit(q) && ParentCert(q) in certs && ParentCert(q).id == id
  }

  lemma CommitEvidence(f: Forest, certs: iset<QC>, qc: QC, start: BlockId)
    requires Inv(f) && Carries(f, certs) && qc in certs && !CommitPanics(f, qc) && CommittedIn(certs, start, f.root.id)
    ensures Carries(Commit(f, qc), certs) && CommittedIn(certs, start, Commit(f, qc).root.id)
  {
    CommitTargetIs(f, qc);
    if PruneTarget(f, qc).Some? && PruneTarget(f, qc).value != f.root.id {
      assert ParentCert(qc) == f.blocks[qc.id].header.qc;
    }
  }

  lemma {:induction false} RunEvidence(f: Forest, certs: iset<QC>, events: seq<Event>, start: BlockId)
    requires Inv(f) && IsRun(f, events) && UsesOnly(certs, events) && Carries(f, certs)
    requires CommittedIn(certs, start, f.root.id)
    ensures CommittedIn(certs, start, Final(f, events).root.id)
    decreases |events|
  {
    if events != [] {
      var e := events[0];
      assert e in events && forall x <- events[1..] :: x in events;
      StepKeepsInv(f, e);
      StepEvidence(f, certs, e, start);
      hide CommittedIn, Carries, Uses;
      RunEvidence(Step(f, e), certs, events[1..], start);
    }
  }

  lemma StepEvidence(f: Forest, certs: iset<QC>, e: Event, start: BlockId)
    requires Inv(f) && Enabled(f, e) && Uses(certs, e) && Carries(f, certs) && CommittedIn(certs, start, f.root.id)
    ensures Carries(Step(f, e), certs) && CommittedIn(certs, start, Step(f, e).root.id)
  {
    hide CommittedIn;
    match e
    case AddBlock(b) =>
    case TryUpdate(id, policy) =>
    case CommitHigh(qc) => CommitIsLegal(f, qc); CommitEvidence(f, certs, qc, start);
    case TryCommit(qc) => CommitEvidence(f, certs, qc, start);
  }

  lemma OutputBodies(f: Forest, e: Event)
    requires Inv(f) && Enabled(f, e)
    ensures BodiesMatch(Output(f, e))
  {
    if e.CommitHigh? || e.TryCommit? {
      if e.CommitHigh? {
        CommitIsLegal(f, e.qc);
      }
      if PruneTarget(f, e.qc).Some? {
        PathIsChain(f.root.id, f.blocks, PruneTarget(f, e.qc).value);
      }
    }
  }

  /** The blocks committed are full blocks. */
  lemma {:induction false} RunBodies(f: Forest, events: seq<Event>)
    requires Inv(f) && IsRun(f, events)
    ensures BodiesMatch(Log(f, events))
    decreases |events|
  {
    if events != [] {
      StepKeepsInv(f, events[0]);
      OutputBodies(f, events[0]);
      hide Inv, Output;
      RunBodies(Step(f, events[0]), events[1..]);
    }
  }

  /** Under commit safety any two committed blocks are comparable. */
  lemma CommittedComparable(certs: iset<QC>, start: BlockId, a: BlockId, b: BlockId)
    requires Safe(certs) && CommittedIn(certs, start, a) && CommittedIn(certs, start, b)
    requires (a == start || Descends(a, start)) && (b == start || Descends(b, start))
    ensures a == b || Descends(a, b) || Descends(b, a)
  {
  }

  /** Agreement: of any two runs from one root whose certificates come from one safe set, one commits
      a prefix of what the other commits. */
  lemma RunsAgree(root: RootInfo, certs: iset<QC>, xs: seq<Event>, ys: seq<Event>)
    requires RootMatches(root) && Safe(certs)
    requires IsRun(NewForest(root), xs) && IsRun(NewForest(root), ys) && UsesOnly(certs, xs) && UsesOnly(certs, ys)
    ensures Log(NewForest(root), xs) <= Log(NewForest(root), ys) || Log(NewForest(root), ys) <= Log(NewForest(root), xs)
  {
    var f := NewForest(root);
    var p, q := Log(f, xs), Log(f, ys);
    RunCommitsOneChain(f, xs);
    RunCommitsOneChain(f, ys);
    RunEvidence(f, certs, xs, root.id);
    RunEvidence(f, certs, ys, root.id);
    RunBodies(f, xs);
    RunBodies(f, ys);
    hide Safe, CommittedIn, UsesOnly, IsRun, Log, Final;
    var a, b := ChainEnd(root.id, p), ChainEnd(root.id, q);
    if p != [] {
      ChainDescends(root.id, p);
    }
    if q != [] {
      ChainDescends(root.id, q);
    }
    CommittedComparable(certs, root.id, a, b);
    if a == b || Descends(b, a) {
      ChainPrefix(root.id, p, q);
    } else {
      ChainPrefix(root.id, q, p);
    }
  }

  // ---------------------------------------------------------------- exhaustion

  /** What is a candidate after a commit was one before it, and names a block above the new root. */
  lemma CandidateBefore(f: Forest, qc: QC, x: BlockId)
    requires Inv(f) && IsHighCommittable(f, Some(qc)) && !CommitPanics(f, qc)
    requires Inv(Commit(f, qc)) && Candidate(Commit(f, qc), x)
    ensures Candidate(f, x) && x in f.blocks && IsCommit(f.blocks[x].header.qc)
    ensures Descends(ParentCert(f.blocks[x].header.qc).id, ParentCert(qc).id)
  {
    CommitIsLegal(f, qc);
    CommitTargetIs(f, qc);
    var g, id := Commit(f, qc), ParentCert(qc).id;
    var p := g.blocks[x].header.qc;
    CommitTargetIs(g, p);
    var t := ParentCert(p).id;
    RootNotInTree(g);
    RootNotInTree(f);
    assert HasPath(id, g.blocks, x) && HasPath(id, g.blocks, p.id);
    assert HasPath(id, g.blocks, t);
    PathDescends(id, g.blocks, t);
    JoinedBelow(f, id, g.blocks, x);
  }

  lemma {:induction false} JoinedBelow(f: Forest, id: BlockId, bs: BlockMap, x: BlockId)
    requires Keyed(f.blocks) && Keyed(bs) && HasPath(f.root.id, f.blocks, id) && HasPath(id, bs, x)
    requires forall y <- bs :: y in f.blocks && f.blocks[y] == bs[y]
    ensures HasPath(f.root.id, f.blocks, x)
    decreases x
  {
    if x != id && x != f.root.id {
      JoinedBelow(f, id, bs, ParentOf(bs[x]));
    }
  }

  /** Exhaustion: under commit safety, after a commit of the highest committable certificate there is
      nothing left to commit. */
  lemma NothingLeft(f: Forest, certs: iset<QC>, qc: QC)
    requires Inv(f) && Carries(f, certs) && Safe(certs) && IsHighCommittable(f, Some(qc))
    ensures !CommitPanics(f, qc) && Inv(Commit(f, qc)) && IsHighCommittable(Commit(f, qc), None)
  {
    CommitIsLegal(f, qc);
    CommitKeepsInv(f, qc);
    CommitTargetIs(f, qc);
    var id := ParentCert(qc).id;
    assert qc in certs && ParentCert(qc) in certs by {
      assert ParentCert(qc) == f.blocks[qc.id].header.qc;
    }
    forall x <- Commit(f, qc).blocks
      ensures !Candidate(Commit(f, qc), x)
    {
      if Candidate(Commit(f, qc), x) {
        CandidateBefore(f, qc, x);
        NotAbove(certs, qc, f.blocks[x].header.qc);
        assert false;
      }
    }
  }

  lemma NotAbove(certs: iset<QC>, q: QC, p: QC)
    requires Safe(certs) && q in certs && p in certs && IsCommit(q) && ParentCert(q) in certs && IsCommit(p)
    requires p.round <= q.round
    ensures !Descends(ParentCert(p).id, ParentCert(q).id)
  {
    var a, b := ParentCert(p).id, ParentCert(q).id;
    assert Supports(ParentCert(q), a);
    if Descends(a, b) {
      DescendsDeeper(a, b);
      if Descends(b, a) {
        DescendsDeeper(b, a);
      }
    }
  }
}
