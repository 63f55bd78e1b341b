/** Whole runs of the block tree: blocks are added in any order, coherency is updated under any
    policy, and commits follow the highest committable QC or any QC received. */
module ForestRuns {
  import opened Blocks
  import opened Forests
  import opened ForestQueries
  import opened CommitSafety

  datatype Event =
    | AddBlock(block: Block)
    | TryUpdate(id: BlockId, policy: Policy)
    | CommitHigh(qc: QC)
    | TryCommit(qc: QC)

  /** Blocks that are added are well formed, a commit of the highest committable QC takes that one,
      and a commit on a received QC does not panic. */
  ghost predicate Enabled(f: Forest, e: Event)
    requires Keyed(f.blocks)
  {
    match e
    case AddBlock(b) => WellFormedBlock(b)
    case TryUpdate(_, _) => true
    case CommitHigh(qc) => IsHighCommittable(f, Some(qc))
    case TryCommit(qc) => !CommitPanics(f, qc)
  }

  ghost function Step(f: Forest, e: Event): Forest
    requires Inv(f) && Enabled(f, e)
  {
    match e
    case AddBlock(b) => Add(f, b)
    case TryUpdate(id, policy) => UpdateCoherency(f, id, policy)
    case CommitHigh(qc) => CommitIsLegal(f, qc); Commit(f, qc)
    case TryCommit(qc) => Commit(f, qc)
  }

  /** The blocks an event commits. */
  ghost function Output(f: Forest, e: Event): seq<Block>
    requires Inv(f) && Enabled(f, e)
  {
    match e
    case CommitHigh(qc) => CommitIsLegal(f, qc); CommitOutput(f, qc)
    case TryCommit(qc) => CommitOutput(f, qc)
    case _ => []
  }

  lemma StepKeepsInv(f: Forest, e: Event)
    requires Inv(f) && Enabled(f, e)
    ensures Inv(Step(f, e))
  {
    match e
    case AddBlock(b) => AddKeepsInv(f, b);
    case TryUpdate(id, policy) => UpdateKeepsInv(f, id, policy);
    case CommitHigh(qc) => CommitIsLegal(f, qc); CommitKeepsInv(f, qc);
    case TryCommit(qc) => CommitKeepsInv(f, qc);
  }

  lemma CommitKeepsInv(f: Forest, qc: QC)
    requires Inv(f) && !CommitPanics(f, qc)
    ensures Inv(Commit(f, qc))
  {
    if PruneTarget(f, qc).Some? {
      PruneKeepsInv(f, PruneTarget(f, qc).value);
    }
  }

  ghost predicate IsRun(f: Forest, events: seq<Event>)
    requires Inv(f)
    decreases |events|
  {
    events != [] ==>
      Enabled(f, events[0]) && (StepKeepsInv(f, events[0]); IsRun(Step(f, events[0]), events[1..]))
  }

  ghost function Final(f: Forest, events: seq<Event>): Forest
    requires Inv(f) && IsRun(f, events)
    decreases |events|
  {
    if events == [] then f
    else StepKeepsInv(f, events[0]); Final(Step(f, events[0]), events[1..])
  }

  /** Everything the run commits, in order. */
  ghost function Log(f: Forest, events: seq<Event>): seq<Block>
    requires Inv(f) && IsRun(f, events)
    decreases |events|
  {
    if events == [] then []
    else StepKeepsInv(f, events[0]); Output(f, events[0]) + Log(Step(f, events[0]), events[1..])
  }

  // ---------------------------------------------------------------- one chain

  function LastRound(from: Round, blocks: seq<Block>): Round {
    if blocks == [] then from else blocks[|blocks|-1].header.round
  }

  ghost predicate RoundsRise(from: Round, blocks: seq<Block>) {
    blocks != [] ==>
      var init := blocks[..|blocks|-1];
      RoundsRise(from, init) && blocks[|blocks|-1].header.round > LastRound(from, init)
  }

  /** The blocks form a chain from the old root to the new one. */
  ghost predicate Extends(from: RootInfo, blocks: seq<Block>, to: RootInfo) {
    && IsChain(from.id, blocks)
    && RoundsRise(from.round, blocks)
    && to == if blocks == [] then from else InfoOf(blocks[|blocks|-1])
  }

  lemma {:induction false} ExtendsJoin(a: RootInfo, p: seq<Block>, b: RootInfo, q: seq<Block>, c: RootInfo)
    requires Extends(a, p, b) && Extends(b, q, c)
    ensures Extends(a, p + q, c)
    decreases |q|
  {
    if q == [] {
      assert p + q == p;
    } else {
      var init, last := q[..|q|-1], q[|q|-1];
      ExtendsJoin(a, p, b, init, if init == [] then b else InfoOf(init[|init|-1]));
      assert (p + q)[..|p + q|-1] == p + init;
    }
  }

  lemma {:induction false} PathExtends(f: Forest, id: BlockId)
    requires BlocksOk(f) && HasPath(f.root.id, f.blocks, id)
    ensures Extends(f.root, PathTo(f.root.id, f.blocks, id).value,
                    if id == f.root.id then f.root else InfoOf(f.blocks[id]))
    decreases id
  {
    if id != f.root.id {
      var p := ParentOf(f.blocks[id]);
      PathExtends(f, p);
      var up := PathTo(f.root.id, f.blocks, p).value;
      assert (up + [f.blocks[id]])[..|up|] == up;
      PathIsChain(f.root.id, f.blocks, p);
    }
  }

  lemma CommitExtends(f: Forest, qc: QC)
    requires Inv(f) && !CommitPanics(f, qc)
    ensures Extends(f.root, CommitOutput(f, qc), Commit(f, qc).root)
  {
    if PruneTarget(f, qc).Some? {
      PathExtends(f, PruneTarget(f, qc).value);
    }
  }

  lemma StepExtends(f: Forest, e: Event)
    requires Inv(f) && Enabled(f, e)
    ensures Extends(f.root, Output(f, e), Step(f, e).root)
  {
    if e.CommitHigh? {
      CommitIsLegal(f, e.qc);
      CommitExtends(f, e.qc);
    } else if e.TryCommit? {
      CommitExtends(f, e.qc);
    }
  }

  /** Whatever the run, the invariant holds at its end and its commits form one chain from the
      initial root to the final one, with rising rounds. */
  lemma {:induction false} RunCommitsOneChain(f: Forest, events: seq<Event>)
    requires Inv(f) && IsRun(f, events)
    ensures Inv(Final(f, events))
    ensures Extends(f.root, Log(f, events), Final(f, events).root)
    decreases |events|
  {
    if events != [] {
      var g := Step(f, events[0]);
      StepKeepsInv(f, events[0]);
      StepExtends(f, events[0]);
      RunCommitsOneChain(g, events[1..]);
      ExtendsJoin(f.root, Output(f, events[0]), g.root, Log(g, events[1..]), Final(f, events).root);
    }
  }

  /** In every reachable tree, a coherent block joined to the root is joined by coherent blocks. */
  lemma RunCoherentPaths(f: Forest, events: seq<Event>, id: BlockId)
    requires Inv(f) && IsRun(f, events)
    requires Inv(Final(f, events)) ==> var g := Final(f, events);
               id in g.coherent && HasPath(g.root.id, g.blocks, id)
    ensures var g := Final(f, events);
            Inv(g) && AllCoherent(g, PathTo(g.root.id, g.blocks, id).value)
  {
    RunCommitsOneChain(f, events);
    var g := Final(f, events);
    RootNotInTree(g);
    PathDescends(g.root.id, g.blocks, id);
    CoherentPath(g, id);
  }

  // ---------------------------------------------------------------- commit safety

  /** Blocks that are added carry, and commits use, certificates of the given set. */
  ghost predicate UsesOnly(certs: iset<QC>, events: seq<Event>) {
    forall e <- events :: Uses(certs, e)
  }

  ghost predicate Uses(certs: iset<QC>, e: Event) {
    match e
    case AddBlock(b) => b.header.qc in certs
    case TryCommit(qc) => qc in certs
    case _ => true
  }

  lemma SafeStepConnected(f: Forest, certs: iset<QC>, e: Event)
    requires Inv(f) && Enabled(f, e) && Uses(certs, e)
    requires CoherentConnected(f) && Carries(f, certs) && Safe(certs) && NoRivals(certs)
    ensures Inv(Step(f, e)) && CoherentConnected(Step(f, e)) && Carries(Step(f, e), certs)
  {
    StepKeepsInv(f, e);
    match e
    case AddBlock(b) => AddKeepsConnected(f, b);
    case TryUpdate(id, policy) => UpdateKeepsConnected(f, id, policy);
    case CommitHigh(qc) => CommitIsLegal(f, qc); SafeCommitConnected(f, certs, qc);
    case TryCommit(qc) => SafeCommitConnected(f, certs, qc);
  }

  /** If consensus keeps its promises about all certificates, then in every reachable tree every
      coherent block is joined to the root, and no commit on any certificate can panic. */
  lemma {:induction false} SafeRunConnected(f: Forest, certs: iset<QC>, events: seq<Event>)
    requires Inv(f) && IsRun(f, events) && UsesOnly(certs, events)
    requires CoherentConnected(f) && Carries(f, certs) && Safe(certs) && NoRivals(certs)
    ensures Inv(Final(f, events)) && CoherentConnected(Final(f, events)) && Carries(Final(f, events), certs)
    ensures forall qc :: !CommitPanics(Final(f, events), qc)
    decreases |events|
  {
    if events == [] {
      forall qc {
        ConnectedNeverPanics(f, qc);
      }
    } else {
      assert Uses(certs, events[0]);
      assert forall e <- events[1..] :: e in events;
      SafeStepConnected(f, certs, events[0]);
      SafeRunConnected(Step(f, events[0]), certs, events[1..]);
    }
  }

  // ---------------------------------------------------------------- sequence numbers

  datatype PolicyVerdict = Ok | BlockNotCoherent | TimestampError | ExecutionResultMismatch

  /** The pass-through policy.  Above the root it compares timestamps with zero. */
  function PassthruCheck(b: Block, extending: seq<Block>, root: RootInfo): PolicyVerdict {
    var (seqNum, timestamp) :=
      if extending != [] then
        var last := extending[|extending|-1].header; (last.seqNum, last.timestamp)
      else (root.seqNum, 0);
    if b.header.seqNum != seqNum + 1 then BlockNotCoherent
    else if b.header.timestamp <= timestamp then TimestampError
    else if b.header.results != [] then ExecutionResultMismatch
    else Ok
  }

  predicate Passthru(b: Block, extending: seq<Block>, root: RootInfo) {
    PassthruCheck(b, extending, root).Ok?
  }

  /** A policy that accepts a block only as the successor in number of what it extends. */
  ghost predicate CountsBlocks(policy: Policy) {
    forall b: Block, extending: seq<Block>, root: RootInfo | policy(b, extending, root) ::
      b.header.seqNum == 1 + if extending == [] then root.seqNum else extending[|extending|-1].header.seqNum
  }

  /** A policy that accepts a block only with a later timestamp than what it extends. */
  ghost predicate ChecksTime(policy: Policy) {
    forall b: Block, extending: seq<Block>, root: RootInfo | policy(b, extending, root) ::
      b.header.timestamp > if extending == [] then 0 else extending[|extending|-1].header.timestamp
  }

  /** A policy that accepts only blocks without execution results. */
  ghost predicate WantsNoResults(policy: Policy) {
    forall b: Block, extending: seq<Block>, root: RootInfo | policy(b, extending, root) :: b.header.results == []
  }

  ghost predicate PassthruDemands(policy: Policy) {
    CountsBlocks(policy) && ChecksTime(policy) && WantsNoResults(policy)
  }

  /** The pass-through policy is the weakest that counts blocks, checks their time and wants no
      results: it does so, and accepts whatever any policy that does so accepts. */
  lemma PassthruWeakest(policy: Policy, b: Block, extending: seq<Block>, root: RootInfo)
    ensures PassthruDemands(Passthru)
    ensures PassthruDemands(policy) && policy(b, extending, root) ==> Passthru(b, extending, root)
  {
  }

  function SeqNumIn(f: Forest, id: BlockId): SeqNum {
    if id in f.blocks then f.blocks[id].header.seqNum else f.root.seqNum
  }

  /** Coherent blocks above the root are numbered one after their parent. */
  ghost predicate Numbered(f: Forest)
    requires Inv(f)
  {
    forall id <- f.coherent | Descends(id, f.root.id) ::
      f.blocks[id].header.seqNum == SeqNumIn(f, ParentOf(f.blocks[id])) + 1
  }

  lemma UpdateKeepsNumbered(f: Forest, id: BlockId, policy: Policy)
    requires Inv(f) && Numbered(f) && CountsBlocks(policy)
    ensures Inv(UpdateCoherency(f, id, policy)) && Numbered(UpdateCoherency(f, id, policy))
  {
    UpdateKeepsInv(f, id, policy);
    RootNotInTree(f);
    forall x | x in f.blocks && Accepts(f.root, f.blocks, policy, x)
      ensures f.blocks[x].header.seqNum == SeqNumIn(f, ParentOf(f.blocks[x])) + 1
    {
      var p := ParentOf(f.blocks[x]);
      var extending := PathTo(f.root.id, f.blocks, p).value;
      assert policy(f.blocks[x], extending, f.root);
      PathIsChain(f.root.id, f.blocks, p);
      if p != f.root.id {
        assert extending[|extending|-1] == f.blocks[p];
      }
    }
  }

  lemma {:induction false} PruneKeepsNumbered(f: Forest, id: BlockId)
    requires Inv(f) && Numbered(f) && Prunable(f, id)
    ensures Inv(Prune(f, id)) && Numbered(Prune(f, id))
  {
    PruneKeepsInv(f, id);
    if id != f.root.id {
      var g := Prune(f, id);
      PathDescends(f.root.id, f.blocks, id);
      RootNotInTree(g);
      forall x <- g.coherent | Descends(x, id)
        ensures g.blocks[x].header.seqNum == SeqNumIn(g, ParentOf(g.blocks[x])) + 1
      {
        DescendsTransitive(x, id, f.root.id);
      }
    }
  }

  ghost predicate NumbersRise(from: SeqNum, blocks: seq<Block>) {
    forall i :: 0 <= i < |blocks| ==> blocks[i].header.seqNum == from + 1 + i
  }

  lemma {:induction false} PathNumbered(f: Forest, id: BlockId)
    requires Inv(f) && Numbered(f) && Prunable(f, id)
    ensures NumbersRise(f.root.seqNum, Committed(f, id))
    ensures SeqNumIn(f, id) == f.root.seqNum + |Committed(f, id)|
    decreases id
  {
    RootNotInTree(f);
    if id != f.root.id {
      PathDescends(f.root.id, f.blocks, id);
      PathNumbered(f, ParentOf(f.blocks[id]));
    }
  }

  lemma CommitNumbered(f: Forest, qc: QC)
    requires Inv(f) && Numbered(f) && !CommitPanics(f, qc)
    ensures Inv(Commit(f, qc)) && Numbered(Commit(f, qc))
    ensures NumbersRise(f.root.seqNum, CommitOutput(f, qc))
    ensures Commit(f, qc).root.seqNum == f.root.seqNum + |CommitOutput(f, qc)|
  {
    RootNotInTree(f);
    if PruneTarget(f, qc).Some? {
      PruneKeepsNumbered(f, PruneTarget(f, qc).value);
      PathNumbered(f, PruneTarget(f, qc).value);
    }
  }

  ghost predicate CountingRun(events: seq<Event>) {
    forall e <- events | e.TryUpdate? :: CountsBlocks(e.policy)
  }

  /** Under counting policies the committed sequence numbers go up by exactly one, across prune
      boundaries too. */
  lemma {:induction false} RunCommitsNumbered(f: Forest, events: seq<Event>)
    requires Inv(f) && Numbered(f) && IsRun(f, events) && CountingRun(events)
    ensures NumbersRise(f.root.seqNum, Log(f, events))
    decreases |events|
  {
    if events != [] {
      var e, g := events[0], Step(f, events[0]);
      StepKeepsInv(f, e);
      match e {
        case AddBlock(b) =>
        case TryUpdate(id, policy) => UpdateKeepsNumbered(f, id, policy);
        case CommitHigh(qc) => CommitIsLegal(f, qc); CommitNumbered(f, qc);
        case TryCommit(qc) => CommitNumbered(f, qc);
      }
      RunCommitsNumbered(g, events[1..]);
      assert Log(f, events) == Output(f, e) + Log(g, events[1..]);
    }
  }

  // ---------------------------------------------------------------- from the start

  function NewForest(root: RootInfo): Forest {
    Forest(root, map[], {})
  }

  /** From a new tree on, whatever the run: the log is one chain above the root, and its sequence
      numbers are consecutive under counting policies.  With the promises about certificates every
      coherent block is joined to the root and no commit can panic. */
  lemma RunFromNew(root: RootInfo, events: seq<Event>, certs: iset<QC>)
    requires RootMatches(root) && IsRun(NewForest(root), events)
    ensures Inv(Final(NewForest(root), events))
    ensures Extends(root, Log(NewForest(root), events), Final(NewForest(root), events).root)
    ensures CountingRun(events) ==> NumbersRise(root.seqNum, Log(NewForest(root), events))
    ensures UsesOnly(certs, events) && Safe(certs) && NoRivals(certs) ==>
              && CoherentConnected(Final(NewForest(root), events))
              && forall qc :: !CommitPanics(Final(NewForest(root), events), qc)
  {
    var f := NewForest(root);
    RunCommitsOneChain(f, events);
    if CountingRun(events) {
      RunCommitsNumbered(f, events);
    }
    if UsesOnly(certs, events) && Safe(certs) && NoRivals(certs) {
      SafeRunConnected(f, certs, events);
    }
  }
}
