/** Timestamps of committed blocks, within one commit and from one commit to the next. */
module ForestTimes {
  import opened Blocks
  import opened Forests
  import opened ForestQueries
  import opened ForestRuns

  // ---------------------------------------------------------------- within one commit

  /** A coherent block above the root is later than its parent, unless that is the root. */
  ghost predicate Timed(f: Forest)
    requires Inv(f)
  {
    forall id <- f.coherent | Descends(id, f.root.id) && ParentOf(f.blocks[id]) in f.blocks ::
      f.blocks[id].header.timestamp > f.blocks[ParentOf(f.blocks[id])].header.timestamp
  }

  lemma UpdateKeepsTimed(f: Forest, id: BlockId, policy: Policy)
    requires Inv(f) && Timed(f) && ChecksTime(policy)
    ensures Inv(UpdateCoherency(f, id, policy)) && Timed(UpdateCoherency(f, id, policy))
  {
    UpdateKeepsInv(f, id, policy);
    RootNotInTree(f);
    forall x | x in f.blocks && Accepts(f.root, f.blocks, policy, x) && ParentOf(f.blocks[x]) in f.blocks
      ensures f.blocks[x].header.timestamp > f.blocks[ParentOf(f.blocks[x])].header.timestamp
    {
      AcceptedLater(f, policy, x);
    }
  }

  lemma {:induction false} CommitKeepsTimed(f: Forest, qc: QC)
    requires Inv(f) && Timed(f) && !CommitPanics(f, qc)
    ensures Inv(Commit(f, qc)) && Timed(Commit(f, qc))
  {
    CommitKeepsInv(f, qc);
    var target := PruneTarget(f, qc);
    if target.Some? && target.value != f.root.id {
      var id, g := target.value, Commit(f, qc);
      PathDescends(f.root.id, f.blocks, id);
      forall x <- g.coherent | Descends(x, id) && ParentOf(g.blocks[x]) in g.blocks
        ensures g.blocks[x].header.timestamp > g.blocks[ParentOf(g.blocks[x])].header.timestamp
      {
        DescendsTransitive(x, id, f.root.id);
      }
    }
  }

  ghost predicate TimesRise(blocks: seq<Block>) {
    forall i :: 0 < i < |blocks| ==> blocks[i - 1].header.timestamp < blocks[i].header.timestamp
  }

  lemma {:induction false} PathTimed(f: Forest, id: BlockId)
    requires Inv(f) && Timed(f) && Prunable(f, id)
    ensures TimesRise(Committed(f, id))
    decreases id
  {
    RootNotInTree(f);
    if id != f.root.id {
      var p := ParentOf(f.blocks[id]);
      PathDescends(f.root.id, f.blocks, id);
      PathTimed(f, p);
      if p != f.root.id {
        var up := Committed(f, p);
        assert up[|up|-1] == f.blocks[p];
      }
    }
  }

  ghost predicate TimedRun(events: seq<Event>) {
    forall e <- events | e.TryUpdate? :: ChecksTime(e.policy)
  }

  /** In every reachable tree whatever a certificate commits next has rising timestamps. */
  lemma {:induction false} RunCommitsTimed(f: Forest, events: seq<Event>, qc: QC)
    requires Inv(f) && Timed(f) && IsRun(f, events) && TimedRun(events)
    ensures var g := Final(f, events);
            Inv(g) && (!CommitPanics(g, qc) ==> TimesRise(CommitOutput(g, qc)))
    decreases |events|
  {
    if events == [] {
      if PruneTarget(f, qc).Some? && !CommitPanics(f, qc) {
        PathTimed(f, PruneTarget(f, qc).value);
      }
    } else {
      StepKeepsInv(f, events[0]);
      match events[0] {
        case AddBlock(b) => AddKeepsTimed(f, b);
        case TryUpdate(id, policy) => UpdateKeepsTimed(f, id, policy);
        case CommitHigh(q) => CommitIsLegal(f, q); CommitKeepsTimed(f, q);
        case TryCommit(q) => CommitKeepsTimed(f, q);
      }
      RunCommitsTimed(Step(f, events[0]), events[1..], qc);
    }
  }

  lemma AddKeepsTimed(f: Forest, b: Block)
    requires Inv(f) && Timed(f) && WellFormedBlock(b)
    ensures Inv(Add(f, b)) && Timed(Add(f, b))
  {
    AddKeepsInv(f, b);
    forall x <- f.coherent | Descends(x, f.root.id)
      ensures IsCoherent(f, ParentOf(f.blocks[x]))
    {
    }
  }

  // ---------------------------------------------------------------- across commits

  /** The time of a block, or of the root that a run starts with. */
  function TimeOf(start: RootInfo, id: BlockId): nat {
    if id == start.id then start.timestamp else if id.HeaderHash? then id.header.timestamp else 0
  }

  predicate NotLater(start: RootInfo, id: BlockId) {
    id.HeaderHash? && id.header.timestamp <= TimeOf(start, id.header.qc.id)
  }

  predicate RootAgrees(start: RootInfo, f: Forest) {
    f.root.timestamp == TimeOf(start, f.root.id)
  }

  /** The blocks that an update accepts right above the root although they are not later than it:
      with nothing to extend the policy compares with zero. */
  function Stale(f: Forest, id: BlockId, policy: Policy): set<BlockId>
    requires Keyed(f.blocks)
  {
    set x <- UpdateCoherency(f, id, policy).coherent |
      && x !in f.coherent && x in f.blocks
      && ParentOf(f.blocks[x]) == f.root.id && f.blocks[x].header.timestamp <= f.root.timestamp
  }

  function StaleAt(f: Forest, e: Event): set<BlockId>
    requires Keyed(f.blocks)
  {
    if e.TryUpdate? then Stale(f, e.id, e.policy) else {}
  }

  /** All such blocks of a run. */
  ghost function StaleIn(f: Forest, events: seq<Event>): set<BlockId>
    requires Inv(f) && IsRun(f, events)
    decreases |events|
  {
    if events == [] then {}
    else StepKeepsInv(f, events[0]); StaleAt(f, events[0]) + StaleIn(Step(f, events[0]), events[1..])
  }

  /** Every coherent block above the root, but for the given ones, is later than its parent. */
  ghost predicate LaterExcept(start: RootInfo, f: Forest, except: set<BlockId>) {
    forall id <- f.coherent | Descends(id, f.root.id) && NotLater(start, id) :: id in except
  }

  /** What a policy that checks time accepts is later than its parent, unless it is stale. */
  lemma NewlyLater(start: RootInfo, f: Forest, id: BlockId, policy: Policy, x: BlockId)
    requires Inv(f) && RootMatches(start) && RootAgrees(start, f) && ChecksTime(policy)
    requires x in UpdateCoherency(f, id, policy).coherent && x !in f.coherent
    ensures NotLater(start, x) <==> x in Stale(f, id, policy)
  {
    RootNotInTree(f);
    var p := ParentOf(f.blocks[x]);
    AcceptedLater(f, policy, x);
    hide Accepts, ChecksTime, Marks, Inv;
    assert p in f.blocks ==> TimeOf(start, p) == f.blocks[p].header.timestamp;
  }

  lemma AcceptedLater(f: Forest, policy: Policy, x: BlockId)
    requires Inv(f) && ChecksTime(policy) && Accepts(f.root, f.blocks, policy, x)
    ensures var p := ParentOf(f.blocks[x]);
            p == f.root.id || (p in f.blocks && f.blocks[x].header.timestamp > f.blocks[p].header.timestamp)
  {
    var p := ParentOf(f.blocks[x]);
    var extending := PathTo(f.root.id, f.blocks, p).value;
    assert policy(f.blocks[x], extending, f.root);
    if p != f.root.id {
      assert extending[|extending|-1] == f.blocks[p];
    }
  }

  /** A single update: if every coherent block was later than its parent, that stays so exactly when
      no block newly accepted right above the root is older than it. */
  lemma UpdateLaterIff(f: Forest, id: BlockId, policy: Policy)
    requires Inv(f) && ChecksTime(policy) && LaterExcept(f.root, f, {})
    ensures LaterExcept(f.root, UpdateCoherency(f, id, policy), {}) <==> Stale(f, id, policy) == {}
  {
    var g := UpdateCoherency(f, id, policy);
    forall x <- g.coherent | x !in f.coherent
      ensures NotLater(f.root, x) <==> x in Stale(f, id, policy)
      ensures Descends(x, f.root.id)
    {
      NewlyLater(f.root, f, id, policy, x);
      MarksHasPath(f, policy, UpdateStart(f, id).value, x);
    }
  }

  lemma CommitLater(start: RootInfo, f: Forest, qc: QC, except: set<BlockId>)
    requires Inv(f) && RootMatches(start) && RootAgrees(start, f) && LaterExcept(start, f, except)
    requires !CommitPanics(f, qc)
    ensures RootAgrees(start, Commit(f, qc)) && LaterExcept(start, Commit(f, qc), except)
    ensures forall b <- CommitOutput(f, qc) | NotLater(start, BlockIdOf(b)) :: BlockIdOf(b) in except
  {
    var target := PruneTarget(f, qc);
    if target.Some? && target.value != f.root.id {
      var id := target.value;
      PathDescends(f.root.id, f.blocks, id);
      forall x | Descends(x, id)
        ensures Descends(x, f.root.id)
      {
        DescendsTransitive(x, id, f.root.id);
      }
      PathLater(start, f, id, except);
    }
  }

  lemma {:induction false} PathLater(start: RootInfo, f: Forest, id: BlockId, except: set<BlockId>)
    requires Inv(f) && LaterExcept(start, f, except) && Prunable(f, id)
    ensures forall b <- Committed(f, id) | NotLater(start, BlockIdOf(b)) :: BlockIdOf(b) in except
    decreases id
  {
    RootNotInTree(f);
    if id != f.root.id {
      PathDescends(f.root.id, f.blocks, id);
      PathLater(start, f, ParentOf(f.blocks[id]), except);
    }
  }

  lemma StepLater(start: RootInfo, f: Forest, e: Event, except: set<BlockId>)
    requires Inv(f) && Enabled(f, e) && (e.TryUpdate? ==> ChecksTime(e.policy))
    requires RootMatches(start) && RootAgrees(start, f) && LaterExcept(start, f, except)
    ensures RootAgrees(start, Step(f, e)) && LaterExcept(start, Step(f, e), except + StaleAt(f, e))
    ensures forall b <- Output(f, e) | NotLater(start, BlockIdOf(b)) :: BlockIdOf(b) in except
    ensures forall x <- StaleAt(f, e) :: NotLater(start, x)
  {
    hide NotLater;
    match e
    case AddBlock(b) =>
    case TryUpdate(id, policy) =>
      forall x <- UpdateCoherency(f, id, policy).coherent | x !in f.coherent
        ensures NotLater(start, x) <==> x in Stale(f, id, policy)
      {
        NewlyLater(start, f, id, policy, x);
      }
    case CommitHigh(qc) => CommitIsLegal(f, qc); CommitLater(start, f, qc, except);
    case TryCommit(qc) => CommitLater(start, f, qc, except);
  }

  /** A committed block is not later than its parent exactly when the run accepted it stale. */
  lemma {:induction false} RunStale(start: RootInfo, f: Forest, events: seq<Event>, except: set<BlockId>)
    requires Inv(f) && IsRun(f, events) && TimedRun(events)
    requires RootMatches(start) && RootAgrees(start, f) && LaterExcept(start, f, except)
    ensures forall b <- Log(f, events) | NotLater(start, BlockIdOf(b)) :: BlockIdOf(b) in except + StaleIn(f, events)
    ensures forall x <- StaleIn(f, events) :: NotLater(start, x)
    decreases |events|
  {
    if events != [] {
      hide NotLater, LaterExcept;
      assert events[0] in events && forall e <- events[1..] :: e in events;
      StepKeepsInv(f, events[0]);
      StepLater(start, f, events[0], except);
      RunStale(start, Step(f, events[0]), events[1..], except + StaleAt(f, events[0]));
    }
  }

  /** The timestamps rise from `from` on. */
  ghost predicate RiseFrom(from: nat, blocks: seq<Block>) {
    forall i | 0 <= i < |blocks| :: blocks[i].header.timestamp > Before(from, blocks, i)
  }

  lemma {:induction false} ChainAt(from: BlockId, blocks: seq<Block>, i: nat)
    requires IsChain(from, blocks) && i < |blocks|
    ensures ParentOf(blocks[i]) == if i == 0 then from else BlockIdOf(blocks[i - 1])
    decreases |blocks|
  {
    if i < |blocks| - 1 {
      ChainAt(from, blocks[..|blocks|-1], i);
    }
  }

  /** The time of what comes before the block at `i`. */
  function Before(from: nat, blocks: seq<Block>, i: nat): nat
    requires i < |blocks|
  {
    if i == 0 then from else blocks[i - 1].header.timestamp
  }

  lemma NotLaterAt(start: RootInfo, blocks: seq<Block>, i: nat)
    requires RootMatches(start) && IsChain(start.id, blocks) && i < |blocks|
    ensures NotLater(start, BlockIdOf(blocks[i])) <==> blocks[i].header.timestamp <= Before(start.timestamp, blocks, i)
  {
    ChainAt(start.id, blocks, i);
  }

  lemma ChainRises(start: RootInfo, blocks: seq<Block>)
    requires RootMatches(start) && IsChain(start.id, blocks)
    ensures RiseFrom(start.timestamp, blocks) <==> forall b <- blocks :: !NotLater(start, BlockIdOf(b))
  {
    hide NotLater, IsChain;
    if RiseFrom(start.timestamp, blocks) {
      forall b <- blocks
        ensures !NotLater(start, BlockIdOf(b))
      {
        var i: nat :| i < |blocks| && blocks[i] == b;
        NotLaterAt(start, blocks, i);
      }
    } else {
      var i: nat :| i < |blocks| && blocks[i].header.timestamp <= Before(start.timestamp, blocks, i);
      NotLaterAt(start, blocks, i);
      assert blocks[i] in blocks;
    }
  }

  /** Over every run, the timestamps of the root and of all blocks committed rise, across all commits,
      exactly when no committed block was accepted right above a root that it is not later than. */
  lemma RunTimesRiseIff(f: Forest, events: seq<Event>)
    requires Inv(f) && IsRun(f, events) && TimedRun(events) && LaterExcept(f.root, f, {})
    ensures RiseFrom(f.root.timestamp, Log(f, events)) <==>
            forall b <- Log(f, events) :: BlockIdOf(b) !in StaleIn(f, events)
  {
    RunStale(f.root, f, events, {});
    RunCommitsOneChain(f, events);
    ChainRises(f.root, Log(f, events));
  }
}
