/** Runs from a new tree, under the pass-through policy, in which a later commit is older. */
module ForestTimeExamples {
  import opened Blocks
  import opened Forests
  import opened ForestQueries
  import opened ForestRuns
  import opened ForestTimes
  import opened ForestExamples
  import opened ForestAgreement

  function TimedBlock(round: Round, qc: QC, number: nat, time: nat): Block {
    var body := Body([]);
    Block(Header(round, 1, qc, number, time, [], BodyIdOf(body), 0), body)
  }

  function CertOf(b: Block): QC { QC(BlockIdOf(b), b.header.round) }

  /** Three blocks in a row, proposed and certified in rounds 1, 2 and 3; the second may be older
      than the first. */
  datatype Times = Times(first: nat, second: nat)

  function First(t: Times): Block { TimedBlock(1, GENESIS_CERT, 1, t.first) }

  function Second(t: Times): Block { TimedBlock(2, CertOf(First(t)), 2, t.second) }

  function Third(t: Times): Block { TimedBlock(3, CertOf(Second(t)), 3, t.first + t.second) }

  lemma RowWellFormed(t: Times)
    ensures WellFormedBlock(First(t)) && WellFormedBlock(Second(t)) && WellFormedBlock(Third(t))
  {
    assert WellFormed(BlockIdOf(First(t)));
    assert WellFormed(BlockIdOf(Second(t)));
  }

  // ---------------------------------------------------------------- the run

  /** The first block is coherent; the second is present and refused, not being later. */
  function Refused(t: Times): Forest {
    var a, b := First(t), Second(t);
    Forest(GENESIS, map[BlockIdOf(a) := a, BlockIdOf(b) := b], {BlockIdOf(a)})
  }

  /** The first block is committed; the second is accepted after that. */
  function AfterFirst(t: Times, accepted: bool): Forest {
    var b := Second(t);
    Forest(InfoOf(First(t)), map[BlockIdOf(b) := b], if accepted then {BlockIdOf(b)} else {})
  }

  function WithThird(t: Times): Forest {
    Add(AfterFirst(t, true), Third(t))
  }

  /** A run extended by one event. */
  lemma RunThen(f: Forest, events: seq<Event>, g: Forest, e: Event, h: Forest)
    requires Inv(f) && IsRun(f, events) && Final(f, events) == g
    requires Inv(g) && Enabled(g, e) && Step(g, e) == h
    ensures IsRun(f, events + [e]) && Final(f, events + [e]) == h && Inv(h)
  {
    StepKeepsInv(g, e);
    RunOne(g, e);
    hide Inv, Enabled, Step;
    RunJoin(f, events, [e]);
  }

  lemma FirstGrows(t: Times)
    requires t.first > 0
    ensures AllJoined(NewForest(GENESIS)) && Growable(NewForest(GENESIS), First(t))
  {
    NewJoined();
    RowWellFormed(t);
  }

  lemma SecondAdded(t: Times)
    requires Inv(Grown(NewForest(GENESIS), First(t)))
    ensures Step(Grown(NewForest(GENESIS), First(t)), AddBlock(Second(t))) == Refused(t)
  {
  }

  /** Above the first block the second one is refused. */
  lemma SecondRefused(t: Times)
    requires Inv(Refused(t)) && t.second <= t.first
    ensures Step(Refused(t), TryUpdate(BlockIdOf(Second(t)), Passthru)) == Refused(t)
  {
    var f, id, p := Refused(t), BlockIdOf(Second(t)), BlockIdOf(First(t));
    assert PathTo(f.root.id, f.blocks, f.root.id) == Some([]);
    assert PathTo(f.root.id, f.blocks, p) == Some([] + [First(t)]);
    assert IsLeaf(f, id);
    LeafUpdate(f, id, Passthru);
  }

  lemma FirstCommitted(t: Times)
    requires Inv(Refused(t))
    ensures !CommitPanics(Refused(t), CertOf(Second(t)))
    ensures Commit(Refused(t), CertOf(Second(t))) == AfterFirst(t, false)
  {
    var f, p := Refused(t), BlockIdOf(First(t));
    assert PathTo(f.root.id, f.blocks, f.root.id) == Some([]);
    assert HasPath(f.root.id, f.blocks, p);
    assert PruneTarget(f, CertOf(Second(t))) == Some(p);
    assert Survivors(f.blocks, 1) == AfterFirst(t, false).blocks;
  }

  /** Right above the root it is accepted. */
  lemma SecondAccepted(t: Times)
    requires Inv(AfterFirst(t, false)) && t.second > 0
    ensures Step(AfterFirst(t, false), TryUpdate(BlockIdOf(Second(t)), Passthru)) == AfterFirst(t, true)
  {
    var f, id := AfterFirst(t, false), BlockIdOf(Second(t));
    assert PathTo(f.root.id, f.blocks, f.root.id) == Some([]);
    assert IsLeaf(f, id);
    LeafUpdate(f, id, Passthru);
  }

  lemma SecondCommitted(t: Times)
    requires Inv(WithThird(t))
    ensures !CommitPanics(WithThird(t), CertOf(Third(t)))
    ensures Commit(WithThird(t), CertOf(Third(t))).root == InfoOf(Second(t))
  {
    var f, p := WithThird(t), BlockIdOf(Second(t));
    assert PathTo(f.root.id, f.blocks, f.root.id) == Some([]);
    assert HasPath(f.root.id, f.blocks, p);
    assert PruneTarget(f, CertOf(Third(t))) == Some(p);
  }

  function Opening(t: Times): seq<Event> {
    var second := BlockIdOf(Second(t));
    Growing(First(t)) + [AddBlock(Second(t))] + [TryUpdate(second, Passthru)] + [TryCommit(CertOf(Second(t)))]
  }

  /** The second block is refused above the first, accepted once the first is committed, and then
      committed as well. */
  function Events(t: Times): seq<Event> {
    Opening(t) + [TryUpdate(BlockIdOf(Second(t)), Passthru)] + [AddBlock(Third(t))] + [TryCommit(CertOf(Third(t)))]
  }

  lemma OpeningRuns(t: Times)
    requires 0 < t.second <= t.first
    ensures Inv(NewForest(GENESIS)) && IsRun(NewForest(GENESIS), Opening(t))
    ensures Final(NewForest(GENESIS), Opening(t)) == AfterFirst(t, false) && Inv(AfterFirst(t, false))
  {
    var f, id, events := NewForest(GENESIS), BlockIdOf(Second(t)), Growing(First(t));
    RowWellFormed(t);
    FirstGrows(t);
    Grow(f, First(t));
    JoinedInv(f);
    JoinedInv(Grown(f, First(t)));
    hide AllJoined, Growable, Grown, Growing, Refused, AfterFirst, Inv, Commit, CommitPanics;
    SecondAdded(t);
    RunThen(f, events, Grown(f, First(t)), AddBlock(Second(t)), Refused(t));
    events := events + [AddBlock(Second(t))];
    SecondRefused(t);
    RunThen(f, events, Refused(t), TryUpdate(id, Passthru), Refused(t));
    events := events + [TryUpdate(id, Passthru)];
    FirstCommitted(t);
    RunThen(f, events, Refused(t), TryCommit(CertOf(Second(t))), AfterFirst(t, false));
  }

  lemma EventsRun(t: Times)
    requires 0 < t.second <= t.first
    ensures Inv(NewForest(GENESIS)) && IsRun(NewForest(GENESIS), Events(t))
    ensures Final(NewForest(GENESIS), Events(t)).root == InfoOf(Second(t))
  {
    var f, id, events := NewForest(GENESIS), BlockIdOf(Second(t)), Opening(t);
    RowWellFormed(t);
    OpeningRuns(t);
    assert AfterFirst(t, true).root.round == 1;
    hide AfterFirst, Inv, Commit, CommitPanics, Opening;
    SecondAccepted(t);
    RunThen(f, events, AfterFirst(t, false), TryUpdate(id, Passthru), AfterFirst(t, true));
    events := events + [TryUpdate(id, Passthru)];
    RunThen(f, events, AfterFirst(t, true), AddBlock(Third(t)), WithThird(t));
    events := events + [AddBlock(Third(t))];
    SecondCommitted(t);
    RunThen(f, events, WithThird(t), TryCommit(CertOf(Third(t))), Commit(WithThird(t), CertOf(Third(t))));
  }

  /** Two commits, one block each, and the second block is no later than the first: it is refused as
      long as it extends the first, and accepted once the first is the root. */
  lemma LaterCommitOlder(t: Times)
    requires 0 < t.second <= t.first
    ensures IsRun(NewForest(GENESIS), Events(t)) && TimedRun(Events(t))
    ensures Log(NewForest(GENESIS), Events(t)) == [First(t), Second(t)]
    ensures !RiseFrom(GENESIS.timestamp, Log(NewForest(GENESIS), Events(t)))
    ensures !Passthru(Second(t), [First(t)], GENESIS)
  {
    var f, log := NewForest(GENESIS), [First(t), Second(t)];
    EventsRun(t);
    RunCommitsOneChain(f, Events(t));
    RunBodies(f, Events(t));
    PassthruWeakest(Passthru, First(t), [], GENESIS);
    assert log[..1] == [First(t)] && log[..1][..0] == [];
    ChainUnique(GENESIS.id, log, Log(f, Events(t)));
    assert log[1].header.timestamp <= Before(0, log, 1);
  }
}
