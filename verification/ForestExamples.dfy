/** Runs from a new tree, under the pass-through policy, that show what the promises about
    certificates are needed for. */
module ForestExamples {
  import opened Blocks
  import opened Forests
  import opened ForestQueries
  import opened CommitSafety
  import opened ForestRuns

  // ---------------------------------------------------------------- growing a tree

  lemma {:induction false} RunJoin(f: Forest, a: seq<Event>, b: seq<Event>)
    requires Inv(f) && IsRun(f, a)
    requires Inv(Final(f, a)) ==> IsRun(Final(f, a), b)
    ensures Inv(Final(f, a)) && IsRun(f, a + b) && Final(f, a + b) == Final(Final(f, a), b)
    ensures Log(f, a + b) == Log(f, a) + Log(Final(f, a), b)
    decreases |a|
  {
    hide Inv, Enabled, Step, Output;
    if a == [] {
      assert a + b == b && [] + Log(f, b) == Log(f, b);
    } else {
      var g, all := Step(f, a[0]), a + b;
      StepKeepsInv(f, a[0]);
      assert all[0] == a[0] && all[1..] == a[1..] + b;
      RunJoin(g, a[1..], b);
      assert Log(f, all) == Output(f, a[0]) + Log(g, all[1..]);
      assert Output(f, a[0]) + (Log(g, a[1..]) + Log(Final(g, a[1..]), b)) == Log(f, a) + Log(Final(f, a), b);
    }
  }

  /** Every block is coherent and joined to the root. */
  ghost predicate AllJoined(f: Forest) {
    Inv(f) && f.coherent == f.blocks.Keys && CoherentConnected(f)
  }

  /** A block that the pass-through policy accepts on top of such a tree. */
  ghost predicate Growable(f: Forest, b: Block) {
    var p := ParentOf(b);
    && WellFormedBlock(b) && b.header.round > f.root.round && BlockIdOf(b) !in f.blocks
    && (forall x <- f.blocks :: ParentOf(f.blocks[x]) != BlockIdOf(b))
    && (p == f.root.id || p in f.blocks)
    && b.header.seqNum == SeqNumIn(f, p) + 1
    && b.header.timestamp > (if p in f.blocks then f.blocks[p].header.timestamp else 0)
    && b.header.results == []
  }

  function Grown(f: Forest, b: Block): Forest {
    f.(blocks := f.blocks[BlockIdOf(b) := b], coherent := f.coherent + {BlockIdOf(b)})
  }

  function Growing(b: Block): seq<Event> {
    [AddBlock(b), TryUpdate(BlockIdOf(b), Passthru)]
  }

  lemma {:induction false} NothingBelow(bs: BlockMap, id: BlockId, x: BlockId)
    requires Keyed(bs) && HasPath(id, bs, x) && forall y <- bs :: ParentOf(bs[y]) != id
    ensures x == id
    decreases x
  {
    if x != id {
      NothingBelow(bs, id, ParentOf(bs[x]));
    }
  }

  /** An incoherent block on top of a coherent chain, without children: an update for it asks the
      policy about it and about nothing else. */
  ghost predicate IsLeaf(f: Forest, id: BlockId) {
    && Inv(f) && id in f.blocks && id !in f.coherent
    && IsCoherent(f, ParentOf(f.blocks[id])) && HasPath(f.root.id, f.blocks, ParentOf(f.blocks[id]))
    && forall x <- f.blocks :: ParentOf(f.blocks[x]) != id
  }

  lemma LeafStart(f: Forest, id: BlockId)
    requires IsLeaf(f, id)
    ensures UpdateStart(f, id) == Some(id)
  {
    var b, p := f.blocks[id], ParentOf(f.blocks[id]);
    RootNotInTree(f);
    var up := PathTo(f.root.id, f.blocks, p).value;
    if p != f.root.id {
      PathDescends(f.root.id, f.blocks, p);
      CoherentPath(f, p);
    }
    assert AllCoherent(f, up);
    assert (up + [b])[..|up|] == up;
  }

  lemma LeafUpdate(f: Forest, id: BlockId, policy: Policy)
    requires IsLeaf(f, id)
    ensures var b := f.blocks[id];
            UpdateCoherency(f, id, policy)
            == if policy(b, PathTo(f.root.id, f.blocks, ParentOf(b)).value, f.root)
               then f.(coherent := f.coherent + {id}) else f
  {
    LeafStart(f, id);
    forall x <- f.blocks | Marks(f, policy, id, x)
      ensures x == id
    {
      MarksInSubtree(f, policy, id, x);
      NothingBelow(f.blocks, id, x);
    }
    assert Marks(f, policy, id, id) <==> Accepts(f.root, f.blocks, policy, id);
    hide Marks, UpdateStart;
    assert NewlyCoherent(f, policy, id) == if Accepts(f.root, f.blocks, policy, id) then {id} else {};
  }

  /** The end of the path to a block present is that block. */
  lemma PathEnd(f: Forest, id: BlockId)
    requires BlocksOk(f) && HasPath(f.root.id, f.blocks, id)
    ensures var path := PathTo(f.root.id, f.blocks, id).value;
            if id == f.root.id then path == [] else path != [] && id in f.blocks && path[|path|-1] == f.blocks[id]
  {
  }

  lemma GrowAccepted(f: Forest, b: Block)
    requires AllJoined(f) && Growable(f, b)
    ensures var (g, id) := (Add(f, b), BlockIdOf(b));
            && IsLeaf(g, id) && g.blocks[id] == b
            && Passthru(b, PathTo(g.root.id, g.blocks, ParentOf(b)).value, g.root)
  {
    var p := ParentOf(b);
    AddKeepsInv(f, b);
    RootNotInTree(f);
    assert HasPath(f.root.id, f.blocks, p);
    AddKeepsPath(f, b, p);
    PathEnd(f, p);
    assert p != BlockIdOf(b) by { assert Depth(p) < Depth(BlockIdOf(b)); }
    hide Inv, PathTo;
  }

  lemma Grow(f: Forest, b: Block)
    requires AllJoined(f) && Growable(f, b)
    ensures AllJoined(Grown(f, b)) && IsRun(f, Growing(b)) && Final(f, Growing(b)) == Grown(f, b)
  {
    var g, id := Add(f, b), BlockIdOf(b);
    GrowAccepted(f, b);
    LeafUpdate(g, id, Passthru);
    AddKeepsInv(f, b);
    AddKeepsConnected(f, b);
    UpdateKeepsInv(g, id, Passthru);
    UpdateKeepsConnected(g, id, Passthru);
    assert UpdateCoherency(g, id, Passthru) == Grown(f, b);
    hide UpdateCoherency, Passthru, IsLeaf;
    RunTwo(f, AddBlock(b), TryUpdate(id, Passthru));
  }

  lemma RunTwo(f: Forest, a: Event, b: Event)
    requires Inv(f) && Enabled(f, a) && Inv(Step(f, a)) && Enabled(Step(f, a), b)
    ensures IsRun(f, [a, b]) && Final(f, [a, b]) == Step(Step(f, a), b)
  {
    StepKeepsInv(Step(f, a), b);
    assert [a, b][1..] == [b] && [b][1..] == [];
    RunOne(Step(f, a), b);
  }

  lemma RunOne(f: Forest, e: Event)
    requires Inv(f) && Enabled(f, e)
    ensures IsRun(f, [e]) && Final(f, [e]) == Step(f, e) && Log(f, [e]) == Output(f, e)
  {
    StepKeepsInv(f, e);
    assert [e][1..] == [];
    assert Output(f, e) + [] == Output(f, e);
  }

  ghost predicate AllGrowable(f: Forest, blocks: seq<Block>)
    decreases |blocks|
  {
    blocks != [] ==> Growable(f, blocks[0]) && AllGrowable(Grown(f, blocks[0]), blocks[1..])
  }

  function GrownAll(f: Forest, blocks: seq<Block>): Forest
    decreases |blocks|
  {
    if blocks == [] then f else GrownAll(Grown(f, blocks[0]), blocks[1..])
  }

  function GrowingAll(blocks: seq<Block>): seq<Event> {
    if blocks == [] then [] else Growing(blocks[0]) + GrowingAll(blocks[1..])
  }

  lemma {:induction false} GrowAll(f: Forest, blocks: seq<Block>)
    requires AllJoined(f) && AllGrowable(f, blocks)
    ensures IsRun(f, GrowingAll(blocks)) && Final(f, GrowingAll(blocks)) == GrownAll(f, blocks)
    ensures AllJoined(GrownAll(f, blocks))
    decreases |blocks|
  {
    if blocks != [] {
      hide AllJoined, Growable;
      Grow(f, blocks[0]);
      GrowAll(Grown(f, blocks[0]), blocks[1..]);
      assert Inv(f) by { JoinedInv(f); }
      RunJoin(f, Growing(blocks[0]), GrowingAll(blocks[1..]));
    }
  }

  lemma JoinedInv(f: Forest)
    requires AllJoined(f)
    ensures Inv(f)
  {
  }

  // ---------------------------------------------------------------- the blocks

  const GENESIS: RootInfo := RootInfo(0, 0, 1, Digest(0), 0)
  const GENESIS_CERT: QC := QC(Digest(0), 0)

  function MakeBlock(round: Round, qc: QC, number: nat): Block {
    var body := Body([]);
    Block(Header(round, 1, qc, number, number, [], BodyIdOf(body), 0), body)
  }

  /** Two branches above genesis: `a`, `b`, `c`, and `fork`, `later`.  Each round is that of a
      proposal or of a certificate. */
  datatype Rounds = Rounds(a: Round, aCert: Round, c: Round, fork: Round, forkCert: Round, later: Round)

  predicate RoundsOk(r: Rounds) {
    && 0 < r.a <= r.aCert && r.aCert + 1 < r.c
    && 0 < r.fork <= r.forkCert < r.later && r.a != r.fork
  }

  function A(r: Rounds): Block { MakeBlock(r.a, GENESIS_CERT, 1) }

  function B(r: Rounds): Block { MakeBlock(r.aCert + 1, QC(BlockIdOf(A(r)), r.aCert), 2) }

  function C(r: Rounds): Block { MakeBlock(r.c, BCert(r), 3) }

  function BCert(r: Rounds): QC { QC(BlockIdOf(B(r)), r.aCert + 1) }

  function Fork(r: Rounds): Block { MakeBlock(r.fork, GENESIS_CERT, 1) }

  function Later(r: Rounds): Block { MakeBlock(r.later, QC(BlockIdOf(Fork(r)), r.forkCert), 2) }

  function Branches(r: Rounds): seq<Block> {
    [A(r), B(r), C(r), Fork(r), Later(r)]
  }

  function Tree(r: Rounds): Forest {
    var blocks := map[BlockIdOf(A(r)) := A(r), BlockIdOf(B(r)) := B(r), BlockIdOf(C(r)) := C(r),
                      BlockIdOf(Fork(r)) := Fork(r), BlockIdOf(Later(r)) := Later(r)];
    Forest(GENESIS, blocks, blocks.Keys)
  }

  lemma BlocksWellFormed(r: Rounds)
    requires RoundsOk(r)
    ensures WellFormedBlock(A(r)) && WellFormedBlock(B(r)) && WellFormedBlock(C(r))
    ensures WellFormedBlock(Fork(r)) && WellFormedBlock(Later(r))
  {
    assert WellFormed(BlockIdOf(A(r))) && WellFormed(BlockIdOf(Fork(r)));
    assert WellFormed(BlockIdOf(B(r)));
  }

  function Trunk(r: Rounds): Forest {
    Grown(Grown(Grown(NewForest(GENESIS), A(r)), B(r)), C(r))
  }

  lemma TrunkGrows(r: Rounds)
    requires RoundsOk(r)
    ensures var f := NewForest(GENESIS);
            Growable(f, A(r)) && Growable(Grown(f, A(r)), B(r)) && Growable(Grown(Grown(f, A(r)), B(r)), C(r))
  {
    BlocksWellFormed(r);
    hide WellFormedBlock, WellFormed;
  }

  lemma ForkGrows(r: Rounds)
    requires RoundsOk(r)
    ensures Growable(Trunk(r), Fork(r)) && Growable(Grown(Trunk(r), Fork(r)), Later(r))
    ensures Grown(Grown(Trunk(r), Fork(r)), Later(r)) == Tree(r)
  {
    BlocksWellFormed(r);
    hide WellFormedBlock, WellFormed;
  }

  lemma GrowableMore(f: Forest, b: Block, blocks: seq<Block>)
    requires Growable(f, b) && AllGrowable(Grown(f, b), blocks)
    ensures AllGrowable(f, [b] + blocks) && GrownAll(f, [b] + blocks) == GrownAll(Grown(f, b), blocks)
  {
    assert ([b] + blocks)[1..] == blocks;
  }

  lemma Grows(r: Rounds)
    requires RoundsOk(r)
    ensures AllGrowable(NewForest(GENESIS), Branches(r))
    ensures GrownAll(NewForest(GENESIS), Branches(r)) == Tree(r)
  {
    hide Growable, Grown, A, B, C, Fork, Later, Tree;
    var f := NewForest(GENESIS);
    TrunkGrows(r);
    ForkGrows(r);
    var trunk := Trunk(r);
    GrowableMore(Grown(trunk, Fork(r)), Later(r), []);
    GrowableMore(trunk, Fork(r), [Later(r)]);
    GrowableMore(Grown(Grown(f, A(r)), B(r)), C(r), [Fork(r), Later(r)]);
    GrowableMore(Grown(f, A(r)), B(r), [C(r), Fork(r), Later(r)]);
    GrowableMore(f, A(r), [B(r), C(r), Fork(r), Later(r)]);
  }

  lemma NewJoined()
    ensures AllJoined(NewForest(GENESIS))
  {
  }

  // ---------------------------------------------------------------- the commit

  /** The certificate that `c` carries for `b` is the only one in the tree that commits anything,
      and it commits `a`. */
  lemma CommitsA(r: Rounds)
    requires RoundsOk(r) && AllJoined(Tree(r))
    ensures IsHighCommittable(Tree(r), Some(BCert(r)))
    ensures PruneTarget(Tree(r), BCert(r)) == Some(BlockIdOf(A(r)))
  {
    var f := Tree(r);
    assert HasPath(f.root.id, f.blocks, BlockIdOf(C(r)));
    assert CommitTarget(f, BCert(r)) == Some(BlockIdOf(A(r)));
    assert Candidate(f, BlockIdOf(C(r)));
    forall x <- f.blocks | x != BlockIdOf(C(r))
      ensures !Candidate(f, x)
    {
    }
  }

  function PrunedTree(r: Rounds): Forest {
    var b, c, later := BlockIdOf(B(r)), BlockIdOf(C(r)), BlockIdOf(Later(r));
    var blocks := if r.forkCert >= r.a then map[b := B(r), c := C(r), later := Later(r)] else map[b := B(r), c := C(r)];
    Forest(InfoOf(A(r)), blocks, blocks.Keys)
  }

  lemma SurvivorsAre(r: Rounds)
    requires RoundsOk(r)
    ensures Survivors(Tree(r).blocks, r.a) == PrunedTree(r).blocks
    ensures BlockIdOf(A(r)) in Tree(r).blocks && Tree(r).blocks[BlockIdOf(A(r))] == A(r)
  {
    assert BlockIdOf(Later(r)) != BlockIdOf(B(r));
  }

  lemma PrunesTo(r: Rounds)
    requires RoundsOk(r) && Keyed(Tree(r).blocks) && Prunable(Tree(r), BlockIdOf(A(r)))
    ensures Prune(Tree(r), BlockIdOf(A(r))) == PrunedTree(r)
  {
    SurvivorsAre(r);
    assert BlockIdOf(A(r)) != Tree(r).root.id && A(r).header.round == r.a;
    hide A, B, C, Fork, Later, PathTo, Survivors, BlockIdOf, InfoOf, MakeBlock;
  }

  function CommittingRun(r: Rounds): seq<Event> {
    GrowingAll(Branches(r)) + [CommitHigh(BCert(r))]
  }

  /** Both branches are added and found coherent, and `a` is committed. */
  lemma CommittingRunEnds(r: Rounds)
    requires RoundsOk(r)
    ensures Inv(NewForest(GENESIS)) && IsRun(NewForest(GENESIS), CommittingRun(r))
    ensures Final(NewForest(GENESIS), CommittingRun(r)) == PrunedTree(r) && Inv(PrunedTree(r))
  {
    var f := NewForest(GENESIS);
    NewJoined();
    Grows(r);
    GrowAll(f, Branches(r));
    CommitsA(r);
    JoinedInv(Tree(r));
    CommitIsLegal(Tree(r), BCert(r));
    PrunesTo(r);
    hide AllJoined, AllGrowable, Tree, IsHighCommittable, PrunedTree;
    RunOne(Tree(r), CommitHigh(BCert(r)));
    RunJoin(f, GrowingAll(Branches(r)), [CommitHigh(BCert(r))]);
    RunCommitsOneChain(f, CommittingRun(r));
  }

  /** The certificates of the run. */
  ghost function Certs(r: Rounds): iset<QC> {
    iset{GENESIS_CERT, QC(BlockIdOf(A(r)), r.aCert), BCert(r), QC(BlockIdOf(Fork(r)), r.forkCert)}
  }

  lemma RunUses(r: Rounds)
    ensures UsesOnly(Certs(r), CommittingRun(r))
  {
    var bs := Branches(r);
    assert forall b <- bs :: b.header.qc in Certs(r);
    GrowingUses(Certs(r), bs);
  }

  lemma {:induction false} GrowingUses(certs: iset<QC>, blocks: seq<Block>)
    requires forall b <- blocks :: b.header.qc in certs
    ensures UsesOnly(certs, GrowingAll(blocks))
    decreases |blocks|
  {
    if blocks != [] {
      GrowingUses(certs, blocks[1..]);
    }
  }

  lemma Unrelated(r: Rounds)
    requires RoundsOk(r)
    ensures !Descends(BlockIdOf(Fork(r)), BlockIdOf(A(r))) && BlockIdOf(Fork(r)) != BlockIdOf(A(r))
    ensures Descends(BlockIdOf(A(r)), Digest(0)) && Descends(BlockIdOf(Fork(r)), Digest(0))
            && Descends(BlockIdOf(B(r)), Digest(0))
    ensures Descends(BlockIdOf(B(r)), BlockIdOf(A(r)))
  {
  }

  /** Commit safety fails iff the fork was certified when `a` was or later; the other promise fails
      iff it was certified in between. */
  lemma PromisesKept(r: Rounds)
    requires RoundsOk(r)
    ensures Safe(Certs(r)) <==> r.forkCert < r.aCert
    ensures NoRivals(Certs(r)) <==> !(r.a <= r.forkCert < r.aCert)
  {
    Unrelated(r);
    var a, fork := QC(BlockIdOf(A(r)), r.aCert), QC(BlockIdOf(Fork(r)), r.forkCert);
    assert ParentCert(BCert(r)) == a && IsCommit(BCert(r)) && !Supports(fork, a.id);
    assert forall q <- Certs(r) | IsCommit(q) :: q == BCert(r) || ParentCert(q) == GENESIS_CERT;
    assert forall p <- Certs(r) :: Supports(p, Digest(0)) && (p == fork || Supports(p, a.id) || p == GENESIS_CERT);
    assert fork in Certs(r) && BCert(r) in Certs(r);
    hide Certs, Supports, IsCommit, BCert;
  }

  /** In this family of runs every coherent block stays joined to the root iff both promises are
      kept: each of them is needed. */
  lemma PromisesNeeded(r: Rounds)
    requires RoundsOk(r)
    ensures IsRun(NewForest(GENESIS), CommittingRun(r)) && UsesOnly(Certs(r), CommittingRun(r))
    ensures Inv(Final(NewForest(GENESIS), CommittingRun(r)))
    ensures CoherentConnected(Final(NewForest(GENESIS), CommittingRun(r))) <==> Safe(Certs(r)) && NoRivals(Certs(r))
  {
    CommittingRunEnds(r);
    RunUses(r);
    PromisesKept(r);
    LaterUnjoined(r);
  }

  /** The block above the fork survives iff the fork was certified no earlier than `a` was
      proposed, and then it is not joined to the root. */
  lemma LaterUnjoined(r: Rounds)
    requires RoundsOk(r) && Inv(PrunedTree(r))
    ensures r.forkCert >= r.a ==>
              var g := PrunedTree(r);
              BlockIdOf(Later(r)) in g.coherent && !HasPath(g.root.id, g.blocks, BlockIdOf(Later(r)))
    ensures CoherentConnected(PrunedTree(r)) <==> r.forkCert < r.a
  {
    var g := PrunedTree(r);
    if r.forkCert >= r.a {
      ParentMissing(g.root.id, g.blocks, BlockIdOf(Later(r)));
    }
    assert HasPath(g.root.id, g.blocks, BlockIdOf(A(r)));
    assert HasPath(g.root.id, g.blocks, BlockIdOf(B(r)));
    assert HasPath(g.root.id, g.blocks, BlockIdOf(C(r)));
  }

  lemma ParentMissing(root: BlockId, bs: BlockMap, id: BlockId)
    requires Keyed(bs) && id != root && id in bs && ParentOf(bs[id]) != root && ParentOf(bs[id]) !in bs
    ensures !HasPath(root, bs, id)
  {
    assert PathTo(root, bs, ParentOf(bs[id])) == None;
  }

  /** A fork that was certified too late, and a fork that was certified before a block proposed
      again: the first breaks commit safety, the second does not. */
  lemma BothKindsOccur()
    ensures var late := Rounds(1, 1, 3, 4, 4, 5);
            RoundsOk(late) && !Safe(Certs(late)) && NoRivals(Certs(late))
    ensures var again := Rounds(1, 4, 6, 2, 2, 3);
            RoundsOk(again) && Safe(Certs(again)) && !NoRivals(Certs(again))
  {
    PromisesKept(Rounds(1, 1, 3, 4, 4, 5));
    PromisesKept(Rounds(1, 4, 6, 2, 2, 3));
  }

  // ---------------------------------------------------------------- a commit that panics

  function Top(r: Rounds): Block {
    MakeBlock(r.later + 1, QC(BlockIdOf(Later(r)), r.later), 3)
  }

  /** When that block survives, one more block above it and a certificate for that in the next round
      make the commit panic. */
  lemma PanicReachable(r: Rounds)
    requires RoundsOk(r) && r.forkCert >= r.a
    ensures var events := CommittingRun(r) + [AddBlock(Top(r))];
            && IsRun(NewForest(GENESIS), events)
            && Inv(Final(NewForest(GENESIS), events))
            && CommitPanics(Final(NewForest(GENESIS), events), QC(BlockIdOf(Top(r)), r.later + 1))
  {
    var f, g, e := NewForest(GENESIS), PrunedTree(r), AddBlock(Top(r));
    CommittingRunEnds(r);
    LaterUnjoined(r);
    BlocksWellFormed(r);
    assert WellFormedBlock(Top(r));
    RunOne(g, e);
    AddKeepsInv(g, Top(r));
    StaysUnjoined(r);
    RunJoin(f, CommittingRun(r), [e]);
  }

  lemma StaysUnjoined(r: Rounds)
    requires RoundsOk(r) && r.forkCert >= r.a && Inv(PrunedTree(r)) && Inv(Add(PrunedTree(r), Top(r)))
    ensures CommitPanics(Add(PrunedTree(r), Top(r)), QC(BlockIdOf(Top(r)), r.later + 1))
  {
    var g, later := Add(PrunedTree(r), Top(r)), BlockIdOf(Later(r));
    assert later in g.coherent && later in g.blocks && g.blocks[later] == Later(r) && BlockIdOf(Top(r)) in g.blocks;
    assert BlockIdOf(Fork(r)) != BlockIdOf(Top(r)) && BlockIdOf(Fork(r)) !in g.blocks;
    hide PrunedTree;
    ParentMissing(g.root.id, g.blocks, later);
    UnjoinedPanics(g, later, BlockIdOf(Top(r)));
  }
}
