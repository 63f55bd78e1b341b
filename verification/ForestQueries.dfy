/** What the read-only queries of the block tree are meant to answer. */
module ForestQueries {
  import opened Blocks
  import opened Forests

  // ---------------------------------------------------------------- committing

  /** The block a QC commits, if the block it certifies is in the tree. */
  function CommitTarget(f: Forest, qc: QC): Option<BlockId>
    requires Keyed(f.blocks)
  {
    if qc.id in f.blocks then CommittableId(qc, f.blocks[qc.id].header) else None
  }

  /** A QC that commits a coherent block other than the root. */
  predicate Committable(f: Forest, qc: QC)
    requires Keyed(f.blocks)
  {
    var target := CommitTarget(f, qc);
    target.Some? && target.value != f.root.id && IsCoherent(f, target.value)
  }

  /** `id` is joined to the root and carries a QC that commits something new. */
  predicate Candidate(f: Forest, id: BlockId)
    requires Keyed(f.blocks)
  {
    id in f.blocks && HasPath(f.root.id, f.blocks, id) && Committable(f, f.blocks[id].header.qc)
  }

  /** The brute-force answer: a QC of greatest round among all candidates, or none. */
  ghost predicate IsHighCommittable(f: Forest, r: Option<QC>)
    requires Keyed(f.blocks)
  {
    IsHighAmong(f, f.blocks.Keys, r)
  }

  ghost predicate IsHighAmong(f: Forest, ids: set<BlockId>, r: Option<QC>)
    requires Keyed(f.blocks)
  {
    match r
    case None => forall x <- ids :: !Candidate(f, x)
    case Some(qc) =>
      && (exists x <- ids :: Candidate(f, x) && f.blocks[x].header.qc == qc)
      && (forall x <- ids | Candidate(f, x) :: f.blocks[x].header.qc.round <= qc.round)
  }

  /** A committable QC names a legal prune target above the root. */
  lemma CommitIsLegal(f: Forest, qc: QC)
    requires Inv(f) && IsHighCommittable(f, Some(qc))
    ensures var target := CommitTarget(f, qc);
            && target.Some? && target.value != f.root.id
            && Prunable(f, target.value)
            && Prune(f, target.value).root.round > f.root.round
  {
    RootNotInTree(f);
    var x :| x in f.blocks && Candidate(f, x) && f.blocks[x].header.qc == qc;
    assert HasPath(f.root.id, f.blocks, ParentOf(f.blocks[x]));
  }

  /** What a certificate makes the node prune to: the block it commits, if that is coherent. */
  function PruneTarget(f: Forest, qc: QC): Option<BlockId>
    requires Keyed(f.blocks)
  {
    var target := CommitTarget(f, qc);
    if target.Some? && IsCoherent(f, target.value) then target else None
  }

  /** The node would prune to a block that is not joined to the root. */
  predicate CommitPanics(f: Forest, qc: QC)
    requires Keyed(f.blocks)
  {
    PruneTarget(f, qc).Some? && !HasPath(f.root.id, f.blocks, PruneTarget(f, qc).value)
  }

  /** The tree after a commit on any certificate. */
  function Commit(f: Forest, qc: QC): Forest
    requires Keyed(f.blocks) && !CommitPanics(f, qc)
  {
    match PruneTarget(f, qc)
    case None => f
    case Some(id) => Prune(f, id)
  }

  /** The blocks such a commit yields. */
  function CommitOutput(f: Forest, qc: QC): seq<Block>
    requires Keyed(f.blocks) && !CommitPanics(f, qc)
  {
    match PruneTarget(f, qc)
    case None => []
    case Some(id) => Committed(f, id)
  }

  /** When every coherent block is joined to the root, no certificate at all makes a commit fail. */
  lemma ConnectedNeverPanics(f: Forest, qc: QC)
    requires Inv(f) && CoherentConnected(f)
    ensures !CommitPanics(f, qc)
  {
  }

  /** Conversely a coherent block that is not joined to the root makes a commit fail as soon as a
      block above it is present and certified in the next round. */
  lemma UnjoinedPanics(f: Forest, id: BlockId, child: BlockId)
    requires Inv(f) && id in f.coherent && !HasPath(f.root.id, f.blocks, id)
    requires child in f.blocks && ParentOf(f.blocks[child]) == id
    ensures CommitPanics(f, QC(child, f.blocks[child].header.qc.round + 1))
  {
  }

  // ---------------------------------------------------------------- canonical tip

  function RoundIn(f: Forest, id: BlockId): Round {
    if id in f.blocks then f.blocks[id].header.round else f.root.round
  }

  /** `r` is `top` or a coherent block below it, and no coherent block below `top` has a
      greater round. */
  ghost predicate IsHighestCoherent(f: Forest, top: BlockId, r: BlockId)
    requires Keyed(f.blocks)
  {
    && (r == top || (r in f.coherent && HasPath(top, f.blocks, r)))
    && (forall x <- f.coherent | HasPath(top, f.blocks, x) :: RoundIn(f, x) <= RoundIn(f, r))
  }

  /** The last coherent block of the path stands at `i`. */
  ghost predicate IsLastCoherentAt(f: Forest, path: seq<Block>, i: int) {
    && 0 <= i < |path|
    && IsCoherent(f, BlockIdOf(path[i]))
    && forall j | i < j < |path| :: !IsCoherent(f, BlockIdOf(path[j]))
  }

  /** `r` is the last coherent block of the path, or the root when there is none. */
  ghost predicate IsLastCoherent(f: Forest, path: seq<Block>, r: BlockId) {
    if exists b <- path :: IsCoherent(f, BlockIdOf(b))
    then exists i :: IsLastCoherentAt(f, path, i) && r == BlockIdOf(path[i])
    else r == f.root.id
  }

  ghost predicate IsCanonicalTip(f: Forest, qc: QC, r: BlockId)
    requires Keyed(f.blocks)
  {
    match PathTo(f.root.id, f.blocks, qc.id)
    case None => IsHighestCoherent(f, f.root.id, r)
    case Some(path) =>
      if qc.id != f.root.id && IsCoherent(f, qc.id) then IsHighestCoherent(f, qc.id, r)
      else IsLastCoherent(f, path, r)
  }

  /** The tip is always coherent, and extends the certified block whenever that is coherent. */
  lemma CanonicalTipCoherent(f: Forest, qc: QC, r: BlockId)
    requires Keyed(f.blocks) && f.coherent <= f.blocks.Keys && IsCanonicalTip(f, qc, r)
    ensures IsCoherent(f, r)
    ensures HasPath(f.root.id, f.blocks, qc.id) && qc.id != f.root.id && IsCoherent(f, qc.id) && r != qc.id ==>
            Descends(r, qc.id)
  {
    match PathTo(f.root.id, f.blocks, qc.id)
    case None =>
    case Some(path) =>
      if qc.id != f.root.id && IsCoherent(f, qc.id) && r != qc.id {
        PathDescends(qc.id, f.blocks, r);
      }
  }

  // ---------------------------------------------------------------- filling the path

  /** Either there is nothing to request, or a range to request, or the subtraction of
      sequence numbers underflows. */
  datatype FillResult = NothingToFill | Request(range: BlockRange) | Underflow

  /** No known ancestor-or-self of `id` has a sequence number below the root's. */
  predicate SeqNumsAbove(f: Forest, id: BlockId)
    requires Keyed(f.blocks)
    decreases id
  {
    id != f.root.id && id in f.blocks && ParentOf(f.blocks[id]) != f.root.id ==>
      f.blocks[id].header.seqNum >= f.root.seqNum && SeqNumsAbove(f, ParentOf(f.blocks[id]))
  }

  /** Sequence numbers go up by one at each step from `root` to `id`. */
  predicate SeqNumsContiguous(root: RootInfo, id: BlockId) {
    && id.HeaderHash?
    && (if id.header.qc.id == root.id then id.header.seqNum == root.seqNum + 1
        else && SeqNumsContiguous(root, id.header.qc.id)
             && id.header.seqNum == id.header.qc.id.header.seqNum + 1)
  }

  /** The `n`-th ancestor. */
  function Ancestor(id: BlockId, n: nat): Option<BlockId>
    decreases n
  {
    if n == 0 then Some(id) else if id.Digest? then None else Ancestor(id.header.qc.id, n - 1)
  }

  /** With contiguous numbers, the distance to the root can be read off the sequence number. */
  lemma {:induction false} ContiguousDistance(root: RootInfo, id: BlockId)
    requires SeqNumsContiguous(root, id)
    ensures id.header.seqNum > root.seqNum
    ensures Ancestor(id, id.header.seqNum - root.seqNum) == Some(root.id)
    decreases id
  {
    if id.header.qc.id != root.id {
      ContiguousDistance(root, id.header.qc.id);
    }
  }

  /** The last known block on the way from `id` towards the root. */
  function LastKnown(root: BlockId, bs: BlockMap, id: BlockId): BlockId
    requires Keyed(bs) && id in bs
    ensures LastKnown(root, bs, id) in bs
    decreases id
  {
    var p := ParentOf(bs[id]);
    if p == root || p !in bs then id else LastKnown(root, bs, p)
  }

  /** How many blocks to ask for: as many as the last known block is above the root, less
      itself, and at least one. */
  function FillNumber(f: Forest, id: BlockId): int
    requires Keyed(f.blocks)
  {
    if id !in f.blocks then 1
    else
      var distance := f.blocks[LastKnown(f.root.id, f.blocks, id)].header.seqNum - f.root.seqNum;
      (if distance > 2 then distance else 2) - 1
  }

  /** With contiguous numbers the missing ancestor is exactly that far above the root. */
  lemma {:induction false} FillNumberExact(f: Forest, id: BlockId)
    requires Keyed(f.blocks) && id in f.blocks && id != f.root.id && SeqNumsContiguous(f.root, id)
            && !HasPath(f.root.id, f.blocks, id)
    ensures FillNumber(f, id) >= 1
    ensures Ancestor(Missing(f.root.id, f.blocks, id), FillNumber(f, id)) == Some(f.root.id)
    decreases id
  {
    var p := ParentOf(f.blocks[id]);
    assert HasPath(f.root.id, f.blocks, f.root.id);
    if p in f.blocks {
      FillNumberExact(f, p);
    } else {
      ContiguousDistance(f.root, p);
    }
  }

  /** What the walk from a QC towards the root must report. */
  ghost predicate IsFill(f: Forest, qc: QC, r: FillResult)
    requires Keyed(f.blocks)
  {
    var rootId := f.root.id;
    if f.root.round >= qc.round || qc.id == rootId then r == NothingToFill
    else if !SeqNumsAbove(f, qc.id) then r == Underflow
    else if HasPath(rootId, f.blocks, qc.id) then r == NothingToFill
    else r.Request? && r.range.last == Missing(rootId, f.blocks, qc.id) && r.range.num == FillNumber(f, qc.id)
  }

  function AddAll(f: Forest, blocks: seq<Block>): Forest {
    if blocks == [] then f else Add(AddAll(f, blocks[..|blocks|-1]), blocks[|blocks|-1])
  }

  lemma {:induction false} ChainAncestor(from: BlockId, blocks: seq<Block>)
    requires IsChain(from, blocks)
    ensures Ancestor(ChainEnd(from, blocks), |blocks|) == Some(from)
    decreases |blocks|
  {
    if blocks != [] {
      var init := blocks[..|blocks|-1];
      assert blocks == init + [blocks[|blocks|-1]];
      ChainSnoc(from, init, blocks[|blocks|-1]);
      ChainAncestor(from, init);
    }
  }

  lemma {:induction false} AddAllKeeps(f: Forest, blocks: seq<Block>)
    requires Inv(f) && forall b <- blocks :: WellFormedBlock(b)
    ensures Inv(AddAll(f, blocks)) && AddAll(f, blocks).root == f.root && AddAll(f, blocks).coherent == f.coherent
    ensures forall x <- f.blocks :: x in AddAll(f, blocks).blocks
    decreases |blocks|
  {
    if blocks != [] {
      AddAllKeeps(f, blocks[..|blocks|-1]);
      AddKeepsInv(AddAll(f, blocks[..|blocks|-1]), blocks[|blocks|-1]);
    }
  }

  /** A block added above a connected parent is connected. */
  lemma AddJoins(f: Forest, b: Block)
    requires Inv(f) && WellFormedBlock(b) && HasPath(f.root.id, f.blocks, ParentOf(b))
    ensures Inv(Add(f, b)) && HasPath(f.root.id, Add(f, b).blocks, BlockIdOf(b))
  {
    AddKeepsInv(f, b);
    if ParentOf(b) != f.root.id {
      PathDescends(f.root.id, f.blocks, ParentOf(b));
      DescendsLater(ParentOf(b), f.root.id);
    }
    AddKeepsPath(f, b, ParentOf(b));
  }

  /** Adding a chain that starts at the root joins its end to the root. */
  lemma {:induction false} ChainAdded(f: Forest, blocks: seq<Block>)
    requires Inv(f) && IsChain(f.root.id, blocks) && forall b <- blocks :: WellFormedBlock(b)
    ensures Inv(AddAll(f, blocks))
    ensures HasPath(f.root.id, AddAll(f, blocks).blocks, ChainEnd(f.root.id, blocks))
    decreases |blocks|
  {
    AddAllKeeps(f, blocks);
    if blocks != [] {
      var init, b := blocks[..|blocks|-1], blocks[|blocks|-1];
      assert blocks == init + [b] && b in blocks;
      ChainSnoc(f.root.id, init, b);
      ChainAdded(f, init);
      AddAllKeeps(f, init);
      AddJoins(AddAll(f, init), b);
    }
  }

  lemma {:induction false} MissingFilled(root: BlockId, bs: BlockMap, more: BlockMap, id: BlockId)
    requires Keyed(bs) && Keyed(more) && forall x <- bs :: x in more
    requires HasPath(root, more, Missing(root, bs, id))
    ensures HasPath(root, more, id)
    decreases id
  {
    if id != root && id in bs {
      MissingFilled(root, bs, more, ParentOf(bs[id]));
    }
  }

  /** The requested range is the right one: fetching exactly that many consecutive blocks
      ending at that id, and adding them, joins the QC's block to the root. */
  lemma FillCompletes(f: Forest, qc: QC, range: BlockRange, from: BlockId, fetched: seq<Block>)
    requires Inv(f) && IsFill(f, qc, Request(range))
    requires qc.id in f.blocks && SeqNumsContiguous(f.root, qc.id)
    requires |fetched| == range.num && IsChain(from, fetched) && ChainEnd(from, fetched) == range.last
    requires forall b <- fetched :: WellFormedBlock(b)
    ensures Inv(AddAll(f, fetched))
    ensures HasPath(f.root.id, AddAll(f, fetched).blocks, qc.id)
  {
    FillNumberExact(f, qc.id);
    ChainAncestor(from, fetched);
    ChainAdded(f, fetched);
    AddAllKeeps(f, fetched);
    MissingFilled(f.root.id, f.blocks, AddAll(f, fetched).blocks, qc.id);
  }
}
