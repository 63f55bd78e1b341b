/**
 The block tree as a value: the committed root, the uncommitted blocks above it (a forest,
 since blocks may arrive before their parents) and the set of coherent blocks.  Child lists
 and the payload index are left to the class that implements it.
 */
module Forests {
  import opened Blocks

  type BlockMap = map<BlockId, Block>

  /** Does the block policy accept a block that extends the given blocks above the given
      root?  Fixed within one call, free to change between calls. */
  type Policy = (Block, seq<Block>, RootInfo) -> bool

  datatype Forest = Forest(root: RootInfo, blocks: BlockMap, coherent: set<BlockId>)

  // ---------------------------------------------------------------- paths

  predicate Keyed(bs: BlockMap) {
    forall id <- bs :: id == BlockIdOf(bs[id])
  }

  /** The blocks that lead from `root` (exclusive) to `id` (inclusive), if all are present. */
  function PathTo(root: BlockId, bs: BlockMap, id: BlockId): Option<seq<Block>>
    requires Keyed(bs)
    decreases id
  {
    if id == root then Some([])
    else if id !in bs then None
    else
      match PathTo(root, bs, ParentOf(bs[id]))
      case None => None
      case Some(path) => Some(path + [bs[id]])
  }

  predicate HasPath(root: BlockId, bs: BlockMap, id: BlockId)
    requires Keyed(bs)
  {
    PathTo(root, bs, id).Some?
  }

  /** Each block names its predecessor as parent, the first one names `from`. */
  predicate IsChain(from: BlockId, blocks: seq<Block>) {
    blocks != [] ==>
      var init := blocks[..|blocks|-1];
      IsChain(from, init) && ParentOf(blocks[|blocks|-1]) == ChainEnd(from, init)
  }

  /** The id at the end of a chain. */
  function ChainEnd(from: BlockId, blocks: seq<Block>): BlockId {
    if blocks == [] then from else BlockIdOf(blocks[|blocks|-1])
  }

  lemma ChainSnoc(from: BlockId, blocks: seq<Block>, b: Block)
    ensures IsChain(from, blocks + [b]) <==> IsChain(from, blocks) && ParentOf(b) == ChainEnd(from, blocks)
  {
    assert (blocks + [b])[..|blocks|] == blocks;
  }

  lemma {:induction false} PathIsChain(root: BlockId, bs: BlockMap, id: BlockId)
    requires Keyed(bs) && HasPath(root, bs, id)
    ensures var path := PathTo(root, bs, id).value;
            && IsChain(root, path)
            && ChainEnd(root, path) == id
            && forall b <- path :: BlockIdOf(b) in bs && bs[BlockIdOf(b)] == b
    decreases id
  {
    if id != root {
      PathIsChain(root, bs, ParentOf(bs[id]));
      ChainSnoc(root, PathTo(root, bs, ParentOf(bs[id])).value, bs[id]);
    }
  }

  lemma {:induction false} PathDescends(root: BlockId, bs: BlockMap, id: BlockId)
    requires Keyed(bs) && HasPath(root, bs, id) && id != root
    ensures id in bs && Descends(id, root)
    decreases id
  {
    if ParentOf(bs[id]) != root {
      PathDescends(root, bs, ParentOf(bs[id]));
    }
  }

  /** The first ancestor-or-self of `id` that is not an uncommitted block of the tree. */
  function Missing(root: BlockId, bs: BlockMap, id: BlockId): BlockId
    requires Keyed(bs)
    decreases id
  {
    if id == root || id !in bs then id else Missing(root, bs, ParentOf(bs[id]))
  }

  lemma {:induction false} MissingIsRoot(root: BlockId, bs: BlockMap, id: BlockId)
    requires Keyed(bs)
    ensures HasPath(root, bs, id) <==> Missing(root, bs, id) == root
    decreases id
  {
    if id != root && id in bs {
      MissingIsRoot(root, bs, ParentOf(bs[id]));
    }
  }

  /** The chain of blocks present that ends at `id`; it need not reach the root. */
  function ParentChain(bs: BlockMap, id: BlockId): seq<Block>
    requires Keyed(bs)
    decreases id
  {
    if id in bs then ParentChain(bs, ParentOf(bs[id])) + [bs[id]] else []
  }

  // ---------------------------------------------------------------- invariant

  predicate IsCoherent(f: Forest, id: BlockId) {
    id == f.root.id || (id in f.blocks && id in f.coherent)
  }

  ghost predicate WellFormedBlock(b: Block) {
    WellFormed(BlockIdOf(b)) && BodyMatches(b)
  }

  /** A root is genesis, or agrees with the header its id stands for. */
  predicate RootMatches(r: RootInfo) {
    match r.id
    case Digest(_) => r.round == GENESIS_ROUND
    case HeaderHash(h) =>
      r.round == h.round && r.seqNum == h.seqNum && r.epoch == h.epoch && r.timestamp == h.timestamp
  }

  ghost predicate BlocksOk(f: Forest) {
    && Keyed(f.blocks)
    && RootMatches(f.root)
    && f.coherent <= f.blocks.Keys
    && forall id <- f.blocks :: WellFormedBlock(f.blocks[id]) && f.blocks[id].header.round > f.root.round
  }

  /** A coherent block that descends from the root has its parent in place and coherent. */
  ghost predicate CoherentClosed(f: Forest) {
    forall id <- f.coherent :: id in f.blocks && Descends(id, f.root.id) ==>
      IsCoherent(f, ParentOf(f.blocks[id]))
  }

  ghost predicate Inv(f: Forest) {
    BlocksOk(f) && CoherentClosed(f)
  }

  lemma RootNotInTree(f: Forest)
    requires BlocksOk(f)
    ensures f.root.id !in f.blocks
  {
  }

  predicate AllCoherent(f: Forest, path: seq<Block>) {
    forall b <- path :: IsCoherent(f, BlockIdOf(b))
  }

  /** A coherent block that descends from the root is joined to it by coherent blocks only. */
  lemma {:induction false} CoherentPath(f: Forest, id: BlockId)
    requires Inv(f) && id in f.coherent && Descends(id, f.root.id)
    ensures HasPath(f.root.id, f.blocks, id)
    ensures AllCoherent(f, PathTo(f.root.id, f.blocks, id).value)
    decreases id
  {
    var p := ParentOf(f.blocks[id]);
    if p != f.root.id {
      CoherentPath(f, p);
    }
  }

  // ---------------------------------------------------------------- add

  function Add(f: Forest, b: Block): Forest {
    if BlockIdOf(b) !in f.blocks && b.header.round > f.root.round
    then f.(blocks := f.blocks[BlockIdOf(b) := b])
    else f
  }

  lemma AddKeepsInv(f: Forest, b: Block)
    requires Inv(f) && WellFormedBlock(b)
    ensures Inv(Add(f, b))
  {
  }

  // ---------------------------------------------------------------- coherency update

  /** The first incoherent block on a path. */
  function FirstIncoherent(f: Forest, path: seq<Block>): (r: Option<BlockId>)
    ensures r.None? <==> AllCoherent(f, path)
  {
    if path == [] then None
    else
      var init := path[..|path|-1];
      assert path == init + [path[|path|-1]];
      match FirstIncoherent(f, init)
      case Some(id) => Some(id)
      case None =>
        var last := BlockIdOf(path[|path|-1]);
        if IsCoherent(f, last) then None else Some(last)
  }

  /** The policy accepts the block against the path it extends. */
  predicate Accepts(root: RootInfo, bs: BlockMap, policy: Policy, id: BlockId)
    requires Keyed(bs)
  {
    && id in bs
    && HasPath(root.id, bs, ParentOf(bs[id]))
    && policy(bs[id], PathTo(root.id, bs, ParentOf(bs[id])).value, root)
  }

  /** `id` lies in the subtree of `top`, and the policy accepts every block from `top` to it. */
  predicate Marks(f: Forest, policy: Policy, top: BlockId, id: BlockId)
    requires Keyed(f.blocks)
    decreases id
  {
    && Accepts(f.root, f.blocks, policy, id)
    && (id == top || Marks(f, policy, top, ParentOf(f.blocks[id])))
  }

  function NewlyCoherent(f: Forest, policy: Policy, top: BlockId): set<BlockId>
    requires Keyed(f.blocks)
  {
    set id <- f.blocks.Keys | Marks(f, policy, top, id)
  }

  /** Where the update for `id` starts, if it has anything to do. */
  function UpdateStart(f: Forest, id: BlockId): Option<BlockId>
    requires Keyed(f.blocks)
  {
    match PathTo(f.root.id, f.blocks, id)
    case None => None
    case Some(path) => FirstIncoherent(f, path)
  }

  function UpdateCoherency(f: Forest, id: BlockId, policy: Policy): Forest
    requires Keyed(f.blocks)
  {
    match UpdateStart(f, id)
    case None => f
    case Some(top) => f.(coherent := f.coherent + NewlyCoherent(f, policy, top))
  }

  /** The start of an update is an incoherent block below a coherent parent. */
  lemma {:induction false} StartIsFrontier(f: Forest, id: BlockId)
    requires Inv(f) && UpdateStart(f, id).Some?
    ensures var top := UpdateStart(f, id).value;
            && top in f.blocks && top !in f.coherent
            && HasPath(f.root.id, f.blocks, top)
            && IsCoherent(f, ParentOf(f.blocks[top]))
    decreases id
  {
    var p := ParentOf(f.blocks[id]);
    var up := PathTo(f.root.id, f.blocks, p).value;
    assert (up + [f.blocks[id]])[..|up|] == up;
    if UpdateStart(f, p).Some? {
      StartIsFrontier(f, p);
    } else if p != f.root.id {
      assert up[|up|-1] == f.blocks[p];
    }
  }

  lemma {:induction false} MarksHasPath(f: Forest, policy: Policy, top: BlockId, id: BlockId)
    requires BlocksOk(f) && Marks(f, policy, top, id)
    ensures HasPath(f.root.id, f.blocks, id) && Descends(id, f.root.id)
  {
    PathDescends(f.root.id, f.blocks, id);
  }

  lemma UpdateKeepsInv(f: Forest, id: BlockId, policy: Policy)
    requires Inv(f)
    ensures Inv(UpdateCoherency(f, id, policy))
  {
    if UpdateStart(f, id).Some? {
      StartIsFrontier(f, id);
    }
  }

  /** Nothing below an incoherent, connected block is coherent yet. */
  lemma {:induction false} SubtreeIncoherent(f: Forest, top: BlockId, id: BlockId)
    requires Inv(f) && top in f.blocks && top !in f.coherent
    requires HasPath(f.root.id, f.blocks, top)
    requires HasPath(top, f.blocks, id)
    ensures id !in f.coherent && HasPath(f.root.id, f.blocks, id)
    decreases id
  {
    if id != top {
      SubtreeIncoherent(f, top, ParentOf(f.blocks[id]));
      PathDescends(f.root.id, f.blocks, id);
      RootNotInTree(f);
    }
  }

  /** The update is a fixpoint: it revokes nothing, touches only the subtree of its start, and
      there a block is coherent exactly when its parent is (or is the root) and the policy
      accepts it against its path. */
  lemma {:induction false} UpdateFixpoint(f: Forest, id: BlockId, policy: Policy, x: BlockId)
    requires Inv(f) && UpdateStart(f, id).Some?
    ensures var g := UpdateCoherency(f, id, policy);
            var top := UpdateStart(f, id).value;
            && f.coherent <= g.coherent
            && (!HasPath(top, f.blocks, x) ==> (x in g.coherent <==> x in f.coherent))
            && (HasPath(top, f.blocks, x) ==>
                  (x in g.coherent <==> Accepts(f.root, f.blocks, policy, x) && IsCoherent(g, ParentOf(f.blocks[x]))))
  {
    var top := UpdateStart(f, id).value;
    StartIsFrontier(f, id);
    if HasPath(top, f.blocks, x) {
      SubtreeIncoherent(f, top, x);
      RootNotInTree(f);
      PathDescends(f.root.id, f.blocks, x);
      if x != top {
        SubtreeIncoherent(f, top, ParentOf(f.blocks[x]));
      }
    } else if Marks(f, policy, top, x) {
      MarksInSubtree(f, policy, top, x);
    }
  }

  lemma {:induction false} MarksInSubtree(f: Forest, policy: Policy, top: BlockId, id: BlockId)
    requires Keyed(f.blocks) && Marks(f, policy, top, id)
    ensures HasPath(top, f.blocks, id)
    decreases id
  {
    if id != top {
      MarksInSubtree(f, policy, top, ParentOf(f.blocks[id]));
    }
  }

  // ---------------------------------------------------------------- prune

  function Survivors(bs: BlockMap, round: Round): BlockMap {
    map id <- bs.Keys | bs[id].header.qc.round >= round :: bs[id]
  }

  /** What a caller of prune must provide: a coherent block joined to the root. */
  predicate Prunable(f: Forest, id: BlockId)
    requires Keyed(f.blocks)
  {
    IsCoherent(f, id) && HasPath(f.root.id, f.blocks, id)
  }

  /** How a prune ends: with the blocks it commits, or with a failed assertion. */
  datatype PruneOutcome = Done(commit: seq<Block>) | Panicked

  function Prune(f: Forest, id: BlockId): Forest
    requires Keyed(f.blocks) && Prunable(f, id)
  {
    if id == f.root.id then f
    else
      var kept := Survivors(f.blocks, f.blocks[id].header.round);
      Forest(InfoOf(f.blocks[id]), kept, f.coherent * kept.Keys)
  }

  /** The blocks a prune commits, oldest first. */
  function Committed(f: Forest, id: BlockId): seq<Block>
    requires Keyed(f.blocks) && Prunable(f, id)
  {
    PathTo(f.root.id, f.blocks, id).value
  }

  /** Whatever descends from the new root survives, gaps in the chain or not. */
  lemma DescendantSurvives(f: Forest, id: BlockId, x: BlockId)
    requires BlocksOk(f) && Prunable(f, id) && id != f.root.id
    requires x in f.blocks && Descends(x, id)
    ensures x in Prune(f, id).blocks
  {
    DescendsLater(x, id);
  }

  /** No committed block survives: the round test alone removes the committed path. */
  lemma {:induction false} CommittedRemoved(f: Forest, id: BlockId, b: Block)
    requires BlocksOk(f) && Prunable(f, id) && id != f.root.id
    requires b in Committed(f, id)
    ensures BlockIdOf(b) !in Prune(f, id).blocks
  {
    PathRounds(f, id, b);
  }

  /** Rounds do not fall along a path. */
  lemma {:induction false} PathRounds(f: Forest, id: BlockId, b: Block)
    requires BlocksOk(f) && HasPath(f.root.id, f.blocks, id)
    requires b in PathTo(f.root.id, f.blocks, id).value
    ensures id in f.blocks && BlockIdOf(b) in f.blocks && f.blocks[BlockIdOf(b)] == b
    ensures b.header.round <= f.blocks[id].header.round
    decreases id
  {
    if b != f.blocks[id] {
      PathRounds(f, ParentOf(f.blocks[id]), b);
    }
  }

  lemma {:induction false} PruneKeepsInv(f: Forest, id: BlockId)
    requires Inv(f) && Prunable(f, id)
    ensures Inv(Prune(f, id))
  {
    if id != f.root.id {
      var g := Prune(f, id);
      PathDescends(f.root.id, f.blocks, id);
      forall x <- g.coherent | Descends(x, id)
        ensures IsCoherent(g, ParentOf(g.blocks[x]))
      {
        DescendsTransitive(x, id, f.root.id);
        var p := ParentOf(f.blocks[x]);
        if p != id {
          if p == f.root.id {
            DescendsDeeper(p, id);
            DescendsDeeper(id, p);
            assert false;
          }
          DescendantSurvives(f, id, p);
        }
      }
    }
  }

  /** Every coherent block is joined to the root. */
  ghost predicate CoherentConnected(f: Forest)
    requires Keyed(f.blocks)
  {
    forall x <- f.coherent :: HasPath(f.root.id, f.blocks, x)
  }

  lemma CoherentConnectedIffDescends(f: Forest)
    requires Inv(f)
    ensures CoherentConnected(f) <==> forall x <- f.coherent :: Descends(x, f.root.id)
  {
    forall x <- f.coherent
      ensures HasPath(f.root.id, f.blocks, x) <==> Descends(x, f.root.id)
    {
      RootNotInTree(f);
      if HasPath(f.root.id, f.blocks, x) {
        PathDescends(f.root.id, f.blocks, x);
      } else if Descends(x, f.root.id) {
        CoherentPath(f, x);
      }
    }
  }

  /** A prune leaves the coherent blocks joined exactly when those that survive descend from the
      new root. */
  lemma PruneConnectedIff(f: Forest, id: BlockId)
    requires Inv(f) && Prunable(f, id) && id != f.root.id
    ensures Inv(Prune(f, id))
    ensures CoherentConnected(Prune(f, id)) <==> forall x <- Prune(f, id).coherent :: Descends(x, id)
  {
    PruneKeepsInv(f, id);
    CoherentConnectedIffDescends(Prune(f, id));
  }

  lemma UpdateKeepsConnected(f: Forest, id: BlockId, policy: Policy)
    requires Inv(f) && CoherentConnected(f)
    ensures CoherentConnected(UpdateCoherency(f, id, policy))
  {
    forall top, x | UpdateStart(f, id) == Some(top) && Marks(f, policy, top, x)
      ensures HasPath(f.root.id, f.blocks, x)
    {
      MarksHasPath(f, policy, top, x);
    }
  }

  lemma {:induction false} AddKeepsPath(f: Forest, b: Block, x: BlockId)
    requires Keyed(f.blocks) && HasPath(f.root.id, f.blocks, x)
    ensures PathTo(f.root.id, Add(f, b).blocks, x) == PathTo(f.root.id, f.blocks, x)
    decreases x
  {
    if x != f.root.id {
      AddKeepsPath(f, b, ParentOf(f.blocks[x]));
    }
  }

  lemma AddKeepsConnected(f: Forest, b: Block)
    requires Keyed(f.blocks) && CoherentConnected(f)
    ensures CoherentConnected(Add(f, b))
  {
    forall x <- f.coherent
      ensures HasPath(f.root.id, Add(f, b).blocks, x)
    {
      AddKeepsPath(f, b, x);
    }
  }

  lemma {:induction false} SurvivorPath(f: Forest, id: BlockId, x: BlockId)
    requires Inv(f) && Prunable(f, id) && id != f.root.id
    requires HasPath(f.root.id, f.blocks, x) && Descends(x, id)
    ensures HasPath(id, Prune(f, id).blocks, x)
    decreases x
  {
    PathDescends(f.root.id, f.blocks, id);
    if x == f.root.id {
      DescendsDeeper(x, id);
      DescendsDeeper(id, x);
      assert false;
    }
    DescendantSurvives(f, id, x);
    if ParentOf(f.blocks[x]) != id {
      SurvivorPath(f, id, ParentOf(f.blocks[x]));
    }
  }

  /** Prune exactness.  A block survives iff its certificate is no older than the new root;
      survivors keep their flag, descendants of the new root all survive, and those joined to the
      old root are now joined to the new one. */
  lemma PruneExact(f: Forest, id: BlockId, x: BlockId)
    requires Inv(f) && Prunable(f, id) && id != f.root.id && x in f.blocks
    ensures var g := Prune(f, id);
            && (x in g.blocks <==> f.blocks[x].header.qc.round >= f.blocks[id].header.round)
            && (x in g.blocks ==> g.blocks[x] == f.blocks[x] && (x in g.coherent <==> x in f.coherent))
            && (Descends(x, id) ==> x in g.blocks)
            && (Descends(x, id) && HasPath(f.root.id, f.blocks, x) ==> HasPath(id, g.blocks, x))
  {
    if Descends(x, id) {
      DescendantSurvives(f, id, x);
      if HasPath(f.root.id, f.blocks, x) {
        SurvivorPath(f, id, x);
      }
    }
  }
}
