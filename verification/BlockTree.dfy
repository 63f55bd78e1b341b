/** The block tree proper: the committed root with its child list, over the store of
    uncommitted blocks.  Each operation is proved against the forest it represents. */
module BlockTrees {
  import opened Blocks
  import opened Forests
  import opened ForestQueries
  import opened Trees
  import opened Waves
  import opened Sequences

  /** Child lists of survivors stay exact although removal never edits them: whatever names a
      survivor as parent survives too. */
  lemma SurvivorsKeepChildren(bs: BlockMap, round: Round, id: BlockId, list: seq<BlockId>)
    requires Keyed(bs) && ListsChildren(bs, id, list)
    requires forall x <- bs :: WellFormed(x)
    requires id in bs && bs[id].header.round >= round
    ensures ListsChildren(Survivors(bs, round), id, list)
  {
    assert forall c <- bs :: ParentOf(bs[c]) == id ==> bs[c].header.qc.round >= round;
  }

  function KeptEntries(es: EntryMap, round: Round): EntryMap {
    map id <- es.Keys | es[id].block.header.qc.round >= round :: es[id]
  }

  lemma KeptEntriesAgree(es: EntryMap, round: Round)
    requires Keyed(BlocksIn(es)) && ChildrenAgree(es)
    requires forall x <- BlocksIn(es) :: WellFormed(x)
    ensures ChildrenAgree(KeptEntries(es, round))
    ensures BlocksIn(KeptEntries(es, round)) == Survivors(BlocksIn(es), round)
  {
    var kept := KeptEntries(es, round);
    assert BlocksIn(kept) == Survivors(BlocksIn(es), round);
    forall id <- kept
      ensures ListsChildren(BlocksIn(kept), id, kept[id].children)
    {
      SurvivorsKeepChildren(BlocksIn(es), round, id, es[id].children);
    }
  }

  function IdsOf(blocks: seq<Block>): set<BlockId> {
    if blocks == [] then {} else IdsOf(blocks[..|blocks|-1]) + {BlockIdOf(blocks[|blocks|-1])}
  }

  lemma {:induction false} NoneInIds(blocks: seq<Block>, ids: set<BlockId>)
    requires forall b <- Reversed(blocks) :: BlockIdOf(b) !in ids
    ensures IdsOf(blocks) !! ids
  {
    if blocks != [] {
      ReversedSnoc(blocks[..|blocks|-1], blocks[|blocks|-1]);
      NoneInIds(blocks[..|blocks|-1], ids);
    }
  }

  /** The state of a block tree, without the payload index. */
  ghost predicate ValidState(root: RootInfo, rootChildren: seq<BlockId>, es: EntryMap) {
    && ChildrenAgree(es)
    && ListsChildren(BlocksIn(es), root.id, rootChildren)
    && Inv(ForestOf(root, es))
  }

  function ForestOf(root: RootInfo, es: EntryMap): Forest {
    Forest(root, BlocksIn(es), CoherentIn(es))
  }

  /** The round test alone yields the pruned tree, with exact child lists. */
  lemma PrunedState(root: RootInfo, rootChildren: seq<BlockId>, es: EntryMap, newRoot: BlockId)
    requires ValidState(root, rootChildren, es)
    requires Prunable(ForestOf(root, es), newRoot) && newRoot != root.id
    ensures newRoot in es
    ensures var b := es[newRoot].block;
            var kept := KeptEntries(es, b.header.round);
            && ValidState(InfoOf(b), es[newRoot].children, kept)
            && ForestOf(InfoOf(b), kept) == Prune(ForestOf(root, es), newRoot)
  {
    var f := ForestOf(root, es);
    PruneKeepsInv(f, newRoot);
    var round := f.blocks[newRoot].header.round;
    KeptEntriesAgree(es, round);
    SurvivorsKeepChildren(f.blocks, round, newRoot, es[newRoot].children);
    assert CoherentIn(KeptEntries(es, round)) == f.coherent * Survivors(f.blocks, round).Keys;
  }

  lemma CommittedNotKept(root: RootInfo, es: EntryMap, newRoot: BlockId, commit: seq<Block>)
    requires BlocksOk(ForestOf(root, es)) && Prunable(ForestOf(root, es), newRoot) && newRoot != root.id
    requires Reversed(commit) == Committed(ForestOf(root, es), newRoot)
    ensures newRoot in es
    ensures KeptEntries(es - IdsOf(commit), es[newRoot].block.header.round)
         == KeptEntries(es, es[newRoot].block.header.round)
  {
    var f := ForestOf(root, es);
    var kept := KeptEntries(es, f.blocks[newRoot].header.round);
    forall b <- Committed(f, newRoot)
      ensures BlockIdOf(b) !in kept.Keys
    {
      CommittedRemoved(f, newRoot, b);
    }
    NoneInIds(commit, kept.Keys);
  }

  /** One step of a walk towards the root: the block just visited moves to the collected part. */
  lemma WalkStep(root: BlockId, bs: BlockMap, id: BlockId, blocks: seq<Block>)
    requires Keyed(bs) && id in bs && id != root
    ensures HasPath(root, bs, id) <==> HasPath(root, bs, ParentOf(bs[id]))
    ensures HasPath(root, bs, id) ==>
              PathTo(root, bs, id).value + Reversed(blocks)
              == PathTo(root, bs, ParentOf(bs[id])).value + Reversed(blocks + [bs[id]])
    ensures ParentOf(bs[id]) == root ==>
              HasPath(root, bs, id) && PathTo(root, bs, id).value + Reversed(blocks) == Reversed(blocks + [bs[id]])
    ensures IdsOf(blocks + [bs[id]]) == IdsOf(blocks) + {id}
    ensures Depth(ParentOf(bs[id])) < Depth(id)
  {
    ReversedSnoc(blocks, bs[id]);
    assert (blocks + [bs[id]])[..|blocks|] == blocks;
    assert PathTo(root, bs, root) == Some([]);
  }

  lemma ChainStep(bs: BlockMap, id: BlockId, chain: seq<Block>)
    requires Keyed(bs) && id in bs
    ensures ParentChain(bs, id) + Reversed(chain) == ParentChain(bs, ParentOf(bs[id])) + Reversed(chain + [bs[id]])
  {
    ReversedSnoc(chain, bs[id]);
    hide Reversed;
    var up, rest := ParentChain(bs, ParentOf(bs[id])), Reversed(chain);
    assert up + [bs[id]] + rest == up + ([bs[id]] + rest);
  }

  /** Each block is the tree's own, appears once, and comes after its parent or is `top`. */
  ghost predicate InOrder(f: Forest, top: BlockId, marked: seq<Block>) {
    forall i | 0 <= i < |marked| ::
      var id, before := BlockIdOf(marked[i]), IdsOf(marked[..i]);
      && id in f.blocks && f.blocks[id] == marked[i]
      && id !in before
      && (id == top || ParentOf(marked[i]) in before)
  }

  /** `marked` lists what an update from `top` makes coherent, parents before children. */
  ghost predicate IsMarking(f: Forest, policy: Policy, top: BlockId, marked: seq<Block>)
    requires Keyed(f.blocks)
  {
    IdsOf(marked) == NewlyCoherent(f, policy, top) && InOrder(f, top, marked)
  }

  /** Each block is the tree's own, appears once, and comes after its parent unless that was coherent
      before. */
  ghost predicate ParentsFirst(f: Forest, marked: seq<Block>) {
    forall i | 0 <= i < |marked| ::
      var id, before := BlockIdOf(marked[i]), IdsOf(marked[..i]);
      && id in f.blocks && f.blocks[id] == marked[i]
      && id !in before
      && (IsCoherent(f, ParentOf(marked[i])) || ParentOf(marked[i]) in before)
  }

  lemma MarkingIsNew(f: Forest, id: BlockId, policy: Policy, top: BlockId, marked: seq<Block>)
    requires Inv(f) && UpdateStart(f, id) == Some(top) && IsMarking(f, policy, top, marked)
    ensures IdsOf(marked) == UpdateCoherency(f, id, policy).coherent - f.coherent
    ensures ParentsFirst(f, marked)
  {
    StartIsFrontier(f, id);
    forall x <- NewlyCoherent(f, policy, top)
      ensures x !in f.coherent
    {
      MarksInSubtree(f, policy, top, x);
      SubtreeIncoherent(f, top, x);
    }
  }

  lemma PathLast(root: BlockId, bs: BlockMap, id: BlockId, init: seq<Block>, last: Block)
    requires Keyed(bs) && PathTo(root, bs, id) == Some(init + [last])
    ensures id != root && id in bs && bs[id] == last
    ensures PathTo(root, bs, ParentOf(last)) == Some(init)
  {
    assert id in bs;
    var path := PathTo(root, bs, ParentOf(bs[id])).value + [bs[id]];
    assert path == init + [last];
    assert path[|path|-1] == last && path[..|path|-1] == init;
  }

  /** The update from `top` so far: what is marked is what should be, among the blocks done. */
  ghost predicate Marking(f: Forest, policy: Policy, top: BlockId, marked: seq<Block>, done: set<BlockId>,
                          queue: seq<BlockId>)
    requires Keyed(f.blocks)
  {
    && Wave(f.blocks, top, IdsOf(marked), done, queue)
    && InOrder(f, top, marked)
    && forall x <- done :: x in IdsOf(marked) <==> Marks(f, policy, top, x)
  }

  lemma NextHasPath(f: Forest, policy: Policy, top: BlockId, marked: seq<Block>, done: set<BlockId>,
                    queue: seq<BlockId>)
    requires Inv(f) && top in f.blocks && top !in f.coherent && HasPath(f.root.id, f.blocks, top)
    requires Marking(f, policy, top, marked, done, queue) && queue != []
    ensures queue[0] in f.blocks && queue[0] != f.root.id && HasPath(f.root.id, f.blocks, queue[0])
    ensures queue[0] !in done
  {
    WaveSound(f.blocks, top, IdsOf(marked), done, queue, queue[0]);
    SubtreeIncoherent(f, top, queue[0]);
    RootNotInTree(f);
  }

  lemma MarkStart(f: Forest, policy: Policy, top: BlockId)
    requires Keyed(f.blocks)
    ensures Marking(f, policy, top, [], {}, [top])
  {
  }

  lemma MarkAccepted(f: Forest, policy: Policy, top: BlockId, marked: seq<Block>, done: set<BlockId>,
                     queue: seq<BlockId>, children: seq<BlockId>)
    requires Keyed(f.blocks) && queue != [] && Accepts(f.root, f.blocks, policy, queue[0])
    requires Marking(f, policy, top, marked, done, queue) && ListsChildren(f.blocks, queue[0], children)
    ensures Marking(f, policy, top, marked + [f.blocks[queue[0]]], done + {queue[0]}, queue[1..] + children)
    ensures IdsOf(marked + [f.blocks[queue[0]]]) == IdsOf(marked) + {queue[0]}
  {
    hide Wave, InOrder, Marks, Accepts, ListsChildren, IdsOf;
    NextMarks(f, policy, top, marked, done, queue);
    var next, block := queue[0], f.blocks[queue[0]];
    IdsSnoc(marked, block);
    WaveExpand(f.blocks, top, IdsOf(marked), done, queue, children);
    OrderStep(f, top, marked, block);
    assert forall x <- done + {next} :: x in IdsOf(marked) + {next} <==> Marks(f, policy, top, x);
  }

  lemma IdsSnoc(blocks: seq<Block>, b: Block)
    ensures IdsOf(blocks + [b]) == IdsOf(blocks) + {BlockIdOf(b)}
  {
    assert (blocks + [b])[..|blocks|] == blocks;
  }

  lemma NextMarks(f: Forest, policy: Policy, top: BlockId, marked: seq<Block>, done: set<BlockId>, queue: seq<BlockId>)
    requires Keyed(f.blocks) && queue != [] && Accepts(f.root, f.blocks, policy, queue[0])
    requires Marking(f, policy, top, marked, done, queue)
    ensures queue[0] in f.blocks && Marks(f, policy, top, queue[0]) && queue[0] !in done && queue[0] !in IdsOf(marked)
    ensures queue[0] == top || ParentOf(f.blocks[queue[0]]) in IdsOf(marked)
  {
    hide InOrder;
    assert queue[0] in queue;
  }

  lemma MarkRejected(f: Forest, policy: Policy, top: BlockId, marked: seq<Block>, done: set<BlockId>,
                     queue: seq<BlockId>)
    requires Keyed(f.blocks) && queue != [] && !Accepts(f.root, f.blocks, policy, queue[0])
    requires Marking(f, policy, top, marked, done, queue)
    ensures Marking(f, policy, top, marked, done + {queue[0]}, queue[1..])
  {
    WaveSkip(f.blocks, top, IdsOf(marked), done, queue);
  }

  lemma OrderStep(f: Forest, top: BlockId, marked: seq<Block>, block: Block)
    requires InOrder(f, top, marked) && BlockIdOf(block) !in IdsOf(marked)
    requires BlockIdOf(block) in f.blocks && f.blocks[BlockIdOf(block)] == block
    requires BlockIdOf(block) == top || ParentOf(block) in IdsOf(marked)
    ensures InOrder(f, top, marked + [block])
  {
    assert (marked + [block])[..|marked|] == marked;
    assert forall i | 0 <= i < |marked| :: (marked + [block])[..i] == marked[..i];
  }

  lemma AllMarked(f: Forest, policy: Policy, top: BlockId, marked: seq<Block>, done: set<BlockId>)
    requires Keyed(f.blocks) && Marking(f, policy, top, marked, done, [])
    ensures IsMarking(f, policy, top, marked)
  {
    forall x <- f.blocks | Marks(f, policy, top, x)
      ensures x in done
    {
      MarkedIsDone(f, policy, top, marked, done, x);
    }
  }

  lemma {:induction false} MarkedIsDone(f: Forest, policy: Policy, top: BlockId, marked: seq<Block>,
                                        done: set<BlockId>, x: BlockId)
    requires Keyed(f.blocks) && Marking(f, policy, top, marked, done, [])
    requires Marks(f, policy, top, x)
    ensures x in done
    decreases x
  {
    if x != top {
      MarkedIsDone(f, policy, top, marked, done, ParentOf(f.blocks[x]));
    }
  }

  /** A traversal of everything joined to the root, between two turns. */
  ghost predicate FromRoot(f: Forest, done: set<BlockId>, queue: seq<BlockId>) {
    Wave(f.blocks, f.root.id, done, done, queue)
  }

  lemma FromRootStart(f: Forest, rootChildren: seq<BlockId>)
    requires Inv(f) && ListsChildren(f.blocks, f.root.id, rootChildren)
    ensures FromRoot(f, {f.root.id}, rootChildren)
    ensures IsHighAmong(f, {f.root.id}, None)
  {
    WaveStart(f.blocks, f.root.id);
    WaveExpand(f.blocks, f.root.id, {}, {}, [f.root.id], rootChildren);
    RootNotInTree(f);
    assert [f.root.id][1..] + rootChildren == rootChildren;
  }

  lemma FromRootNext(f: Forest, done: set<BlockId>, queue: seq<BlockId>)
    requires Inv(f) && FromRoot(f, done, queue) && queue != [] && f.root.id in done
    ensures queue[0] in f.blocks && queue[0] !in done && HasPath(f.root.id, f.blocks, queue[0])
  {
    WaveSound(f.blocks, f.root.id, done, done, queue, queue[0]);
  }

  lemma FromRootStep(f: Forest, done: set<BlockId>, queue: seq<BlockId>, children: seq<BlockId>)
    requires Inv(f) && FromRoot(f, done, queue) && queue != []
    requires ListsChildren(f.blocks, queue[0], children)
    ensures FromRoot(f, done + {queue[0]}, queue[1..] + children)
  {
    WaveExpand(f.blocks, f.root.id, done, done, queue, children);
  }

  lemma HighStep(f: Forest, done: set<BlockId>, id: BlockId, high: Option<QC>)
    requires Keyed(f.blocks) && IsHighAmong(f, done, high)
    requires id in f.blocks && HasPath(f.root.id, f.blocks, id)
    ensures var qc := f.blocks[id].header.qc;
            if Committable(f, qc) && (high.None? || high.value.round < qc.round)
            then IsHighAmong(f, done + {id}, Some(qc))
            else IsHighAmong(f, done + {id}, high)
  {
  }

  lemma HighDone(f: Forest, done: set<BlockId>, high: Option<QC>)
    requires Inv(f) && FromRoot(f, done, []) && IsHighAmong(f, done, high)
    ensures IsHighCommittable(f, high)
  {
    forall x <- f.blocks | Candidate(f, x)
      ensures x in done
    {
      WaveComplete(f.blocks, f.root.id, done, x);
    }
  }

  function CoherentBlocks(f: Forest): BlockMap {
    map id <- f.blocks.Keys | id in f.coherent :: f.blocks[id]
  }

  /** The coherent ids of a child list. */
  function CoherentOnly(f: Forest, list: seq<BlockId>): seq<BlockId> {
    if list == [] then []
    else CoherentOnly(f, list[..|list|-1])
         + if IsCoherent(f, list[|list|-1]) then [list[|list|-1]] else []
  }

  lemma {:induction false} CoherentOnlyElements(f: Forest, list: seq<BlockId>)
    requires NoDup(list)
    ensures NoDup(CoherentOnly(f, list))
    ensures forall x :: x in CoherentOnly(f, list) <==> x in list && IsCoherent(f, x)
  {
    if list != [] {
      var init, last := list[..|list|-1], list[|list|-1];
      assert list == init + [last];
      CoherentOnlyElements(f, init);
    }
  }

  /** A traversal of the coherent blocks below `top`, between two turns. */
  ghost predicate CoherentWave(f: Forest, top: BlockId, done: set<BlockId>, queue: seq<BlockId>) {
    Wave(CoherentBlocks(f), top, done, done, queue)
  }

  lemma CoherentWaveStart(f: Forest, top: BlockId)
    requires Inv(f)
    ensures CoherentWave(f, top, {}, [top]) && IsBest(f, {}, [top], top)
    ensures f.root.id !in f.blocks
  {
    RootNotInTree(f);
    WaveStart(CoherentBlocks(f), top);
  }

  lemma CoherentWaveNext(f: Forest, top: BlockId, done: set<BlockId>, queue: seq<BlockId>)
    requires Inv(f) && CoherentWave(f, top, done, queue) && queue != []
    ensures queue[0] !in done && (queue[0] == top || queue[0] in f.blocks)
  {
  }

  lemma CoherentWaveStep(f: Forest, top: BlockId, done: set<BlockId>, queue: seq<BlockId>, children: seq<BlockId>)
    requires Inv(f) && CoherentWave(f, top, done, queue) && queue != []
    requires ListsChildren(f.blocks, queue[0], children)
    ensures CoherentWave(f, top, done + {queue[0]}, queue[1..] + CoherentOnly(f, children))
  {
    RootNotInTree(f);
    CoherentOnlyElements(f, children);
    WaveExpand(CoherentBlocks(f), top, done, done, queue, CoherentOnly(f, children));
  }

  /** Every coherent block below a connected `top` is joined to it by coherent blocks. */
  lemma {:induction false} CoherentBelow(f: Forest, top: BlockId, x: BlockId)
    requires Inv(f) && Prunable(f, top) && HasPath(top, f.blocks, x) && (x == top || x in f.coherent)
    ensures HasPath(top, CoherentBlocks(f), x) && HasPath(f.root.id, f.blocks, x)
    decreases x
  {
    if x != top {
      BelowConnected(f, top, x);
      CoherentParent(f, x);
      CoherentBelow(f, top, ParentOf(f.blocks[x]));
    }
  }

  lemma {:induction false} BelowConnected(f: Forest, top: BlockId, x: BlockId)
    requires Inv(f) && HasPath(f.root.id, f.blocks, top) && HasPath(top, f.blocks, x)
    ensures HasPath(f.root.id, f.blocks, x)
    ensures x == f.root.id ==> x == top
    decreases x
  {
    RootNotInTree(f);
    if x != top {
      BelowConnected(f, top, ParentOf(f.blocks[x]));
    }
  }

  /** `best` is among the ids met, and no id met beats it. */
  ghost predicate IsBest(f: Forest, done: set<BlockId>, queue: seq<BlockId>, best: BlockId) {
    && (best in done || best in queue)
    && (forall x :: x in done || x in queue ==> RoundIn(f, x) <= RoundIn(f, best))
  }

  lemma BestStep(f: Forest, done: set<BlockId>, queue: seq<BlockId>, best: BlockId, picked: seq<BlockId>,
                 better: BlockId)
    requires IsBest(f, done, queue, best) && queue != []
    requires better == best || better in picked
    requires RoundIn(f, best) <= RoundIn(f, better)
    requires forall x <- picked :: RoundIn(f, x) <= RoundIn(f, better)
    ensures IsBest(f, done + {queue[0]}, queue[1..] + picked, better)
  {
    assert queue == [queue[0]] + queue[1..];
  }

  /** `r` is `top` or a block that coherent blocks join to it, and no such block has a greater
      round; a `top` that is not known stands for itself. */
  ghost predicate IsHighestReached(f: Forest, top: BlockId, r: BlockId)
    requires Keyed(f.blocks)
  {
    if top != f.root.id && top !in f.blocks then r == top
    else
      && HasPath(top, CoherentBlocks(f), r)
      && forall x | HasPath(top, CoherentBlocks(f), x) :: RoundIn(f, x) <= RoundIn(f, r)
  }

  lemma BestIsHighest(f: Forest, top: BlockId, done: set<BlockId>, best: BlockId)
    requires Inv(f) && (top == f.root.id || top in f.blocks)
    requires CoherentWave(f, top, done, []) && IsBest(f, done, [], best)
    ensures IsHighestReached(f, top, best)
  {
    var cs := CoherentBlocks(f);
    WaveSound(cs, top, done, done, [], best);
    forall x | HasPath(top, cs, x)
      ensures RoundIn(f, x) <= RoundIn(f, best)
    {
      WaveComplete(cs, top, done, x);
    }
  }

  /** From a coherent block that is joined to the root, that is the highest of all coherent blocks
      below it. */
  lemma ReachedIsHighest(f: Forest, top: BlockId, best: BlockId)
    requires Inv(f) && Prunable(f, top) && IsHighestReached(f, top, best)
    ensures IsHighestCoherent(f, top, best)
  {
    RootNotInTree(f);
    SubmapPath(top, CoherentBlocks(f), f.blocks, best);
    forall x <- f.coherent | HasPath(top, f.blocks, x)
      ensures RoundIn(f, x) <= RoundIn(f, best)
    {
      CoherentBelow(f, top, x);
    }
  }

  lemma {:induction false} SubmapPath(top: BlockId, sub: BlockMap, bs: BlockMap, x: BlockId)
    requires Keyed(sub) && Keyed(bs) && HasPath(top, sub, x)
    requires forall y <- sub :: y in bs && sub[y] == bs[y]
    ensures HasPath(top, bs, x)
    decreases x
  {
    if x != top {
      SubmapPath(top, sub, bs, ParentOf(bs[x]));
    }
  }

  lemma TipCases(f: Forest, id: BlockId, last: Option<BlockId>)
    requires Inv(f) && HasPath(f.root.id, f.blocks, id)
    requires var path := PathTo(f.root.id, f.blocks, id).value;
             match last
             case None => forall b <- path :: !IsCoherent(f, BlockIdOf(b))
             case Some(r) => exists i :: IsLastCoherentAt(f, path, i) && r == BlockIdOf(path[i])
    ensures last == Some(id) <==> id != f.root.id && IsCoherent(f, id)
    ensures var path := PathTo(f.root.id, f.blocks, id).value;
            IsLastCoherent(f, path, if last.Some? then last.value else f.root.id)
  {
    RootNotInTree(f);
    var path := PathTo(f.root.id, f.blocks, id).value;
    PathIsChain(f.root.id, f.blocks, id);
    if last.Some? {
      var i :| IsLastCoherentAt(f, path, i) && last.value == BlockIdOf(path[i]);
      assert path[i] in path;
      assert path[|path|-1] == f.blocks[id];
    } else if id != f.root.id {
      assert path[|path|-1] == f.blocks[id];
    }
  }

  lemma CoherentParent(f: Forest, id: BlockId)
    requires Inv(f) && id in f.coherent && HasPath(f.root.id, f.blocks, id)
    ensures id in f.blocks && id != f.root.id && IsCoherent(f, ParentOf(f.blocks[id]))
  {
    RootNotInTree(f);
    PathDescends(f.root.id, f.blocks, id);
  }

  class BlockTree {
    var root: RootInfo
    var rootChildren: seq<BlockId>
    const tree: Tree

    constructor (info: RootInfo)
      requires RootMatches(info)
      ensures Valid() && fresh(tree)
      ensures View() == Forest(info, map[], {})
    {
      root, rootChildren := info, [];
      tree := new Tree();
    }

    function View(): Forest
      reads this, tree
    {
      ForestOf(root, tree.entries)
    }

    ghost predicate Valid()
      reads this, tree
    {
      tree.Valid() && ValidState(root, rootChildren, tree.entries)
    }

    predicate IsValidToInsert(h: Header)
      reads this, tree
    {
      IdOf(h) !in tree.entries && h.round > root.round
    }

    method AddBlock(block: Block)
      requires Valid() && WellFormedBlock(block)
      modifies this, tree
      ensures Valid()
      ensures View() == Add(old(View()), block)
    {
      if !IsValidToInsert(block.header) {
        return;
      }
      AddKeepsInv(View(), block);
      AddedChild(View().blocks, block, root.id, rootChildren);
      tree.Insert(block);
      if ParentOf(block) == root.id {
        rootChildren := rootChildren + [BlockIdOf(block)];
      }
    }

    method CheckCoherent(id: BlockId) returns (r: bool)
      ensures r == IsCoherent(View(), id)
    {
      if id == root.id {
        return true;
      }
      return id in tree.entries && tree.entries[id].coherent;
    }

    method GetBlocksOnPath(id: BlockId) returns (path: Option<seq<Block>>)
      requires tree.Valid()
      ensures path == PathTo(root.id, View().blocks, id)
    {
      if id == root.id {
        return Some([]);
      }
      var blocks := [];
      var visit := id;
      ghost var bs := View().blocks;
      while visit in tree.entries
        invariant visit != root.id
        invariant HasPath(root.id, bs, id) <==> HasPath(root.id, bs, visit)
        invariant HasPath(root.id, bs, visit) ==>
                    PathTo(root.id, bs, id).value == PathTo(root.id, bs, visit).value + Reversed(blocks)
        decreases visit
      {
        var b := tree.entries[visit].block;
        WalkStep(root.id, bs, visit, blocks);
        blocks := blocks + [b];
        if ParentOf(b) == root.id {
          return Some(Reversed(blocks));
        }
        visit := ParentOf(b);
      }
      return None;
    }

    method GetParentBlockChain(id: BlockId) returns (chain: seq<Block>)
      requires Valid()
      ensures chain == ParentChain(View().blocks, id)
    {
      if id !in tree.entries {
        return [];
      }
      chain := [tree.entries[id].block];
      ghost var bs := View().blocks;
      var visit := id;
      assert chain == [] + [bs[id]] && Reversed(chain) == [bs[id]];
      hide Inv, PayloadsAgree, ChildrenAgree;
      while ParentOf(chain[|chain|-1]) in tree.entries
        invariant chain != [] && visit in bs && chain[|chain|-1] == bs[visit]
        invariant ParentChain(bs, id) == ParentChain(bs, ParentOf(bs[visit])) + Reversed(chain)
        decreases visit
      {
        visit := ParentOf(chain[|chain|-1]);
        ChainStep(bs, visit, chain);
        chain := chain + [tree.entries[visit].block];
      }
      chain := Reversed(chain);
    }

    /** Removes the path to `newRoot` from the store, newest block first.  Fails when an ancestor is
        missing or not coherent, which is exactly when `newRoot` is not joined to the root. */
    method DetachPath(newRoot: BlockId) returns (newRootEntry: Entry, r: PruneOutcome)
      requires Valid() && IsCoherent(View(), newRoot) && newRoot != root.id
      modifies tree
      ensures tree.Valid()
      ensures newRootEntry == old(tree.entries)[newRoot]
      ensures r.Done? <==> HasPath(root.id, old(View()).blocks, newRoot)
      ensures r.Done? ==>
                && Reversed(r.commit) == Committed(old(View()), newRoot)
                && tree.entries == old(tree.entries) - IdsOf(r.commit)
    {
      hide Inv, PayloadsAgree;
      ghost var f, es := View(), tree.entries;
      var removed := tree.Remove(newRoot);
      newRootEntry := removed.value;
      var entry := newRootEntry;
      ghost var visit := newRoot;
      var commit := [];
      while true
        invariant tree.Valid()
        invariant tree.entries == es - (IdsOf(commit) + {visit})
        invariant visit in f.blocks && visit != root.id && entry == es[visit]
        invariant HasPath(root.id, f.blocks, newRoot) <==> HasPath(root.id, f.blocks, visit)
        invariant HasPath(root.id, f.blocks, newRoot) ==>
                    && visit in f.coherent
                    && Committed(f, newRoot) == PathTo(root.id, f.blocks, visit).value + Reversed(commit)
        invariant forall x <- IdsOf(commit) :: Depth(visit) < Depth(x)
        decreases visit
      {
        assert entry.block == f.blocks[visit];
        if !entry.coherent {
          return newRootEntry, Panicked;
        }
        var parent := ParentOf(entry.block);
        if HasPath(root.id, f.blocks, visit) {
          CoherentParent(f, visit);
        }
        WalkStep(root.id, f.blocks, visit, commit);
        commit := commit + [entry.block];
        if parent == root.id {
          return newRootEntry, Done(commit);
        }
        removed := tree.Remove(parent);
        if removed.None? {
          return newRootEntry, Panicked;
        }
        entry := removed.value;
        visit := parent;
      }
    }

    /** Commits the path to `newRoot` and drops every block certified before it.  Fails exactly when
        `newRoot` is not coherent or not joined to the root. */
    method PruneTo(newRoot: BlockId) returns (r: PruneOutcome)
      requires Valid()
      modifies this, tree
      ensures r.Done? <==> Prunable(old(View()), newRoot)
      ensures r.Done? ==>
                && Valid()
                && View() == Prune(old(View()), newRoot)
                && r.commit == Committed(old(View()), newRoot)
    {
      var coherent := CheckCoherent(newRoot);
      if !coherent {
        return Panicked;
      }
      if newRoot == root.id {
        return Done([]);
      }
      ghost var es := tree.entries;
      var newRootEntry;
      newRootEntry, r := DetachPath(newRoot);
      if r.Panicked? {
        return;
      }
      PrunedState(root, rootChildren, es, newRoot);
      CommittedNotKept(root, es, newRoot, r.commit);
      RemoveOlder(newRootEntry.block.header.round);
      root := InfoOf(newRootEntry.block);
      rootChildren := newRootEntry.children;
      r := Done(Reversed(r.commit));
    }

    /** Drops every block whose certificate is older than `round`. */
    method RemoveOlder(round: Round)
      requires tree.Valid()
      modifies tree
      ensures tree.Valid()
      ensures tree.entries == KeptEntries(old(tree.entries), round)
    {
      ghost var es := tree.entries;
      var all := tree.entries;
      var todo := set id <- all.Keys | all[id].block.header.qc.round < round;
      ghost var older := todo;
      while todo != {}
        invariant tree.Valid() && todo <= older && tree.entries == es - (older - todo)
      {
        var id :| id in todo;
        var _ := tree.Remove(id);
        todo := todo - {id};
      }
    }

    /** Marks what the policy accepts below the first incoherent block on the path to `id`, and
        returns the blocks marked. */
    method TryUpdateCoherency(id: BlockId, policy: Policy) returns (marked: seq<Block>)
      requires Valid()
      modifies tree
      ensures Valid()
      ensures View() == UpdateCoherency(old(View()), id, policy)
      ensures IdsOf(marked) == View().coherent - old(View()).coherent
      ensures ParentsFirst(old(View()), marked)
    {
      ghost var f := View();
      marked := [];
      var path := GetBlocksOnPath(id);
      if path.None? {
        return;
      }
      var top := FirstIncoherent(View(), path.value);
      if top.None? {
        return;
      }
      UpdateKeepsInv(f, id, policy);
      StartIsFrontier(f, id);
      marked := MarkFrom(top.value, policy);
      MarkingIsNew(f, id, policy, top.value, marked);
    }

    /** Puts a block and the path it extends before the policy. */
    method CheckCoherency(id: BlockId, policy: Policy) returns (block: Block, accepted: bool)
      requires tree.Valid() && id != root.id && HasPath(root.id, BlocksIn(tree.entries), id)
      ensures id in tree.entries && block == tree.entries[id].block
      ensures accepted == Accepts(root, BlocksIn(tree.entries), policy, id)
    {
      var path := GetBlocksOnPath(id);
      var extending := path.value[..|path.value|-1];
      block := path.value[|path.value|-1];
      assert path.value == extending + [block];
      PathLast(root.id, BlocksIn(tree.entries), id, extending, block);
      accepted := policy(block, extending, root);
    }

    method MarkFrom(top: BlockId, policy: Policy) returns (marked: seq<Block>)
      requires Valid() && top in View().blocks && top !in View().coherent
      requires HasPath(root.id, View().blocks, top)
      modifies tree
      ensures tree.Valid() && ChildrenAgree(tree.entries)
      ensures View() == old(View()).(coherent := old(View()).coherent + NewlyCoherent(old(View()), policy, top))
      ensures IsMarking(old(View()), policy, top, marked)
    {
      hide Marking, IsMarking, Inv, PayloadsAgree;
      ghost var f := View();
      var queue := [top];
      marked := [];
      ghost var done: set<BlockId> := {};
      MarkStart(f, policy, top);
      while queue != []
        invariant tree.Valid() && ChildrenAgree(tree.entries)
        invariant BlocksIn(tree.entries) == f.blocks
        invariant CoherentIn(tree.entries) == f.coherent + IdsOf(marked)
        invariant Marking(f, policy, top, marked, done, queue)
        decreases f.blocks.Keys - done
      {
        var next := queue[0];
        NextHasPath(f, policy, top, marked, done, queue);
        var block, accepted := CheckCoherency(next, policy);
        var children := tree.entries[next].children;
        if accepted {
          MarkAccepted(f, policy, top, marked, done, queue, children);
          FlaggedView(tree.entries, next, true);
          var ok := tree.SetCoherent(next, true);
          assert ok;
          marked := marked + [block];
          queue := queue[1..] + children;
        } else {
          MarkRejected(f, policy, top, marked, done, queue);
          queue := queue[1..];
        }
        done := done + {next};
      }
      AllMarked(f, policy, top, marked, done);
    }

    /** The highest committable QC carried by a block joined to the root. */
    method GetHighCommittableQc() returns (high: Option<QC>)
      requires Valid()
      ensures IsHighCommittable(View(), high)
    {
      hide Inv, PayloadsAgree, IsHighAmong, FromRoot;
      ghost var f := View();
      high := None;
      var queue := rootChildren;
      ghost var done := {root.id};
      FromRootStart(f, rootChildren);
      while queue != []
        invariant FromRoot(f, done, queue) && root.id in done
        invariant IsHighAmong(f, done, high)
        decreases f.blocks.Keys - done
      {
        var id := queue[0];
        FromRootNext(f, done, queue);
        var entry := tree.entries[id];
        FromRootStep(f, done, queue, entry.children);
        queue := queue[1..] + entry.children;

        var qc := entry.block.header.qc;
        HighStep(f, done, id, high);
        done := done + {id};
        if (high.None? || high.value.round < qc.round) && qc.id in tree.entries {
          var target := CommittableId(qc, tree.entries[qc.id].block.header);
          if target.Some? && target.value != root.id {
            var coherent := CheckCoherent(target.value);
            if coherent {
              high := Some(qc);
            }
          }
        }
      }
      HighDone(f, done, high);
    }

    /** The coherent ids of a child list, and the best of them and `best`. */
    method PickCoherent(children: seq<BlockId>, best: BlockId, bestRound: Round)
      returns (picked: seq<BlockId>, better: BlockId, betterRound: Round)
      requires Valid() && bestRound == RoundIn(View(), best) && forall c <- children :: c in tree.entries
      ensures picked == CoherentOnly(View(), children)
      ensures better == best || better in picked
      ensures bestRound <= betterRound == RoundIn(View(), better)
      ensures forall x <- picked :: RoundIn(View(), x) <= betterRound
    {
      picked, better, betterRound := [], best, bestRound;
      for i := 0 to |children|
        invariant picked == CoherentOnly(View(), children[..i])
        invariant better == best || better in picked
        invariant bestRound <= betterRound == RoundIn(View(), better)
        invariant forall x <- picked :: RoundIn(View(), x) <= betterRound
      {
        assert children[..i+1][..i] == children[..i];
        var child := children[i];
        var coherent := CheckCoherent(child);
        if coherent {
          var round := tree.entries[child].block.header.round;
          if round > betterRound {
            better, betterRound := child, round;
          }
          picked := picked + [child];
        }
      }
      assert children[..|children|] == children;
    }

    /** The highest-round block among `top` and the coherent blocks below it. */
    method HighestRoundCoherentDescendant(top: BlockId) returns (best: BlockId)
      requires Valid()
      ensures IsHighestReached(View(), top, best)
      ensures Prunable(View(), top) ==> IsHighestCoherent(View(), top, best)
    {
      ghost var f := View();
      best := top;
      if top != root.id && top !in tree.entries {
        return;
      }
      hide Inv, PayloadsAgree, CoherentWave, IsHighestCoherent, IsHighestReached, IsBest;
      var bestRound := if top == root.id then root.round else tree.entries[top].block.header.round;
      var queue := [top];
      ghost var done: set<BlockId> := {};
      CoherentWaveStart(f, top);
      while queue != []
        invariant CoherentWave(f, top, done, queue)
        invariant IsBest(f, done, queue, best) && bestRound == RoundIn(f, best)
        decreases f.blocks.Keys + {top} - done
      {
        var id := queue[0];
        CoherentWaveNext(f, top, done, queue);
        var children := if id == root.id then rootChildren else tree.entries[id].children;
        CoherentWaveStep(f, top, done, queue, children);
        var picked, better, betterRound := PickCoherent(children, best, bestRound);
        BestStep(f, done, queue, best, picked, better);
        best, bestRound := better, betterRound;
        queue := queue[1..] + picked;
        done := done + {id};
      }
      BestIsHighest(f, top, done, best);
      if Prunable(f, top) {
        ReachedIsHighest(f, top, best);
      }
    }

    /** The last coherent block of a path. */
    method LastCoherent(path: seq<Block>) returns (r: Option<BlockId>)
      requires Valid()
      ensures r.None? ==> forall b <- path :: !IsCoherent(View(), BlockIdOf(b))
      ensures r.Some? ==> exists i :: IsLastCoherentAt(View(), path, i) && r.value == BlockIdOf(path[i])
    {
      var i := |path|;
      while i > 0
        invariant 0 <= i <= |path|
        invariant forall j | i <= j < |path| :: !IsCoherent(View(), BlockIdOf(path[j]))
      {
        i := i - 1;
        var coherent := CheckCoherent(BlockIdOf(path[i]));
        if coherent {
          assert IsLastCoherentAt(View(), path, i);
          return Some(BlockIdOf(path[i]));
        }
      }
      return None;
    }

    /** The block to extend: the highest coherent block on the chain that `qc` certifies. */
    method GetCanonicalCoherentTip(qc: QC) returns (tip: BlockId)
      requires Valid()
      ensures IsCanonicalTip(View(), qc, tip)
    {
      hide Inv, PayloadsAgree, IsHighestCoherent;
      var path := GetBlocksOnPath(qc.id);
      if path.None? {
        tip := HighestRoundCoherentDescendant(root.id);
        return;
      }
      var last := LastCoherent(path.value);
      TipCases(View(), qc.id, last);
      if last.None? {
        return root.id;
      }
      if last.value == qc.id {
        tip := HighestRoundCoherentDescendant(qc.id);
      } else {
        tip := last.value;
      }
    }

    /** The range to request so that the chain behind `qc` reaches the root. */
    method MaybeFillPathToRoot(qc: QC) returns (r: FillResult)
      requires Valid()
      ensures IsFill(View(), qc, r)
    {
      hide Inv, PayloadsAgree;
      if root.round >= qc.round || root.id == qc.id {
        return NothingToFill;
      }
      ghost var f := View();
      var visit, num := qc.id, 1;
      while visit in tree.entries
        invariant visit != root.id && num >= 1
        invariant HasPath(root.id, f.blocks, qc.id) <==> HasPath(root.id, f.blocks, visit)
        invariant Missing(root.id, f.blocks, qc.id) == Missing(root.id, f.blocks, visit)
        invariant SeqNumsAbove(f, qc.id) <==> SeqNumsAbove(f, visit)
        invariant FillNumber(f, qc.id) == if visit in f.blocks then FillNumber(f, visit) else num
        decreases visit
      {
        var header := tree.entries[visit].block.header;
        assert f.blocks[visit].header == header;
        if header.qc.id == root.id {
          assert HasPath(root.id, f.blocks, root.id);
          return NothingToFill;
        }
        if header.seqNum < root.seqNum {
          return Underflow;
        }
        visit := header.qc.id;
        num := (if header.seqNum - root.seqNum > 2 then header.seqNum - root.seqNum else 2) - 1;
      }
      return Request(BlockRange(visit, num));
    }
  }
}
