/** What adding, updating and committing do to the block tree, said of the paths, certificates and
    rounds of the blocks alone. */
module ForestEffects {
  import opened Blocks
  import opened Forests
  import opened ForestQueries
  import opened ForestAgreement

  // ---------------------------------------------------------------- adding, in any order

  lemma SameId(a: Block, b: Block)
    requires WellFormedBlock(a) && WellFormedBlock(b) && BlockIdOf(a) == BlockIdOf(b)
    ensures a == b
  {
  }

  /** Whatever its parent, a block above the root's round is in the tree once it was added, and
      nothing else changes. */
  lemma AddExact(f: Forest, b: Block)
    requires Inv(f) && WellFormedBlock(b)
    ensures var g := Add(f, b);
            && g.root == f.root && g.coherent == f.coherent
            && (forall x :: x in g.blocks <==> x in f.blocks || (x == BlockIdOf(b) && b.header.round > f.root.round))
            && (b.header.round > f.root.round ==> g.blocks[BlockIdOf(b)] == b)
            && (forall x <- f.blocks :: g.blocks[x] == f.blocks[x])
  {
    if BlockIdOf(b) in f.blocks {
      SameId(f.blocks[BlockIdOf(b)], b);
    }
  }

  /** After adding a list of blocks the tree holds what it held, and the blocks of the list above the
      root's round. */
  lemma {:induction false} AddAllExact(f: Forest, blocks: seq<Block>, b: Block)
    requires Inv(f) && WellFormedBlock(b) && forall x <- blocks :: WellFormedBlock(x)
    ensures var g := AddAll(f, blocks);
            && Inv(g) && g.root == f.root && g.coherent == f.coherent
            && (BlockIdOf(b) in g.blocks <==>
                  BlockIdOf(b) in f.blocks || (b in blocks && b.header.round > f.root.round))
    decreases |blocks|
  {
    AddAllKeeps(f, blocks);
    if blocks != [] {
      var init, last := blocks[..|blocks|-1], blocks[|blocks|-1];
      assert blocks == init + [last] && last in blocks;
      AddAllExact(f, init, b);
      AddExact(AddAll(f, init), last);
      if BlockIdOf(last) == BlockIdOf(b) {
        SameId(last, b);
      }
    }
  }

  predicate Within(bs: BlockMap, more: BlockMap) {
    forall x <- bs :: x in more && more[x] == bs[x]
  }

  lemma AddedWithin(f: Forest, xs: seq<Block>, ys: seq<Block>)
    requires Inv(f) && (forall b <- ys :: WellFormedBlock(b)) && forall b <- xs :: b in ys
    ensures Within(AddAll(f, xs).blocks, AddAll(f, ys).blocks)
  {
    var g, h := AddAll(f, xs), AddAll(f, ys);
    AddAllKeeps(f, xs);
    AddAllKeeps(f, ys);
    forall x <- g.blocks
      ensures x in h.blocks && h.blocks[x] == g.blocks[x]
    {
      AddAllExact(f, xs, g.blocks[x]);
      AddAllExact(f, ys, g.blocks[x]);
      SameId(g.blocks[x], h.blocks[x]);
    }
  }

  lemma WithinBoth(bs: BlockMap, more: BlockMap)
    requires Within(bs, more) && Within(more, bs)
    ensures bs == more
  {
    assert forall x :: x in bs <==> x in more;
  }

  /** Neither the order in which blocks arrive nor repetitions matter. */
  lemma AddOrderIrrelevant(f: Forest, xs: seq<Block>, ys: seq<Block>)
    requires Inv(f) && (forall b <- xs :: WellFormedBlock(b)) && forall b :: b in xs <==> b in ys
    ensures AddAll(f, xs) == AddAll(f, ys)
  {
    AddedWithin(f, xs, ys);
    AddedWithin(f, ys, xs);
    AddAllKeeps(f, xs);
    AddAllKeeps(f, ys);
    WithinBoth(AddAll(f, xs).blocks, AddAll(f, ys).blocks);
  }

  // ---------------------------------------------------------------- updating

  /** The policy accepts every block of the path from `i` on against those before it. */
  predicate AcceptedFrom(root: RootInfo, policy: Policy, path: seq<Block>, i: nat) {
    forall j | i <= j < |path| :: policy(path[j], path[..j], root)
  }

  /** The blocks of a path before `i` are coherent and that at `i` is not. */
  predicate FrontierAt(f: Forest, path: seq<Block>, i: nat) {
    i < |path| && AllCoherent(f, path[..i]) && !IsCoherent(f, BlockIdOf(path[i]))
  }

  lemma FrontierPoint(f: Forest, path: seq<Block>, i: nat)
    requires FrontierAt(f, path, i)
    ensures i < |path| && !IsCoherent(f, BlockIdOf(path[i]))
  {
  }

  lemma {:induction false} FirstIncoherentIs(f: Forest, path: seq<Block>, i: nat)
    requires FrontierAt(f, path, i)
    ensures FirstIncoherent(f, path) == Some(BlockIdOf(path[i]))
    decreases |path|
  {
    var init := path[..|path|-1];
    assert path == init + [path[|path|-1]];
    if i < |init| {
      assert init[..i] == path[..i];
      FirstIncoherentIs(f, init, i);
    } else {
      assert path[..i] == init;
    }
  }

  /** The path to a block of a path is the part up to it. */
  lemma {:induction false} PathPrefix(root: BlockId, bs: BlockMap, id: BlockId, i: nat)
    requires Keyed(bs) && HasPath(root, bs, id) && i < |PathTo(root, bs, id).value|
    ensures var path := PathTo(root, bs, id).value;
            && BlockIdOf(path[i]) in bs && BlockIdOf(path[i]) != root && bs[BlockIdOf(path[i])] == path[i]
            && PathTo(root, bs, BlockIdOf(path[i])) == Some(path[..i + 1])
            && PathTo(root, bs, ParentOf(path[i])) == Some(path[..i])
    decreases id
  {
    var path := PathTo(root, bs, id).value;
    var up := PathTo(root, bs, ParentOf(bs[id])).value;
    assert path == up + [bs[id]];
    if i < |up| {
      assert up[..i] == path[..i] && up[..i + 1] == path[..i + 1] && up[i] == path[i];
      PathPrefix(root, bs, ParentOf(bs[id]), i);
    } else {
      assert path[..i] == up && path[..i + 1] == path;
    }
  }

  /** `x` is reached over the block at `i` of `path`, and accepted from there on. */
  predicate ReachedOver(f: Forest, policy: Policy, path: seq<Block>, i: nat, x: BlockId)
    requires Keyed(f.blocks) && i < |path|
  {
    match PathTo(f.root.id, f.blocks, x)
    case None => false
    case Some(q) => path[..i + 1] <= q && AcceptedFrom(f.root, policy, q, i)
  }

  lemma ReachedOnPath(f: Forest, id: BlockId, policy: Policy, i: nat, k: nat)
    requires Keyed(f.blocks) && HasPath(f.root.id, f.blocks, id) && i <= k < |PathTo(f.root.id, f.blocks, id).value|
    ensures var path := PathTo(f.root.id, f.blocks, id).value;
            ReachedOver(f, policy, path, i, BlockIdOf(path[k])) <==>
              forall j | i <= j <= k :: policy(path[j], path[..j], f.root)
  {
    var path := PathTo(f.root.id, f.blocks, id).value;
    PathPrefix(f.root.id, f.blocks, id, k);
    hide PathTo;
    var q := path[..k + 1];
    assert q[..i + 1] == path[..i + 1];
    assert forall j | 0 <= j <= k :: q[j] == path[j] && q[..j] == path[..j];
  }

  lemma {:induction false} MarksIff(f: Forest, id: BlockId, policy: Policy, i: nat, x: BlockId)
    requires BlocksOk(f) && HasPath(f.root.id, f.blocks, id) && i < |PathTo(f.root.id, f.blocks, id).value|
    ensures var path := PathTo(f.root.id, f.blocks, id).value;
            Marks(f, policy, BlockIdOf(path[i]), x) <==> ReachedOver(f, policy, path, i, x)
    decreases x
  {
    var root, bs := f.root.id, f.blocks;
    var path := PathTo(root, bs, id).value;
    var top := BlockIdOf(path[i]);
    PathPrefix(root, bs, id, i);
    RootNotInTree(f);
    if x in bs && HasPath(root, bs, x) {
      var q := PathTo(root, bs, x).value;
      var up := PathTo(root, bs, ParentOf(bs[x])).value;
      assert q == up + [bs[x]] && q[..|up|] == up;
      if x == top {
        ReachedOnPath(f, id, policy, i, i);
        assert up == path[..i];
      } else {
        MarksIff(f, id, policy, i, ParentOf(bs[x]));
        MarksStep(f, policy, path, i, x);
      }
    }
  }

  lemma MarksStep(f: Forest, policy: Policy, path: seq<Block>, i: nat, x: BlockId)
    requires Keyed(f.blocks) && f.root.id !in f.blocks && i < |path| && x in f.blocks && BlockIdOf(path[i]) != x
    requires HasPath(f.root.id, f.blocks, x)
    ensures ReachedOver(f, policy, path, i, x) <==>
              Accepts(f.root, f.blocks, policy, x) && ReachedOver(f, policy, path, i, ParentOf(f.blocks[x]))
  {
    var q := PathTo(f.root.id, f.blocks, x).value;
    var up := PathTo(f.root.id, f.blocks, ParentOf(f.blocks[x])).value;
    assert q == up + [f.blocks[x]] && q[..|up|] == up;
    assert forall j | 0 <= j < |up| :: up[..j] == q[..j];
    if path[..i + 1] <= q {
      assert path[..i + 1][i] == path[i] && q[i] == path[i];
      assert i < |up|;
      assert q[..i + 1] == up[..i + 1];
    }
  }

  /** The whole effect of an update: when the first incoherent block on the path to `id` stands at
      `i`, exactly the blocks that are reached over it and accepted from there on become coherent. */
  lemma UpdateExact(f: Forest, id: BlockId, policy: Policy, i: nat, x: BlockId)
    requires Inv(f) && HasPath(f.root.id, f.blocks, id) && FrontierAt(f, PathTo(f.root.id, f.blocks, id).value, i)
    ensures var (g, path) := (UpdateCoherency(f, id, policy), PathTo(f.root.id, f.blocks, id).value);
            && g.root == f.root && g.blocks == f.blocks
            && (x in g.coherent <==> x in f.coherent || ReachedOver(f, policy, path, i, x))
  {
    var path := PathTo(f.root.id, f.blocks, id).value;
    FirstIncoherentIs(f, path, i);
    MarksIff(f, id, policy, i, x);
  }

  /** The update is a fixpoint: it revokes nothing, touches only what lies above the first incoherent
      block of the path, and there a block is coherent exactly when its parent is (or is the root) and
      the policy accepts it against its path. */
  lemma FixpointAbove(f: Forest, id: BlockId, policy: Policy, i: nat, x: BlockId)
    requires Inv(f) && HasPath(f.root.id, f.blocks, id) && FrontierAt(f, PathTo(f.root.id, f.blocks, id).value, i)
    ensures var g := UpdateCoherency(f, id, policy);
            var top := BlockIdOf(PathTo(f.root.id, f.blocks, id).value[i]);
            && f.coherent <= g.coherent
            && (!HasPath(top, f.blocks, x) ==> (x in g.coherent <==> x in f.coherent))
            && (HasPath(top, f.blocks, x) ==>
                  (x in g.coherent <==> Accepts(f.root, f.blocks, policy, x) && IsCoherent(g, ParentOf(f.blocks[x]))))
  {
    FirstIncoherentIs(f, PathTo(f.root.id, f.blocks, id).value, i);
    UpdateFixpoint(f, id, policy, x);
  }

  /** Without a path, or with a coherent one, an update does nothing. */
  lemma UpdateIdle(f: Forest, id: BlockId, policy: Policy)
    requires Keyed(f.blocks)
    requires HasPath(f.root.id, f.blocks, id) ==> AllCoherent(f, PathTo(f.root.id, f.blocks, id).value)
    ensures UpdateCoherency(f, id, policy) == f
  {
  }

  /** On the path to `id`, whose first incoherent block stands at `i`, a later block becomes coherent
      iff the policy accepts it and all blocks from `i` on against those before them. */
  lemma PathDecided(f: Forest, id: BlockId, policy: Policy, i: nat, k: nat)
    requires Inv(f) && HasPath(f.root.id, f.blocks, id) && FrontierAt(f, PathTo(f.root.id, f.blocks, id).value, i)
    requires i <= k < |PathTo(f.root.id, f.blocks, id).value|
    ensures var path := PathTo(f.root.id, f.blocks, id).value;
            BlockIdOf(path[k]) in UpdateCoherency(f, id, policy).coherent <==>
              forall j | i <= j <= k :: policy(path[j], path[..j], f.root)
  {
    var path := PathTo(f.root.id, f.blocks, id).value;
    PathPrefix(f.root.id, f.blocks, id, k);
    BelowFrontier(f, id, i, k);
    UpdateExact(f, id, policy, i, BlockIdOf(path[k]));
    ReachedOnPath(f, id, policy, i, k);
  }

  lemma {:induction false} FrontierExists(f: Forest, path: seq<Block>) returns (i: nat)
    requires !AllCoherent(f, path)
    ensures FrontierAt(f, path, i)
    decreases |path|
  {
    var init := path[..|path|-1];
    assert path == init + [path[|path|-1]];
    if AllCoherent(f, init) {
      i := |init|;
    } else {
      i := FrontierExists(f, init);
      assert init[..i] == path[..i];
    }
  }

  /** If the policy accepts every incoherent block of the path against those before it, the block
      asked for is coherent afterwards. */
  lemma UpdateReaches(f: Forest, id: BlockId, policy: Policy)
    requires Inv(f) && HasPath(f.root.id, f.blocks, id)
    requires var path := PathTo(f.root.id, f.blocks, id).value;
             forall j | 0 <= j < |path| && !IsCoherent(f, BlockIdOf(path[j])) :: policy(path[j], path[..j], f.root)
    ensures IsCoherent(UpdateCoherency(f, id, policy), id)
  {
    var path := PathTo(f.root.id, f.blocks, id).value;
    PathIsChain(f.root.id, f.blocks, id);
    hide PathTo, Inv, UpdateCoherency, IsChain, FrontierAt;
    if AllCoherent(f, path) {
      UpdateIdle(f, id, policy);
      assert path != [] ==> path[|path|-1] in path;
    } else {
      var i := FrontierExists(f, path);
      assert i < |path| && !IsCoherent(f, BlockIdOf(path[i])) by {
        FrontierPoint(f, path, i);
      }
      forall j | i <= j < |path|
        ensures policy(path[j], path[..j], f.root)
      {
        BelowFrontier(f, id, i, j);
      }
      PathDecided(f, id, policy, i, |path| - 1);
    }
  }

  /** Nothing on the path after an incoherent block is coherent. */
  lemma {:induction false} BelowFrontier(f: Forest, id: BlockId, i: nat, j: nat)
    requires Inv(f) && HasPath(f.root.id, f.blocks, id)
    requires i <= j < |PathTo(f.root.id, f.blocks, id).value|
    requires !IsCoherent(f, BlockIdOf(PathTo(f.root.id, f.blocks, id).value[i]))
    ensures !IsCoherent(f, BlockIdOf(PathTo(f.root.id, f.blocks, id).value[j]))
    decreases j
  {
    if i < j {
      var path := PathTo(f.root.id, f.blocks, id).value;
      BelowFrontier(f, id, i, j - 1);
      PathPrefix(f.root.id, f.blocks, id, j);
      PathPrefix(f.root.id, f.blocks, id, j - 1);
      PathDescends(f.root.id, f.blocks, BlockIdOf(path[j]));
      PathIsChain(f.root.id, f.blocks, ParentOf(path[j]));
    }
  }

  /** A chain above the root, added in any order: one update makes its end coherent if the policy
      accepts each block against those before it. */
  lemma ChainInAnyOrder(f: Forest, chain: seq<Block>, arrived: seq<Block>, policy: Policy)
    requires Inv(f) && IsChain(f.root.id, chain) && (forall b <- chain :: WellFormedBlock(b))
    requires forall b :: b in arrived <==> b in chain
    requires AcceptedFrom(f.root, policy, chain, 0)
    ensures Inv(AddAll(f, arrived))
    ensures IsCoherent(UpdateCoherency(AddAll(f, arrived), ChainEnd(f.root.id, chain), policy),
                       ChainEnd(f.root.id, chain))
  {
    AddOrderIrrelevant(f, arrived, chain);
    ChainAdded(f, chain);
    AddAllKeeps(f, chain);
    var g, id := AddAll(f, chain), ChainEnd(f.root.id, chain);
    ChainIsPath(g, chain);
    UpdateReaches(g, id, policy);
  }

  lemma ChainIsPath(f: Forest, chain: seq<Block>)
    requires Inv(f) && IsChain(f.root.id, chain) && (forall b <- chain :: WellFormedBlock(b))
    requires HasPath(f.root.id, f.blocks, ChainEnd(f.root.id, chain))
    ensures PathTo(f.root.id, f.blocks, ChainEnd(f.root.id, chain)) == Some(chain)
  {
    var path := PathTo(f.root.id, f.blocks, ChainEnd(f.root.id, chain)).value;
    PathIsChain(f.root.id, f.blocks, ChainEnd(f.root.id, chain));
    ChainUnique(f.root.id, path, chain);
  }

  // ---------------------------------------------------------------- committing

  /** The certificate is from the round after that of the certified block's own, and the block that
      one certifies is coherent. */
  predicate Commits(f: Forest, qc: QC)
    requires Keyed(f.blocks)
  {
    && qc.id in f.blocks
    && qc.round == f.blocks[qc.id].header.qc.round + 1
    && IsCoherent(f, f.blocks[qc.id].header.qc.id)
  }

  /** A certificate that commits a block makes it the root and yields the chain up to it, unless the
      block is not joined to the root; any other certificate does nothing. */
  lemma CommitExact(f: Forest, qc: QC)
    requires Inv(f)
    ensures CommitPanics(f, qc) <==> Commits(f, qc) && !HasPath(f.root.id, f.blocks, f.blocks[qc.id].header.qc.id)
    ensures !CommitPanics(f, qc) && Commits(f, qc) ==>
              && Commit(f, qc).root.id == f.blocks[qc.id].header.qc.id
              && IsChain(f.root.id, CommitOutput(f, qc))
              && ChainEnd(f.root.id, CommitOutput(f, qc)) == f.blocks[qc.id].header.qc.id
    ensures !Commits(f, qc) ==> Commit(f, qc) == f && CommitOutput(f, qc) == []
  {
    if Commits(f, qc) && !CommitPanics(f, qc) {
      PathIsChain(f.root.id, f.blocks, f.blocks[qc.id].header.qc.id);
    }
  }

  /** `x` is joined to the root and a commit on the certificate it carries changes the tree. */
  predicate Advances(f: Forest, x: BlockId)
    requires Keyed(f.blocks)
  {
    && x in f.blocks && HasPath(f.root.id, f.blocks, x)
    && !CommitPanics(f, f.blocks[x].header.qc) && Commit(f, f.blocks[x].header.qc) != f
  }

  lemma CandidateAdvances(f: Forest, x: BlockId)
    requires Inv(f)
    ensures Candidate(f, x) <==> Advances(f, x)
    ensures x in f.blocks && HasPath(f.root.id, f.blocks, x) ==> !CommitPanics(f, f.blocks[x].header.qc)
  {
    RootNotInTree(f);
    if x in f.blocks && HasPath(f.root.id, f.blocks, x) {
      assert HasPath(f.root.id, f.blocks, ParentOf(f.blocks[x]));
    }
  }

  /** The highest committable certificate is one of greatest round among those, carried by blocks
      joined to the root, on which a commit changes the tree; there is none iff no commit does. */
  lemma HighCommittableIff(f: Forest, r: Option<QC>)
    requires Inv(f)
    ensures IsHighCommittable(f, r) <==>
              match r
              case None => forall x <- f.blocks :: !Advances(f, x)
              case Some(qc) =>
                && (exists x <- f.blocks :: Advances(f, x) && f.blocks[x].header.qc == qc)
                && (forall x <- f.blocks | Advances(f, x) :: f.blocks[x].header.qc.round <= qc.round)
  {
    hide Candidate, Advances;
    forall x <- f.blocks
      ensures Candidate(f, x) <==> Advances(f, x)
    {
      CandidateAdvances(f, x);
    }
    match r
    case None =>
    case Some(qc) =>
      if x :| x in f.blocks && Candidate(f, x) && f.blocks[x].header.qc == qc {
        assert Advances(f, x) && f.blocks[x].header.qc == qc;
      }
  }

  // ---------------------------------------------------------------- filling the path

  /** The chain of known blocks behind a block goes as far as blocks are known. */
  lemma {:induction false} ParentChainMaximal(bs: BlockMap, id: BlockId)
    requires Keyed(bs) && id in bs
    ensures var chain := ParentChain(bs, id);
            && chain != [] && IsChain(ParentOf(chain[0]), chain) && ChainEnd(id, chain) == id
            && ParentOf(chain[0]) !in bs
            && forall b <- chain :: BlockIdOf(b) in bs && bs[BlockIdOf(b)] == b
    decreases id
  {
    var up := ParentChain(bs, ParentOf(bs[id]));
    if ParentOf(bs[id]) in bs {
      ParentChainMaximal(bs, ParentOf(bs[id]));
    } else {
      assert up == [];
      assert IsChain(ParentOf(bs[id]), []);
    }
    ChainSnoc(if up == [] then ParentOf(bs[id]) else ParentOf(up[0]), up, bs[id]);
  }

  lemma {:induction false} LastKnownIsFirst(f: Forest, id: BlockId)
    requires Keyed(f.blocks) && f.root.id !in f.blocks && id in f.blocks
    ensures ParentChain(f.blocks, id) != []
    ensures BlockIdOf(ParentChain(f.blocks, id)[0]) == LastKnown(f.root.id, f.blocks, id)
    ensures Missing(f.root.id, f.blocks, id) == ParentOf(ParentChain(f.blocks, id)[0])
    decreases id
  {
    var p := ParentOf(f.blocks[id]);
    if p in f.blocks {
      LastKnownIsFirst(f, p);
    } else {
      assert ParentChain(f.blocks, p) == [];
    }
  }

  lemma {:induction false} SeqNumsAboveIff(f: Forest, id: BlockId)
    requires Keyed(f.blocks) && f.root.id !in f.blocks
    ensures SeqNumsAbove(f, id) <==>
              forall b <- ParentChain(f.blocks, id) | ParentOf(b) != f.root.id :: b.header.seqNum >= f.root.seqNum
    decreases id
  {
    if id in f.blocks {
      var p := ParentOf(f.blocks[id]);
      SeqNumsAboveIff(f, p);
      if p == f.root.id {
        assert ParentChain(f.blocks, p) == [];
      }
    }
  }

  /** The answer to "what is missing below this certificate", from the chain of known blocks behind
      it: the parent of the first of them, and as many blocks as its number is above the root's, less
      one, but at least one; of an unknown block, that block alone. */
  lemma FillExact(f: Forest, qc: QC, r: FillResult)
    requires Inv(f) && IsFill(f, qc, r)
    ensures f.root.round >= qc.round || qc.id == f.root.id ==> r == NothingToFill
    ensures f.root.round < qc.round && qc.id != f.root.id && qc.id !in f.blocks ==>
              r == FillResult.Request(BlockRange(qc.id, 1))
    ensures f.root.round < qc.round && qc.id in f.blocks ==>
              var chain := ParentChain(f.blocks, qc.id);
              && chain != []
              && (r == Underflow <==>
                    exists b <- chain :: ParentOf(b) != f.root.id && b.header.seqNum < f.root.seqNum)
              && (r.Request? ==>
                    var above := chain[0].header.seqNum - f.root.seqNum;
                    && ParentOf(chain[0]) != f.root.id
                    && r.range == BlockRange(ParentOf(chain[0]), if above > 2 then above - 1 else 1))
              && (r == NothingToFill ==> ParentOf(chain[0]) == f.root.id)
  {
    RootNotInTree(f);
    MissingIsRoot(f.root.id, f.blocks, qc.id);
    if qc.id in f.blocks {
      LastKnownIsFirst(f, qc.id);
      SeqNumsAboveIff(f, qc.id);
      ParentChainMaximal(f.blocks, qc.id);
    }
  }

  // ---------------------------------------------------------------- the canonical tip

  lemma LastCoherentIs(f: Forest, path: seq<Block>, r: BlockId, i: nat)
    requires i <= |path| && AllCoherent(f, path[..i])
    requires forall j | i <= j < |path| :: !IsCoherent(f, BlockIdOf(path[j]))
    ensures IsLastCoherent(f, path, r) <==> r == ChainEnd(f.root.id, path[..i])
  {
    if i > 0 {
      var last := path[i - 1];
      assert path[..i][i - 1] == last && last in path[..i] && last in path;
      assert IsLastCoherentAt(f, path, i - 1);
      forall k | IsLastCoherentAt(f, path, k)
        ensures k == i - 1
      {
      }
    }
  }

  /** When the chain to the certified block has an incoherent block, the tip is what comes before the
      first such block. */
  lemma TipBeforeFrontier(f: Forest, qc: QC, r: BlockId, i: nat)
    requires Inv(f) && HasPath(f.root.id, f.blocks, qc.id) && FrontierAt(f, PathTo(f.root.id, f.blocks, qc.id).value, i)
    ensures IsCanonicalTip(f, qc, r) <==> r == ChainEnd(f.root.id, PathTo(f.root.id, f.blocks, qc.id).value[..i])
  {
    var path := PathTo(f.root.id, f.blocks, qc.id).value;
    PathIsChain(f.root.id, f.blocks, qc.id);
    hide PathTo, IsLastCoherent, IsHighestCoherent, IsChain, CoherentClosed, BlocksOk;
    forall j | i <= j < |path|
      ensures !IsCoherent(f, BlockIdOf(path[j]))
    {
      BelowFrontier(f, qc.id, i, j);
    }
    LastCoherentIs(f, path, r, i);
  }

  /** Otherwise it is the certified block or a coherent block above it, and of the highest round among
      those; without a path to the certified block, likewise of the root. */
  lemma TipAbove(f: Forest, qc: QC, r: BlockId)
    requires Inv(f) && IsCanonicalTip(f, qc, r)
    requires HasPath(f.root.id, f.blocks, qc.id) ==> qc.id != f.root.id && IsCoherent(f, qc.id)
    ensures var base := if HasPath(f.root.id, f.blocks, qc.id) then qc.id else f.root.id;
            && (r == base || (r in f.coherent && Descends(r, base)))
            && forall x <- f.coherent | Descends(x, base) :: RoundIn(f, x) <= RoundIn(f, r)
  {
    var base := if HasPath(f.root.id, f.blocks, qc.id) then qc.id else f.root.id;
    if r != base {
      PathDescends(base, f.blocks, r);
    }
    forall x <- f.coherent | Descends(x, base)
      ensures HasPath(base, f.blocks, x)
    {
      JoinedToBase(f, base, x);
    }
  }

  lemma {:induction false} JoinedToBase(f: Forest, base: BlockId, x: BlockId)
    requires Inv(f) && x in f.coherent && Descends(x, base)
    requires base == f.root.id || (HasPath(f.root.id, f.blocks, base) && base in f.blocks)
    ensures HasPath(base, f.blocks, x)
    decreases x
  {
    var p := ParentOf(f.blocks[x]);
    if p != base {
      if base != f.root.id {
        PathDescends(f.root.id, f.blocks, base);
        DescendsTransitive(x, base, f.root.id);
        if p == f.root.id {
          DescendsDeeper(p, base);
          DescendsDeeper(base, p);
          assert false;
        }
      }
      JoinedToBase(f, base, p);
    }
  }

  /** A certificate of the root has the root as its tip. */
  lemma TipOfRoot(f: Forest, qc: QC, r: BlockId)
    requires Keyed(f.blocks) && qc.id == f.root.id
    ensures IsCanonicalTip(f, qc, r) <==> r == f.root.id
  {
  }
}
