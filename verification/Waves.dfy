/** Breadth-first traversal of a forest through child lists: what the queue and the set of
    visited blocks amount to at each turn of the loop. */
module Waves {
  import opened Blocks
  import opened Forests
  import opened Trees
  import opened Sequences

  /** The traversal started at `top`; the children of the `expanded` blocks have been queued.
      Then the blocks done or still queued are exactly `top` and the children of expanded
      blocks, each once. */
  ghost predicate Wave(bs: BlockMap, top: BlockId, expanded: set<BlockId>, done: set<BlockId>, queue: seq<BlockId>) {
    && expanded <= done
    && NoDup(queue)
    && (forall x <- queue :: x !in done)
    && (forall x <- done :: Depth(top) <= Depth(x))
    && (forall x :: x in done || x in queue <==> x == top || (x in bs && ParentOf(bs[x]) in expanded))
  }

  lemma WaveStart(bs: BlockMap, top: BlockId)
    ensures Wave(bs, top, {}, {}, [top])
  {
  }

  lemma HeadTail<T>(s: seq<T>)
    requires NoDup(s) && s != []
    ensures NoDup(s[1..]) && s[0] !in s[1..]
    ensures forall x :: x in s <==> x == s[0] || x in s[1..]
  {
    assert s == [s[0]] + s[1..];
  }

  /** One turn: the head of the queue is done but not expanded. */
  lemma WaveSkip(bs: BlockMap, top: BlockId, expanded: set<BlockId>, done: set<BlockId>, queue: seq<BlockId>)
    requires Keyed(bs) && Wave(bs, top, expanded, done, queue) && queue != []
    ensures Wave(bs, top, expanded, done + {queue[0]}, queue[1..])
  {
    HeadTail(queue);
    var x := queue[0];
    assert x != top ==> Depth(top) < Depth(x);
  }

  /** One turn: the head of the queue is done and its children are queued. */
  lemma WaveExpand(bs: BlockMap, top: BlockId, expanded: set<BlockId>, done: set<BlockId>, queue: seq<BlockId>,
                   children: seq<BlockId>)
    requires Keyed(bs) && Wave(bs, top, expanded, done, queue) && queue != []
    requires ListsChildren(bs, queue[0], children)
    ensures Wave(bs, top, expanded + {queue[0]}, done + {queue[0]}, queue[1..] + children)
  {
    WaveSkip(bs, top, expanded, done, queue);
    var x := queue[0];
    forall c <- children
      ensures c != top && c !in done + {x} && c !in queue[1..]
    {
      assert Depth(c) == Depth(x) + 1;
    }
    NoDupConcat(queue[1..], children);
  }

  /** Everything met lies below `top`. */
  lemma {:induction false} WaveSound(bs: BlockMap, top: BlockId, expanded: set<BlockId>, done: set<BlockId>,
                                     queue: seq<BlockId>, x: BlockId)
    requires Keyed(bs) && Wave(bs, top, expanded, done, queue)
    requires x in done || x in queue
    ensures HasPath(top, bs, x)
    decreases x
  {
    if x != top {
      WaveSound(bs, top, expanded, done, queue, ParentOf(bs[x]));
    }
  }

  /** When the queue runs dry with everything expanded, everything below `top` was met. */
  lemma {:induction false} WaveComplete(bs: BlockMap, top: BlockId, done: set<BlockId>, x: BlockId)
    requires Keyed(bs) && Wave(bs, top, done, done, []) && HasPath(top, bs, x)
    ensures x in done
    decreases x
  {
    if x != top {
      WaveComplete(bs, top, done, ParentOf(bs[x]));
    }
  }
}
