/** Building a signature collection: deduplicating what was submitted, aggregating it in a heap
    and, if the aggregate does not verify, reporting whom to blame. */
module SignatureCollections {
  import opened Groups
  import opened AggregationTrees
  import opened Blocks

  // ---------------------------------------------------------------- the heap

  ghost predicate IsHeap<G(!new)>(v: Validators<G>, m: map<NodeId, G>, sigs: seq<(NodeId, G)>, nodes: seq<Node<G>>) {
    && |nodes| == 2 * |sigs| - 1
    && forall i | 0 <= i < |nodes| :: nodes[i] == HeapNode(v, m, sigs, i)
  }

  function EmptyNode<G(!new)>(v: Validators<G>): Node<G> {
    Node(seq(|v.ids|, _ => false), v.group.zero)
  }

  ghost predicate IndexOk<G(!new)>(v: Validators<G>, index: map<NodeId, nat>) {
    forall id <- v.ids :: id in index && index[id] < |v.ids| && v.ids[index[id]] == id
  }

  lemma OneHotCount(mask: seq<bool>, k: nat)
    requires k < |mask| && forall i | 0 <= i < |mask| :: mask[i] <==> i == k
    ensures Ones(mask) == 1
  {
    var n := |mask| - 1;
    if k == n {
      OnesPositive(mask[..n]);
    } else {
      OneHotCount(mask[..n], k);
    }
  }

  /** Setting the bit and adding the signature turns an empty node into the leaf. */
  lemma FilledLeaf<G(!new)>(v: Validators<G>, m: map<NodeId, G>, sigs: seq<(NodeId, G)>, j: nat, k: nat)
    requires ValidatorsOk(v) && Lists(v, m, sigs) && j < |sigs| && k < |v.ids| && v.ids[k] == sigs[j].0
    ensures Node(EmptyNode(v).signers[k := true], v.group.add(EmptyNode(v).sig, sigs[j].1))
         == HeapNode(v, m, sigs, |sigs| - 1 + j)
  {
    hide Abelian;
    LeafNode(v, m, sigs, j, k);
    Unit(v.group, sigs[j].1);
    assert EmptyNode(v).signers[k := true] == HeapNode(v, m, sigs, |sigs| - 1 + j).signers;
  }

  lemma FilledInner<G(!new)>(v: Validators<G>, m: map<NodeId, G>, sigs: seq<(NodeId, G)>, i: nat)
    requires ValidatorsOk(v) && Lists(v, m, sigs) && i < |sigs| - 1
    ensures var a, b := HeapNode(v, m, sigs, 2 * i + 1), HeapNode(v, m, sigs, 2 * i + 2);
            && |a.signers| == |b.signers| && Disjoint(a.signers, b.signers)
            && HeapNode(v, m, sigs, i) == Node(Or(a.signers, b.signers), v.group.add(a.sig, b.sig))
  {
    hide Abelian;
    var l, r := Leaves(|sigs|, 2 * i + 1), Leaves(|sigs|, 2 * i + 2);
    ChildLeavesDisjoint(|sigs|, i);
    MergedNode(v, m, sigs, l, r);
    SignersDisjoint(v, m, sigs, l, r);
  }

  /** merge_nodes: signers must be disjoint, or the count would not add up. */
  method MergeNodes<G(!new)>(v: Validators<G>, a: Node<G>, b: Node<G>) returns (r: Node<G>)
    requires |a.signers| == |b.signers| && Disjoint(a.signers, b.signers)
    ensures r == Node(Or(a.signers, b.signers), v.group.add(a.sig, b.sig))
    ensures Ones(r.signers) == Ones(a.signers) + Ones(b.signers)
  {
    r := Node(Or(a.signers, b.signers), v.group.add(a.sig, b.sig));
    OnesOr(a.signers, b.signers);
  }

  /** Copies the signatures into the leaves. */
  method FillLeaves<G(!new)>(v: Validators<G>, sigs: seq<(NodeId, G)>, index: map<NodeId, nat>, nodes: array<Node<G>>,
                             ghost m: map<NodeId, G>)
    requires ValidatorsOk(v) && Lists(v, m, sigs) && IndexOk(v, index) && sigs != []
    requires nodes.Length == 2 * |sigs| - 1 && forall x | 0 <= x < nodes.Length :: nodes[x] == EmptyNode(v)
    modifies nodes
    ensures forall x | |sigs| - 1 <= x < nodes.Length :: nodes[x] == HeapNode(v, m, sigs, x)
  {
    hide HeapNode, ValidatorsOk;
    var n := |sigs|;
    for i := 0 to n
      invariant forall x | n - 1 <= x < n - 1 + i :: nodes[x] == HeapNode(v, m, sigs, x)
      invariant forall x | n - 1 + i <= x < nodes.Length :: nodes[x] == EmptyNode(v)
    {
      var (id, sig) := sigs[i];
      assert id in v.ids;
      var k := index[id];
      FilledLeaf(v, m, sigs, i, k);
      var node := nodes[n - 1 + i];
      nodes[n - 1 + i] := Node(node.signers[k := true], v.group.add(node.sig, sig));
    }
  }

  /** Merges children into parents, bottom-up. */
  method MergeUp<G(!new)>(v: Validators<G>, n: nat, nodes: array<Node<G>>, ghost m: map<NodeId, G>,
                          ghost sigs: seq<(NodeId, G)>)
    requires ValidatorsOk(v) && Lists(v, m, sigs) && n == |sigs| > 0 && nodes.Length == 2 * n - 1
    requires forall x | n - 1 <= x < nodes.Length :: nodes[x] == HeapNode(v, m, sigs, x)
    modifies nodes
    ensures forall x | 0 <= x < nodes.Length :: nodes[x] == HeapNode(v, m, sigs, x)
  {
    hide HeapNode, ValidatorsOk, Lists;
    var i := n - 1;
    while i > 0
      invariant 0 <= i <= n - 1
      invariant forall x | i <= x < nodes.Length :: nodes[x] == HeapNode(v, m, sigs, x)
    {
      i := i - 1;
      FilledInner(v, m, sigs, i);
      var merged := MergeNodes(v, nodes[2 * i + 1], nodes[2 * i + 2]);
      nodes[i] := merged;
    }
  }

  /** Builds the heap, or a single empty node when there is nothing to aggregate. */
  method BuildTree<G(!new)>(v: Validators<G>, sigs: seq<(NodeId, G)>, index: map<NodeId, nat>, ghost m: map<NodeId, G>)
    returns (tree: seq<Node<G>>)
    requires ValidatorsOk(v) && Lists(v, m, sigs) && IndexOk(v, index)
    ensures if sigs == [] then tree == [EmptyNode(v)] else IsHeap(v, m, sigs, tree)
  {
    hide HeapNode, ValidatorsOk, Lists, IndexOk;
    if sigs == [] {
      return [EmptyNode(v)];
    }
    var empty := EmptyNode(v);
    var nodes := new Node<G>[2 * |sigs| - 1](_ => empty);
    FillLeaves(v, sigs, index, nodes, m);
    MergeUp(v, |sigs|, nodes, m, sigs);
    tree := nodes[..];
  }

  // ---------------------------------------------------------------- the search

  predicate IsLeaf<G>(nodes: seq<Node<G>>, i: nat) {
    2 * i + 1 >= |nodes|
  }

  /** The submitter and signature of a leaf. */
  method LeafSignature<G(!new)>(v: Validators<G>, node: Node<G>, ghost k: nat) returns (r: (NodeId, G))
    requires |node.signers| == |v.ids| && k < |v.ids|
    requires forall i | 0 <= i < |v.ids| :: node.signers[i] <==> i == k
    ensures r == (v.ids[k], node.sig)
  {
    OneHotCount(node.signers, k);
    assert Ones(node.signers) == 1;
    var i := 0;
    while !node.signers[i]
      invariant 0 <= i <= k
      decreases k - i
    {
      i := i + 1;
    }
    return (v.ids[i], node.sig);
  }

  function Picked<G>(sigs: seq<(NodeId, G)>, leaves: seq<nat>): (r: seq<(NodeId, G)>)
    requires forall j <- leaves :: j < |sigs|
    ensures |r| == |leaves|
  {
    seq(|leaves|, i requires 0 <= i < |leaves| => assert leaves[i] in leaves; sigs[leaves[i]])
  }

  lemma PickedAt<G>(sigs: seq<(NodeId, G)>, leaves: seq<nat>)
    requires forall j <- leaves :: j < |sigs|
    ensures forall i | 0 <= i < |leaves| :: leaves[i] < |sigs| && Picked(sigs, leaves)[i] == sigs[leaves[i]]
  {
    assert forall i | 0 <= i < |leaves| :: leaves[i] in leaves;
  }

  lemma PickedJoin<G>(sigs: seq<(NodeId, G)>, a: seq<nat>, b: seq<nat>)
    requires (forall j <- a :: j < |sigs|) && forall j <- b :: j < |sigs|
    ensures forall j <- a + b :: j < |sigs|
    ensures Picked(sigs, a + b) == Picked(sigs, a) + Picked(sigs, b)
  {
  }

  /** The signature held by the leaf at heap index `i`. */
  method LeafAt<G(!new)>(v: Validators<G>, nodes: seq<Node<G>>, i: nat, ghost m: map<NodeId, G>,
                         ghost sigs: seq<(NodeId, G)>)
    returns (r: (NodeId, G))
    requires ValidatorsOk(v) && Lists(v, m, sigs) && IsHeap(v, m, sigs, nodes)
    requires i < |nodes| && IsLeaf(nodes, i)
    ensures r == sigs[i - (|sigs| - 1)]
  {
    hide Abelian, SumMasked, SignersAt;
    ghost var j := i - (|sigs| - 1);
    assert Leaves(|sigs|, i) == {j} && nodes[i] == NodeAt(v, m, sigs, {j});
    assert sigs[j].0 in v.ids;
    ghost var k :| 0 <= k < |v.ids| && v.ids[k] == sigs[j].0;
    LeafNode(v, m, sigs, j, k);
    hide NodeAt, Lists, IsHeap, Leaves, ValidatorsOk;
    r := LeafSignature(v, nodes[i], k);
  }

  /** All signatures below `i`. */
  method CollectLeafSignatures<G(!new)>(v: Validators<G>, nodes: seq<Node<G>>, i: nat, ghost m: map<NodeId, G>,
                                        ghost sigs: seq<(NodeId, G)>)
    returns (r: seq<(NodeId, G)>, ghost leaves: seq<nat>)
    requires ValidatorsOk(v) && Lists(v, m, sigs) && IsHeap(v, m, sigs, nodes)
    requires i < |nodes|
    ensures multiset(leaves) == multiset(Leaves(|sigs|, i))
    ensures (forall j <- leaves :: j < |sigs|) && r == Picked(sigs, leaves)
    decreases |nodes| - i
  {
    if IsLeaf(nodes, i) {
      var leaf := LeafAt(v, nodes, i, m, sigs);
      leaves := [i - (|sigs| - 1)];
      return [leaf], leaves;
    }
    hide Lists, IsHeap, ValidatorsOk;
    ChildLeavesDisjoint(|sigs|, i);
    var a, b;
    ghost var x, y;
    a, x := CollectLeafSignatures(v, nodes, 2 * i + 1, m, sigs);
    b, y := CollectLeafSignatures(v, nodes, 2 * i + 2, m, sigs);
    PickedJoin(sigs, x, y);
    r, leaves := a + b, x + y;
  }

  predicate InHeap(n: nat, queue: seq<nat>) {
    forall k | 0 <= k < |queue| :: queue[k] < 2 * n - 1
  }

  /** What the nodes in the queue will still report. */
  ghost function Pending<G(!new)>(v: Validators<G>, m: map<NodeId, G>, sigs: seq<(NodeId, G)>,
                                  queue: seq<nat>): multiset<nat>
    requires |v.expected| == |v.ids| && InHeap(|sigs|, queue)
  {
    if queue == [] then multiset{}
    else Pending(v, m, sigs, queue[..|queue|-1]) + multiset(Blamed(v, m, sigs, queue[|queue|-1]))
  }

  lemma {:induction false} PendingHead<G(!new)>(v: Validators<G>, m: map<NodeId, G>, sigs: seq<(NodeId, G)>,
                                                queue: seq<nat>)
    requires |v.expected| == |v.ids| && queue != [] && InHeap(|sigs|, queue)
    ensures Pending(v, m, sigs, queue) == multiset(Blamed(v, m, sigs, queue[0])) + Pending(v, m, sigs, queue[1..])
    decreases |queue|
  {
    hide Blamed;
    if |queue| == 1 {
      assert queue[..0] == [] && queue[1..] == [];
    } else {
      var init := queue[..|queue|-1];
      PendingHead(v, m, sigs, init);
      assert queue[1..][..|queue|-2] == init[1..];
    }
  }

  /** How many nodes a search from the queue can still visit. */
  ghost function Weight(n: nat, i: nat): nat
    requires i < 2 * n - 1
    decreases 2 * n - i
  {
    if i >= n - 1 then 1 else 1 + Weight(n, 2 * i + 1) + Weight(n, 2 * i + 2)
  }

  ghost function QueueWeight(n: nat, queue: seq<nat>): nat
    requires InHeap(n, queue)
  {
    if queue == [] then 0 else QueueWeight(n, queue[..|queue|-1]) + Weight(n, queue[|queue|-1])
  }

  lemma {:induction false} WeightHead(n: nat, queue: seq<nat>)
    requires queue != [] && InHeap(n, queue)
    ensures QueueWeight(n, queue) == Weight(n, queue[0]) + QueueWeight(n, queue[1..])
    decreases |queue|
  {
    if |queue| == 1 {
      assert queue[..0] == [] && queue[1..] == [];
    } else {
      var init := queue[..|queue|-1];
      WeightHead(n, init);
      assert queue[1..][..|queue|-2] == init[1..];
    }
  }

  lemma PendingPush<G(!new)>(v: Validators<G>, m: map<NodeId, G>, sigs: seq<(NodeId, G)>, queue: seq<nat>, a: nat,
                             b: nat)
    requires |v.expected| == |v.ids| && a < 2 * |sigs| - 1 && b < 2 * |sigs| - 1 && InHeap(|sigs|, queue)
    ensures Pending(v, m, sigs, queue + [a, b])
         == Pending(v, m, sigs, queue) + multiset(Blamed(v, m, sigs, a)) + multiset(Blamed(v, m, sigs, b))
  {
    var all := queue + [a, b];
    assert all[..|all|-1] == queue + [a] && (queue + [a])[..|queue|] == queue;
  }

  lemma WeightPush(n: nat, queue: seq<nat>, a: nat, b: nat)
    requires a < 2 * n - 1 && b < 2 * n - 1 && InHeap(n, queue)
    ensures QueueWeight(n, queue + [a, b]) == QueueWeight(n, queue) + Weight(n, a) + Weight(n, b)
  {
    var all := queue + [a, b];
    assert all[..|all|-1] == queue + [a] && (queue + [a])[..|queue|] == queue;
  }

  /** The children of a node that fails report what the node is to blame for. */
  lemma BlamedSplit<G(!new)>(v: Validators<G>, m: map<NodeId, G>, sigs: seq<(NodeId, G)>, i: nat)
    requires |v.expected| == |v.ids| && i < |sigs| - 1
    requires !Cancels(v, HeapNode(v, m, sigs, i)) && !Accepts(v, HeapNode(v, m, sigs, i))
    ensures multiset(Blamed(v, m, sigs, i))
         == multiset(Blamed(v, m, sigs, 2 * i + 1)) + multiset(Blamed(v, m, sigs, 2 * i + 2))
  {
    var a, b := Blamed(v, m, sigs, 2 * i + 1), Blamed(v, m, sigs, 2 * i + 2);
    BlamedAreLeaves(v, m, sigs, 2 * i + 1);
    BlamedAreLeaves(v, m, sigs, 2 * i + 2);
    ChildLeavesDisjoint(|sigs|, i);
    assert multiset(a + b) == multiset(a) + multiset(b);
  }

  datatype Verdict<G> = Verified(node: Node<G>) | Invalid(bad: seq<(NodeId, G)>)

  /** The bad list holds exactly the blamed signatures, each once. */
  ghost predicate Reports<G(!new)>(v: Validators<G>, m: map<NodeId, G>, sigs: seq<(NodeId, G)>, bad: seq<(NodeId, G)>)
    requires |v.expected| == |v.ids| && sigs != []
  {
    exists leaves: seq<nat> ::
      && multiset(leaves) == multiset(Blamed(v, m, sigs, 0))
      && (forall j <- leaves :: j < |sigs|)
      && bad == Picked(sigs, leaves)
  }

  /** Between two turns: what was reported and what the queue will report make up the whole. */
  ghost predicate Searching<G(!new)>(v: Validators<G>, m: map<NodeId, G>, sigs: seq<(NodeId, G)>, leaves: seq<nat>,
                                     queue: seq<nat>)
    requires |v.expected| == |v.ids| && sigs != []
  {
    InHeap(|sigs|, queue) && multiset(leaves) + Pending(v, m, sigs, queue) == multiset(Blamed(v, m, sigs, 0))
  }

  lemma SearchStart<G(!new)>(v: Validators<G>, m: map<NodeId, G>, sigs: seq<(NodeId, G)>)
    requires |v.expected| == |v.ids| && sigs != []
    ensures Searching(v, m, sigs, [], [0])
  {
    assert [0][..0] == [];
  }

  lemma SearchReport<G(!new)>(v: Validators<G>, m: map<NodeId, G>, sigs: seq<(NodeId, G)>, leaves: seq<nat>,
                              queue: seq<nat>, found: seq<nat>)
    requires |v.expected| == |v.ids| && sigs != [] && queue != [] && Searching(v, m, sigs, leaves, queue)
    requires multiset(found) == multiset(Blamed(v, m, sigs, queue[0]))
    ensures Searching(v, m, sigs, leaves + found, queue[1..])
    ensures QueueWeight(|sigs|, queue[1..]) < QueueWeight(|sigs|, queue)
  {
    PendingHead(v, m, sigs, queue);
    WeightHead(|sigs|, queue);
    hide Blamed, Pending;
    assert multiset(leaves + found) == multiset(leaves) + multiset(found);
  }

  /** The queue after its first node made way for its two children. */
  function Expanded(queue: seq<nat>): seq<nat>
    requires queue != []
  {
    queue[1..] + [2 * queue[0] + 1, 2 * queue[0] + 2]
  }

  lemma ExpandedPending<G(!new)>(v: Validators<G>, m: map<NodeId, G>, sigs: seq<(NodeId, G)>, queue: seq<nat>)
    requires |v.expected| == |v.ids| && queue != [] && InHeap(|sigs|, queue) && queue[0] < |sigs| - 1
    requires var i := queue[0];
             multiset(Blamed(v, m, sigs, i))
                 == multiset(Blamed(v, m, sigs, 2 * i + 1)) + multiset(Blamed(v, m, sigs, 2 * i + 2))
    ensures InHeap(|sigs|, Expanded(queue))
    ensures Pending(v, m, sigs, Expanded(queue)) == Pending(v, m, sigs, queue)
  {
    hide Blamed, Pending, QueueWeight, Weight;
    PendingHead(v, m, sigs, queue);
    PendingPush(v, m, sigs, queue[1..], 2 * queue[0] + 1, 2 * queue[0] + 2);
  }

  lemma ExpandedWeight(n: nat, queue: seq<nat>)
    requires queue != [] && InHeap(n, queue) && queue[0] < n - 1
    ensures InHeap(n, Expanded(queue))
    ensures QueueWeight(n, Expanded(queue)) < QueueWeight(n, queue)
  {
    hide QueueWeight;
    WeightHead(n, queue);
    WeightPush(n, queue[1..], 2 * queue[0] + 1, 2 * queue[0] + 2);
  }

  lemma SearchExpand<G(!new)>(v: Validators<G>, m: map<NodeId, G>, sigs: seq<(NodeId, G)>, leaves: seq<nat>,
                              queue: seq<nat>)
    requires |v.expected| == |v.ids| && sigs != [] && queue != [] && Searching(v, m, sigs, leaves, queue)
    requires queue[0] < |sigs| - 1
    requires var i := queue[0];
             multiset(Blamed(v, m, sigs, i))
                 == multiset(Blamed(v, m, sigs, 2 * i + 1)) + multiset(Blamed(v, m, sigs, 2 * i + 2))
    ensures Searching(v, m, sigs, leaves, Expanded(queue))
    ensures QueueWeight(|sigs|, Expanded(queue)) < QueueWeight(|sigs|, queue)
  {
    hide Blamed, Pending, QueueWeight, Weight, Expanded, InHeap;
    ExpandedPending(v, m, sigs, queue);
    ExpandedWeight(|sigs|, queue);
  }

  lemma SearchDone<G(!new)>(v: Validators<G>, m: map<NodeId, G>, sigs: seq<(NodeId, G)>, leaves: seq<nat>)
    requires ValidatorsOk(v) && Lists(v, m, sigs) && sigs != [] && Searching(v, m, sigs, leaves, [])
    ensures leaves == [] <==> Accepts(v, HeapNode(v, m, sigs, 0))
    ensures multiset(leaves) == multiset(Blamed(v, m, sigs, 0))
  {
    NothingBlamed(v, m, sigs, 0);
    hide Blamed, Accepts, HeapNode, ValidatorsOk, Lists;
    assert leaves == [] <==> multiset(leaves) == multiset{};
    assert Blamed(v, m, sigs, 0) == {} <==> multiset(Blamed(v, m, sigs, 0)) == multiset{};
  }

  /** Breadth-first search for bad signatures: a node that verifies clears everything below it. */
  method VerifyTree<G(!new, ==)>(v: Validators<G>, nodes: seq<Node<G>>, ghost m: map<NodeId, G>,
                                 ghost sigs: seq<(NodeId, G)>)
    returns (r: Verdict<G>)
    requires ValidatorsOk(v) && Lists(v, m, sigs) && sigs != [] && IsHeap(v, m, sigs, nodes)
    ensures r.Verified? <==> Accepts(v, HeapNode(v, m, sigs, 0))
    ensures r.Verified? ==> r.node == HeapNode(v, m, sigs, 0)
    ensures r.Invalid? ==> r.bad != [] && Reports(v, m, sigs, r.bad)
  {
    hide Abelian, HeapNode, Lists, Accepts, Searching, Blamed;
    var queue: seq<nat>, bad := [0], [];
    ghost var leaves: seq<nat> := [];
    SearchStart(v, m, sigs);
    while queue != []
      invariant InHeap(|sigs|, queue) && Searching(v, m, sigs, leaves, queue)
      invariant (forall j <- leaves :: j < |sigs|) && bad == Picked(sigs, leaves)
      decreases QueueWeight(|sigs|, queue)
    {
      var i := queue[0];
      var more;
      ghost var found;
      var expand;
      more, found, expand := CheckNode(v, nodes, i, m, sigs);
      if expand {
        SearchExpand(v, m, sigs, leaves, queue);
        queue := Expanded(queue);
      } else {
        SearchReport(v, m, sigs, leaves, queue, found);
        PickedJoin(sigs, leaves, found);
        bad, leaves := bad + more, leaves + found;
        queue := queue[1..];
      }
    }
    SearchDone(v, m, sigs, leaves);
    return if bad == [] then Verified(nodes[0]) else Invalid(bad);
  }

  /** One node of the search: what it reports itself, and whether its children must be searched. */
  method CheckNode<G(!new, ==)>(v: Validators<G>, nodes: seq<Node<G>>, i: nat, ghost m: map<NodeId, G>,
                                ghost sigs: seq<(NodeId, G)>)
    returns (bad: seq<(NodeId, G)>, ghost leaves: seq<nat>, expand: bool)
    requires ValidatorsOk(v) && Lists(v, m, sigs) && IsHeap(v, m, sigs, nodes) && i < |nodes|
    ensures (forall j <- leaves :: j < |sigs|) && bad == Picked(sigs, leaves)
    ensures expand ==> i < |sigs| - 1
    ensures if expand
            then leaves == [] && multiset(Blamed(v, m, sigs, i))
                   == multiset(Blamed(v, m, sigs, 2 * i + 1)) + multiset(Blamed(v, m, sigs, 2 * i + 2))
            else multiset(leaves) == multiset(Blamed(v, m, sigs, i))
  {
    bad, leaves, expand := [], [], false;
    if nodes[i].sig == v.group.zero && Ones(nodes[i].signers) > 0 {
      bad, leaves := CollectLeafSignatures(v, nodes, i, m, sigs);
      return;
    }
    var verified := VerifyAggregate(v, nodes[i]);
    if verified.None? {
      if IsLeaf(nodes, i) {
        var leaf := LeafAt(v, nodes, i, m, sigs);
        bad, leaves := [leaf], [i - (|sigs| - 1)];
      } else {
        BlamedSplit(v, m, sigs, i);
        expand := true;
      }
    }
  }

  // ---------------------------------------------------------------- the collection

  datatype Created<G> =
    | Collection(signers: seq<bool>, sig: G)
    | Conflicting(id: NodeId, first: G, second: G)
    | NotInMapping(outsiders: seq<(NodeId, G)>)
    | InvalidSignatures(bad: seq<(NodeId, G)>)
    | Panicked   // no leaf to blame: the one node of the tree has no signer

  /** The submissions by submitter; the first one counts. */
  function MapOf<G>(subs: seq<(NodeId, G)>): map<NodeId, G> {
    if subs == [] then map[]
    else
      var m, (id, sig) := MapOf(subs[..|subs|-1]), subs[|subs|-1];
      if id in m then m else m[id := sig]
  }

  /** No submitter sent two different signatures. */
  predicate Consistent<G(==)>(subs: seq<(NodeId, G)>) {
    forall i, j | 0 <= i < j < |subs| :: subs[i].0 == subs[j].0 ==> subs[i].1 == subs[j].1
  }

  function Outsiders<G(!new)>(v: Validators<G>, subs: seq<(NodeId, G)>): seq<(NodeId, G)> {
    if subs == [] then []
    else Outsiders(v, subs[..|subs|-1]) + if subs[|subs|-1].0 in v.ids then [] else [subs[|subs|-1]]
  }

  /** The validators that submitted. */
  function Submitters<G(!new)>(v: Validators<G>, m: map<NodeId, G>): (r: seq<bool>)
    ensures |r| == |v.ids|
  {
    seq(|v.ids|, k requires 0 <= k < |v.ids| => v.ids[k] in m)
  }

  /** The aggregate of everything submitted; it does not depend on any order. */
  function Aggregate<G(!new)>(v: Validators<G>, m: map<NodeId, G>): Node<G> {
    Node(Submitters(v, m), SumMasked(v.group, Submitted(v, m), Submitters(v, m)))
  }

  lemma {:induction false} MapOfElements<G>(subs: seq<(NodeId, G)>)
    ensures forall id :: id in MapOf(subs) <==> exists j :: 0 <= j < |subs| && subs[j].0 == id
    ensures forall id <- MapOf(subs) :: exists j :: 0 <= j < |subs| && subs[j] == (id, MapOf(subs)[id])
    decreases |subs|
  {
    if subs != [] {
      var init := subs[..|subs|-1];
      MapOfElements(init);
      assert forall j | 0 <= j < |init| :: init[j] == subs[j];
      assert subs[|subs|-1] == subs[|init|];
    }
  }

  lemma {:induction false} OutsidersElements<G(!new)>(v: Validators<G>, subs: seq<(NodeId, G)>)
    ensures Outsiders(v, subs) == [] <==> forall j | 0 <= j < |subs| :: subs[j].0 in v.ids
    decreases |subs|
  {
    if subs != [] {
      OutsidersElements(v, subs[..|subs|-1]);
      assert forall j | 0 <= j < |subs| - 1 :: subs[..|subs|-1][j] == subs[j];
    }
  }

  /** The outsiders are all submissions of non-validators, each as often as it came. */
  lemma {:induction false} OutsidersExact<G(!new)>(v: Validators<G>, subs: seq<(NodeId, G)>, x: (NodeId, G))
    ensures multiset(Outsiders(v, subs))[x] == if x.0 in v.ids then 0 else multiset(subs)[x]
    decreases |subs|
  {
    if subs != [] {
      var init, last := subs[..|subs|-1], subs[|subs|-1];
      assert subs == init + [last];
      OutsidersExact(v, init, x);
    }
  }

  /** The root of the heap is the aggregate. */
  lemma RootIsAggregate<G(!new)>(v: Validators<G>, m: map<NodeId, G>, sigs: seq<(NodeId, G)>)
    requires Lists(v, m, sigs) && sigs != []
    ensures HeapNode(v, m, sigs, 0) == Aggregate(v, m)
  {
    var all := Leaves(|sigs|, 0);
    forall j: nat
      ensures j in all <==> j < |sigs|
    {
      RootHasAllLeaves(|sigs|, j);
    }
    assert SignersAt(v, sigs, all) == Submitters(v, m);
  }

  // ---------------------------------------------------------------- what a report means

  /** The submitters that are not reported. */
  function Cleared<G(!new)>(v: Validators<G>, m: map<NodeId, G>, bad: seq<(NodeId, G)>): (r: seq<bool>)
    ensures |r| == |v.ids|
  {
    seq(|v.ids|, k requires 0 <= k < |v.ids| =>
      v.ids[k] in m && forall i | 0 <= i < |bad| :: bad[i].0 != v.ids[k])
  }

  /** The signature of validator `k` does not verify, or is part of a sum that cancels out. */
  ghost predicate Guilty<G(!new)>(v: Validators<G>, m: map<NodeId, G>, k: nat)
    requires |v.expected| == |v.ids| && k < |v.ids|
  {
    || |v.ids| > MAX_SIGNERS
    || Submitted(v, m)[k] != v.expected[k]
    || exists mask: seq<bool> ::
         && |mask| == |v.ids| && mask[k]
         && (forall i | 0 <= i < |mask| && mask[i] :: v.ids[i] in m)
         && SumMasked(v.group, Submitted(v, m), mask) == v.group.zero
  }

  /** A report is not empty, names each submitter at most once and with their signature, names
      only the guilty, and what it clears adds up to what was expected. */
  ghost predicate FairReport<G(!new)>(v: Validators<G>, m: map<NodeId, G>, bad: seq<(NodeId, G)>)
    requires |v.expected| == |v.ids|
  {
    && bad != []
    && (forall i | 0 <= i < |bad| :: bad[i].0 in m && m[bad[i].0] == bad[i].1)
    && (forall i, j | 0 <= i < j < |bad| :: bad[i].0 != bad[j].0)
    && (forall k, i | 0 <= k < |v.ids| && 0 <= i < |bad| && bad[i].0 == v.ids[k] :: Guilty(v, m, k))
    && SumMasked(v.group, Submitted(v, m), Cleared(v, m, bad)) == SumMasked(v.group, v.expected, Cleared(v, m, bad))
  }

  lemma CulpableIsGuilty<G(!new)>(v: Validators<G>, m: map<NodeId, G>, sigs: seq<(NodeId, G)>, j: nat, k: nat)
    requires ValidatorsOk(v) && Lists(v, m, sigs) && j < |sigs| && k < |v.ids| && v.ids[k] == sigs[j].0
    requires Culpable(v, m, sigs, j)
    ensures Guilty(v, m, k)
  {
    hide Abelian;
    var single := NodeAt(v, m, sigs, {j});
    LeafNode(v, m, sigs, j, k);
    if Accepts(v, single) {
      var i :| 0 <= i < 2 * |sigs| - 1 && j in Leaves(|sigs|, i) && Cancels(v, HeapNode(v, m, sigs, i));
      var mask := HeapNode(v, m, sigs, i).signers;
      assert mask[k];
      assert forall x | 0 <= x < |mask| && mask[x] :: v.ids[x] in m;
      assert SumMasked(v.group, Submitted(v, m), mask) == v.group.zero;
    } else if |v.ids| <= MAX_SIGNERS && single.sig == v.group.zero {
      assert single.signers[k];
      assert forall x | 0 <= x < |v.ids| && single.signers[x] :: v.ids[x] in m;
      assert SumMasked(v.group, Submitted(v, m), single.signers) == v.group.zero;
    } else {
      SumOne(v.group, v.expected, single.signers, k);
    }
  }

  lemma UnblamedIsCleared<G(!new)>(v: Validators<G>, m: map<NodeId, G>, sigs: seq<(NodeId, G)>, leaves: seq<nat>,
                                   k: nat, j: nat)
    requires Lists(v, m, sigs) && (forall x <- leaves :: x < |sigs|) && k < |v.ids|
    requires j < |sigs| && sigs[j].0 == v.ids[k] && j !in leaves
    ensures Cleared(v, m, Picked(sigs, leaves))[k]
  {
    PickedAt(sigs, leaves);
  }

  lemma ClearedIsUnblamed<G(!new)>(v: Validators<G>, m: map<NodeId, G>, sigs: seq<(NodeId, G)>, leaves: seq<nat>,
                                   k: nat) returns (j: nat)
    requires Lists(v, m, sigs) && (forall x <- leaves :: x < |sigs|) && k < |v.ids|
    requires Cleared(v, m, Picked(sigs, leaves))[k]
    ensures j < |sigs| && sigs[j].0 == v.ids[k] && j !in leaves
  {
    PickedAt(sigs, leaves);
    j :| 0 <= j < |sigs| && sigs[j].0 == v.ids[k];
    assert forall i | 0 <= i < |leaves| :: Picked(sigs, leaves)[i].0 != v.ids[k];
  }

  lemma UnblamedSigners<G(!new)>(v: Validators<G>, m: map<NodeId, G>, sigs: seq<(NodeId, G)>, leaves: seq<nat>,
                                 blamed: set<nat>)
    requires Lists(v, m, sigs) && sigs != []
    requires multiset(leaves) == multiset(blamed) && forall j <- leaves :: j < |sigs|
    ensures SignersAt(v, sigs, Leaves(|sigs|, 0) - blamed) == Cleared(v, m, Picked(sigs, leaves))
  {
    assert forall j :: j in leaves <==> j in multiset(leaves);
    var rest, cleared := Leaves(|sigs|, 0) - blamed, Cleared(v, m, Picked(sigs, leaves));
    hide Cleared, Lists, Leaves, Picked;
    forall k: nat | k < |v.ids|
      ensures SignersAt(v, sigs, rest)[k] == cleared[k]
    {
      if SignersAt(v, sigs, rest)[k] {
        var j: nat :| j in rest && j < |sigs| && sigs[j].0 == v.ids[k];
        UnblamedIsCleared(v, m, sigs, leaves, k, j);
      } else if cleared[k] {
        var j := ClearedIsUnblamed(v, m, sigs, leaves, k);
        RootHasAllLeaves(|sigs|, j);
      }
    }
  }

  lemma RepeatCounts(s: seq<nat>, i: nat, j: nat)
    requires i < j < |s| && s[i] == s[j]
    ensures multiset(s)[s[i]] >= 2
  {
    assert s == s[..j] + [s[j]] + s[j+1..];
    assert s[j] == s[..j][i];
    assert s[j] in multiset(s[..j]);
  }

  lemma ReportNamesOnce<G(!new)>(v: Validators<G>, m: map<NodeId, G>, sigs: seq<(NodeId, G)>, leaves: seq<nat>,
                                 blamed: set<nat>)
    requires Lists(v, m, sigs) && multiset(leaves) == multiset(blamed) && forall j <- leaves :: j < |sigs|
    ensures var bad := Picked(sigs, leaves);
            && (forall i | 0 <= i < |bad| :: bad[i].0 in m && m[bad[i].0] == bad[i].1)
            && (forall i, j | 0 <= i < j < |bad| :: bad[i].0 != bad[j].0)
  {
    PickedAt(sigs, leaves);
    forall i, j | 0 <= i < j < |leaves|
      ensures leaves[i] != leaves[j]
    {
      if leaves[i] == leaves[j] {
        RepeatCounts(leaves, i, j);
        assert false;
      }
    }
  }

  lemma ReportIsFair<G(!new)>(v: Validators<G>, m: map<NodeId, G>, sigs: seq<(NodeId, G)>, bad: seq<(NodeId, G)>)
    requires ValidatorsOk(v) && Lists(v, m, sigs) && sigs != [] && bad != [] && Reports(v, m, sigs, bad)
    ensures FairReport(v, m, bad)
  {
    hide Abelian, Blamed, Guilty, Culpable, Cleared, SumMasked;
    var blamed := Blamed(v, m, sigs, 0);
    var leaves: seq<nat> :| multiset(leaves) == multiset(blamed) && (forall j <- leaves ::
        j < |sigs|) && bad == Picked(sigs, leaves);
    PickedAt(sigs, leaves);
    ReportNamesOnce(v, m, sigs, leaves, blamed);
    UnblamedAddUp(v, m, sigs, 0);
    UnblamedSigners(v, m, sigs, leaves, blamed);
    forall k, i | 0 <= k < |v.ids| && 0 <= i < |bad| && bad[i].0 == v.ids[k]
      ensures Guilty(v, m, k)
    {
      assert leaves[i] in multiset(leaves);
      BlamedIsCulpable(v, m, sigs, 0, leaves[i]);
      CulpableIsGuilty(v, m, sigs, leaves[i], k);
    }
  }

  // ---------------------------------------------------------------- building a collection

  /** The first pass over the submissions. */
  ghost predicate Gathered<G(!new)>(v: Validators<G>, subs: seq<(NodeId, G)>, n: nat, m: map<NodeId, G>,
                                    outsiders: seq<(NodeId, G)>)
    requires n <= |subs|
  {
    && m == MapOf(subs[..n])
    && outsiders == Outsiders(v, subs[..n])
    && forall j | 0 <= j < n :: subs[j].0 in m && m[subs[j].0] == subs[j].1
  }

  lemma NothingGathered<G(!new)>(v: Validators<G>, subs: seq<(NodeId, G)>)
    ensures Gathered(v, subs, 0, map[], [])
  {
    assert subs[..0] == [];
  }

  lemma GatherStep<G(!new)>(v: Validators<G>, subs: seq<(NodeId, G)>, n: nat, m: map<NodeId, G>,
                            outsiders: seq<(NodeId, G)>)
    requires n < |subs| && Gathered(v, subs, n, m, outsiders)
    requires subs[n].0 in m ==> m[subs[n].0] == subs[n].1
    ensures Gathered(v, subs, n + 1, m[subs[n].0 := subs[n].1],
            if subs[n].0 in v.ids then outsiders else outsiders + [subs[n]])
  {
    assert subs[..n+1][..n] == subs[..n];
    assert subs[n].0 in m ==> m[subs[n].0 := subs[n].1] == m;
  }

  lemma GatherConflict<G(!new)>(v: Validators<G>, subs: seq<(NodeId, G)>, n: nat, m: map<NodeId, G>,
                                outsiders: seq<(NodeId, G)>)
    requires n < |subs| && Gathered(v, subs, n, m, outsiders) && subs[n].0 in m
    ensures (subs[n].0, m[subs[n].0]) in subs
    ensures m[subs[n].0] != subs[n].1 ==> !Consistent(subs)
  {
    MapOfElements(subs[..n]);
    var j :| 0 <= j < n && subs[..n][j] == (subs[n].0, m[subs[n].0]);
    assert subs[j] == subs[..n][j];
  }

  lemma GatherDone<G(!new)>(v: Validators<G>, subs: seq<(NodeId, G)>, m: map<NodeId, G>, outsiders: seq<(NodeId, G)>)
    requires Gathered(v, subs, |subs|, m, outsiders)
    ensures Consistent(subs) && m == MapOf(subs) && outsiders == Outsiders(v, subs)
    ensures outsiders == [] ==> forall id <- m :: id in v.ids
    ensures m == map[] <==> subs == []
  {
    assert subs[..|subs|] == subs;
    MapOfElements(subs);
    OutsidersElements(v, subs);
    if subs != [] {
      assert subs[0].0 in m;
    }
  }

  /** The position of each validator. */
  method IndexValidators<G(!new)>(v: Validators<G>) returns (index: map<NodeId, nat>)
    requires ValidatorsOk(v)
    ensures IndexOk(v, index)
  {
    index := map[];
    for i := 0 to |v.ids|
      invariant forall k | 0 <= k < i :: v.ids[k] in index && index[v.ids[k]] == k
    {
      index := index[v.ids[i] := i];
    }
  }

  /** The entries of the map, in some order. */
  method ListEntries<G(!new)>(v: Validators<G>, m: map<NodeId, G>) returns (sigs: seq<(NodeId, G)>)
    requires forall id <- m :: id in v.ids
    ensures Lists(v, m, sigs) && (sigs == [] <==> m == map[])
  {
    sigs := [];
    var rest := m.Keys;
    while rest != {}
      invariant rest <= m.Keys
      invariant forall j | 0 <= j < |sigs| :: sigs[j].0 in m && sigs[j].0 !in rest && sigs[j].1 == m[sigs[j].0]
      invariant forall i, j | 0 <= i < j < |sigs| :: sigs[i].0 != sigs[j].0
      invariant forall id <- m :: id in rest || exists j :: 0 <= j < |sigs| && sigs[j].0 == id
      decreases |rest|
    {
      var id :| id in rest;
      ghost var before := sigs;
      sigs := sigs + [(id, m[id])];
      rest := rest - {id};
      assert sigs[|before|].0 == id;
      forall x <- m
        ensures x in rest || exists j :: 0 <= j < |sigs| && sigs[j].0 == x
      {
        if x != id && x !in rest {
          var j :| 0 <= j < |before| && before[j].0 == x;
          assert sigs[j].0 == x;
        }
      }
    }
    assert sigs != [] ==> sigs[0].0 in m;
  }

  /** The collection that the submissions make, if they make one. */
  ghost function Built<G(!new)>(v: Validators<G>, subs: seq<(NodeId, G)>): Option<Node<G>>
    requires |v.expected| == |v.ids|
  {
    if && Consistent(subs) && (forall j | 0 <= j < |subs| :: subs[j].0 in v.ids)
       && (subs == [] ==> v.ids == []) && Accepts(v, Aggregate(v, MapOf(subs)))
    then Some(Aggregate(v, MapOf(subs)))
    else None
  }

  /** Builds the tree over the entries of the map, and searches it. */
  method NewFromMap<G(!new, ==)>(v: Validators<G>, index: map<NodeId, nat>, m: map<NodeId, G>) returns (r: Created<G>)
    requires ValidatorsOk(v) && IndexOk(v, index) && forall id <- m :: id in v.ids
    ensures r.Collection? || r.InvalidSignatures? || r.Panicked?
    ensures r.Panicked? <==> m == map[] && v.ids != []
    ensures r.Collection? ==> Accepts(v, Node(r.signers, r.sig)) && Node(r.signers, r.sig) == Aggregate(v, m)
    ensures r.InvalidSignatures? ==> !Accepts(v, Aggregate(v, m)) && FairReport(v, m, r.bad)
  {
    hide Abelian, IndexOk, FairReport, Reports, HeapNode, Lists;
    var sigs := ListEntries(v, m);
    var tree := BuildTree(v, sigs, index, m);
    if sigs == [] {
      // the search looks at the one empty node only
      var verified := VerifyAggregate(v, tree[0]);
      if verified.None? {
        return Panicked;
      }
      return Collection(tree[0].signers, tree[0].sig);
    }
    RootIsAggregate(v, m, sigs);
    hide Aggregate, Accepts;
    var verdict := VerifyTree(v, tree, m, sigs);
    if verdict.Verified? {
      return Collection(verdict.node.signers, verdict.node.sig);
    }
    ReportIsFair(v, m, sigs, verdict.bad);
    return InvalidSignatures(verdict.bad);
  }

  /** Builds the collection from submissions in any order. */
  method New<G(!new, ==)>(v: Validators<G>, subs: seq<(NodeId, G)>) returns (r: Created<G>)
    requires ValidatorsOk(v)
    ensures r.Conflicting? <==> !Consistent(subs)
    ensures r.Conflicting? ==> (r.id, r.first) in subs && (r.id, r.second) in subs && r.first != r.second
    ensures r.NotInMapping? <==> Consistent(subs) && exists j :: 0 <= j < |subs| && subs[j].0 !in v.ids
    ensures r.NotInMapping? ==> r.outsiders == Outsiders(v, subs)
    ensures r.Panicked? <==> subs == [] && v.ids != []
    ensures r.Collection? <==> Built(v, subs).Some?
    ensures r.Collection? ==> Node(r.signers, r.sig) == Built(v, subs).value
    ensures r.InvalidSignatures? ==> !Accepts(v, Aggregate(v, MapOf(subs))) && FairReport(v, MapOf(subs), r.bad)
  {
    var index := IndexValidators(v);
    hide Abelian, IndexOk, Outsiders, MapOf, Consistent, FairReport, Aggregate, Accepts, HeapNode;
    var m: map<NodeId, G>, outsiders := map[], [];
    assert Gathered(v, subs, 0, m, outsiders) by { NothingGathered(v, subs); }
    for n := 0 to |subs|
      invariant Gathered(v, subs, n, m, outsiders)
    {
      var (id, sig) := subs[n];
      if id in m {
        GatherConflict(v, subs, n, m, outsiders);
      }
      if id !in m || m[id] == sig {
        GatherStep(v, subs, n, m, outsiders);
      }
      if id !in v.ids {
        outsiders := outsiders + [subs[n]];
      }
      if id !in m {
        m := m[id := sig];
      }
      if m[id] != sig {
        return Conflicting(id, m[id], sig);
      }
    }
    GatherDone(v, subs, m, outsiders);
    OutsidersElements(v, subs);
    if outsiders != [] {
      return NotInMapping(outsiders);
    }
    r := NewFromMap(v, index, m);
  }

  // ---------------------------------------------------------------- consequences

  /** Neither order nor repetition of the submissions matters. */
  lemma OrderIrrelevant<G>(a: seq<(NodeId, G)>, b: seq<(NodeId, G)>)
    requires Consistent(a) && forall x :: x in a <==> x in b
    ensures Consistent(b) && MapOf(a) == MapOf(b)
  {
    forall i, j | 0 <= i < j < |b| && b[i].0 == b[j].0
      ensures b[i].1 == b[j].1
    {
      assert b[i] in a && b[j] in a;
    }
    MapOfElements(a);
    MapOfElements(b);
    SameEntries(a, b);
    SameEntries(b, a);
  }

  lemma SameEntries<G>(a: seq<(NodeId, G)>, b: seq<(NodeId, G)>)
    requires Consistent(a) && forall x :: x in a <==> x in b
    ensures forall id <- MapOf(b) :: id in MapOf(a) && MapOf(a)[id] == MapOf(b)[id]
  {
    MapOfElements(a);
    MapOfElements(b);
    forall id <- MapOf(b)
      ensures id in MapOf(a) && MapOf(a)[id] == MapOf(b)[id]
    {
      var j :| 0 <= j < |b| && b[j] == (id, MapOf(b)[id]);
      assert b[j] in a;
      var i :| 0 <= i < |a| && a[i] == b[j];
      assert a[i].0 == id;
      var k :| 0 <= k < |a| && a[k] == (id, MapOf(a)[id]);
    }
  }

  lemma {:induction false} SumAgrees<G(!new)>(group: Group<G>, a: seq<G>, b: seq<G>, mask: seq<bool>)
    requires |a| == |b| == |mask| && forall k | 0 <= k < |mask| && mask[k] :: a[k] == b[k]
    ensures SumMasked(group, a, mask) == SumMasked(group, b, mask)
    decreases |mask|
  {
    if mask != [] {
      var n := |mask| - 1;
      assert forall k | 0 <= k < n :: mask[..n][k] == mask[k] && a[..n][k] == a[k] && b[..n][k] == b[k];
      SumAgrees(group, a[..n], b[..n], mask[..n]);
    }
  }

  /** When every submitted signature is right, the aggregate is accepted unless it cancels out. */
  lemma HonestAccepted<G(!new)>(v: Validators<G>, m: map<NodeId, G>)
    requires ValidatorsOk(v) && |v.ids| <= MAX_SIGNERS
    requires forall k | 0 <= k < |v.ids| && v.ids[k] in m :: m[v.ids[k]] == v.expected[k]
    ensures Accepts(v, Aggregate(v, m)) <==> v.ids == [] || Aggregate(v, m).sig != v.group.zero
  {
    hide Abelian;
    SumAgrees(v.group, Submitted(v, m), v.expected, Submitters(v, m));
  }
}
