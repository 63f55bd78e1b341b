/**
 Aggregating signatures in a binary heap: each node holds the sum of the signatures below it.
 When the root does not verify, the heap is searched for the signatures to blame.

 A signature is an element of a commutative group.  For a fixed message each validator has one
 expected signature, and a sum is accepted for a set of signers iff it is the sum of their
 expected signatures and not the identity (sections 2.8 and 3.3.4 of
 draft-irtf-cfrg-bls-signature-05).
 */
module AggregationTrees {
  import opened Blocks
  import opened Groups

  const MAX_SIGNERS := 1024 * 16

  /** The validators in the order of their ids, with the signature expected of each. */
  datatype Validators<!G(!new)> = Validators(group: Group<G>, ids: seq<NodeId>, expected: seq<G>)

  ghost predicate ValidatorsOk<G(!new)>(v: Validators<G>) {
    && Abelian(v.group)
    && |v.ids| == |v.expected|
    && forall i, j | 0 <= i < j < |v.ids| :: v.ids[i] != v.ids[j]
  }

  datatype Node<G> = Node(signers: seq<bool>, sig: G)

  // ---------------------------------------------------------------- the shape of the heap

  /** The leaves, counted from the left end of the leaf row, below heap index `i`; the heap has
      `n` leaves and `2n - 1` nodes. */
  function Leaves(n: nat, i: nat): set<nat>
    requires i < 2 * n - 1
    decreases 2 * n - i
  {
    if i >= n - 1 then {i - (n - 1)} else Leaves(n, 2 * i + 1) + Leaves(n, 2 * i + 2)
  }

  /** Heap index `x` is `i` or lies below it. */
  predicate Below(i: nat, x: nat) {
    x == i || (x > i && Below(i, (x - 1) / 2))
  }

  lemma {:induction false} LeavesAreBelow(n: nat, i: nat, j: nat)
    requires i < 2 * n - 1
    ensures j in Leaves(n, i) <==> j < n && Below(i, n - 1 + j)
    decreases 2 * n - i
  {
    if i >= n - 1 {
      if Below(i, n - 1 + j) && j < n && n - 1 + j > i {
        BelowBetween(i, n - 1 + j);
      }
    } else {
      LeavesAreBelow(n, 2 * i + 1, j);
      LeavesAreBelow(n, 2 * i + 2, j);
      BelowChild(i, n - 1 + j);
    }
  }

  /** Something strictly below `i` lies at `2i + 1` or later. */
  lemma {:induction false} BelowBetween(i: nat, x: nat)
    requires Below(i, x) && x > i
    ensures x >= 2 * i + 1
  {
    if (x - 1) / 2 != i {
      BelowBetween(i, (x - 1) / 2);
    }
  }

  /** Strictly below a node means below one of its children. */
  lemma {:induction false} BelowChild(i: nat, x: nat)
    requires x != i
    ensures Below(i, x) <==> Below(2 * i + 1, x) || Below(2 * i + 2, x)
    decreases x
  {
    if x > i {
      var p := (x - 1) / 2;
      if p == i {
        assert x == 2 * i + 1 || x == 2 * i + 2;
      } else {
        BelowChild(i, p);
        if x <= 2 * i + 2 {
          assert p < i;
        }
      }
    }
  }

  lemma {:induction false} SiblingsApart(i: nat, x: nat)
    ensures !(Below(2 * i + 1, x) && Below(2 * i + 2, x))
    decreases x
  {
    if x > 2 * i + 2 {
      SiblingsApart(i, (x - 1) / 2);
    }
  }

  lemma ChildLeavesDisjoint(n: nat, i: nat)
    requires i < n - 1
    ensures Leaves(n, 2 * i + 1) !! Leaves(n, 2 * i + 2)
  {
    var left, right := Leaves(n, 2 * i + 1), Leaves(n, 2 * i + 2);
    forall j <- left
      ensures j !in right
    {
      LeavesAreBelow(n, 2 * i + 1, j);
      LeavesAreBelow(n, 2 * i + 2, j);
      SiblingsApart(i, n - 1 + j);
    }
  }

  lemma {:induction false} BelowRoot(x: nat)
    ensures Below(0, x)
  {
    if x > 0 {
      BelowRoot((x - 1) / 2);
    }
  }

  lemma RootHasAllLeaves(n: nat, j: nat)
    requires n > 0
    ensures j in Leaves(n, 0) <==> j < n
  {
    LeavesAreBelow(n, 0, j);
    BelowRoot(n - 1 + j);
  }

  // ---------------------------------------------------------------- what a node stands for

  /** The signatures to aggregate: those of the map, each once, in some order. */
  ghost predicate Lists<G(!new)>(v: Validators<G>, m: map<NodeId, G>, sigs: seq<(NodeId, G)>) {
    && (forall j | 0 <= j < |sigs| :: sigs[j].0 in m && sigs[j].1 == m[sigs[j].0] && sigs[j].0 in v.ids)
    && (forall i, j | 0 <= i < j < |sigs| :: sigs[i].0 != sigs[j].0)
    && (forall id <- m :: exists j :: 0 <= j < |sigs| && sigs[j].0 == id)
  }

  /** What each validator submitted, the identity for those who did not. */
  function Submitted<G(!new)>(v: Validators<G>, m: map<NodeId, G>): (r: seq<G>)
    ensures |r| == |v.ids|
  {
    seq(|v.ids|, k requires 0 <= k < |v.ids| => if v.ids[k] in m then m[v.ids[k]] else v.group.zero)
  }

  /** The validators whose signatures are among the given leaves. */
  ghost function SignersAt<G(!new)>(v: Validators<G>, sigs: seq<(NodeId, G)>, leaves: set<nat>): (r: seq<bool>)
    ensures |r| == |v.ids|
  {
    seq(|v.ids|, k requires 0 <= k < |v.ids| => exists j <- leaves :: j < |sigs| && sigs[j].0 == v.ids[k])
  }

  /** The node that aggregates exactly the given leaves. */
  ghost function NodeAt<G(!new)>(v: Validators<G>, m: map<NodeId, G>, sigs: seq<(NodeId, G)>,
                                 leaves: set<nat>): Node<G> {
    var signers := SignersAt(v, sigs, leaves);
    Node(signers, SumMasked(v.group, Submitted(v, m), signers))
  }

  lemma SignersUnion<G(!new)>(v: Validators<G>, sigs: seq<(NodeId, G)>, a: set<nat>, b: set<nat>)
    ensures SignersAt(v, sigs, a + b) == Or(SignersAt(v, sigs, a), SignersAt(v, sigs, b))
  {
  }

  lemma SignersDisjoint<G(!new)>(v: Validators<G>, m: map<NodeId, G>, sigs: seq<(NodeId, G)>, a: set<nat>, b: set<nat>)
    requires Lists(v, m, sigs) && a !! b
    ensures Disjoint(SignersAt(v, sigs, a), SignersAt(v, sigs, b))
  {
    var x, y := SignersAt(v, sigs, a), SignersAt(v, sigs, b);
    forall k | 0 <= k < |v.ids| && x[k]
      ensures !y[k]
    {
      var i :| i in a && i < |sigs| && sigs[i].0 == v.ids[k];
      assert forall j <- b | j < |sigs| :: j != i && sigs[j].0 != sigs[i].0;
    }
  }

  /** Merging adds up sums and signers; the assertion on the number of signers holds. */
  lemma MergedNode<G(!new)>(v: Validators<G>, m: map<NodeId, G>, sigs: seq<(NodeId, G)>, a: set<nat>, b: set<nat>)
    requires ValidatorsOk(v) && Lists(v, m, sigs) && a !! b
    ensures var x, y := NodeAt(v, m, sigs, a), NodeAt(v, m, sigs, b);
            && NodeAt(v, m, sigs, a + b) == Node(Or(x.signers, y.signers), v.group.add(x.sig, y.sig))
            && Ones(Or(x.signers, y.signers)) == Ones(x.signers) + Ones(y.signers)
  {
    var x, y := SignersAt(v, sigs, a), SignersAt(v, sigs, b);
    SignersUnion(v, sigs, a, b);
    SignersDisjoint(v, m, sigs, a, b);
    SumOr(v.group, Submitted(v, m), x, y);
    OnesOr(x, y);
  }

  /** A leaf holds one signature of one signer. */
  lemma LeafNode<G(!new)>(v: Validators<G>, m: map<NodeId, G>, sigs: seq<(NodeId, G)>, j: nat, k: nat)
    requires ValidatorsOk(v) && Lists(v, m, sigs) && j < |sigs| && k < |v.ids| && v.ids[k] == sigs[j].0
    ensures var node := NodeAt(v, m, sigs, {j});
            && node.sig == sigs[j].1
            && (forall i | 0 <= i < |v.ids| :: node.signers[i] <==> i == k)
  {
    var signers := SignersAt(v, sigs, {j});
    forall i | 0 <= i < |v.ids|
      ensures signers[i] <==> i == k
    {
      if i != k {
        assert v.ids[i] != v.ids[k];
      }
    }
    SumOne(v.group, Submitted(v, m), signers, k);
  }

  // ---------------------------------------------------------------- verification of one node

  /** The sum is that of the signers' expected signatures, and not the identity; with no
      validators at all, the empty sum is accepted too. */
  predicate Accepts<G(!new, ==)>(v: Validators<G>, node: Node<G>)
    requires |v.expected| == |v.ids|
  {
    && |node.signers| == |v.ids| <= MAX_SIGNERS
    && (if node.sig == v.group.zero then |node.signers| == 0
        else node.sig == SumMasked(v.group, v.expected, node.signers))
  }

  /** Whom an aggregate convinces: never with a bitmap of the wrong length or beyond the limit, never
      with the identity unless there are no validators, and otherwise exactly when the signature is
      the sum of what is expected of the signers. */
  lemma AcceptsExactly<G(!new)>(v: Validators<G>, node: Node<G>)
    requires |v.expected| == |v.ids|
    ensures |node.signers| != |v.ids| || |v.ids| > MAX_SIGNERS ==> !Accepts(v, node)
    ensures node.sig == v.group.zero && v.ids != [] ==> !Accepts(v, node)
    ensures v.ids == [] && node.signers == [] ==> (Accepts(v, node) <==> node.sig == v.group.zero)
    ensures |node.signers| == |v.ids| <= MAX_SIGNERS && node.sig != v.group.zero ==>
              (Accepts(v, node) <==> node.sig == SumMasked(v.group, v.expected, node.signers))
  {
  }

  /** The ids of the signers, in validator order. */
  function SignerIds(ids: seq<NodeId>, mask: seq<bool>): seq<NodeId>
    requires |ids| == |mask|
  {
    if mask == [] then []
    else SignerIds(ids[..|mask|-1], mask[..|mask|-1]) + if mask[|mask|-1] then [ids[|mask|-1]] else []
  }

  /** verify_aggregate_sig: the ids of the signers if the aggregate verifies. */
  method VerifyAggregate<G(!new, ==)>(v: Validators<G>, node: Node<G>) returns (r: Option<seq<NodeId>>)
    requires |v.expected| == |v.ids|
    ensures r.Some? <==> Accepts(v, node)
    ensures r.Some? ==> r.value == SignerIds(v.ids, node.signers)
  {
    if |node.signers| != |v.ids| {
      return None;
    }
    if |node.signers| > MAX_SIGNERS {
      return None;
    }
    var sum, signers := v.group.zero, [];
    for k := 0 to |v.ids|
      invariant sum == SumMasked(v.group, v.expected[..k], node.signers[..k])
      invariant signers == SignerIds(v.ids[..k], node.signers[..k])
      invariant |v.ids| == 0 ==> signers == []
    {
      assert v.expected[..k+1][..k] == v.expected[..k] && node.signers[..k+1][..k] == node.signers[..k];
      assert v.ids[..k+1][..k] == v.ids[..k];
      if node.signers[k] {
        sum := v.group.add(sum, v.expected[k]);
        signers := signers + [v.ids[k]];
      }
    }
    assert v.expected[..|v.ids|] == v.expected && node.signers[..|v.ids|] == node.signers && v.ids[..|v.ids|] == v.ids;
    if node.sig == v.group.zero {
      if signers == [] && node.signers == [] {
        return Some(signers);
      }
      return None;
    }
    if node.sig != sum {
      return None;
    }
    return Some(signers);
  }

  // ---------------------------------------------------------------- the search

  ghost function HeapNode<G(!new)>(v: Validators<G>, m: map<NodeId, G>, sigs: seq<(NodeId, G)>, i: nat): Node<G>
    requires i < 2 * |sigs| - 1
  {
    NodeAt(v, m, sigs, Leaves(|sigs|, i))
  }

  /** A non-empty sum that cancels out; no such sum says anything about its parts. */
  predicate Cancels<G(!new, ==)>(v: Validators<G>, node: Node<G>) {
    node.sig == v.group.zero && Ones(node.signers) > 0
  }

  /** The leaves the search reports below heap index `i`. */
  ghost function Blamed<G(!new)>(v: Validators<G>, m: map<NodeId, G>, sigs: seq<(NodeId, G)>, i: nat): set<nat>
    requires i < 2 * |sigs| - 1 && |v.expected| == |v.ids|
    decreases 2 * |sigs| - i
  {
    var node := HeapNode(v, m, sigs, i);
    if Cancels(v, node) then Leaves(|sigs|, i)
    else if Accepts(v, node) then {}
    else if i >= |sigs| - 1 then Leaves(|sigs|, i)
    else Blamed(v, m, sigs, 2 * i + 1) + Blamed(v, m, sigs, 2 * i + 2)
  }

  lemma {:induction false} BlamedAreLeaves<G(!new)>(v: Validators<G>, m: map<NodeId, G>, sigs: seq<(NodeId, G)>, i: nat)
    requires i < 2 * |sigs| - 1 && |v.expected| == |v.ids|
    ensures Blamed(v, m, sigs, i) <= Leaves(|sigs|, i)
    decreases 2 * |sigs| - i
  {
    if i < |sigs| - 1 {
      BlamedAreLeaves(v, m, sigs, 2 * i + 1);
      BlamedAreLeaves(v, m, sigs, 2 * i + 2);
    }
  }

  lemma {:induction false} LeavesExist(n: nat, i: nat)
    requires i < 2 * n - 1
    ensures exists j :: j in Leaves(n, i) && j < n
    decreases 2 * n - i
  {
    if i >= n - 1 {
      assert i - (n - 1) in Leaves(n, i);
    } else {
      LeavesExist(n, 2 * i + 1);
      var j :| j in Leaves(n, 2 * i + 1) && j < n;
      assert j in Leaves(n, i);
    }
  }

  /** Every node of the heap has a signer. */
  lemma NodeHasSigner<G(!new)>(v: Validators<G>, m: map<NodeId, G>, sigs: seq<(NodeId, G)>, i: nat)
    requires Lists(v, m, sigs) && i < 2 * |sigs| - 1
    ensures Ones(HeapNode(v, m, sigs, i).signers) > 0
  {
    LeavesExist(|sigs|, i);
    var j :| j in Leaves(|sigs|, i) && j < |sigs|;
    var k :| 0 <= k < |v.ids| && v.ids[k] == sigs[j].0;
    var signers := HeapNode(v, m, sigs, i).signers;
    assert signers[k];
    OnesPositive(signers);
  }

  /** If both halves of a node verify, the node has the expected sum. */
  lemma AcceptedHalves<G(!new)>(v: Validators<G>, m: map<NodeId, G>, sigs: seq<(NodeId, G)>, i: nat)
    requires ValidatorsOk(v) && Lists(v, m, sigs) && i < |sigs| - 1
    requires Accepts(v, HeapNode(v, m, sigs, 2 * i + 1)) && Accepts(v, HeapNode(v, m, sigs, 2 * i + 2))
    ensures var node := HeapNode(v, m, sigs, i);
            |v.ids| <= MAX_SIGNERS && node.sig == SumMasked(v.group, v.expected, node.signers)
  {
    var l, r := Leaves(|sigs|, 2 * i + 1), Leaves(|sigs|, 2 * i + 2);
    ChildLeavesDisjoint(|sigs|, i);
    MergedNode(v, m, sigs, l, r);
    SignersDisjoint(v, m, sigs, l, r);
    NodeHasSigner(v, m, sigs, 2 * i + 1);
    NodeHasSigner(v, m, sigs, 2 * i + 2);
    hide Abelian;
    SumOr(v.group, v.expected, SignersAt(v, sigs, l), SignersAt(v, sigs, r));
  }

  /** The search reports nothing iff the node verifies. */
  lemma {:induction false} NothingBlamed<G(!new)>(v: Validators<G>, m: map<NodeId, G>, sigs: seq<(NodeId, G)>, i: nat)
    requires ValidatorsOk(v) && Lists(v, m, sigs) && i < 2 * |sigs| - 1
    ensures Blamed(v, m, sigs, i) == {} <==> Accepts(v, HeapNode(v, m, sigs, i))
    decreases 2 * |sigs| - i
  {
    NodeHasSigner(v, m, sigs, i);
    LeavesExist(|sigs|, i);
    if i < |sigs| - 1 && !Accepts(v, HeapNode(v, m, sigs, i)) && Blamed(v, m, sigs, i) == {} {
      NothingBlamed(v, m, sigs, 2 * i + 1);
      NothingBlamed(v, m, sigs, 2 * i + 2);
      AcceptedHalves(v, m, sigs, i);
    }
  }

  /** The signatures at the given leaves add up to what is expected of their signers. */
  ghost predicate AddsUp<G(!new)>(v: Validators<G>, m: map<NodeId, G>, sigs: seq<(NodeId, G)>, leaves: set<nat>)
    requires |v.expected| == |v.ids|
  {
    var signers := SignersAt(v, sigs, leaves);
    SumMasked(v.group, Submitted(v, m), signers) == SumMasked(v.group, v.expected, signers)
  }

  lemma NothingAddsUp<G(!new)>(v: Validators<G>, m: map<NodeId, G>, sigs: seq<(NodeId, G)>)
    requires |v.expected| == |v.ids|
    ensures AddsUp(v, m, sigs, {})
  {
    SumNone(v.group, Submitted(v, m), SignersAt(v, sigs, {}));
    SumNone(v.group, v.expected, SignersAt(v, sigs, {}));
  }

  lemma UnionAddsUp<G(!new)>(v: Validators<G>, m: map<NodeId, G>, sigs: seq<(NodeId, G)>, a: set<nat>, b: set<nat>)
    requires ValidatorsOk(v) && Lists(v, m, sigs) && a !! b && AddsUp(v, m, sigs, a) && AddsUp(v, m, sigs, b)
    ensures AddsUp(v, m, sigs, a + b)
  {
    SignersUnion(v, sigs, a, b);
    SignersDisjoint(v, m, sigs, a, b);
    SumOr(v.group, Submitted(v, m), SignersAt(v, sigs, a), SignersAt(v, sigs, b));
    SumOr(v.group, v.expected, SignersAt(v, sigs, a), SignersAt(v, sigs, b));
  }

  /** The leaves that are not reported still add up. */
  lemma {:induction false} UnblamedAddUp<G(!new)>(v: Validators<G>, m: map<NodeId, G>, sigs: seq<(NodeId, G)>, i: nat)
    requires ValidatorsOk(v) && Lists(v, m, sigs) && i < 2 * |sigs| - 1
    ensures AddsUp(v, m, sigs, Leaves(|sigs|, i) - Blamed(v, m, sigs, i))
    decreases 2 * |sigs| - i
  {
    var leaves, blamed := Leaves(|sigs|, i), Blamed(v, m, sigs, i);
    if blamed == leaves {
      assert leaves - blamed == {};
      NothingAddsUp(v, m, sigs);
    } else if Accepts(v, HeapNode(v, m, sigs, i)) {
      NodeHasSigner(v, m, sigs, i);
      assert leaves - blamed == leaves;
    } else {
      var l, r := 2 * i + 1, 2 * i + 2;
      hide AddsUp, Lists, Accepts, HeapNode;
      UnblamedAddUp(v, m, sigs, l);
      UnblamedAddUp(v, m, sigs, r);
      ChildLeavesDisjoint(|sigs|, i);
      BlamedAreLeaves(v, m, sigs, l);
      BlamedAreLeaves(v, m, sigs, r);
      var a, b := Leaves(|sigs|, l) - Blamed(v, m, sigs, l), Leaves(|sigs|, r) - Blamed(v, m, sigs, r);
      assert leaves - blamed == a + b;
      UnionAddsUp(v, m, sigs, a, b);
    }
  }

  /** `j` was reported for a reason: its own signature does not verify, or it is part of a
      non-empty sum that cancels out. */
  ghost predicate Culpable<G(!new)>(v: Validators<G>, m: map<NodeId, G>, sigs: seq<(NodeId, G)>, j: nat)
    requires |v.expected| == |v.ids|
  {
    || !Accepts(v, NodeAt(v, m, sigs, {j}))
    || exists i :: 0 <= i < 2 * |sigs| - 1 && j in Leaves(|sigs|, i) && Cancels(v, HeapNode(v, m, sigs, i))
  }

  lemma {:induction false} BlamedIsCulpable<G(!new)>(v: Validators<G>, m: map<NodeId, G>, sigs: seq<(NodeId, G)>,
                                                     i: nat, j: nat)
    requires i < 2 * |sigs| - 1 && |v.expected| == |v.ids| && j in Blamed(v, m, sigs, i)
    ensures Culpable(v, m, sigs, j)
    decreases 2 * |sigs| - i
  {
    if Cancels(v, HeapNode(v, m, sigs, i)) {
    } else if i >= |sigs| - 1 {
      assert Leaves(|sigs|, i) == {j};
    } else if j in Blamed(v, m, sigs, 2 * i + 1) {
      BlamedIsCulpable(v, m, sigs, 2 * i + 1, j);
    } else {
      BlamedIsCulpable(v, m, sigs, 2 * i + 2, j);
    }
  }
}
