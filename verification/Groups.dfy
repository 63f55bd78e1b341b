/** Sums in an arbitrary commutative group, taken over the positions a bitmap selects.  Inverses
    are never needed. */
module Groups {

  datatype Group<!G(!new)> = Group(zero: G, add: (G, G) -> G)

  ghost predicate Commutative<G(!new)>(g: Group<G>) {
    forall a, b :: g.add(a, b) == g.add(b, a)
  }

  ghost predicate Associative<G(!new)>(g: Group<G>) {
    forall a, b, c :: g.add(g.add(a, b), c) == g.add(a, g.add(b, c))
  }

  ghost predicate HasUnit<G(!new)>(g: Group<G>) {
    forall a :: g.add(a, g.zero) == a
  }

  /** All that is used of a group: the sum does not depend on the order of summation. */
  ghost predicate Abelian<G(!new)>(g: Group<G>) {
    Commutative(g) && Associative(g) && HasUnit(g)
  }

  lemma Commute<G(!new)>(g: Group<G>, a: G, b: G)
    requires Commutative(g)
    ensures g.add(a, b) == g.add(b, a)
  {
  }

  lemma Associate<G(!new)>(g: Group<G>, a: G, b: G, c: G)
    requires Associative(g)
    ensures g.add(g.add(a, b), c) == g.add(a, g.add(b, c))
  {
  }

  lemma Unit<G(!new)>(g: Group<G>, a: G)
    requires Abelian(g)
    ensures g.add(a, g.zero) == a && g.add(g.zero, a) == a
  {
    Commute(g, a, g.zero);
  }

  lemma Rearrange<G(!new)>(g: Group<G>, a: G, b: G, c: G)
    requires Abelian(g)
    ensures g.add(g.add(a, b), c) == g.add(g.add(a, c), b)
    ensures g.add(g.add(a, b), c) == g.add(a, g.add(b, c))
  {
    hide Commutative, Associative;
    Associate(g, a, b, c);
    Commute(g, b, c);
    Associate(g, a, c, b);
  }

  /** The sum of the selected values. */
  function SumMasked<G(!new)>(g: Group<G>, values: seq<G>, mask: seq<bool>): G
    requires |values| == |mask|
  {
    if mask == [] then g.zero
    else
      var n := |mask| - 1;
      var rest := SumMasked(g, values[..n], mask[..n]);
      if mask[n] then g.add(rest, values[n]) else rest
  }

  function Or(a: seq<bool>, b: seq<bool>): (r: seq<bool>)
    requires |a| == |b|
    ensures |r| == |a|
  {
    seq(|a|, i requires 0 <= i < |a| => a[i] || b[i])
  }

  predicate Disjoint(a: seq<bool>, b: seq<bool>)
    requires |a| == |b|
  {
    forall i | 0 <= i < |a| :: !(a[i] && b[i])
  }

  /** Sums over disjoint selections add up. */
  lemma {:induction false} SumOr<G(!new)>(g: Group<G>, values: seq<G>, a: seq<bool>, b: seq<bool>)
    requires Abelian(g) && |values| == |a| == |b| && Disjoint(a, b)
    ensures SumMasked(g, values, Or(a, b)) == g.add(SumMasked(g, values, a), SumMasked(g, values, b))
    decreases |a|
  {
    hide Abelian;
    if a == [] {
      Unit(g, g.zero);
    } else {
      var n := |a| - 1;
      assert Or(a, b)[..n] == Or(a[..n], b[..n]);
      SumOr(g, values[..n], a[..n], b[..n]);
      Rearrange(g, SumMasked(g, values[..n], a[..n]), values[n], SumMasked(g, values[..n], b[..n]));
      Rearrange(g, SumMasked(g, values[..n], a[..n]), SumMasked(g, values[..n], b[..n]), values[n]);
    }
  }

  lemma {:induction false} SumNone<G(!new)>(g: Group<G>, values: seq<G>, mask: seq<bool>)
    requires |values| == |mask| && forall i | 0 <= i < |mask| :: !mask[i]
    ensures SumMasked(g, values, mask) == g.zero
    decreases |mask|
  {
    if mask != [] {
      SumNone(g, values[..|mask|-1], mask[..|mask|-1]);
    }
  }

  lemma {:induction false} SumOne<G(!new)>(g: Group<G>, values: seq<G>, mask: seq<bool>, k: nat)
    requires Abelian(g) && |values| == |mask| && k < |mask|
    requires forall i | 0 <= i < |mask| :: mask[i] <==> i == k
    ensures SumMasked(g, values, mask) == values[k]
    decreases |mask|
  {
    hide Abelian;
    var n := |mask| - 1;
    if k == n {
      SumNone(g, values[..n], mask[..n]);
      Unit(g, values[k]);
    } else {
      SumOne(g, values[..n], mask[..n], k);
    }
  }

  function Ones(mask: seq<bool>): nat {
    if mask == [] then 0 else Ones(mask[..|mask|-1]) + if mask[|mask|-1] then 1 else 0
  }

  lemma {:induction false} OnesOr(a: seq<bool>, b: seq<bool>)
    requires |a| == |b| && Disjoint(a, b)
    ensures Ones(Or(a, b)) == Ones(a) + Ones(b)
    decreases |a|
  {
    if a != [] {
      var n := |a| - 1;
      assert Or(a, b)[..n] == Or(a[..n], b[..n]);
      OnesOr(a[..n], b[..n]);
    }
  }

  lemma {:induction false} OnesPositive(mask: seq<bool>)
    ensures Ones(mask) > 0 <==> exists i :: 0 <= i < |mask| && mask[i]
    decreases |mask|
  {
    if mask != [] {
      OnesPositive(mask[..|mask|-1]);
      assert forall i | 0 <= i < |mask| - 1 :: mask[..|mask|-1][i] == mask[i];
    }
  }
}
