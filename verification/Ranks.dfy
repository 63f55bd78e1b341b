/** How far an extend (a tip or a quorum certificate) has got, and the order between extends. */
module Ranks {
  import opened Blocks

  datatype Ordering = Less | Equal | Greater

  function CompareRounds(a: Round, b: Round): Ordering {
    if a < b then Less else if a == b then Equal else Greater
  }

  datatype Rank = TipRank(tipRound: Round, qcRound: Round) | QcRank(qcRound: Round)

  function Compare(a: Rank, b: Rank): Ordering {
    match (a, b)
    case (QcRank(x), QcRank(y)) => CompareRounds(x, y)
    case (TipRank(tx, qx), TipRank(ty, qy)) =>
      if tx != ty then CompareRounds(tx, ty) else CompareRounds(qx, qy)
    case (QcRank(x), TipRank(t, _)) =>
      if x == t then Greater else CompareRounds(x, t)
    case (TipRank(t, _), QcRank(y)) =>
      if t == y then Less else CompareRounds(t, y)
  }

  /** A tip or a quorum certificate to extend. */
  datatype HighExtend = Tip(header: Header) | Qc(qc: QC)

  function RankOf(e: HighExtend): Rank {
    match e
    case Tip(h) => TipRank(h.round, h.qc.round)
    case Qc(qc) => QcRank(qc.round)
  }

  /** Extends of one rank that differ are not comparable. */
  function PartialCompare(a: HighExtend, b: HighExtend): Option<Ordering> {
    var order := Compare(RankOf(a), RankOf(b));
    if order == Equal && a != b then None else Some(order)
  }

  // ---------------------------------------------------------------- the order

  /** The reference: round first, then quorum certificates over tips, then the round of a tip's
      certificate. */
  predicate Below(a: Rank, b: Rank) {
    var (ra, rb) := (MainRound(a), MainRound(b));
    || ra < rb
    || (ra == rb && a.TipRank? && b.QcRank?)
    || (ra == rb && a.TipRank? && b.TipRank? && a.qcRound < b.qcRound)
  }

  function MainRound(r: Rank): Round {
    if r.TipRank? then r.tipRound else r.qcRound
  }

  lemma CompareIsBelow(a: Rank, b: Rank)
    ensures Compare(a, b) == Less <==> Below(a, b)
    ensures Compare(a, b) == Greater <==> Below(b, a)
    ensures Compare(a, b) == Equal <==> a == b
  {
  }

  /** Exactly one of less, equal and greater holds, and the order is transitive. */
  lemma TotalOrder(a: Rank, b: Rank, c: Rank)
    ensures Below(a, b) || a == b || Below(b, a)
    ensures !(Below(a, b) && Below(b, a)) && !Below(a, a)
    ensures Below(a, b) && Below(b, c) ==> Below(a, c)
  {
  }

  predicate AtMost(a: Rank, b: Rank) {
    a == b || Below(a, b)
  }

  lemma AtMostTransitive(a: Rank, b: Rank, c: Rank)
    requires AtMost(a, b) && AtMost(b, c)
    ensures AtMost(a, c)
  {
  }

  lemma PartialCompareGreater(a: HighExtend, b: HighExtend)
    ensures PartialCompare(a, b) == Some(Greater) <==> Below(RankOf(b), RankOf(a))
    ensures PartialCompare(a, b) == Some(Equal) <==> a == b
    ensures PartialCompare(a, b) == None <==> RankOf(a) == RankOf(b) && a != b
  {
  }

  /** Which of two extends wins, in terms of their rounds: the later round; in one round a
      certificate over a tip, and of two tips the one with the later certificate. */
  lemma ExtendOrder(a: HighExtend, b: HighExtend)
    ensures PartialCompare(a, b) == Some(Greater) <==>
              match (a, b)
              case (Tip(x), Tip(y)) => x.round > y.round || (x.round == y.round && x.qc.round > y.qc.round)
              case (Qc(x), Tip(y)) => x.round >= y.round
              case (Tip(x), Qc(y)) => x.round > y.round
              case (Qc(x), Qc(y)) => x.round > y.round
  {
  }
}
