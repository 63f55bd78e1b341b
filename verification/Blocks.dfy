/**
 Consensus headers, quorum certificates and the identifiers that link them.

 Hashes are symbolic: an identifier is either the hash of a known header or a bare digest
 with no known preimage (the genesis id, or garbage).  Hashing is therefore injective, an
 id fixes its header and hence its parent, and no chain of parents can be cyclic.
 */
module Blocks {

  type Round = nat
  type SeqNum = nat
  type NodeId = nat

  const GENESIS_ROUND: Round := 0

  datatype Option<+T> = None | Some(value: T)

  datatype Body = Body(bytes: seq<int>)
  datatype BodyId = BodyHash(body: Body)

  datatype BlockId = Digest(tag: nat) | HeaderHash(header: Header)

  /** A vote quorum for `id`, formed in `round`; signatures are not needed here. */
  datatype QC = QC(id: BlockId, round: Round)

  /** `rest` stands for author, round signature and fee fields. */
  datatype Header = Header(
    round: Round, epoch: nat, qc: QC, seqNum: SeqNum, timestamp: nat,
    results: seq<nat>, bodyId: BodyId, rest: nat)

  datatype Block = Block(header: Header, body: Body)

  datatype RootInfo = RootInfo(round: Round, seqNum: SeqNum, epoch: nat, id: BlockId, timestamp: nat)

  datatype BlockRange = BlockRange(last: BlockId, num: SeqNum)

  function IdOf(h: Header): BlockId { HeaderHash(h) }

  function BlockIdOf(b: Block): BlockId { IdOf(b.header) }

  function BodyIdOf(b: Body): BodyId { BodyHash(b) }

  function ParentOf(b: Block): BlockId { b.header.qc.id }

  /** A full block can be built only from a header and the body it commits to. */
  function NewFullBlock(h: Header, b: Body): (r: Option<Block>)
    ensures r.Some? <==> BodyMatches(Block(h, b))
    ensures r.Some? ==> r.value == Block(h, b)
  {
    if BodyIdOf(b) != h.bodyId then None else Some(Block(h, b))
  }

  predicate BodyMatches(b: Block) { BodyIdOf(b.body) == b.header.bodyId }

  /** A block id fixes the full block: whatever body was offered with a header, there is at most
      one full block, and taking it apart and building it again gives it back. */
  lemma IdFixesBlock(h: Header, b: Body, other: Header, otherBody: Body)
    requires NewFullBlock(h, b).Some? && NewFullBlock(other, otherBody).Some?
    ensures var (x, y) := (NewFullBlock(h, b).value, NewFullBlock(other, otherBody).value);
            && (BlockIdOf(x) == BlockIdOf(y) ==> x == y)
            && NewFullBlock(x.header, x.body) == Some(x)
  {
  }

  /** The root record that describes a block. */
  function InfoOf(b: Block): RootInfo {
    RootInfo(b.header.round, b.header.seqNum, b.header.epoch, BlockIdOf(b), b.header.timestamp)
  }

  /** The commit rule: a QC over a block whose own QC is from the previous round commits that
      block's parent. */
  function CommittableId(qc: QC, certified: Header): Option<BlockId>
    requires qc.id == IdOf(certified)
  {
    if qc.round == certified.qc.round + 1 then Some(certified.qc.id) else None
  }

  /** Ancestry, read off the ids alone. */
  predicate Descends(id: BlockId, anc: BlockId) {
    id.HeaderHash? && (id.header.qc.id == anc || Descends(id.header.qc.id, anc))
  }

  function Depth(id: BlockId): nat {
    match id
    case Digest(_) => 0
    case HeaderHash(h) => Depth(h.qc.id) + 1
  }

  function RoundOf(id: BlockId): Round {
    match id
    case Digest(_) => GENESIS_ROUND
    case HeaderHash(h) => h.round
  }

  /** The round premise: on the whole chain behind `id`, a block's round exceeds that of its
      QC, and a QC is formed no earlier than the round of the block it certifies.  The two
      rounds may differ, since a block can be proposed again. */
  predicate WellFormed(id: BlockId) {
    match id
    case Digest(_) => true
    case HeaderHash(h) => h.round > h.qc.round >= RoundOf(h.qc.id) && WellFormed(h.qc.id)
  }

  lemma DescendsTransitive(a: BlockId, b: BlockId, c: BlockId)
    requires Descends(a, b) && Descends(b, c)
    ensures Descends(a, c)
  {
  }

  /** Ancestry is strict: it lowers the depth, so it is acyclic. */
  lemma DescendsDeeper(id: BlockId, anc: BlockId)
    requires Descends(id, anc)
    ensures Depth(anc) < Depth(id)
  {
  }

  /** A descendant's certificate is at least as recent as the ancestor's block. */
  lemma {:induction false} DescendsLater(id: BlockId, anc: BlockId)
    requires Descends(id, anc) && WellFormed(id)
    ensures id.header.qc.round >= RoundOf(anc)
    ensures RoundOf(id) > RoundOf(anc)
  {
    var p := id.header.qc.id;
    if p != anc {
      DescendsLater(p, anc);
    }
  }

  /** Two ancestors of the same block are comparable. */
  lemma {:induction false} AncestorsLinear(id: BlockId, a: BlockId, b: BlockId)
    requires Descends(id, a) && Descends(id, b)
    ensures a == b || Descends(a, b) || Descends(b, a)
  {
    var p := id.header.qc.id;
    if p != a && p != b {
      AncestorsLinear(p, a, b);
    }
  }
}
