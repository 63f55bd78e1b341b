/** The store under the block tree: entries with their child lists, and a payload index that
    counts, for each body, the blocks present that use it. */
module Trees {
  import opened Blocks
  import opened Forests
  import opened Sequences

  datatype Entry = Entry(block: Block, coherent: bool, children: seq<BlockId>)
  datatype BodyIndex = BodyIndex(body: Body, active: set<BlockId>)

  type EntryMap = map<BlockId, Entry>
  type PayloadMap = map<BodyId, BodyIndex>

  function BlocksIn(es: EntryMap): BlockMap {
    map id <- es.Keys :: es[id].block
  }

  function CoherentIn(es: EntryMap): set<BlockId> {
    set id <- es.Keys | es[id].coherent
  }

  /** `list` holds each block of the tree that names `id` as its parent, once. */
  ghost predicate ListsChildren(bs: BlockMap, id: BlockId, list: seq<BlockId>) {
    && NoDup(list)
    && forall c :: c in list <==> c in bs && ParentOf(bs[c]) == id
  }

  ghost predicate ChildrenAgree(es: EntryMap) {
    forall id <- es :: ListsChildren(BlocksIn(es), id, es[id].children)
  }

  lemma AddedChild(bs: BlockMap, block: Block, id: BlockId, list: seq<BlockId>)
    requires BlockIdOf(block) !in bs && ListsChildren(bs, id, list)
    ensures ListsChildren(bs[BlockIdOf(block) := block], id,
                          if ParentOf(block) == id then list + [BlockIdOf(block)] else list)
  {
  }

  /** The index holds exactly the bodies of the blocks present, each with its exact users. */
  ghost predicate PayloadsAgree(bs: BlockMap, ps: PayloadMap) {
    && (forall id <- bs :: var p := bs[id].header.bodyId; p in ps && id in ps[p].active)
    && (forall p <- ps :: ps[p].active != {} && BodyIdOf(ps[p].body) == p)
    && (forall p <- ps, id <- ps[p].active :: id in bs && bs[id].header.bodyId == p)
  }

  ghost predicate BodiesMatch(bs: BlockMap) {
    forall id <- bs :: BodyMatches(bs[id])
  }

  function Flagged(es: EntryMap, id: BlockId, coherent: bool): EntryMap
    requires id in es
  {
    es[id := es[id].(coherent := coherent)]
  }

  lemma FlaggedView(es: EntryMap, id: BlockId, coherent: bool)
    requires id in es
    ensures BlocksIn(Flagged(es, id, coherent)) == BlocksIn(es)
    ensures coherent ==> CoherentIn(Flagged(es, id, coherent)) == CoherentIn(es) + {id}
    ensures ChildrenAgree(es) ==> ChildrenAgree(Flagged(es, id, coherent))
  {
    assert BlocksIn(Flagged(es, id, coherent)) == BlocksIn(es);
  }

  lemma NotOwnParent(h: Header)
    ensures h.qc.id != IdOf(h)
  {
    assert Depth(IdOf(h)) == Depth(h.qc.id) + 1;
  }

  class Tree {
    var entries: EntryMap
    var payloads: PayloadMap

    constructor ()
      ensures entries == map[] && payloads == map[] && Valid()
    {
      entries, payloads := map[], map[];
    }

    ghost predicate Valid()
      reads this
    {
      var bs := BlocksIn(entries);
      Keyed(bs) && BodiesMatch(bs) && PayloadsAgree(bs, payloads)
    }

    /** Fails when the block is not in the tree. */
    method SetCoherent(id: BlockId, coherent: bool) returns (ok: bool)
      requires Valid()
      modifies this
      ensures Valid() && payloads == old(payloads)
      ensures ok == (id in old(entries))
      ensures entries == if ok then Flagged(old(entries), id, coherent) else old(entries)
    {
      ok := id in entries;
      if ok {
        FlaggedView(entries, id, coherent);
        entries := entries[id := entries[id].(coherent := coherent)];
      }
    }

    method GetPayload(id: BodyId) returns (r: Option<Body>)
      requires Valid()
      ensures r.Some? <==> exists x <- BlocksIn(entries) :: BlocksIn(entries)[x].header.bodyId == id
      ensures r.Some? ==> BodyIdOf(r.value) == id
    {
      if id in payloads {
        ghost var x :| x in payloads[id].active;
        assert x in BlocksIn(entries);
        return Some(payloads[id].body);
      }
      return None;
    }

    /** Removes one entry and its share of the payload index.  Child lists that mention the
        entry are left alone. */
    method Remove(id: BlockId) returns (removed: Option<Entry>)
      requires Valid()
      modifies this
      ensures Valid()
      ensures entries == old(entries) - {id}
      ensures removed == if id in old(entries) then Some(old(entries)[id]) else None
    {
      if id !in entries {
        assert entries - {id} == entries;
        return None;
      }
      removed := Some(entries[id]);
      assert BlocksIn(entries)[id] == entries[id].block;
      assert BlocksIn(entries - {id}) == BlocksIn(entries) - {id};
      entries := entries - {id};
      var p := removed.value.block.header.bodyId;
      assert p in payloads && id in payloads[p].active;
      var active := payloads[p].active - {id};
      if active == {} {
        payloads := payloads - {p};
      } else {
        payloads := payloads[p := payloads[p].(active := active)];
      }
    }

    /** The blocks present that name `id` as their parent, in some order. */
    method CollectChildren(id: BlockId) returns (children: seq<BlockId>)
      ensures ListsChildren(BlocksIn(entries), id, children)
    {
      children := [];
      var todo := entries.Keys;
      while todo != {}
        invariant todo <= entries.Keys && NoDup(children)
        invariant forall c :: c in children <==> c in entries && c !in todo && ParentOf(entries[c].block) == id
      {
        var x :| x in todo;
        todo := todo - {x};
        if ParentOf(entries[x].block) == id {
          children := children + [x];
        }
      }
    }

    /** Inserts a block as not coherent, and keeps the child lists in step. */
    method Insert(block: Block)
      requires Valid() && BodyMatches(block) && BlockIdOf(block) !in entries
      modifies this
      ensures Valid()
      ensures BlocksIn(entries) == old(BlocksIn(entries))[BlockIdOf(block) := block]
      ensures CoherentIn(entries) == old(CoherentIn(entries))
      ensures old(ChildrenAgree(entries)) ==> ChildrenAgree(entries)
    {
      var id, parent, bodyId := BlockIdOf(block), ParentOf(block), block.header.bodyId;
      var children := CollectChildren(id);
      InsertedEntries(entries, block, children);
      IndexedPayloads(BlocksIn(entries), payloads, block);
      entries := entries[id := Entry(block, false, children)];
      if parent in entries {
        var e := entries[parent];
        entries := entries[parent := e.(children := e.children + [id])];
      }
      var index := if bodyId in payloads then payloads[bodyId] else BodyIndex(block.body, {});
      assert id !in index.active;
      payloads := payloads[bodyId := index.(active := index.active + {id})];
    }
  }

  ghost function WithEntry(es: EntryMap, block: Block, children: seq<BlockId>): EntryMap {
    var id, parent := BlockIdOf(block), ParentOf(block);
    var added := es[id := Entry(block, false, children)];
    if parent in added
    then added[parent := added[parent].(children := added[parent].children + [id])]
    else added
  }

  lemma InsertedEntries(es: EntryMap, block: Block, children: seq<BlockId>)
    requires BlockIdOf(block) !in es && ListsChildren(BlocksIn(es), BlockIdOf(block), children)
    ensures var added := WithEntry(es, block, children);
            && BlocksIn(added) == BlocksIn(es)[BlockIdOf(block) := block]
            && CoherentIn(added) == CoherentIn(es)
            && (ChildrenAgree(es) ==> ChildrenAgree(added))
  {
    var id, added := BlockIdOf(block), WithEntry(es, block, children);
    NotOwnParent(block.header);
    if ChildrenAgree(es) {
      forall x <- added
        ensures ListsChildren(BlocksIn(added), x, added[x].children)
      {
        AddedChild(BlocksIn(es), block, x, if x == id then children else es[x].children);
      }
    }
  }

  ghost function WithPayload(ps: PayloadMap, block: Block): PayloadMap {
    var bodyId := block.header.bodyId;
    var index := if bodyId in ps then ps[bodyId] else BodyIndex(block.body, {});
    ps[bodyId := index.(active := index.active + {BlockIdOf(block)})]
  }

  lemma IndexedPayloads(bs: BlockMap, ps: PayloadMap, block: Block)
    requires PayloadsAgree(bs, ps) && BodyMatches(block) && BlockIdOf(block) !in bs
    ensures PayloadsAgree(bs[BlockIdOf(block) := block], WithPayload(ps, block))
    ensures block.header.bodyId in ps ==> BlockIdOf(block) !in ps[block.header.bodyId].active
  {
    var after := WithPayload(ps, block);
    assert forall p <- ps :: p in after && ps[p].active <= after[p].active;
  }
}
