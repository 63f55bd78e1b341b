/** What a step of block sync achieves: what it takes in, hands out, asks for and answers. */
module SyncEffects {
  import opened Blocks
  import Forests
  import opened Sync
  import opened SyncInvariant
  import opened SyncRuns
  import opened SyncConservation
  import opened SyncRequests

  // ---------------------------------------------------------------- headers of a range

  lemma LinkedSnoc(headers: seq<Header>, h: Header)
    ensures Linked(headers + [h]) <==>
              Linked(headers) && (headers != [] ==> h.qc.id == IdOf(headers[|headers|-1]))
  {
    var all := headers + [h];
    assert forall i | 0 <= i < |headers| :: all[i] == headers[i];
    assert all[|headers|] == h;
  }

  lemma {:induction false} LinkedIsChain(blocks: seq<Block>)
    requires blocks != []
    ensures Forests.IsChain(ParentOf(blocks[0]), blocks) <==> Linked(HeadersOf(blocks))
    decreases |blocks|
  {
    var init, last := blocks[..|blocks|-1], blocks[|blocks|-1];
    assert blocks == init + [last] && HeadersOf(blocks) == HeadersOf(init) + [last.header];
    Forests.ChainSnoc(ParentOf(blocks[0]), init, last);
    LinkedSnoc(HeadersOf(init), last.header);
    if init != [] {
      LinkedIsChain(init);
    }
  }

  /** The check of received headers, against chains of blocks: as many as asked for, one chain, and
      it ends where it should. */
  lemma VerifiesIff(range: BlockRange, blocks: seq<Block>)
    requires blocks != []
    ensures Verifies(range, HeadersOf(blocks)) <==>
              && |blocks| == range.num
              && Forests.IsChain(ParentOf(blocks[0]), blocks)
              && Forests.ChainEnd(range.last, blocks) == range.last
  {
    LinkedIsChain(blocks);
  }

  // ---------------------------------------------------------------- responses

  /** The event brings this response, from the ledger or from a peer. */
  predicate Brings(e: Event, response: Response) {
    (e.LedgerResponded? || e.PeerResponded?) && e.response == response
  }

  function SenderOf(e: Event): Option<NodeId> {
    if e.PeerResponded? then Some(e.sender) else None
  }

  function PickOf(e: Event): Option<NodeId> {
    if e.LedgerResponded? then e.peer else None
  }

  lemma LedgerForSelf(s: State, cache: Cache, response: Response, peer: Option<NodeId>, s': State, cmds: seq<Command>)
    returns (s0: State, replies: seq<Command>, rest: seq<Command>)
    requires HandleLedgerResponse(s, cache, response, peer, s', cmds)
    ensures s0 == s.(headersRequests := s0.headersRequests, payloadRequests := s0.payloadRequests)
    ensures Inv(s) ==> Inv(s0)
    ensures cmds == replies + rest && forall c <- replies :: c.SendResponse?
    ensures HandleResponseForSelf(s0, cache, None, response, peer, s', rest)
  {
    hide HandleHeadersForSelf, HandlePayloadForSelf;
    var first, more :| LedgerResponseWith(s, cache, response, first, more, peer, s', cmds);
    RepliesNotEmits(s, response, first);
    if Inv(s) {
      DropWaiting(s, response);
    }
    replies, rest := first, more;
    s0 := match response
      case HeadersResponse(r) => s.(headersRequests := s.headersRequests - {r.range})
      case PayloadResponse(r) => s.(payloadRequests := s.payloadRequests - {BodyIdIn(r)});
  }

  /** Inside a step that brings a response: first the replies to waiting peers, then the handler for
      the node's own requests. */
  lemma ForSelf(s: State, cache: Cache, e: Event, response: Response, s': State, cmds: seq<Command>)
    returns (s0: State, replies: seq<Command>, rest: seq<Command>)
    requires CacheOk(cache) && Next(s, cache, e, s', cmds) && Brings(e, response)
    ensures s0 == s.(headersRequests := s0.headersRequests, payloadRequests := s0.payloadRequests)
    ensures Inv(s) ==> Inv(s0)
    ensures cmds == replies + rest && forall c <- replies :: c.SendResponse?
    ensures HandleResponseForSelf(s0, cache, SenderOf(e), response, PickOf(e), s', rest)
  {
    hide HandleLedgerResponse, HandleResponseForSelf, Inv;
    if e.PeerResponded? {
      s0, replies, rest := s, [], cmds;
      assert [] + cmds == cmds;
    } else {
      s0, replies, rest := LedgerForSelf(s, cache, response, PickOf(e), s', cmds);
    }
  }

  /** The range is emitted with exactly these headers. */
  predicate EmitsWith(cmds: seq<Command>, r: BlockRange, headers: seq<Header>) {
    exists i :: 0 <= i < |cmds| && cmds[i].Emit? && cmds[i].range == r && HeadersOf(cmds[i].blocks) == headers
  }

  lemma EmitsWithLater(a: seq<Command>, b: seq<Command>, r: BlockRange, headers: seq<Header>)
    requires EmitsWith(b, r, headers)
    ensures EmitsWith(a + b, r, headers)
  {
    var i :| 0 <= i < |b| && b[i].Emit? && b[i].range == r && HeadersOf(b[i].blocks) == headers;
    assert (a + b)[|a| + i] == b[i];
  }

  lemma EmitsWithSooner(a: seq<Command>, b: seq<Command>, r: BlockRange, headers: seq<Header>)
    requires EmitsWith(a, r, headers)
    ensures EmitsWith(a + b, r, headers)
  {
    var i :| 0 <= i < |a| && a[i].Emit? && a[i].range == r && HeadersOf(a[i].blocks) == headers;
    assert (a + b)[i] == a[i];
  }

  lemma FullListed(completed: map<BlockRange, Completed>, r: BlockRange, all: set<Command>, cmds: seq<Command>)
    requires r in completed && Full(completed[r].slots) && EmitsOf(completed) <= all && Enumerates(cmds, all)
    ensures EmitsWith(cmds, r, SlotHeaders(completed[r].slots))
  {
    var c := EmitOf(completed, r);
    assert r in FullRanges(completed) && c in EmitsOf(completed);
    EnumeratesElements(cmds, all);
    assert HeadersOf(c.blocks) == SlotHeaders(completed[r].slots);
    var i :| 0 <= i < |cmds| && cmds[i] == c;
  }

  /** After the payload pass a held range has the bodies at hand filled in, or is emitted. */
  lemma InitiateFills(s: State, cache: Cache, start: set<BodyId>, s': State, cmds: seq<Command>, r: BlockRange)
    requires Initiate(s, cache, start, s', cmds) && r in s.completed
    ensures var c := Fill(s.completed[r], Hits(s, cache));
            if Full(c.slots) then r !in s'.completed && EmitsWith(cmds, r, SlotHeaders(s.completed[r].slots))
            else r in s'.completed && s'.completed[r] == c
  {
    var hits := Hits(s, cache);
    var s2 := Started(AfterHits(s, hits), start);
    assert s2.completed[r] == Fill(s.completed[r], hits);
    assert SlotHeaders(s2.completed[r].slots) == SlotHeaders(s.completed[r].slots);
    if Full(s2.completed[r].slots) {
      FullListed(s2.completed, r, ResetsOf(s, hits) + FetchesOf(start) + EmitsOf(s2.completed), cmds);
    }
  }

  lemma FillKeepsHeaders(c: Completed, hits: set<BodyId>)
    ensures SlotHeaders(Fill(c, hits).slots) == SlotHeaders(c.slots)
  {
  }

  lemma EmptyHeaders(headers: seq<Header>)
    ensures SlotHeaders(EmptySlots(headers)) == headers
  {
  }

  lemma InitiateLeavesHeaders(s: State, cache: Cache, start: set<BodyId>, s': State, cmds: seq<Command>)
    requires Initiate(s, cache, start, s', cmds)
    ensures s'.selfHeaders == s.selfHeaders && s'.mode == s.mode
  {
  }

  lemma HeadersFoundForSelf(s: State, cache: Cache, sender: Option<NodeId>, range: BlockRange, headers: seq<Header>,
                            peer: Option<NodeId>, s': State, cmds: seq<Command>)
    requires HandleHeadersForSelf(s, cache, sender, HeadersFound(range, headers), peer, s', cmds)
    requires range in s.selfHeaders && Verifies(range, headers)
    ensures s'.selfHeaders == s.selfHeaders - {range}
    ensures if range in s'.completed then SlotHeaders(s'.completed[range].slots) == headers
            else EmitsWith(cmds, range, headers)
    ensures sender.Some? ==> ResetTimeout(Headers(range)) in cmds
  {
    hide Initiate, Verifies, Full, Hits, Fill, Enqueue, EmptySlots, SlotHeaders, EmitsWith;
    var response := HeadersFound(range, headers);
    var start, more :| HeadersForSelfWith(s, cache, sender, response, peer, start, more, s', cmds);
    var (s1, first) := HeadersForSelf(s, sender, response, peer);
    EmptyHeaders(headers);
    InitiateLeavesHeaders(s1, cache, start, s', more);
    InitiateFills(s1, cache, start, s', more, range);
    FillKeepsHeaders(s1.completed[range], Hits(s1, cache));
    if range !in s'.completed {
      EmitsWithLater(first, more, range, headers);
    }
  }

  /** Headers that verify for an outstanding range are taken in, whoever sent them: the request is
      done, and the range is emitted or recorded with exactly those headers.  A peer's answer stops
      the timer. */
  lemma HeadersTakenIn(s: State, cache: Cache, e: Event, range: BlockRange, headers: seq<Header>,
                       s': State, cmds: seq<Command>)
    requires CacheOk(cache) && Next(s, cache, e, s', cmds)
    requires Brings(e, HeadersResponse(HeadersFound(range, headers)))
    requires range in s.selfHeaders && Verifies(range, headers)
    ensures s'.selfHeaders == s.selfHeaders - {range}
    ensures if range in s'.completed then SlotHeaders(s'.completed[range].slots) == headers
            else EmitsWith(cmds, range, headers)
    ensures e.PeerResponded? ==> ResetTimeout(Headers(range)) in cmds
  {
    var s0, replies, rest := ForSelf(s, cache, e, HeadersResponse(HeadersFound(range, headers)), s', cmds);
    HeadersFoundForSelf(s0, cache, SenderOf(e), range, headers, PickOf(e), s', rest);
    if range !in s'.completed {
      EmitsWithLater(replies, rest, range, headers);
    }
  }

  lemma HeadersNotTakenForSelf(s: State, cache: Cache, sender: Option<NodeId>, response: HeadersResponse,
                               peer: Option<NodeId>, s': State, cmds: seq<Command>)
    requires HandleHeadersForSelf(s, cache, sender, response, peer, s', cmds)
    requires response.range in s.selfHeaders && (response.HeadersFound? ==> !Verifies(response.range, response.headers))
    ensures var range := response.range;
            if sender.None? && response.HeadersNotAvailable? && s.selfHeaders[range].to.None? then
              && s'.selfHeaders == s.selfHeaders[range := s.selfHeaders[range].(to := peer)]
              && ScheduleTimeout(Headers(range)) in cmds
              && (peer.Some? ==> SendRequest(peer.value, Headers(range)) in cmds)
            else s'.selfHeaders == s.selfHeaders && forall c <- cmds :: !c.SendRequest? && !c.ScheduleTimeout?
  {
    hide Initiate, Verifies;
    var start, more :| HeadersForSelfWith(s, cache, sender, response, peer, start, more, s', cmds);
    var (s1, first) := HeadersForSelf(s, sender, response, peer);
    InitiateLeavesHeaders(s1, cache, start, s', more);
    InitiateCommands(s1, cache, start, s', more);
    if sender.None? && response.HeadersNotAvailable? && s.selfHeaders[response.range].to.None? {
      AskPeerAsks(peer, Headers(response.range));
    }
  }

  lemma AskPeerAsks(peer: Option<NodeId>, q: Request)
    ensures ScheduleTimeout(q) in AskPeer(peer, q)
    ensures peer.Some? ==> SendRequest(peer.value, q) in AskPeer(peer, q)
  {
    var cmds := AskPeer(peer, q);
    assert cmds[|cmds|-1] == ScheduleTimeout(q);
    assert peer.Some? ==> cmds[0] == SendRequest(peer.value, q);
  }

  /** When the ledger lacks the headers and no peer was asked yet, the picked peer is asked and a timer
      is set.  Wrong headers, a peer's refusal and a late word of the ledger change nothing. */
  lemma HeadersNotTaken(s: State, cache: Cache, e: Event, response: HeadersResponse, s': State, cmds: seq<Command>)
    requires CacheOk(cache) && Next(s, cache, e, s', cmds) && Brings(e, HeadersResponse(response))
    requires response.range in s.selfHeaders && (response.HeadersFound? ==> !Verifies(response.range, response.headers))
    ensures var range := response.range;
            if e.LedgerResponded? && response.HeadersNotAvailable? && s.selfHeaders[range].to.None? then
              && s'.selfHeaders == s.selfHeaders[range := s.selfHeaders[range].(to := e.peer)]
              && ScheduleTimeout(Headers(range)) in cmds
              && (e.peer.Some? ==> SendRequest(e.peer.value, Headers(range)) in cmds)
            else s'.selfHeaders == s.selfHeaders && forall c <- cmds :: !c.SendRequest? && !c.ScheduleTimeout?
  {
    var s0, replies, rest := ForSelf(s, cache, e, HeadersResponse(response), s', cmds);
    hide Next, HandleHeadersForSelf, Verifies;
    HeadersNotTakenForSelf(s0, cache, SenderOf(e), response, PickOf(e), s', rest);
  }

  // ---------------------------------------------------------------- payloads

  lemma InitiateAddsNone(s: State, cache: Cache, start: set<BodyId>, s': State, cmds: seq<Command>)
    requires Initiate(s, cache, start, s', cmds)
    ensures s'.completed.Keys <= s.completed.Keys && s'.selfPayloads.Keys <= s.selfPayloads.Keys
  {
  }

  /** No slot of the range lacks any body but this one. */
  predicate LacksOnly(slots: seq<Slot>, id: BodyId) {
    forall slot <- slots | slot.body.None? :: slot.header.bodyId == id
  }

  lemma LastBodyFills(slots: seq<Slot>, id: BodyId)
    requires LacksOnly(slots, id)
    ensures Full(FillSlots(slots, {id}))
  {
    var filled := FillSlots(slots, {id});
    forall slot <- filled
      ensures slot.body.Some?
    {
      var i :| 0 <= i < |filled| && filled[i] == slot;
      assert slots[i] in slots;
    }
  }

  /** After a body was filled in and complete ranges emitted, the payload pass leaves no slot for it. */
  lemma FilledThenInitiated(s: State, id: BodyId, s1: State, emits: seq<Command>, cache: Cache, start: set<BodyId>,
                            s': State, more: seq<Command>, r: BlockRange)
    requires s1.completed == FillAll(s.completed, {id}) && Enumerates(emits, EmitsOf(s1.completed))
    requires Initiate(Unfinished(s1), cache, start, s', more) && r in s.completed
    ensures r in s'.completed ==> !Wants(s'.completed[r].slots, id)
    ensures LacksOnly(s.completed[r].slots, id) ==>
              r !in s'.completed && EmitsWith(emits, r, SlotHeaders(s.completed[r].slots))
  {
    var c := Fill(s.completed[r], {id});
    assert s1.completed[r] == c;
    FillKeepsHeaders(s.completed[r], {id});
    InitiateAddsNone(Unfinished(s1), cache, start, s', more);
    if Full(c.slots) {
      FullListed(s1.completed, r, EmitsOf(s1.completed), emits);
      assert r in FullRanges(s1.completed);
    } else {
      InitiateFills(Unfinished(s1), cache, start, s', more, r);
      WantsAfterFill(s.completed[r].slots, {id}, id);
      WantsAfterFill(c.slots, Hits(Unfinished(s1), cache), id);
      if LacksOnly(s.completed[r].slots, id) {
        LastBodyFills(s.completed[r].slots, id);
      }
    }
  }

  lemma PayloadFoundForSelf(s: State, cache: Cache, sender: Option<NodeId>, body: Body, peer: Option<NodeId>,
                            s': State, cmds: seq<Command>)
    requires HandlePayloadForSelf(s, cache, sender, BodyFound(body), peer, s', cmds) && AwaitsPayload(s, BodyIdOf(body))
    ensures BodyIdOf(body) !in s'.selfPayloads
    ensures forall r <- s'.completed :: !Wants(s'.completed[r].slots, BodyIdOf(body))
    ensures forall r <- s.completed | LacksOnly(s.completed[r].slots, BodyIdOf(body)) ::
              r !in s'.completed && EmitsWith(cmds, r, SlotHeaders(s.completed[r].slots))
    ensures sender.Some? ==> ResetTimeout(Payload(BodyIdOf(body))) in cmds
  {
    hide Initiate, Enumerates, LacksOnly, Wants, EmitsWith, FillAll, Full;
    var id, response := BodyIdOf(body), BodyFound(body);
    var start, emits, more :| PayloadForSelfWith(s, cache, sender, response, peer, start, emits, more, s', cmds);
    var (s1, first) := PayloadForSelf(s, sender, response, peer);
    assert s1.completed == FillAll(s.completed, {id}) && id !in s1.selfPayloads;
    InitiateAddsNone(Unfinished(s1), cache, start, s', more);
    FillAllKeys(s.completed, {id});
    forall r <- s.completed
      ensures r in s'.completed ==> !Wants(s'.completed[r].slots, id)
      ensures LacksOnly(s.completed[r].slots, id) ==>
                r !in s'.completed && EmitsWith(cmds, r, SlotHeaders(s.completed[r].slots))
    {
      FilledThenInitiated(s, id, s1, emits, cache, start, s', more, r);
      if LacksOnly(s.completed[r].slots, id) {
        EmitsWithLater(first, emits, r, SlotHeaders(s.completed[r].slots));
        EmitsWithSooner(first + emits, more, r, SlotHeaders(s.completed[r].slots));
      }
    }
  }

  lemma FillAllKeys(completed: map<BlockRange, Completed>, ids: set<BodyId>)
    ensures FillAll(completed, ids).Keys == completed.Keys
  {
  }

  /** A payload that is waited for is taken in, whoever sent it: afterwards no range lacks it, and the
      ranges that lacked nothing else are emitted.  A peer's answer stops the timer. */
  lemma PayloadTakenIn(s: State, cache: Cache, e: Event, body: Body, s': State, cmds: seq<Command>)
    requires CacheOk(cache) && Next(s, cache, e, s', cmds)
    requires Brings(e, PayloadResponse(BodyFound(body))) && AwaitsPayload(s, BodyIdOf(body))
    ensures BodyIdOf(body) !in s'.selfPayloads
    ensures forall r <- s'.completed :: !Wants(s'.completed[r].slots, BodyIdOf(body))
    ensures forall r <- s.completed | LacksOnly(s.completed[r].slots, BodyIdOf(body)) ::
              r !in s'.completed && EmitsWith(cmds, r, SlotHeaders(s.completed[r].slots))
    ensures e.PeerResponded? ==> ResetTimeout(Payload(BodyIdOf(body))) in cmds
  {
    var s0, replies, rest := ForSelf(s, cache, e, PayloadResponse(BodyFound(body)), s', cmds);
    hide Next, HandlePayloadForSelf, LacksOnly, Wants, EmitsWith;
    PayloadFoundForSelf(s0, cache, SenderOf(e), body, PickOf(e), s', rest);
    forall r <- s.completed | LacksOnly(s.completed[r].slots, BodyIdOf(body))
      ensures EmitsWith(cmds, r, SlotHeaders(s.completed[r].slots))
    {
      EmitsWithLater(replies, rest, r, SlotHeaders(s.completed[r].slots));
    }
  }

  lemma PayloadNotTakenForSelf(s: State, cache: Cache, sender: Option<NodeId>, id: BodyId, peer: Option<NodeId>,
                               s': State, cmds: seq<Command>)
    requires HandlePayloadForSelf(s, cache, sender, BodyNotAvailable(id), peer, s', cmds) && AwaitsPayload(s, id)
    ensures if sender.None? && s.selfPayloads[id].value.to.None? then
              && (AwaitsPayload(s', id) ==> s'.selfPayloads[id].value.to == peer)
              && ScheduleTimeout(Payload(id)) in cmds
              && (peer.Some? ==> SendRequest(peer.value, Payload(id)) in cmds)
            else
              && (AwaitsPayload(s', id) ==> s'.selfPayloads[id] == s.selfPayloads[id])
              && forall c <- cmds :: !c.SendRequest? && !c.ScheduleTimeout?
  {
    hide Initiate, Enumerates, FullRanges, EmitsOf;
    var response := BodyNotAvailable(id);
    var start, emits, more :| PayloadForSelfWith(s, cache, sender, response, peer, start, emits, more, s', cmds);
    var (s1, first) := PayloadForSelf(s, sender, response, peer);
    OnlyEmits(s1.completed, emits);
    InitiateCommands(Unfinished(s1), cache, start, s', more);
    AskPeerAsks(peer, Payload(id));
    hide AskPeer;
    InitiateKeepsRequest(Unfinished(s1), cache, start, s', more, id);
  }

  lemma OnlyEmits(completed: map<BlockRange, Completed>, emits: seq<Command>)
    requires Enumerates(emits, EmitsOf(completed))
    ensures forall c <- emits :: c.Emit?
  {
    EnumeratesElements(emits, EmitsOf(completed));
  }

  lemma InitiateKeepsRequest(s: State, cache: Cache, start: set<BodyId>, s': State, cmds: seq<Command>, id: BodyId)
    requires Initiate(s, cache, start, s', cmds) && AwaitsPayload(s, id)
    ensures AwaitsPayload(s', id) ==> s'.selfPayloads[id] == s.selfPayloads[id]
  {
  }

  /** When the ledger lacks the payload and no peer was asked yet, the picked peer is asked and a timer
      is set.  A peer's refusal and a late word of the ledger change nothing. */
  lemma PayloadNotTaken(s: State, cache: Cache, e: Event, id: BodyId, s': State, cmds: seq<Command>)
    requires CacheOk(cache) && Next(s, cache, e, s', cmds)
    requires Brings(e, PayloadResponse(BodyNotAvailable(id))) && AwaitsPayload(s, id)
    ensures if e.LedgerResponded? && s.selfPayloads[id].value.to.None? then
              && (AwaitsPayload(s', id) ==> s'.selfPayloads[id].value.to == e.peer)
              && ScheduleTimeout(Payload(id)) in cmds
              && (e.peer.Some? ==> SendRequest(e.peer.value, Payload(id)) in cmds)
            else
              && (AwaitsPayload(s', id) ==> s'.selfPayloads[id] == s.selfPayloads[id])
              && forall c <- cmds :: !c.SendRequest? && !c.ScheduleTimeout?
  {
    var s0, replies, rest := ForSelf(s, cache, e, PayloadResponse(BodyNotAvailable(id)), s', cmds);
    hide Next, HandlePayloadForSelf;
    PayloadNotTakenForSelf(s0, cache, SenderOf(e), id, PickOf(e), s', rest);
  }

  // ---------------------------------------------------------------- what is at hand

  /** The body is in a block of the tree, in the buffer, or in a range that is being synced. */
  predicate AtHand(cache: Cache, completed: map<BlockRange, Completed>, id: BodyId) {
    || (cache.TreeCache? && exists x <- cache.blocks :: cache.blocks[x].header.bodyId == id)
    || (cache.BufferCache? && id in cache.bodies)
    || exists r <- completed :: HoldsBody(completed[r].slots, id)
  }

  lemma HasCachedIff(s: State, cache: Cache, id: BodyId)
    requires AllCompletedOk(s.mode, s.selfPayloads, s.completed)
    ensures HasCached(cache, s.completed, id) <==> AtHand(cache, s.completed, id)
  {
    hide HoldsBody, Verifies;
    assert forall r <- s.completed :: CompletedOk(s.mode, s.selfPayloads, r, s.completed[r]);
  }

  lemma InitiateMisses(s: State, cache: Cache, start: set<BodyId>, s': State, cmds: seq<Command>, id: BodyId)
    requires Initiate(s, cache, start, s', cmds) && id in s'.selfPayloads
    ensures id !in Hits(s, cache) && !HasCached(cache, s.completed, id)
  {
    hide HasCached, Enumerates, LegalStart;
    assert id in s.selfPayloads;
  }

  lemma FillSlotsOnly(c: Completed, ids: set<BodyId>)
    ensures Fill(c, ids).slots == FillSlots(c.slots, ids)
  {
  }

  lemma InitiateTakes(s: State, cache: Cache, start: set<BodyId>, s': State, cmds: seq<Command>, id: BodyId)
    requires Core(s) && Initiate(s, cache, start, s', cmds) && id in s'.selfPayloads
    ensures !AtHand(cache, s'.completed, id)
  {
    InitiateAddsNone(s, cache, start, s', cmds);
    InitiateMisses(s, cache, start, s', cmds, id);
    HasCachedIff(s, cache, id);
    hide Initiate, Core, HoldsBody, HasCached, Hits, Fill, Full;
    forall r <- s'.completed
      ensures !HoldsBody(s'.completed[r].slots, id)
    {
      FillSlotsOnly(s.completed[r], Hits(s, cache));
      InitiateFills(s, cache, start, s', cmds, r);
      FilledHolds(s.completed[r].slots, Hits(s, cache), id);
    }
  }

  /** After a response to an outstanding request, no payload that is at hand is still on request. */
  lemma NothingAtHandAwaited(s: State, cache: Cache, e: Event, response: Response, s': State, cmds: seq<Command>,
                             id: BodyId)
    requires CacheOk(cache) && Inv(s) && Next(s, cache, e, s', cmds)
    requires Brings(e, response) && Outstanding(s, RequestOf(response)) && id in s'.selfPayloads
    ensures !AtHand(cache, s'.completed, id)
  {
    var s0, replies, rest := ForSelf(s, cache, e, response, s', cmds);
    hide Next, Initiate, HeadersForSelf, PayloadForSelf, AtHand, Core;
    match response
    case HeadersResponse(r) =>
      var start, more :| HeadersForSelfWith(s0, cache, SenderOf(e), r, PickOf(e), start, more, s', rest);
      HeadersForSelfKeepsCore(s0, SenderOf(e), r, PickOf(e));
      InitiateTakes(HeadersForSelf(s0, SenderOf(e), r, PickOf(e)).0, cache, start, s', more, id);
    case PayloadResponse(r) =>
      var start, emits, more :|
        PayloadForSelfWith(s0, cache, SenderOf(e), r, PickOf(e), start, emits, more, s', rest);
      var s1 := PayloadForSelf(s0, SenderOf(e), r, PickOf(e)).0;
      PayloadForSelfKeepsCore(s0, SenderOf(e), r, PickOf(e));
      UnfinishedKeepsCore(s1);
      InitiateTakes(Unfinished(s1), cache, start, s', more, id);
  }

  lemma InitiateStops(s: State, cache: Cache, start: set<BodyId>, s': State, cmds: seq<Command>, id: BodyId)
    requires Initiate(s, cache, start, s', cmds) && AwaitsPayload(s, id) && s.selfPayloads[id].value.to.Some?
    requires id !in s'.selfPayloads
    ensures ResetTimeout(Payload(id)) in cmds
  {
    var hits := Hits(s, cache);
    assert id in hits;
    assert ResetTimeout(Payload(id)) in ResetsOf(s, hits);
    EnumeratesElements(cmds, ResetsOf(s, hits) + FetchesOf(start)
                             + EmitsOf(Started(AfterHits(s, hits), start).completed));
  }

  lemma TimerStoppedByHeaders(s: State, cache: Cache, sender: Option<NodeId>, response: HeadersResponse,
                              peer: Option<NodeId>, s': State, cmds: seq<Command>, id: BodyId)
    requires HandleHeadersForSelf(s, cache, sender, response, peer, s', cmds)
    requires AwaitsPayload(s, id) && s.selfPayloads[id].value.to.Some? && id !in s'.selfPayloads
    ensures ResetTimeout(Payload(id)) in cmds
  {
    hide Initiate, Enqueue, Verifies, EmptySlots;
    var start, more :| HeadersForSelfWith(s, cache, sender, response, peer, start, more, s', cmds);
    EnqueueKeeps(s.selfPayloads, if response.HeadersFound? then response.headers else [], id);
    InitiateStops(HeadersForSelf(s, sender, response, peer).0, cache, start, s', more, id);
  }

  lemma TimerStoppedByPayload(s: State, cache: Cache, sender: Option<NodeId>, response: BodyResponse,
                              peer: Option<NodeId>, s': State, cmds: seq<Command>, id: BodyId)
    requires HandlePayloadForSelf(s, cache, sender, response, peer, s', cmds) && BodyIdIn(response) != id
    requires AwaitsPayload(s, id) && s.selfPayloads[id].value.to.Some? && id !in s'.selfPayloads
    ensures ResetTimeout(Payload(id)) in cmds
  {
    hide Initiate, FillAll, FullRanges, Enumerates, EmitsOf, AskPeer;
    var start, emits, more :| PayloadForSelfWith(s, cache, sender, response, peer, start, emits, more, s', cmds);
    InitiateStops(Unfinished(PayloadForSelf(s, sender, response, peer).0), cache, start, s', more, id);
  }

  /** A payload request that was with a peer and is settled by a body at hand has its timer stopped. */
  lemma TimerStopped(s: State, cache: Cache, e: Event, response: Response, s': State, cmds: seq<Command>, id: BodyId)
    requires CacheOk(cache) && Next(s, cache, e, s', cmds) && Brings(e, response) && RequestOf(response) != Payload(id)
    requires AwaitsPayload(s, id) && s.selfPayloads[id].value.to.Some? && id !in s'.selfPayloads
    ensures ResetTimeout(Payload(id)) in cmds
  {
    var s0, replies, rest := ForSelf(s, cache, e, response, s', cmds);
    hide Next, HandleHeadersForSelf, HandlePayloadForSelf;
    match response
    case HeadersResponse(r) => TimerStoppedByHeaders(s0, cache, SenderOf(e), r, PickOf(e), s', rest, id);
    case PayloadResponse(r) => TimerStoppedByPayload(s0, cache, SenderOf(e), r, PickOf(e), s', rest, id);
  }

  lemma EnqueueKeeps(reqs: map<BodyId, Option<SelfRequest>>, headers: seq<Header>, id: BodyId)
    requires id in reqs
    ensures id in Enqueue(reqs, headers) && Enqueue(reqs, headers)[id] == reqs[id]
  {
  }

  /** A response nobody waits for changes nothing for the node itself. */
  lemma Unawaited(s: State, cache: Cache, e: Event, response: Response, s': State, cmds: seq<Command>)
    requires CacheOk(cache) && Next(s, cache, e, s', cmds)
    requires Brings(e, response) && !Outstanding(s, RequestOf(response))
    ensures s' == s.(headersRequests := s'.headersRequests, payloadRequests := s'.payloadRequests)
    ensures forall c <- cmds :: c.SendResponse?
  {
    var s0, replies, rest := ForSelf(s, cache, e, response, s', cmds);
  }

  // ---------------------------------------------------------------- timers and requests of the node

  /** A timer that goes off for an outstanding request asks the picked peer and is set again; it
      touches no other request. */
  lemma TimeoutAsks(s: State, cache: Cache, q: Request, peer: Option<NodeId>, s': State, cmds: seq<Command>)
    requires CacheOk(cache) && Next(s, cache, TimedOut(q, peer), s', cmds)
    ensures !Outstanding(s, q) ==> s' == s && cmds == []
    ensures Outstanding(s, q) ==>
              && Outstanding(s', q) && AskedOf(s', q) == peer
              && ScheduleTimeout(q) in cmds && (peer.Some? ==> SendRequest(peer.value, q) in cmds)
    ensures forall x: Request | x != q :: Outstanding(s', x) <==> Outstanding(s, x)
    ensures forall x: Request | x != q && Outstanding(s, x) :: AskedOf(s', x) == AskedOf(s, x)
    ensures s'.completed == s.completed && s'.mode == s.mode
  {
    AskPeerAsks(peer, q);
    hide AskPeer;
  }

  /** A request for a range of blocks leaves the range held for that requester; a new one goes to the
      ledger first.  A change of requester drops whatever else was held. */
  lemma RequestHeld(s: State, cache: Cache, requester: Requester, range: BlockRange, s': State, cmds: seq<Command>)
    requires CacheOk(cache) && Next(s, cache, SelfRequested(requester, range), s', cmds)
    ensures range.num == 0 ==> s' == s && cmds == []
    ensures range.num > 0 ==> s'.mode == requester && Held(s', range)
    ensures range.num > 0 && (requester != s.mode || !Held(s, range)) ==>
              range in s'.selfHeaders && s'.selfHeaders[range].to.None? && cmds == [FetchHeaders(range)]
    ensures forall r | r != range :: Held(s', r) <==> Held(s, r) && (requester == s.mode || range.num == 0)
  {
  }

  /** A cancel drops that range if it is held for that requester, and nothing else. */
  lemma CancelDrops(s: State, cache: Cache, requester: Requester, range: BlockRange, s': State, cmds: seq<Command>)
    requires CacheOk(cache) && Inv(s) && Next(s, cache, SelfCancelled(requester, range), s', cmds)
    ensures forall r :: Held(s', r) <==> Held(s, r) && !(r == range && requester == s.mode)
    ensures s'.selfPayloads == s.selfPayloads && s'.mode == s.mode && cmds == []
  {
    if range in s.completed {
      assert CompletedOk(s.mode, s.selfPayloads, range, s.completed[range]);
    }
  }

  /** Between two steps there are at most ten payload requests in flight, and exactly ten while any
      payload is queued. */
  lemma TenInFlight(s: State)
    requires Inv(s)
    ensures |Initiated(s.selfPayloads)| <= 10
    ensures Queued(s.selfPayloads) != {} ==> |Initiated(s.selfPayloads)| == 10
  {
  }
}
