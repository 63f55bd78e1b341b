/** What holds of block sync between two handler calls, and why each handler keeps it. */
module SyncInvariant {
  import opened Blocks
  import opened Forests
  import opened Sync

  // ---------------------------------------------------------------- the invariant

  function SlotHeaders(slots: seq<Slot>): (r: seq<Header>)
    ensures |r| == |slots|
  {
    seq(|slots|, i requires 0 <= i < |slots| => slots[i].header)
  }

  ghost predicate SlotOk(reqs: map<BodyId, Option<SelfRequest>>, slot: Slot) {
    match slot.body
    case None => slot.header.bodyId in reqs
    case Some(body) => BodyIdOf(body) == slot.header.bodyId
  }

  predicate HoldsBody(slots: seq<Slot>, id: BodyId) {
    exists slot <- slots :: slot.body.Some? && slot.header.bodyId == id
  }

  /** The headers are those of the range, bodies match their headers, every missing body is on
      request, and the cache has exactly the bodies that are there. */
  ghost predicate CompletedOk(mode: Requester, reqs: map<BodyId, Option<SelfRequest>>, range: BlockRange,
                              c: Completed) {
    && range.num > 0
    && c.requester == mode
    && Verifies(range, SlotHeaders(c.slots))
    && (forall slot <- c.slots :: SlotOk(reqs, slot))
    && (forall id <- c.cache :: BodyIdOf(c.cache[id]) == id)
    && (forall id :: id in c.cache <==> HoldsBody(c.slots, id))
  }

  ghost predicate AllCompletedOk(mode: Requester, reqs: map<BodyId, Option<SelfRequest>>,
                                 completed: map<BlockRange, Completed>) {
    forall r <- completed :: CompletedOk(mode, reqs, r, completed[r])
  }

  ghost predicate PayloadsOk(s: State) {
    && s.inFlight == |Initiated(s.selfPayloads)| <= MAX_PAYLOAD_REQUESTS
    && forall id <- Initiated(s.selfPayloads) :: s.selfPayloads[id].value.requester == s.mode
  }

  ghost predicate HeadersOk(s: State) {
    && (forall r <- s.selfHeaders :: r.num > 0 && s.selfHeaders[r].requester == s.mode)
    && s.selfHeaders.Keys !! s.completed.Keys
  }

  /** What a peer's cached headers owe to the range left for the ledger. */
  ghost predicate CachedOk(ledger: BlockRange, cached: seq<Header>) {
    ledger.num > 0 && Linked(cached) && (cached != [] ==> cached[0].qc.id == ledger.last)
  }

  ghost predicate PeersOk(s: State) {
    forall r <- s.headersRequests, p <- s.headersRequests[r] :: CachedOk(r, s.headersRequests[r][p])
  }

  /** Holds inside handlers too. */
  ghost predicate Core(s: State) {
    PayloadsOk(s) && HeadersOk(s) && PeersOk(s) && AllCompletedOk(s.mode, s.selfPayloads, s.completed)
  }

  /** Nothing waits while a slot is free, and no complete range is left unemitted. */
  ghost predicate Settled(s: State) {
    && (s.inFlight < MAX_PAYLOAD_REQUESTS ==> Queued(s.selfPayloads) == {})
    && (forall r <- s.completed :: !Full(s.completed[r].slots))
  }

  ghost predicate Inv(s: State) {
    Core(s) && Settled(s)
  }

  /** A range is emitted to the current requester, complete, consecutive and with matching bodies. */
  ghost predicate EmitOk(mode: Requester, cmd: Command)
    requires cmd.Emit?
  {
    && cmd.requester == mode
    && cmd.range.num > 0
    && Verifies(cmd.range, HeadersOf(cmd.blocks))
    && forall b <- cmd.blocks :: BodyMatches(b)
  }

  ghost predicate EmitsOk(mode: Requester, cmds: seq<Command>) {
    forall c <- cmds | c.Emit? :: EmitOk(mode, c)
  }

  lemma NoEmitsOk(mode: Requester, cmds: seq<Command>)
    requires forall c <- cmds :: !c.Emit?
    ensures EmitsOk(mode, cmds)
  {
  }

  lemma EmitsOkJoin(mode: Requester, a: seq<Command>, b: seq<Command>)
    requires EmitsOk(mode, a) && EmitsOk(mode, b)
    ensures EmitsOk(mode, a + b)
  {
  }

  lemma EnumeratesElements(cmds: seq<Command>, all: set<Command>)
    requires Enumerates(cmds, all)
    ensures forall c :: c in cmds <==> c in all
  {
    assert forall c :: c in cmds <==> c in multiset(cmds);
    assert forall c :: c in all <==> c in multiset(all);
  }

  // ---------------------------------------------------------------- counting requests

  lemma RemovedCount(reqs: map<BodyId, Option<SelfRequest>>, hits: set<BodyId>)
    ensures |Initiated(reqs - hits)| == |Initiated(reqs)| - |hits * Initiated(reqs)|
  {
    var all, cut := Initiated(reqs), hits * Initiated(reqs);
    assert Initiated(reqs - hits) == all - cut;
    assert all == (all - cut) + cut;
  }

  lemma StartedCount(s: State, start: set<BodyId>)
    requires start <= Queued(s.selfPayloads)
    ensures Initiated(Started(s, start).selfPayloads) == Initiated(s.selfPayloads) + start
    ensures |Initiated(Started(s, start).selfPayloads)| == |Initiated(s.selfPayloads)| + |start|
    ensures Queued(Started(s, start).selfPayloads) == Queued(s.selfPayloads) - start
  {
    assert Initiated(Started(s, start).selfPayloads) == Initiated(s.selfPayloads) + start;
    assert Initiated(s.selfPayloads) !! start;
  }

  lemma EnqueuedCount(reqs: map<BodyId, Option<SelfRequest>>, headers: seq<Header>)
    ensures Initiated(Enqueue(reqs, headers)) == Initiated(reqs)
    ensures forall id <- reqs :: id in Enqueue(reqs, headers) && Enqueue(reqs, headers)[id] == reqs[id]
    ensures forall h <- headers :: h.bodyId in Enqueue(reqs, headers)
  {
  }

  // ---------------------------------------------------------------- filling

  lemma FilledHolds(slots: seq<Slot>, hits: set<BodyId>, id: BodyId)
    ensures HoldsBody(FillSlots(slots, hits), id) <==> HoldsBody(slots, id) || (id in hits && Wants(slots, id))
  {
    var filled := FillSlots(slots, hits);
    if HoldsBody(filled, id) {
      var i :| 0 <= i < |slots| && filled[i].body.Some? && filled[i].header.bodyId == id;
      assert slots[i] in slots;
    }
    if HoldsBody(slots, id) || (id in hits && Wants(slots, id)) {
      var i :| 0 <= i < |slots| && slots[i].header.bodyId == id && (slots[i].body.Some? || id in hits);
      assert filled[i] in filled;
    }
  }

  lemma WantsAfterFill(slots: seq<Slot>, a: set<BodyId>, id: BodyId)
    ensures Wants(FillSlots(slots, a), id) <==> Wants(slots, id) && id !in a
  {
    var filled := FillSlots(slots, a);
    if Wants(filled, id) {
      var i :| 0 <= i < |slots| && filled[i].body.None? && filled[i].header.bodyId == id;
      assert slots[i] in slots;
    }
    if Wants(slots, id) && id !in a {
      var i :| 0 <= i < |slots| && slots[i].body.None? && slots[i].header.bodyId == id;
      assert filled[i] in filled;
    }
  }

  lemma FillKeepsOk(mode: Requester, reqs: map<BodyId, Option<SelfRequest>>, range: BlockRange, c: Completed,
                    hits: set<BodyId>)
    requires CompletedOk(mode, reqs, range, c)
    ensures CompletedOk(mode, reqs - hits, range, Fill(c, hits))
  {
    var d := Fill(c, hits);
    assert SlotHeaders(d.slots) == SlotHeaders(c.slots);
    forall slot <- d.slots
      ensures SlotOk(reqs - hits, slot)
    {
      var i :| 0 <= i < |d.slots| && d.slots[i] == slot;
      assert slot == FillSlot(c.slots[i], hits) && SlotOk(reqs, c.slots[i]);
    }
    forall id
      ensures id in d.cache <==> HoldsBody(d.slots, id)
    {
      FilledHolds(c.slots, hits, id);
    }
  }

  lemma HitsKeepCore(s: State, hits: set<BodyId>)
    requires Core(s)
    ensures Core(AfterHits(s, hits))
  {
    var s1 := AfterHits(s, hits);
    RemovedCount(s.selfPayloads, hits);
    forall r <- s1.completed
      ensures CompletedOk(s1.mode, s1.selfPayloads, r, s1.completed[r])
    {
      FillKeepsOk(s.mode, s.selfPayloads, r, s.completed[r], hits);
    }
  }

  lemma MoreRequestsKeepOk(mode: Requester, reqs: map<BodyId, Option<SelfRequest>>,
                           more: map<BodyId, Option<SelfRequest>>, 
                           completed: map<BlockRange, Completed>)
    requires AllCompletedOk(mode, reqs, completed) && reqs.Keys <= more.Keys
    ensures AllCompletedOk(mode, more, completed)
  {
    forall r <- completed
      ensures CompletedOk(mode, more, r, completed[r])
    {
      assert forall slot <- completed[r].slots :: SlotOk(reqs, slot);
    }
  }

  lemma StartKeepsCore(s: State, start: set<BodyId>)
    requires Core(s) && LegalStart(s, start)
    ensures Core(Started(s, start))
    ensures Started(s, start).inFlight < MAX_PAYLOAD_REQUESTS ==> Queued(Started(s, start).selfPayloads) == {}
  {
    StartedCount(s, start);
    MoreRequestsKeepOk(s.mode, s.selfPayloads, Started(s, start).selfPayloads, s.completed);
  }

  lemma UnfinishedKeepsCore(s: State)
    requires Core(s)
    ensures Core(Unfinished(s))
    ensures forall r <- Unfinished(s).completed :: !Full(Unfinished(s).completed[r].slots)
  {
  }

  lemma FullEmitOk(s: State, cmd: Command)
    requires Core(s) && cmd in EmitsOf(s.completed)
    ensures EmitOk(s.mode, cmd)
  {
    var r :| r in FullRanges(s.completed) && cmd == EmitOf(s.completed, r);
    var slots := s.completed[r].slots;
    assert CompletedOk(s.mode, s.selfPayloads, r, s.completed[r]);
    assert HeadersOf(cmd.blocks) == SlotHeaders(slots);
    forall b <- cmd.blocks
      ensures BodyMatches(b)
    {
      var i :| 0 <= i < |slots| && cmd.blocks[i] == b;
      assert SlotOk(s.selfPayloads, slots[i]);
    }
  }

  lemma FullEmitsOk(s: State, cmds: seq<Command>)
    requires Core(s) && Enumerates(cmds, EmitsOf(s.completed))
    ensures EmitsOk(s.mode, cmds)
  {
    EnumeratesElements(cmds, EmitsOf(s.completed));
    forall c <- cmds
      ensures EmitOk(s.mode, c)
    {
      FullEmitOk(s, c);
    }
  }

  lemma InitiateKeepsInv(s: State, cache: Cache, start: set<BodyId>, s': State, cmds: seq<Command>)
    requires Core(s) && Initiate(s, cache, start, s', cmds)
    ensures Inv(s') && s'.mode == s.mode && s'.selfHeaders == s.selfHeaders
    ensures EmitsOk(s'.mode, cmds)
  {
    var hits := Hits(s, cache);
    var s1 := AfterHits(s, hits);
    var s2 := Started(s1, start);
    HitsKeepCore(s, hits);
    StartKeepsCore(s1, start);
    UnfinishedKeepsCore(s2);
    EnumeratesElements(cmds, ResetsOf(s, hits) + FetchesOf(start) + EmitsOf(s2.completed));
    forall c <- cmds | c.Emit?
      ensures EmitOk(s'.mode, c)
    {
      FullEmitOk(s2, c);
    }
  }

  // ---------------------------------------------------------------- handlers

  lemma NewRangeOk(mode: Requester, reqs: map<BodyId, Option<SelfRequest>>, range: BlockRange, headers: seq<Header>)
    requires range.num > 0 && Verifies(range, headers)
    ensures CompletedOk(mode, Enqueue(reqs, headers), range, Completed(mode, EmptySlots(headers), map[]))
  {
    var slots := EmptySlots(headers);
    assert SlotHeaders(slots) == headers;
    assert forall slot <- slots :: slot.header in headers;
    EnqueuedCount(reqs, headers);
  }

  lemma TakenKeepsCore(s: State, range: BlockRange, headers: seq<Header>)
    requires Core(s) && range in s.selfHeaders && Verifies(range, headers)
    ensures Core(s.(selfHeaders := s.selfHeaders - {range},
                    selfPayloads := Enqueue(s.selfPayloads, headers),
                    completed := s.completed[range := Completed(s.mode, EmptySlots(headers), map[])]))
  {
    EnqueuedCount(s.selfPayloads, headers);
    MoreRequestsKeepOk(s.mode, s.selfPayloads, Enqueue(s.selfPayloads, headers), s.completed);
    NewRangeOk(s.mode, s.selfPayloads, range, headers);
    hide Enqueue, Verifies, EmptySlots;
  }

  lemma RedirectedHeadersKeepCore(s: State, range: BlockRange, to: Option<NodeId>)
    requires Core(s) && range in s.selfHeaders
    ensures Core(s.(selfHeaders := s.selfHeaders[range := s.selfHeaders[range].(to := to)]))
  {
    hide AllCompletedOk;
    assert s.selfHeaders[range := s.selfHeaders[range].(to := to)].Keys == s.selfHeaders.Keys;
  }

  lemma HeadersForSelfKeepsCore(s: State, sender: Option<NodeId>, response: HeadersResponse, peer: Option<NodeId>)
    requires Core(s) && response.range in s.selfHeaders
    ensures Core(HeadersForSelf(s, sender, response, peer).0)
    ensures HeadersForSelf(s, sender, response, peer).0.mode == s.mode
    ensures EmitsOk(s.mode, HeadersForSelf(s, sender, response, peer).1)
  {
    hide Core, Verifies, Enqueue, EmptySlots;
    match response
    case HeadersFound(range, headers) =>
      if Verifies(range, headers) {
        TakenKeepsCore(s, range, headers);
      }
    case HeadersNotAvailable(range) => RedirectedHeadersKeepCore(s, range, peer);
  }

  lemma HeadersHandlerKeepsInv(s: State, cache: Cache, sender: Option<NodeId>, response: HeadersResponse,
                               peer: Option<NodeId>, s': State, cmds: seq<Command>)
    requires Inv(s) && HandleHeadersForSelf(s, cache, sender, response, peer, s', cmds)
    ensures Inv(s') && s'.mode == s.mode
    ensures EmitsOk(s'.mode, cmds)
  {
    hide Core, EmitsOk, Initiate, HeadersForSelf;
    if response.range in s.selfHeaders {
      var start, more :| HeadersForSelfWith(s, cache, sender, response, peer, start, more, s', cmds);
      HeadersForSelfKeepsCore(s, sender, response, peer);
      var (s1, first) := HeadersForSelf(s, sender, response, peer);
      InitiateKeepsInv(s1, cache, start, s', more);
      EmitsOkJoin(s.mode, first, more);
    } else {
      NoEmitsOk(s.mode, []);
    }
  }

  lemma RedirectedKeepsCore(s: State, id: BodyId, to: Option<NodeId>)
    requires Core(s) && AwaitsPayload(s, id)
    ensures Core(s.(selfPayloads := s.selfPayloads[id := Some(s.selfPayloads[id].value.(to := to))]))
    ensures Queued(s.selfPayloads[id := Some(s.selfPayloads[id].value.(to := to))]) == Queued(s.selfPayloads)
  {
    var reqs := s.selfPayloads[id := Some(s.selfPayloads[id].value.(to := to))];
    assert Initiated(reqs) == Initiated(s.selfPayloads);
    MoreRequestsKeepOk(s.mode, s.selfPayloads, reqs, s.completed);
  }

  /** Receiving an awaited payload is the same as finding it at hand. */
  lemma FoundIsHit(s: State, sender: Option<NodeId>, body: Body, peer: Option<NodeId>)
    requires AwaitsPayload(s, BodyIdOf(body))
    ensures PayloadForSelf(s, sender, BodyFound(body), peer).0 == AfterHits(s, {BodyIdOf(body)})
  {
    assert {BodyIdOf(body)} * Initiated(s.selfPayloads) == {BodyIdOf(body)};
  }

  lemma PayloadForSelfKeepsCore(s: State, sender: Option<NodeId>, response: BodyResponse, peer: Option<NodeId>)
    requires Core(s) && AwaitsPayload(s, BodyIdIn(response))
    ensures Core(PayloadForSelf(s, sender, response, peer).0)
    ensures PayloadForSelf(s, sender, response, peer).0.mode == s.mode
    ensures EmitsOk(s.mode, PayloadForSelf(s, sender, response, peer).1)
  {
    hide Core;
    match response
    case BodyFound(body) =>
      FoundIsHit(s, sender, body, peer);
      HitsKeepCore(s, {BodyIdOf(body)});
    case BodyNotAvailable(id) =>
      RedirectedKeepsCore(s, id, peer);
  }

  lemma PayloadHandlerKeepsInv(s: State, cache: Cache, sender: Option<NodeId>, response: BodyResponse,
                               peer: Option<NodeId>, s': State, cmds: seq<Command>)
    requires Inv(s) && HandlePayloadForSelf(s, cache, sender, response, peer, s', cmds)
    ensures Inv(s') && s'.mode == s.mode
    ensures EmitsOk(s'.mode, cmds)
  {
    hide Core, EmitsOk, Initiate, PayloadForSelf;
    if AwaitsPayload(s, BodyIdIn(response)) {
      var start, emits, more :|
        PayloadForSelfWith(s, cache, sender, response, peer, start, emits, more, s', cmds);
      PayloadForSelfKeepsCore(s, sender, response, peer);
      var (s1, first) := PayloadForSelf(s, sender, response, peer);
      UnfinishedKeepsCore(s1);
      InitiateKeepsInv(Unfinished(s1), cache, start, s', more);
      FullEmitsOk(s1, emits);
      EmitsOkJoin(s.mode, first, emits);
      EmitsOkJoin(s.mode, first + emits, more);
    } else {
      NoEmitsOk(s.mode, []);
    }
  }

  lemma ClearedInv(s: State, mode: Requester)
    requires PeersOk(s)
    ensures Inv(Cleared(s).(mode := mode))
  {
    assert Initiated(map[]) == {} && Queued(map[]) == {};
  }

  lemma NewRequestKeepsInv(s: State, range: BlockRange)
    requires Inv(s) && range.num > 0 && range !in s.completed
    ensures Inv(s.(selfHeaders := s.selfHeaders[range := SelfRequest(s.mode, None)]))
  {
  }

  lemma SelfRequestKeepsInv(s: State, requester: Requester, range: BlockRange)
    requires Inv(s)
    ensures Inv(HandleSelfRequest(s, requester, range).0)
  {
    ClearedInv(s, requester);
    hide Inv;
    var s1 := if requester != s.mode then Cleared(s).(mode := requester) else s;
    if Accepted(s, requester, range) {
      NewRequestKeepsInv(s1, range);
    }
  }

  lemma CancelKeepsInv(s: State, requester: Requester, range: BlockRange)
    requires Inv(s)
    ensures Inv(HandleSelfCancel(s, requester, range))
  {
  }

  lemma TimeoutKeepsInv(s: State, request: Request, peer: Option<NodeId>)
    requires Inv(s)
    ensures Inv(HandleTimeout(s, request, peer).0)
  {
    match request
    case Headers(range) =>
    case Payload(id) =>
      if AwaitsPayload(s, id) {
        RedirectedKeepsCore(s, id, peer);
      }
  }

  // ---------------------------------------------------------------- peers

  lemma {:induction false} ParentChainLinked(bs: BlockMap, id: BlockId)
    requires Keyed(bs)
    ensures var headers := HeadersOf(ParentChain(bs, id));
            Linked(headers) && (headers != [] ==> IdOf(headers[|headers|-1]) == id)
    decreases id
  {
    if id in bs {
      var up := ParentChain(bs, ParentOf(bs[id]));
      ParentChainLinked(bs, ParentOf(bs[id]));
      assert HeadersOf(up + [bs[id]]) == HeadersOf(up) + [bs[id].header];
      assert up != [] <==> ParentOf(bs[id]) in bs;
    }
  }

  lemma LinkedSuffix(headers: seq<Header>, n: nat)
    requires Linked(headers)
    ensures Linked(LastN(headers, n))
    ensures |LastN(headers, n)| <= n || LastN(headers, n) == headers
  {
    var k := if |headers| <= n then 0 else |headers| - n;
    assert LastN(headers, n) == headers[k..];
  }

  /** A peer whose range is cached gets exactly that range; otherwise what is cached fits onto
      what is fetched. */
  lemma CachedFits(cache: Cache, range: BlockRange)
    requires CacheOk(cache) && range.num > 0
    ensures var cached := CachedHeaders(cache, range);
            && |cached| <= range.num
            && (|cached| == range.num ==> Verifies(range, cached))
            && (|cached| < range.num ==>
                  && CachedOk(LedgerRange(range, cached), cached)
                  && RequestedRange(LedgerRange(range, cached), cached) == range)
  {
    match cache
    case TreeCache(bs) =>
      ParentChainLinked(bs, range.last);
      LinkedSuffix(HeadersOf(ParentChain(bs, range.last)), range.num);
    case BufferCache(_) =>
  }

  /** What the ledger returns and what was cached make up the requested range. */
  lemma StitchedVerifies(ledger: BlockRange, headers: seq<Header>, cached: seq<Header>)
    requires Verifies(ledger, headers) && CachedOk(ledger, cached)
    ensures Verifies(RequestedRange(ledger, cached), headers + cached)
  {
    var all := headers + cached;
    forall i | 0 < i < |all|
      ensures all[i].qc.id == IdOf(all[i-1])
    {
      if i < |headers| {
        assert headers[i].qc.id == IdOf(headers[i-1]);
      } else if i > |headers| {
        assert cached[i - |headers|].qc.id == IdOf(cached[i - |headers| - 1]);
      }
    }
  }

  lemma PeerHeadersKeepsInv(s: State, cache: Cache, sender: NodeId, range: BlockRange)
    requires Inv(s) && CacheOk(cache)
    ensures Inv(HandlePeerHeaders(s, cache, sender, range).0)
  {
    if range.num > 0 {
      CachedFits(cache, range);
    }
  }

  lemma PeerPayloadKeepsInv(s: State, cache: Cache, sender: NodeId, id: BodyId)
    requires Inv(s)
    ensures Inv(HandlePeerPayload(s, cache, sender, id).0)
  {
  }

  lemma LedgerKeepsInv(s: State, cache: Cache, response: Response, peer: Option<NodeId>, s': State, cmds: seq<Command>)
    requires Inv(s) && HandleLedgerResponse(s, cache, response, peer, s', cmds)
    ensures Inv(s') && s'.mode == s.mode
    ensures EmitsOk(s'.mode, cmds)
  {
    hide Core, EmitsOk, HandleHeadersForSelf, HandlePayloadForSelf;
    var replies, rest :| LedgerResponseWith(s, cache, response, replies, rest, peer, s', cmds);
    RepliesNotEmits(s, response, replies);
    NoEmitsOk(s.mode, replies);
    DropWaiting(s, response);
    match response {
      case HeadersResponse(r) =>
        HeadersHandlerKeepsInv(s.(headersRequests := s.headersRequests - {r.range}), cache, None, r, peer, s', rest);
      case PayloadResponse(r) =>
        PayloadHandlerKeepsInv(s.(payloadRequests := s.payloadRequests - {BodyIdIn(r)}),
                               cache, None, r, peer, s', rest);
    }
    EmitsOkJoin(s.mode, replies, rest);
  }

  function RepliesTo(s: State, response: Response): set<Command> {
    match response
    case HeadersResponse(r) => HeadersReplies(s, r)
    case PayloadResponse(r) => PayloadReplies(s, r)
  }

  lemma RepliesNotEmits(s: State, response: Response, replies: seq<Command>)
    requires Enumerates(replies, RepliesTo(s, response))
    ensures forall c <- replies :: c.SendResponse?
  {
    EnumeratesElements(replies, RepliesTo(s, response));
  }

  lemma DropWaiting(s: State, response: Response)
    requires Inv(s)
    ensures match response
            case HeadersResponse(r) => Inv(s.(headersRequests := s.headersRequests - {r.range}))
            case PayloadResponse(r) => Inv(s.(payloadRequests := s.payloadRequests - {BodyIdIn(r)}))
  {
  }
}
