/** Block sync as it runs: maps, a counter and a mode, updated in place by the handlers.  Each
    handler is proved to be a step of the state machine, and to keep its invariant. */
module BlockSyncs {
  import opened Blocks
  import opened Sync
  import opened SyncInvariant
  import opened SyncRuns

  // ---------------------------------------------------------------- enumerations

  lemma EnumerateNone()
    ensures Enumerates([], {})
  {
  }

  lemma EnumerateOne(cmds: seq<Command>, all: set<Command>, c: Command)
    requires Enumerates(cmds, all) && c !in all
    ensures Enumerates(cmds + [c], all + {c})
  {
    assert all + {c} - {c} == all;
  }

  lemma EnumerateJoin(a: seq<Command>, x: set<Command>, b: seq<Command>, y: set<Command>)
    requires Enumerates(a, x) && Enumerates(b, y) && x !! y
    ensures Enumerates(a + b, x + y)
  {
    assert multiset(a + b) == multiset(a) + multiset(b);
    assert multiset(x + y) == multiset(x) + multiset(y);
  }

  // ---------------------------------------------------------------- filling step by step

  lemma WantedAfterFill(slots: seq<Slot>, a: set<BodyId>, b: set<BodyId>)
    ensures Wanted(slots, a) + Wanted(FillSlots(slots, a), b) == Wanted(slots, a + b)
  {
    forall id
      ensures Wants(FillSlots(slots, a), id) <==> Wants(slots, id) && id !in a
    {
      WantsAfterFill(slots, a, id);
    }
  }

  lemma FilledTwice(c: Completed, a: set<BodyId>, b: set<BodyId>)
    ensures Fill(Fill(c, a), b) == Fill(c, a + b)
  {
    assert FillSlots(FillSlots(c.slots, a), b) == FillSlots(c.slots, a + b);
    WantedAfterFill(c.slots, a, b);
    var x, y := Wanted(c.slots, a), Wanted(FillSlots(c.slots, a), b);
    hide Wanted, FillSlots;
    assert c.cache + BodiesOf(x) + BodiesOf(y) == c.cache + BodiesOf(x + y);
  }

  lemma FilledAllTwice(completed: map<BlockRange, Completed>, a: set<BodyId>, b: set<BodyId>)
    ensures FillAll(FillAll(completed, a), b) == FillAll(completed, a + b)
  {
    forall r <- completed
      ensures Fill(Fill(completed[r], a), b) == Fill(completed[r], a + b)
    {
      FilledTwice(completed[r], a, b);
    }
  }

  lemma NothingFilled(completed: map<BlockRange, Completed>)
    ensures FillAll(completed, {}) == completed
  {
    forall r <- completed
      ensures Fill(completed[r], {}) == completed[r]
    {
      assert FillSlots(completed[r].slots, {}) == completed[r].slots;
      assert Wanted(completed[r].slots, {}) == {};
    }
  }

  /** Filling in some bodies brings no other body within reach. */
  lemma CachedAfterFill(cache: Cache, completed: map<BlockRange, Completed>, a: set<BodyId>, id: BodyId)
    requires id !in a
    ensures HasCached(cache, FillAll(completed, a), id) <==> HasCached(cache, completed, id)
  {
    var filled := FillAll(completed, a);
    assert forall r <- completed :: id in filled[r].cache <==> id in completed[r].cache;
  }

  lemma WantsSnoc(slots: seq<Slot>, i: nat, id: BodyId)
    requires i < |slots|
    ensures Wants(slots[..i+1], id) <==> Wants(slots[..i], id) || (slots[i].body.None? && slots[i].header.bodyId == id)
  {
    assert slots[..i+1] == slots[..i] + [slots[i]];
  }

  lemma FillByOne(c: Completed, id: BodyId)
    ensures Fill(c, {id}) == c.(slots := FillSlots(c.slots, {id}),
                               cache := if Wants(c.slots, id) then c.cache[id := id.body] else c.cache)
  {
    assert Wanted(c.slots, {id}) == if Wants(c.slots, id) then {id} else {};
  }

  lemma EmitStep(completed: map<BlockRange, Completed>, ranges: set<BlockRange>, r: BlockRange)
    requires ranges <= FullRanges(completed) && r in FullRanges(completed) && r !in ranges
    ensures EmitOf(completed, r) !in EmitsOver(completed, ranges)
    ensures EmitsOver(completed, ranges + {r}) == EmitsOver(completed, ranges) + {EmitOf(completed, r)}
  {
  }

  /** Every slot holds a body that matches its header. */
  ghost predicate Ready(slots: seq<Slot>) {
    Full(slots) && forall slot <- slots :: BodyIdOf(slot.body.value) == slot.header.bodyId
  }

  lemma FullIsReady(s: State, r: BlockRange)
    requires Core(s) && r in FullRanges(s.completed)
    ensures Ready(s.completed[r].slots)
  {
    assert CompletedOk(s.mode, s.selfPayloads, r, s.completed[r]);
    assert forall slot <- s.completed[r].slots :: SlotOk(s.selfPayloads, slot);
  }

  lemma NoHits(s: State)
    ensures AfterHits(s, {}) == s && ResetsOf(s, {}) == {}
  {
    NothingFilled(s.completed);
    assert s.selfPayloads - {} == s.selfPayloads;
    assert {} * Initiated(s.selfPayloads) == {};
  }

  lemma HitsCompletedOk(s: State, hits: set<BodyId>)
    requires Core(s)
    ensures var s1 := AfterHits(s, hits); AllCompletedOk(s1.mode, s1.selfPayloads, s1.completed)
  {
    HitsKeepCore(s, hits);
  }

  lemma CachedAfterHits(s: State, cache: Cache, hits: set<BodyId>, id: BodyId)
    requires id in s.selfPayloads && id !in hits
    ensures HasCached(cache, AfterHits(s, hits).completed, id) <==> id in Hits(s, cache)
  {
    CachedAfterFill(cache, s.completed, hits, id);
  }

  lemma NoneStarted(s: State)
    ensures Started(s, {}) == s && FetchesOf({}) == {}
  {
  }

  lemma QueuedLeft(s: State, start: set<BodyId>)
    requires start <= Queued(s.selfPayloads) && Queued(Started(s, start).selfPayloads) == {}
    ensures start == Queued(s.selfPayloads)
  {
    StartedCount(s, start);
  }

  lemma KindsDiffer(s: State, hits: set<BodyId>, start: set<BodyId>, completed: map<BlockRange, Completed>)
    ensures ResetsOf(s, hits) !! FetchesOf(start)
    ensures ResetsOf(s, hits) + FetchesOf(start) !! EmitsOf(completed)
  {
  }

  lemma HitCount(reqs: map<BodyId, Option<SelfRequest>>, hits: set<BodyId>, id: BodyId)
    requires id in reqs && id !in hits
    ensures |(hits + {id}) * Initiated(reqs)| == |hits * Initiated(reqs)| + (if reqs[id].Some? then 1 else 0)
  {
    var a, b := hits * Initiated(reqs), (hits + {id}) * Initiated(reqs);
    assert b == a + if reqs[id].Some? then {id} else {};
  }

  lemma EnqueueStep(reqs: map<BodyId, Option<SelfRequest>>, headers: seq<Header>, i: nat)
    requires i < |headers|
    ensures var before := Enqueue(reqs, headers[..i]);
            Enqueue(reqs, headers[..i+1])
            == if headers[i].bodyId in before then before else before[headers[i].bodyId := None]
  {
    BodyIdsSnoc(headers, i);
    hide BodyIdsOf;
  }

  lemma BodyIdsSnoc(headers: seq<Header>, i: nat)
    requires i < |headers|
    ensures BodyIdsOf(headers[..i+1]) == BodyIdsOf(headers[..i]) + {headers[i].bodyId}
  {
    assert headers[..i+1] == headers[..i] + [headers[i]];
  }

  lemma WaitingFits(s: State, response: HeadersResponse, p: NodeId)
    requires Inv(s) && response.range in s.headersRequests && p in s.headersRequests[response.range]
    requires response.HeadersFound? ==> Verifies(response.range, response.headers)
    ensures response.HeadersFound? ==> Linked(response.headers + s.headersRequests[response.range][p])
  {
    var cached := s.headersRequests[response.range][p];
    assert CachedOk(response.range, cached);
    if response.HeadersFound? {
      StitchedVerifies(response.range, response.headers, cached);
    }
  }

  lemma ReplyStep(response: HeadersResponse, waiting: map<NodeId, seq<Header>>, peers: set<NodeId>, p: NodeId)
    requires peers <= waiting.Keys && p in waiting && p !in peers
    ensures ReplyTo(response, waiting, p) !in RepliesFor(response, waiting, peers)
    ensures RepliesFor(response, waiting, peers + {p})
            == RepliesFor(response, waiting, peers) + {ReplyTo(response, waiting, p)}
  {
  }

  lemma PayloadReplyStep(response: BodyResponse, peers: set<NodeId>, p: NodeId)
    requires p !in peers
    ensures SendResponse(p, PayloadResponse(response)) !in PayloadsFor(response, peers)
    ensures PayloadsFor(response, peers + {p})
            == PayloadsFor(response, peers) + {SendResponse(p, PayloadResponse(response))}
  {
  }

  /** One more hit. */
  lemma HitStep(s: State, hits: set<BodyId>, id: BodyId)
    requires id in s.selfPayloads && id !in hits
    ensures var s1 := AfterHits(s, hits);
            && id in s1.selfPayloads && s1.selfPayloads[id] == s.selfPayloads[id]
            && AfterHits(s, hits + {id})
               == s1.(selfPayloads := s1.selfPayloads - {id},
                      inFlight := s1.inFlight - (if s.selfPayloads[id].Some? then 1 else 0),
                      completed := FillAll(s1.completed, {id}))
  {
    FilledAllTwice(s.completed, hits, {id});
    HitCount(s.selfPayloads, hits, id);
    hide FillAll, Initiated;
    assert s.selfPayloads - (hits + {id}) == s.selfPayloads - hits - {id};
  }

  lemma ResetStep(s: State, hits: set<BodyId>, id: BodyId)
    requires id in s.selfPayloads && id !in hits
    ensures ResetTimeout(Payload(id)) !in ResetsOf(s, hits)
    ensures ResetsOf(s, hits + {id})
         == if s.selfPayloads[id].Some? && s.selfPayloads[id].value.to.Some?
            then ResetsOf(s, hits) + {ResetTimeout(Payload(id))} else ResetsOf(s, hits)
  {
  }

  lemma StartStep(s: State, start: set<BodyId>, id: BodyId)
    requires start <= Queued(s.selfPayloads) && id in Queued(Started(s, start).selfPayloads)
    ensures id in Queued(s.selfPayloads) && id !in start
    ensures var s1 := Started(s, start);
            Started(s, start + {id})
            == s1.(selfPayloads := s1.selfPayloads[id := Some(SelfRequest(s.mode, None))], inFlight := s1.inFlight + 1)
    ensures FetchesOf(start + {id}) == FetchesOf(start) + {FetchPayload(id)} && FetchPayload(id) !in FetchesOf(start)
  {
  }

  // ---------------------------------------------------------------- the class

  class BlockSync {
    var headersRequests: map<BlockRange, map<NodeId, seq<Header>>>
    var payloadRequests: map<BodyId, set<NodeId>>
    var selfHeaders: map<BlockRange, SelfRequest>
    var selfPayloads: map<BodyId, Option<SelfRequest>>
    var inFlight: int
    var completed: map<BlockRange, Completed>
    var mode: Requester

    constructor ()
      ensures View() == INITIAL && Valid()
    {
      headersRequests, payloadRequests := map[], map[];
      selfHeaders, selfPayloads, inFlight, completed := map[], map[], 0, map[];
      mode := StateSync;
      new;
      InitialSafe();
    }

    function View(): State
      reads this
    {
      State(headersRequests, payloadRequests, selfHeaders, selfPayloads, inFlight, completed, mode)
    }

    ghost predicate Valid()
      reads this
    {
      Inv(View())
    }

    /** Do the headers form the requested range?  There is no answer, but a panic, for no headers
        when none were asked for. */
    static method VerifyBlockHeaders(range: BlockRange, headers: seq<Header>) returns (r: Option<bool>)
      ensures r.None? <==> range.num == 0 && headers == []
      ensures r.Some? ==> r.value == Verifies(range, headers)
    {
      if |headers| != range.num {
        return Some(false);
      }
      if headers == [] {
        return None;
      }
      if range.last != IdOf(headers[|headers|-1]) {
        return Some(false);
      }
      for i := 1 to |headers|
        invariant forall j | 0 < j < i :: headers[j].qc.id == IdOf(headers[j-1])
      {
        if IdOf(headers[i-1]) != headers[i].qc.id {
          return Some(false);
        }
      }
      return Some(true);
    }

    /** A body at hand: in the cache of the moment, or received for another range. */
    method GetCachedPayload(cache: Cache, id: BodyId) returns (r: Option<Body>)
      requires CacheOk(cache) && AllCompletedOk(mode, selfPayloads, completed)
      ensures r == if HasCached(cache, completed, id) then Some(id.body) else None
    {
      match cache {
        case BufferCache(bodies) =>
          if id in bodies {
            return Some(bodies[id]);
          }
        case TreeCache(blocks) =>
          if x :| x in blocks && blocks[x].header.bodyId == id {
            return Some(blocks[x].body);
          }
      }
      var todo := completed.Keys;
      while todo != {}
        invariant todo <= completed.Keys
        invariant forall x <- completed | x !in todo :: id !in completed[x].cache
      {
        var x :| x in todo;
        todo := todo - {x};
        if id in completed[x].cache {
          assert CompletedOk(mode, selfPayloads, x, completed[x]);
          return Some(completed[x].cache[id]);
        }
      }
      return None;
    }

    /** Fills the empty slots of one range that want this body. */
    static method FillRange(c: Completed, id: BodyId, body: Body) returns (filled: Completed)
      requires BodyIdOf(body) == id
      ensures filled == Fill(c, {id})
    {
      var slots, cache := c.slots, c.cache;
      for i := 0 to |c.slots|
        invariant |slots| == |c.slots|
        invariant forall k | 0 <= k < |slots| :: slots[k] == if k < i then FillSlot(c.slots[k], {id}) else c.slots[k]
        invariant cache == if Wants(c.slots[..i], id) then c.cache[id := body] else c.cache
      {
        WantsSnoc(c.slots, i, id);
        hide Wants;
        if slots[i].header.bodyId == id && slots[i].body.None? {
          slots := slots[i := slots[i].(body := Some(body))];
          cache := cache[id := body];
        }
      }
      assert c.slots[..|c.slots|] == c.slots;
      assert slots == FillSlots(c.slots, {id});
      FillByOne(c, id);
      filled := Completed(c.requester, slots, cache);
    }

    /** Hands a body to every range that waits for it. */
    method FillPayload(id: BodyId, body: Body)
      requires BodyIdOf(body) == id
      modifies this`completed
      ensures completed == FillAll(old(completed), {id})
    {
      ghost var before := completed;
      var todo := completed.Keys;
      while todo != {}
        invariant todo <= before.Keys && completed.Keys == before.Keys
        invariant forall r <- before :: completed[r] == if r in todo then before[r] else Fill(before[r], {id})
      {
        var r :| r in todo;
        todo := todo - {r};
        var filled := FillRange(completed[r], id, body);
        completed := completed[r := filled];
      }
    }

    /** The full blocks of a range; no header and body can mismatch. */
    static method BuildBlocks(slots: seq<Slot>) returns (blocks: seq<Block>)
      requires Ready(slots)
      ensures blocks == FullBlocks(slots)
    {
      blocks := [];
      for i := 0 to |slots|
        invariant blocks == FullBlocks(slots)[..i]
      {
        assert slots[i] in slots;
        var block := NewFullBlock(slots[i].header, slots[i].body.value);
        assert block.Some?;
        blocks := blocks + [block.value];
      }
    }

    /** Emits and drops every range whose bodies are all there. */
    method HandleCompletedRanges() returns (cmds: seq<Command>)
      requires Core(View())
      modifies this`completed
      ensures View() == Unfinished(old(View()))
      ensures Enumerates(cmds, EmitsOf(old(completed)))
    {
      ghost var s := View();
      var todo := FullRanges(completed);
      ghost var done: set<BlockRange> := {};
      EnumerateNone();
      hide Core, Enumerates, Ready;
      cmds := [];
      assert EmitsOver(s.completed, done) == {};
      while todo != {}
        invariant done <= FullRanges(s.completed) && todo == FullRanges(s.completed) - done
        invariant completed == s.completed - done
        invariant Enumerates(cmds, EmitsOver(s.completed, done))
      {
        var r :| r in todo;
        EmitStep(s.completed, done, r);
        EnumerateOne(cmds, EmitsOver(s.completed, done), EmitOf(s.completed, r));
        FullIsReady(s, r);
        var blocks := BuildBlocks(completed[r].slots);
        cmds := cmds + [Emit(completed[r].requester, r, blocks)];
        completed := completed - {r};
        todo, done := todo - {r}, done + {r};
      }
      assert done == FullRanges(s.completed);
    }

    /** First pass: requested payloads that are at hand already are taken off the list and
        handed out. */
    method TakeCachedPayloads(cache: Cache) returns (cmds: seq<Command>)
      requires CacheOk(cache) && Core(View())
      modifies this
      ensures View() == AfterHits(old(View()), Hits(old(View()), cache))
      ensures Enumerates(cmds, ResetsOf(old(View()), Hits(old(View()), cache)))
    {
      ghost var s := View();
      ghost var hits: set<BodyId> := {};
      var todo := selfPayloads.Keys;
      cmds := [];
      NoHits(s);
      EnumerateNone();
      hide Core, Enumerates, AfterHits, ResetsOf;
      while todo != {}
        invariant todo <= s.selfPayloads.Keys
        invariant hits == Hits(s, cache) - todo
        invariant View() == AfterHits(s, hits)
        invariant Enumerates(cmds, ResetsOf(s, hits))
      {
        var id :| id in todo;
        todo := todo - {id};
        HitStep(s, hits, id);
        HitsCompletedOk(s, hits);
        CachedAfterHits(s, cache, hits, id);
        var payload := GetCachedPayload(cache, id);
        if payload.Some? {
          var request := selfPayloads[id];
          ResetStep(s, hits, id);
          selfPayloads := selfPayloads - {id};
          if request.Some? {
            inFlight := inFlight - 1;
            if request.value.to.Some? {
              EnumerateOne(cmds, ResetsOf(s, hits), ResetTimeout(Payload(id)));
              cmds := cmds + [ResetTimeout(Payload(id))];
            }
          }
          FillPayload(id, payload.value);
          hits := hits + {id};
        }
      }
      assert hits == Hits(s, cache);
    }

    /** Second pass: queued payload requests are started while the limit allows. */
    method StartPayloadRequests() returns (cmds: seq<Command>, ghost start: set<BodyId>)
      modifies this
      ensures LegalStart(old(View()), start)
      ensures View() == Started(old(View()), start)
      ensures Enumerates(cmds, FetchesOf(start))
    {
      ghost var s := View();
      cmds, start := [], {};
      EnumerateNone();
      NoneStarted(s);
      hide Enumerates, Started;
      while inFlight < MAX_PAYLOAD_REQUESTS
        invariant start <= Queued(s.selfPayloads)
        invariant View() == Started(s, start) && inFlight == s.inFlight + |start| && mode == s.mode
        invariant start == {} || inFlight <= MAX_PAYLOAD_REQUESTS
        invariant Enumerates(cmds, FetchesOf(start))
        decreases MAX_PAYLOAD_REQUESTS - inFlight
      {
        var queued := Queued(selfPayloads);
        if queued == {} {
          QueuedLeft(s, start);
          return;
        }
        var id :| id in queued;
        StartStep(s, start, id);
        EnumerateOne(cmds, FetchesOf(start), FetchPayload(id));
        cmds := cmds + [FetchPayload(id)];
        selfPayloads := selfPayloads[id := Some(SelfRequest(mode, None))];
        inFlight := inFlight + 1;
        start := start + {id};
      }
    }

    method TryInitiatePayloadRequests(cache: Cache) returns (cmds: seq<Command>, ghost start: set<BodyId>)
      requires CacheOk(cache) && Core(View())
      modifies this
      ensures Initiate(old(View()), cache, start, View(), cmds)
    {
      ghost var s := View();
      ghost var hits := Hits(s, cache);
      HitsKeepCore(s, hits);
      var resets := TakeCachedPayloads(cache);
      ghost var s1 := View();
      var fetches;
      fetches, start := StartPayloadRequests();
      StartKeepsCore(s1, start);
      ghost var s2 := View();
      hide Core;
      var emits := HandleCompletedRanges();
      cmds := resets + fetches + emits;
      KindsDiffer(s, hits, start, s2.completed);
      hide Enumerates;
      EnumerateJoin(resets, ResetsOf(s, hits), fetches, FetchesOf(start));
      EnumerateJoin(resets + fetches, ResetsOf(s, hits) + FetchesOf(start), emits, EmitsOf(s2.completed));
    }

    // -------------------------------------------------------------- handlers

    method HandleSelfRequest(requester: Requester, range: BlockRange) returns (cmds: seq<Command>)
      requires Valid()
      modifies this
      ensures Valid()
      ensures (View(), cmds) == Sync.HandleSelfRequest(old(View()), requester, range)
    {
      SelfRequestKeepsInv(View(), requester, range);
      hide Inv;
      cmds := [];
      if range.num == 0 {
        return;
      }
      if requester != mode {
        selfHeaders, selfPayloads, inFlight, completed := map[], map[], 0, map[];
        mode := requester;
      }
      if range in selfHeaders || range in completed {
        return;
      }
      selfHeaders := selfHeaders[range := SelfRequest(requester, None)];
      cmds := [FetchHeaders(range)];
    }

    method HandleSelfCancelRequest(requester: Requester, range: BlockRange)
      requires Valid()
      modifies this
      ensures Valid()
      ensures View() == HandleSelfCancel(old(View()), requester, range)
    {
      CancelKeepsInv(View(), requester, range);
      hide Inv;
      if range in selfHeaders && selfHeaders[range].requester == requester {
        selfHeaders := selfHeaders - {range};
      }
      if range in completed && completed[range].requester == requester {
        completed := completed - {range};
      }
    }

    method HandlePeerHeadersRequest(cache: Cache, sender: NodeId, range: BlockRange) returns (cmds: seq<Command>)
      requires Valid() && CacheOk(cache)
      modifies this
      ensures Valid()
      ensures (View(), cmds) == HandlePeerHeaders(old(View()), cache, sender, range)
    {
      PeerHeadersKeepsInv(View(), cache, sender, range);
      hide Inv;
      cmds := [];
      if range.num == 0 {
        return;
      }
      var cached := CachedHeaders(cache, range);
      CachedFits(cache, range);
      hide CachedHeaders;
      if |cached| == range.num {
        assert IdOf(cached[|cached|-1]) == range.last;
        cmds := [SendResponse(sender, HeadersResponse(HeadersFound(range, cached)))];
      } else {
        var ledger := LedgerRange(range, cached);
        var entry := if ledger in headersRequests then headersRequests[ledger] else map[];
        headersRequests := headersRequests[ledger := entry[sender := cached]];
        cmds := [FetchHeaders(ledger)];
      }
    }

    method HandlePeerPayloadRequest(cache: Cache, sender: NodeId, id: BodyId) returns (cmds: seq<Command>)
      requires Valid() && CacheOk(cache)
      modifies this
      ensures Valid()
      ensures (View(), cmds) == HandlePeerPayload(old(View()), cache, sender, id)
    {
      PeerPayloadKeepsInv(View(), cache, sender, id);
      var payload := GetCachedPayload(cache, id);
      hide Inv, HasCached;
      if payload.Some? {
        cmds := [SendResponse(sender, PayloadResponse(BodyFound(payload.value)))];
      } else {
        var entry := if id in payloadRequests then payloadRequests[id] else {};
        payloadRequests := payloadRequests[id := entry + {sender}];
        cmds := [FetchPayload(id)];
      }
    }

    method HandlePeerRequest(cache: Cache, sender: NodeId, request: Request) returns (cmds: seq<Command>)
      requires Valid() && CacheOk(cache)
      modifies this
      ensures Valid()
      ensures Next(old(View()), cache, PeerRequested(sender, request), View(), cmds)
    {
      hide Inv, HandlePeerHeaders, HandlePeerPayload;
      match request {
        case Headers(range) => cmds := HandlePeerHeadersRequest(cache, sender, range);
        case Payload(id) => cmds := HandlePeerPayloadRequest(cache, sender, id);
      }
    }

    /** Takes in a response for an outstanding headers request. */
    method ReceiveHeaders(sender: Option<NodeId>, response: HeadersResponse,
                          peer: Option<NodeId>) returns (cmds: seq<Command>)
      requires Valid() && response.range in selfHeaders
      requires sender.None? && response.HeadersFound? ==> Verifies(response.range, response.headers)
      modifies this
      ensures (View(), cmds) == HeadersForSelf(old(View()), sender, response, peer)
    {
      var range := response.range;
      assert range.num > 0 && selfHeaders[range].requester == mode;
      hide Inv;
      cmds := [];
      match response {
        case HeadersFound(_, headers) =>
          var ok := VerifyBlockHeaders(range, headers);
          hide Verifies;
          if ok.value {
            selfHeaders := selfHeaders - {range};
            if sender.Some? {
              cmds := [ResetTimeout(Headers(range))];
            }
            RequestPayloads(headers);
            hide Enqueue;
            completed := completed[range := Completed(mode, EmptySlots(headers), map[])];
          } else {
            assert sender.Some?;
          }
        case HeadersNotAvailable(_) =>
          if sender.None? && selfHeaders[range].to.None? {
            selfHeaders := selfHeaders[range := selfHeaders[range].(to := peer)];
            cmds := AskPeer(peer, Headers(range));
          }
      }
    }

    /** `peer` is the peer picked, if one is needed and to be had. */
    method HandleHeadersResponseForSelf(cache: Cache, sender: Option<NodeId>, response: HeadersResponse,
                                        peer: Option<NodeId>)
      returns (cmds: seq<Command>)
      requires Valid() && CacheOk(cache)
      requires sender.None? && response.HeadersFound? ==> Verifies(response.range, response.headers)
      modifies this
      ensures Valid()
      ensures HandleHeadersForSelf(old(View()), cache, sender, response, peer, View(), cmds)
    {
      hide HeadersForSelf, Initiate, Core, Verifies;
      if response.range !in selfHeaders {
        return [];
      }
      ghost var s := View();
      HeadersForSelfKeepsCore(s, sender, response, peer);
      var first := ReceiveHeaders(sender, response, peer);
      ghost var s1 := View();
      var more;
      ghost var start;
      more, start := TryInitiatePayloadRequests(cache);
      cmds := first + more;
      InitiateKeepsInv(s1, cache, start, View(), more);
      assert HeadersForSelfWith(s, cache, sender, response, peer, start, more, View(), cmds);
    }

    /** Queues the payloads of new headers that are not on request yet. */
    method RequestPayloads(headers: seq<Header>)
      modifies this`selfPayloads
      ensures selfPayloads == Enqueue(old(selfPayloads), headers)
    {
      ghost var before := selfPayloads;
      for i := 0 to |headers|
        invariant selfPayloads == Enqueue(before, headers[..i])
      {
        EnqueueStep(before, headers, i);
        var id := headers[i].bodyId;
        if id !in selfPayloads {
          selfPayloads := selfPayloads[id := None];
        }
      }
      assert headers[..|headers|] == headers;
    }

    /** Takes in a response for an initiated payload request. */
    method ReceivePayload(sender: Option<NodeId>, response: BodyResponse,
                          peer: Option<NodeId>) returns (cmds: seq<Command>)
      requires Valid() && AwaitsPayload(View(), BodyIdIn(response))
      modifies this
      ensures (View(), cmds) == PayloadForSelf(old(View()), sender, response, peer)
    {
      var id := BodyIdIn(response);
      var request := selfPayloads[id].value;
      assert id in Initiated(selfPayloads) && request.requester == mode;
      hide Inv;
      cmds := [];
      match response {
        case BodyFound(body) =>
          inFlight := inFlight - 1;
          if sender.Some? {
            cmds := [ResetTimeout(Payload(id))];
          }
          selfPayloads := selfPayloads - {id};
          FillPayload(id, body);
          hide FillAll;
        case BodyNotAvailable(_) =>
          if sender.None? && request.to.None? {
            selfPayloads := selfPayloads[id := Some(request.(to := peer))];
            cmds := AskPeer(peer, Payload(id));
          }
      }
    }

    method HandlePayloadResponseForSelf(cache: Cache, sender: Option<NodeId>, response: BodyResponse,
                                        peer: Option<NodeId>)
      returns (cmds: seq<Command>)
      requires Valid() && CacheOk(cache)
      modifies this
      ensures Valid()
      ensures HandlePayloadForSelf(old(View()), cache, sender, response, peer, View(), cmds)
    {
      hide PayloadForSelf, Initiate, Enumerates, Core, Unfinished;
      ghost var s := View();
      var id := BodyIdIn(response);
      if id !in selfPayloads || selfPayloads[id].None? {
        return [];
      }
      PayloadForSelfKeepsCore(s, sender, response, peer);
      var first := ReceivePayload(sender, response, peer);
      ghost var s1 := View();
      UnfinishedKeepsCore(s1);
      var emits := HandleCompletedRanges();
      ghost var s2 := View();
      var more;
      ghost var start;
      more, start := TryInitiatePayloadRequests(cache);
      cmds := first + emits + more;
      InitiateKeepsInv(s2, cache, start, View(), more);
      assert PayloadForSelfWith(s, cache, sender, response, peer, start, emits, more, View(), cmds);
    }

    method HandlePeerResponse(cache: Cache, sender: NodeId, response: Response) returns (cmds: seq<Command>)
      requires Valid() && CacheOk(cache)
      modifies this
      ensures Valid()
      ensures Next(old(View()), cache, PeerResponded(sender, response), View(), cmds)
    {
      hide Inv;
      match response {
        case HeadersResponse(r) => cmds := HandleHeadersResponseForSelf(cache, Some(sender), r, None);
        case PayloadResponse(r) => cmds := HandlePayloadResponseForSelf(cache, Some(sender), r, None);
      }
    }

    method HandleTimeout(cache: Cache, request: Request, peer: Option<NodeId>) returns (cmds: seq<Command>)
      requires Valid() && CacheOk(cache)
      modifies this
      ensures Valid()
      ensures Next(old(View()), cache, TimedOut(request, peer), View(), cmds)
    {
      ghost var s := View();
      TimeoutKeepsInv(s, request, peer);
      hide Inv;
      cmds := [];
      match request {
        case Headers(range) =>
          if range in selfHeaders {
            selfHeaders := selfHeaders[range := selfHeaders[range].(to := peer)];
            cmds := AskPeer(peer, request);
          }
        case Payload(id) =>
          if id in selfPayloads && selfPayloads[id].Some? {
            selfPayloads := selfPayloads[id := Some(selfPayloads[id].value.(to := peer))];
            cmds := AskPeer(peer, request);
          }
      }
      assert (View(), cmds) == Sync.HandleTimeout(s, request, peer);
    }

    /** One reply to each waiting peer; the stitched headers always form a chain. */
    static method StitchReplies(response: HeadersResponse,
                                waiting: map<NodeId, seq<Header>>) returns (cmds: seq<Command>)
      requires response.HeadersFound? ==> forall p <- waiting :: Linked(response.headers + waiting[p])
      ensures Enumerates(cmds, RepliesFor(response, waiting, waiting.Keys))
    {
      cmds := [];
      EnumerateNone();
      var todo := waiting.Keys;
      ghost var done: set<NodeId> := {};
      assert RepliesFor(response, waiting, done) == {};
      while todo != {}
        invariant done <= waiting.Keys && todo == waiting.Keys - done
        invariant Enumerates(cmds, RepliesFor(response, waiting, done))
      {
        var p :| p in todo;
        assert response.HeadersFound? ==> Linked(response.headers + waiting[p]);
        ReplyStep(response, waiting, done, p);
        hide Enumerates, PeerReply;
        EnumerateOne(cmds, RepliesFor(response, waiting, done), ReplyTo(response, waiting, p));
        cmds := cmds + [SendResponse(p, HeadersResponse(PeerReply(response, waiting[p])))];
        todo, done := todo - {p}, done + {p};
      }
      assert done == waiting.Keys;
    }

    /** Answers the peers that wait for these headers. */
    method ReplyHeaders(response: HeadersResponse) returns (cmds: seq<Command>)
      requires Valid()
      requires response.HeadersFound? ==> Verifies(response.range, response.headers)
      modifies this`headersRequests
      ensures headersRequests == old(headersRequests) - {response.range}
      ensures Enumerates(cmds, HeadersReplies(old(View()), response))
    {
      if response.range !in headersRequests {
        EnumerateNone();
        assert headersRequests - {response.range} == headersRequests;
        return [];
      }
      var waiting := headersRequests[response.range];
      forall p <- waiting
        ensures response.HeadersFound? ==> Linked(response.headers + waiting[p])
      {
        WaitingFits(View(), response, p);
      }
      headersRequests := headersRequests - {response.range};
      hide Inv, Verifies;
      cmds := StitchReplies(response, waiting);
    }

    /** Answers the peers that wait for this payload. */
    method ReplyPayload(response: BodyResponse) returns (cmds: seq<Command>)
      modifies this`payloadRequests
      ensures payloadRequests == old(payloadRequests) - {BodyIdIn(response)}
      ensures Enumerates(cmds, PayloadReplies(old(View()), response))
    {
      cmds := [];
      EnumerateNone();
      ghost var before := payloadRequests;
      var id := BodyIdIn(response);
      if id !in payloadRequests {
        assert payloadRequests - {id} == payloadRequests;
        return;
      }
      var waiting := payloadRequests[id];
      payloadRequests := payloadRequests - {id};
      var todo := waiting;
      ghost var done: set<NodeId> := {};
      assert PayloadsFor(response, done) == {};
      while todo != {}
        invariant payloadRequests == before - {id}
        invariant done <= waiting && todo == waiting - done
        invariant Enumerates(cmds, PayloadsFor(response, done))
      {
        var p :| p in todo;
        PayloadReplyStep(response, done, p);
        hide Enumerates;
        EnumerateOne(cmds, PayloadsFor(response, done), SendResponse(p, PayloadResponse(response)));
        cmds := cmds + [SendResponse(p, PayloadResponse(response))];
        todo, done := todo - {p}, done + {p};
      }
      assert done == waiting;
    }

    method HandleLedgerResponse(cache: Cache, response: Response, peer: Option<NodeId>) returns (cmds: seq<Command>)
      requires Valid() && CacheOk(cache)
      requires response.HeadersResponse? && response.headers.HeadersFound? ==>
                 Verifies(response.headers.range, response.headers.headers)
      modifies this
      ensures Valid()
      ensures Next(old(View()), cache, LedgerResponded(response, peer), View(), cmds)
    {
      ghost var s := View();
      DropWaiting(s, response);
      hide Inv, HandleHeadersForSelf, HandlePayloadForSelf, Enumerates;
      var replies, rest;
      match response {
        case HeadersResponse(r) =>
          replies := ReplyHeaders(r);
          rest := HandleHeadersResponseForSelf(cache, None, r, peer);
        case PayloadResponse(r) =>
          replies := ReplyPayload(r);
          rest := HandlePayloadResponseForSelf(cache, None, r, peer);
      }
      cmds := replies + rest;
      assert LedgerResponseWith(s, cache, response, replies, rest, peer, View(), cmds);
    }
  }
}
