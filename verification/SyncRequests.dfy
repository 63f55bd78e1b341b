/** What block sync asks of its peers, over whole runs. */
module SyncRequests {
  import opened Blocks
  import opened Sync
  import opened SyncInvariant
  import opened SyncRuns

  // ---------------------------------------------------------------- the record and what was sent

  /** The node waits for an answer to this request of its own. */
  predicate Outstanding(s: State, q: Request) {
    match q
    case Headers(range) => range in s.selfHeaders
    case Payload(id) => AwaitsPayload(s, id)
  }

  /** Whom an outstanding request is with, by the record. */
  function AskedOf(s: State, q: Request): Option<NodeId>
    requires Outstanding(s, q)
  {
    match q
    case Headers(range) => s.selfHeaders[range].to
    case Payload(id) => s.selfPayloads[id].value.to
  }

  /** Whoever is on record for a request was sent it. */
  ghost predicate RecordTrue(s: State, sent: set<(NodeId, Request)>) {
    forall q: Request | Outstanding(s, q) && AskedOf(s, q).Some? :: (AskedOf(s, q).value, q) in sent
  }

  /** Only outstanding requests are sent; afterwards that peer is on record, unless the request was
      settled in the same step. */
  ghost predicate SendsOk(s: State, s': State, cmds: seq<Command>) {
    forall c <- cmds | c.SendRequest? ::
      Outstanding(s, c.request) && (Outstanding(s', c.request) ==> AskedOf(s', c.request) == Some(c.peer))
  }

  /** Only outstanding requests are sent, and that peer is on record now. */
  ghost predicate SentNow(s: State, s': State, cmds: seq<Command>) {
    forall c <- cmds | c.SendRequest? ::
      Outstanding(s, c.request) && Outstanding(s', c.request) && AskedOf(s', c.request) == Some(c.peer)
  }

  lemma {:induction false} ExecSent(env: Env, cmds: seq<Command>, p: NodeId, q: Request)
    ensures (p, q) in Exec(env, cmds).sent <==> (p, q) in env.sent || SendRequest(p, q) in cmds
    decreases |cmds|
  {
    if cmds != [] {
      assert cmds == cmds[..|cmds|-1] + [cmds[|cmds|-1]];
      ExecSent(env, cmds[..|cmds|-1], p, q);
    }
  }

  /** The record changes only to a peer to whom the request is sent. */
  ghost predicate RecordKept(s: State, s': State, cmds: seq<Command>) {
    forall q: Request | Outstanding(s', q) && AskedOf(s', q).Some? ::
      || (Outstanding(s, q) && AskedOf(s, q) == AskedOf(s', q))
      || SendRequest(AskedOf(s', q).value, q) in cmds
  }

  lemma KeptRecordTrue(s: State, s': State, cmds: seq<Command>, env: Env)
    requires RecordTrue(s, env.sent) && RecordKept(s, s', cmds)
    ensures RecordTrue(s', Exec(env, cmds).sent)
  {
    forall q: Request | Outstanding(s', q) && AskedOf(s', q).Some?
      ensures (AskedOf(s', q).value, q) in Exec(env, cmds).sent
    {
      ExecSent(env, cmds, AskedOf(s', q).value, q);
    }
  }

  // ---------------------------------------------------------------- handlers

  lemma InitiateRecord(s: State, cache: Cache, start: set<BodyId>, s': State, cmds: seq<Command>)
    requires Initiate(s, cache, start, s', cmds)
    ensures RecordLeft(s, s', cmds)
  {
    InitiateCommands(s, cache, start, s', cmds);
    hide Enumerates, HasCached, FillAll;
  }

  lemma HeadersFirstRecord(s: State, sender: Option<NodeId>, response: HeadersResponse, peer: Option<NodeId>)
    requires response.range in s.selfHeaders
    ensures var (s1, first) := HeadersForSelf(s, sender, response, peer);
            RecordKept(s, s1, first) && SentNow(s, s1, first)
  {
    if response.HeadersFound? {
      EnqueuedCount(s.selfPayloads, response.headers);
      hide Verifies, Enqueue;
    }
  }

  lemma PayloadFirstRecord(s: State, sender: Option<NodeId>, response: BodyResponse, peer: Option<NodeId>)
    requires AwaitsPayload(s, BodyIdIn(response))
    ensures var (s1, first) := PayloadForSelf(s, sender, response, peer);
            RecordKept(s, s1, first) && SentNow(s, s1, first)
  {
    hide FillAll;
  }

  /** What comes after the first part of a handler sends nothing and leaves the record. */
  ghost predicate RecordLeft(s: State, s': State, cmds: seq<Command>) {
    && (forall c <- cmds :: !c.SendRequest?)
    && (forall q: Request | Outstanding(s', q) && AskedOf(s', q).Some? ::
          Outstanding(s, q) && AskedOf(s, q) == AskedOf(s', q))
    && (forall q: Request | Outstanding(s, q) && Outstanding(s', q) :: AskedOf(s, q) == AskedOf(s', q))
  }

  lemma RecordJoin(s: State, s1: State, s': State, first: seq<Command>, more: seq<Command>)
    requires RecordKept(s, s1, first) && SentNow(s, s1, first) && RecordLeft(s1, s', more)
    ensures RecordKept(s, s', first + more) && SendsOk(s, s', first + more)
  {
    hide Outstanding, AskedOf;
  }

  lemma HeadersHandlerRecord(s: State, cache: Cache, sender: Option<NodeId>, response: HeadersResponse,
                             peer: Option<NodeId>, s': State, cmds: seq<Command>)
    requires HandleHeadersForSelf(s, cache, sender, response, peer, s', cmds)
    ensures RecordKept(s, s', cmds) && SendsOk(s, s', cmds)
  {
    hide HeadersForSelf, Initiate;
    if response.range in s.selfHeaders {
      var start, more :| HeadersForSelfWith(s, cache, sender, response, peer, start, more, s', cmds);
      var (s1, first) := HeadersForSelf(s, sender, response, peer);
      HeadersFirstRecord(s, sender, response, peer);
      InitiateRecord(s1, cache, start, s', more);
      hide RecordKept, SentNow, RecordLeft, SendsOk;
      RecordJoin(s, s1, s', first, more);
    }
  }

  lemma EmitsRecord(s: State, emits: seq<Command>, cache: Cache, start: set<BodyId>, s': State, more: seq<Command>)
    requires Enumerates(emits, EmitsOf(s.completed)) && Initiate(Unfinished(s), cache, start, s', more)
    ensures RecordLeft(s, s', emits + more)
  {
    EnumeratesElements(emits, EmitsOf(s.completed));
    InitiateRecord(Unfinished(s), cache, start, s', more);
    hide Initiate, FullRanges;
    forall q: Request
      ensures Outstanding(Unfinished(s), q) <==> Outstanding(s, q)
      ensures Outstanding(s, q) ==> AskedOf(Unfinished(s), q) == AskedOf(s, q)
    {
    }
  }

  lemma PayloadHandlerRecord(s: State, cache: Cache, sender: Option<NodeId>, response: BodyResponse,
                             peer: Option<NodeId>, s': State, cmds: seq<Command>)
    requires HandlePayloadForSelf(s, cache, sender, response, peer, s', cmds)
    ensures RecordKept(s, s', cmds) && SendsOk(s, s', cmds)
  {
    hide PayloadForSelf, Initiate;
    if AwaitsPayload(s, BodyIdIn(response)) {
      var start, emits, more :|
        PayloadForSelfWith(s, cache, sender, response, peer, start, emits, more, s', cmds);
      var (s1, first) := PayloadForSelf(s, sender, response, peer);
      PayloadFirstRecord(s, sender, response, peer);
      EmitsRecord(s1, emits, cache, start, s', more);
      hide RecordKept, SentNow, RecordLeft, SendsOk;
      assert cmds == first + (emits + more);
      RecordJoin(s, s1, s', first, emits + more);
    }
  }

  lemma LedgerRecord(s: State, cache: Cache, response: Response, peer: Option<NodeId>, s': State, cmds: seq<Command>)
    requires HandleLedgerResponse(s, cache, response, peer, s', cmds)
    ensures RecordKept(s, s', cmds) && SendsOk(s, s', cmds)
  {
    hide HandleHeadersForSelf, HandlePayloadForSelf;
    var replies, rest :| LedgerResponseWith(s, cache, response, replies, rest, peer, s', cmds);
    RepliesNotEmits(s, response, replies);
    match response
    case HeadersResponse(r) =>
      var s0 := s.(headersRequests := s.headersRequests - {r.range});
      HeadersHandlerRecord(s0, cache, None, r, peer, s', rest);
      RepliesRecord(s, s0, s', replies, rest);
    case PayloadResponse(r) =>
      var s0 := s.(payloadRequests := s.payloadRequests - {BodyIdIn(r)});
      PayloadHandlerRecord(s0, cache, None, r, peer, s', rest);
      RepliesRecord(s, s0, s', replies, rest);
  }

  lemma RepliesRecord(s: State, s0: State, s': State, replies: seq<Command>, rest: seq<Command>)
    requires s0.selfHeaders == s.selfHeaders && s0.selfPayloads == s.selfPayloads
    requires forall c <- replies :: c.SendResponse?
    requires RecordKept(s0, s', rest) && SendsOk(s0, s', rest)
    ensures RecordKept(s, s', replies + rest) && SendsOk(s, s', replies + rest)
  {
  }

  lemma TimeoutRecord(s: State, q: Request, peer: Option<NodeId>)
    ensures var (s', cmds) := HandleTimeout(s, q, peer);
            RecordKept(s, s', cmds) && SendsOk(s, s', cmds)
  {
  }

  // ---------------------------------------------------------------- steps and runs

  lemma StepRecord(s: State, cache: Cache, e: Event, s': State, cmds: seq<Command>)
    requires CacheOk(cache) && Next(s, cache, e, s', cmds)
    ensures RecordKept(s, s', cmds) && SendsOk(s, s', cmds)
  {
    hide HandleHeadersForSelf, HandlePayloadForSelf, HandleLedgerResponse, HandleTimeout, CachedHeaders, HasCached;
    match e
    case SelfRequested(_, _) =>
    case SelfCancelled(_, _) =>
    case PeerRequested(sender, Headers(range)) =>
    case PeerRequested(sender, Payload(id)) =>
    case LedgerResponded(response, peer) => LedgerRecord(s, cache, response, peer, s', cmds);
    case PeerResponded(sender, HeadersResponse(r)) => HeadersHandlerRecord(s, cache, Some(sender), r, None, s', cmds);
    case PeerResponded(sender, PayloadResponse(r)) => PayloadHandlerRecord(s, cache, Some(sender), r, None, s', cmds);
    case TimedOut(q, peer) => TimeoutRecord(s, q, peer);
  }

  /** Everything sent on the way was outstanding when it was sent. */
  ghost predicate AllSendsOk(s: State, steps: seq<Step>)
    decreases |steps|
  {
    steps != [] ==> SendsOk(s, steps[0].state, steps[0].cmds) && AllSendsOk(steps[0].state, steps[1..])
  }

  /** Over every run: whoever is on record for an outstanding request was sent that request, and
      nothing but outstanding requests was sent. */
  lemma {:induction false} RunRecord(s: State, env: Env, steps: seq<Step>)
    requires IsRun(s, env, steps) && RecordTrue(s, env.sent)
    ensures RecordTrue(FinalState(s, steps), FinalEnv(s, env, steps).sent)
    ensures AllSendsOk(s, steps)
    decreases |steps|
  {
    hide RecordTrue, RecordKept, SendsOk, Next, Allowed;
    if steps != [] {
      var step := steps[0];
      var env1 := Before(s, env, step.event);
      StepRecord(s, step.cache, step.event, step.state, step.cmds);
      KeptRecordTrue(s, step.state, step.cmds, env1);
      RunRecord(step.state, After(s, env, step.event, step.cmds), steps[1..]);
    }
  }

  lemma InitialRecord()
    ensures RecordTrue(INITIAL, QUIET.sent)
  {
  }
}
