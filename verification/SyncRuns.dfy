/**
 Whole runs of block sync with its surroundings: the ledger fetches not yet answered, the
 timers armed, and the history of what was asked, accepted, emitted and sent to peers.
 */
module SyncRuns {
  import opened Blocks
  import opened Sync
  import opened SyncInvariant

  datatype Env = Env(
    fetches: multiset<Request>,
    timers: set<Request>,
    accepted: multiset<BlockRange>,
    emitted: multiset<BlockRange>,
    asked: set<(NodeId, Request)>,
    sent: set<(NodeId, Request)>)

  const QUIET := Env(multiset{}, {}, multiset{}, multiset{}, {}, {})

  /** Scheduling replaces an armed timer, resetting disarms it. */
  function ExecOne(env: Env, c: Command): Env {
    match c
    case ScheduleTimeout(q) => env.(timers := env.timers + {q})
    case ResetTimeout(q) => env.(timers := env.timers - {q})
    case FetchHeaders(range) => env.(fetches := env.fetches + multiset{Headers(range)})
    case FetchPayload(id) => env.(fetches := env.fetches + multiset{Payload(id)})
    case Emit(_, range, _) => env.(emitted := env.emitted + multiset{range})
    case SendRequest(peer, q) => env.(sent := env.sent + {(peer, q)})
    case SendResponse(_, _) => env
  }

  function Exec(env: Env, cmds: seq<Command>): Env {
    if cmds == [] then env else ExecOne(Exec(env, cmds[..|cmds|-1]), cmds[|cmds|-1])
  }

  lemma {:induction false} ExecJoin(env: Env, a: seq<Command>, b: seq<Command>)
    ensures Exec(env, a + b) == Exec(Exec(env, a), b)
    decreases |b|
  {
    if b == [] {
      assert a + b == a;
    } else {
      assert (a + b)[..|a + b|-1] == a + b[..|b|-1];
      ExecJoin(env, a, b[..|b|-1]);
    }
  }

  /** What a list of commands can and cannot do to fetches and timers. */
  lemma {:induction false} ExecEffect(env: Env, cmds: seq<Command>, q: Request)
    ensures q in env.timers && ResetTimeout(q) !in cmds ==> q in Exec(env, cmds).timers
    ensures q in env.fetches ==> q in Exec(env, cmds).fetches
    ensures (q.Payload? && FetchPayload(q.id) in cmds) || (q.Headers? && FetchHeaders(q.range) in cmds) ==>
              q in Exec(env, cmds).fetches
    ensures Exec(env, cmds).accepted == env.accepted && Exec(env, cmds).asked == env.asked
    decreases |cmds|
  {
    if cmds != [] {
      assert cmds == cmds[..|cmds|-1] + [cmds[|cmds|-1]];
      ExecEffect(env, cmds[..|cmds|-1], q);
    }
  }

  // ---------------------------------------------------------------- coverage

  /** A timer is armed, or the request is with the ledger and not yet answered. */
  ghost predicate Alive(env: Env, to: Option<NodeId>, q: Request) {
    q in env.timers || (to.None? && q in env.fetches)
  }

  ghost predicate HeadersCovered(s: State, env: Env) {
    forall r <- s.selfHeaders :: Alive(env, s.selfHeaders[r].to, Headers(r))
  }

  ghost predicate PayloadsCovered(s: State, env: Env) {
    forall id <- Initiated(s.selfPayloads) :: Alive(env, s.selfPayloads[id].value.to, Payload(id))
  }

  /** Every peer request that is pending waits for a ledger fetch not yet answered. */
  ghost predicate PeersCovered(s: State, env: Env) {
    && (forall r <- s.headersRequests :: Headers(r) in env.fetches)
    && (forall id <- s.payloadRequests :: Payload(id) in env.fetches)
  }

  /** No self request is stuck. */
  ghost predicate Covered(s: State, env: Env) {
    HeadersCovered(s, env) && PayloadsCovered(s, env)
  }

  lemma InitiateCommands(s: State, cache: Cache, start: set<BodyId>, s': State, cmds: seq<Command>)
    requires Initiate(s, cache, start, s', cmds)
    ensures forall id <- start :: FetchPayload(id) in cmds
    ensures forall c <- cmds | c.ResetTimeout? :: c.request.Payload? && c.request.id in Hits(s, cache)
    ensures forall c <- cmds :: c.ResetTimeout? || c.FetchPayload? || c.Emit?
  {
    var hits := Hits(s, cache);
    var all := ResetsOf(s, hits) + FetchesOf(start) + EmitsOf(Started(AfterHits(s, hits), start).completed);
    EnumeratesElements(cmds, all);
    assert forall id <- start :: FetchPayload(id) in FetchesOf(start);
  }

  lemma InitiateCovered(s: State, cache: Cache, start: set<BodyId>, s': State, cmds: seq<Command>, env: Env)
    requires Covered(s, env) && Initiate(s, cache, start, s', cmds)
    ensures Covered(s', Exec(env, cmds))
  {
    InitiateCommands(s, cache, start, s', cmds);
    hide Enumerates, LegalStart, HasCached, FillAll;
    forall r <- s'.selfHeaders
      ensures Alive(Exec(env, cmds), s'.selfHeaders[r].to, Headers(r))
    {
      ExecEffect(env, cmds, Headers(r));
    }
    forall id <- Initiated(s'.selfPayloads)
      ensures Alive(Exec(env, cmds), s'.selfPayloads[id].value.to, Payload(id))
    {
      ExecEffect(env, cmds, Payload(id));
      assert id !in start ==> id in Initiated(s.selfPayloads);
    }
  }

  /** Asking a peer sends them the request, arms its timer and disturbs no other. */
  lemma AskPeerAlive(env: Env, peer: Option<NodeId>, q: Request)
    ensures Exec(env, AskPeer(peer, q)).(sent := env.sent) == env.(timers := env.timers + {q})
    ensures Exec(env, AskPeer(peer, q)).sent == env.sent + if peer.Some? then {(peer.value, q)} else {}
  {
    var last := [ScheduleTimeout(q)];
    if peer.Some? {
      var all := [SendRequest(peer.value, q)] + last;
      assert all[..1] == [SendRequest(peer.value, q)] && all[..1][..0] == [];
      assert Exec(env, all[..1]) == ExecOne(env, all[0]);
      assert Exec(env, all) == ExecOne(Exec(env, all[..1]), all[1]);
    } else {
      assert [] + last == last && last[..0] == [];
    }
  }

  lemma ResetOne(env: Env, q: Request)
    ensures Exec(env, [ResetTimeout(q)]) == env.(timers := env.timers - {q})
  {
    assert [ResetTimeout(q)][..0] == [];
  }

  /** The ledger's answer uses up one fetch. */
  function Answered(env: Env, sender: Option<NodeId>, q: Request): Env {
    if sender.None? then env.(fetches := env.fetches - multiset{q}) else env
  }

  /** Timers and fetches of all requests but `q` are kept. */
  ghost predicate KeptExcept(env: Env, env': Env, q: Request) {
    forall x: Request | x != q ::
      (x in env.timers ==> x in env'.timers) && (x in env.fetches ==> x in env'.fetches)
  }

  lemma HeadersChangeCovered(s: State, s': State, env: Env, env': Env, range: BlockRange)
    requires Covered(s, env) && KeptExcept(env, env', Headers(range))
    requires forall r <- s'.selfHeaders | r != range :: r in s.selfHeaders && s.selfHeaders[r] == s'.selfHeaders[r]
    requires range in s'.selfHeaders ==> Alive(env', s'.selfHeaders[range].to, Headers(range))
    requires forall id <- Initiated(s'.selfPayloads) ::
            id in s.selfPayloads && s.selfPayloads[id] == s'.selfPayloads[id]
    ensures Covered(s', env')
  {
    forall r <- s'.selfHeaders | r != range
      ensures Alive(env', s'.selfHeaders[r].to, Headers(r))
    {
      assert Alive(env, s.selfHeaders[r].to, Headers(r));
    }
  }

  lemma PayloadChangeCovered(s: State, s': State, env: Env, env': Env, id: BodyId)
    requires Covered(s, env) && KeptExcept(env, env', Payload(id))
    requires s'.selfHeaders == s.selfHeaders
    requires forall x <- s'.selfPayloads | x != id :: x in s.selfPayloads && s.selfPayloads[x] == s'.selfPayloads[x]
    requires AwaitsPayload(s', id) ==> Alive(env', s'.selfPayloads[id].value.to, Payload(id))
    ensures Covered(s', env')
  {
    forall x <- Initiated(s'.selfPayloads) | x != id
      ensures Alive(env', s'.selfPayloads[x].value.to, Payload(x))
    {
      assert x in Initiated(s.selfPayloads);
    }
  }

  lemma HeadersFoundCovered(s: State, range: BlockRange, headers: seq<Header>, env: Env, env': Env, s1: State)
    requires Covered(s, env) && KeptExcept(env, env', Headers(range))
    requires s1.selfHeaders == s.selfHeaders - {range} && s1.selfPayloads == Enqueue(s.selfPayloads, headers)
    ensures Covered(s1, env')
  {
    EnqueuedCount(s.selfPayloads, headers);
    hide Covered;
    HeadersChangeCovered(s, s1, env, env', range);
  }

  // A response for `q`, and what follows from it, touches only `q`.

  lemma AskKept(env: Env, sender: Option<NodeId>, peer: Option<NodeId>, q: Request)
    ensures var env' := Exec(Answered(env, sender, q), AskPeer(peer, q));
            KeptExcept(env, env', q) && q in env'.timers
  {
    AskPeerAlive(Answered(env, sender, q), peer, q);
  }

  lemma ResetKept(env: Env, sender: Option<NodeId>, q: Request)
    ensures KeptExcept(env, Exec(Answered(env, sender, q), if sender.Some? then [ResetTimeout(q)] else []), q)
  {
    ResetOne(Answered(env, sender, q), q);
  }

  lemma IgnoredKept(env: Env, sender: Option<NodeId>, to: Option<NodeId>, q: Request)
    requires Alive(env, to, q) && (sender.Some? || to.Some?)
    ensures var env' := Exec(Answered(env, sender, q), []);
            KeptExcept(env, env', q) && Alive(env', to, q)
  {
  }

  lemma HeadersNotAvailableCovered(s: State, sender: Option<NodeId>, range: BlockRange, peer: Option<NodeId>, env: Env)
    requires Covered(s, env) && range in s.selfHeaders
    ensures var (s1, first) := HeadersForSelf(s, sender, HeadersNotAvailable(range), peer);
            Covered(s1, Exec(Answered(env, sender, Headers(range)), first))
  {
    var q, to := Headers(range), s.selfHeaders[range].to;
    assert Alive(env, to, q);
    hide Covered, AskPeer, Exec, KeptExcept, Answered, Verifies, Enqueue, EmptySlots;
    var env1 := Answered(env, sender, q);
    if sender.None? && to.None? {
      AskKept(env, sender, peer, q);
      var s1 := s.(selfHeaders := s.selfHeaders[range := s.selfHeaders[range].(to := peer)]);
      HeadersChangeCovered(s, s1, env, Exec(env1, AskPeer(peer, q)), range);
    } else {
      IgnoredKept(env, sender, to, q);
      HeadersChangeCovered(s, s, env, Exec(env1, []), range);
    }
  }

  lemma HeadersForSelfCovered(s: State, sender: Option<NodeId>, response: HeadersResponse, peer: Option<NodeId>,
                              env: Env)
    requires Covered(s, env) && response.range in s.selfHeaders
    requires sender.None? && response.HeadersFound? ==> Verifies(response.range, response.headers)
    ensures var (s1, first) := HeadersForSelf(s, sender, response, peer);
            Covered(s1, Exec(Answered(env, sender, Headers(response.range)), first))
  {
    hide Exec, KeptExcept, Answered, Verifies;
    match response
    case HeadersFound(range, headers) =>
      if Verifies(range, headers) {
        ResetKept(env, sender, Headers(range));
        hide Covered;
        var (s1, first) := HeadersForSelf(s, sender, response, peer);
        HeadersFoundCovered(s, range, headers, env, Exec(Answered(env, sender, Headers(range)), first), s1);
      } else {
        IgnoredKept(env, sender, s.selfHeaders[range].to, Headers(range));
        hide Covered;
        HeadersChangeCovered(s, s, env, Exec(Answered(env, sender, Headers(range)), []), range);
      }
    case HeadersNotAvailable(range) => HeadersNotAvailableCovered(s, sender, range, peer, env);
  }

  lemma PayloadNotAvailableCovered(s: State, sender: Option<NodeId>, id: BodyId, peer: Option<NodeId>, env: Env)
    requires Covered(s, env) && AwaitsPayload(s, id)
    ensures var (s1, first) := PayloadForSelf(s, sender, BodyNotAvailable(id), peer);
            Covered(s1, Exec(Answered(env, sender, Payload(id)), first))
  {
    var q, to := Payload(id), s.selfPayloads[id].value.to;
    assert id in Initiated(s.selfPayloads) && Alive(env, to, q);
    hide Covered, AskPeer, Exec, KeptExcept, Answered;
    var env1 := Answered(env, sender, q);
    if sender.None? && to.None? {
      AskKept(env, sender, peer, q);
      var s1 := s.(selfPayloads := s.selfPayloads[id := Some(s.selfPayloads[id].value.(to := peer))]);
      PayloadChangeCovered(s, s1, env, Exec(env1, AskPeer(peer, q)), id);
    } else {
      IgnoredKept(env, sender, to, q);
      PayloadChangeCovered(s, s, env, Exec(env1, []), id);
    }
  }

  lemma PayloadForSelfCovered(s: State, sender: Option<NodeId>, response: BodyResponse, peer: Option<NodeId>, env: Env)
    requires Covered(s, env) && AwaitsPayload(s, BodyIdIn(response))
    ensures var (s1, first) := PayloadForSelf(s, sender, response, peer);
            Covered(s1, Exec(Answered(env, sender, Payload(BodyIdIn(response))), first))
  {
    hide Covered, Exec, KeptExcept, Answered;
    match response
    case BodyFound(body) =>
      var id := BodyIdOf(body);
      ResetKept(env, sender, Payload(id));
      hide FillAll;
      var (s1, first) := PayloadForSelf(s, sender, BodyFound(body), peer);
      PayloadChangeCovered(s, s1, env, Exec(Answered(env, sender, Payload(id)), first), id);
    case BodyNotAvailable(id) => PayloadNotAvailableCovered(s, sender, id, peer, env);
  }

  lemma HeadersHandlerCovered(s: State, cache: Cache, sender: Option<NodeId>, response: HeadersResponse,
                              peer: Option<NodeId>, s': State, cmds: seq<Command>, env: Env)
    requires Covered(s, env) && HandleHeadersForSelf(s, cache, sender, response, peer, s', cmds)
    requires sender.None? && response.HeadersFound? ==> Verifies(response.range, response.headers)
    ensures Covered(s', Exec(Answered(env, sender, Headers(response.range)), cmds))
  {
    var env1 := Answered(env, sender, Headers(response.range));
    if response.range in s.selfHeaders {
      var start, more :| HeadersForSelfWith(s, cache, sender, response, peer, start, more, s', cmds);
      var (s1, first) := HeadersForSelf(s, sender, response, peer);
      HeadersForSelfCovered(s, sender, response, peer, env);
      InitiateCovered(s1, cache, start, s', more, Exec(env1, first));
      ExecJoin(env1, first, more);
    }
  }

  lemma PayloadHandlerCovered(s: State, cache: Cache, sender: Option<NodeId>, response: BodyResponse,
                              peer: Option<NodeId>, s': State, cmds: seq<Command>, env: Env)
    requires Covered(s, env) && HandlePayloadForSelf(s, cache, sender, response, peer, s', cmds)
    ensures Covered(s', Exec(Answered(env, sender, Payload(BodyIdIn(response))), cmds))
  {
    var env1 := Answered(env, sender, Payload(BodyIdIn(response)));
    if AwaitsPayload(s, BodyIdIn(response)) {
      var start, emits, more :|
        PayloadForSelfWith(s, cache, sender, response, peer, start, emits, more, s', cmds);
      var (s1, first) := PayloadForSelf(s, sender, response, peer);
      PayloadForSelfCovered(s, sender, response, peer, env);
      EnumeratesElements(emits, EmitsOf(s1.completed));
      NoResetCovered(s1, Unfinished(s1), emits, Exec(env1, first));
      InitiateCovered(Unfinished(s1), cache, start, s', more, Exec(Exec(env1, first), emits));
      ExecJoin(env1, first, emits);
      ExecJoin(env1, first + emits, more);
    }
  }

  // ---------------------------------------------------------------- accounting

  predicate Held(s: State, r: BlockRange) {
    r in s.selfHeaders || r in s.completed
  }

  function Count(b: bool): nat { if b then 1 else 0 }

  /** A range is emitted, or still held for emission, at most as often as it was accepted. */
  ghost predicate Accounted(s: State, env: Env) {
    forall r :: env.emitted[r] + Count(Held(s, r)) <= env.accepted[r]
  }

  lemma {:induction false} NoEmitOf(env: Env, cmds: seq<Command>, r: BlockRange)
    requires forall c <- cmds | c.Emit? :: c.range != r
    ensures Exec(env, cmds).emitted[r] == env.emitted[r]
    decreases |cmds|
  {
    if cmds != [] {
      assert cmds == cmds[..|cmds|-1] + [cmds[|cmds|-1]];
      NoEmitOf(env, cmds[..|cmds|-1], r);
    }
  }

  lemma DistinctInit(cmds: seq<Command>)
    requires cmds != [] && forall c :: multiset(cmds)[c] <= 1
    ensures var init, last := cmds[..|cmds|-1], cmds[|cmds|-1];
            && cmds == init + [last] && last !in init
            && forall c :: multiset(init)[c] <= 1
  {
    var init, last := cmds[..|cmds|-1], cmds[|cmds|-1];
    assert cmds == init + [last];
    forall c
      ensures multiset(cmds)[c] == multiset(init)[c] + Count(c == last)
    {
      assert multiset(cmds)[c] == multiset(init)[c] + multiset([last])[c];
    }
    assert multiset(cmds)[last] == multiset(init)[last] + 1;
  }

  /** Distinct commands with one emission per range emit each range at most once. */
  lemma {:induction false} EmitOnce(env: Env, cmds: seq<Command>, r: BlockRange)
    requires forall c :: multiset(cmds)[c] <= 1
    requires forall c <- cmds, d <- cmds | c.Emit? && d.Emit? && c.range == d.range :: c == d
    ensures Exec(env, cmds).emitted[r] <= env.emitted[r] + 1
    decreases |cmds|
  {
    if cmds != [] {
      var init, last := cmds[..|cmds|-1], cmds[|cmds|-1];
      DistinctInit(cmds);
      if last.Emit? && last.range == r {
        NoEmitOf(env, init, r);
      } else {
        EmitOnce(env, init, r);
      }
    }
  }

  lemma EnumeratedEmits(env: Env, cmds: seq<Command>, others: set<Command>, completed: map<BlockRange, Completed>,
                        r: BlockRange)
    requires Enumerates(cmds, others + EmitsOf(completed)) && forall c <- others :: !c.Emit?
    ensures Exec(env, cmds).emitted[r] <= env.emitted[r] + Count(r in FullRanges(completed))
    ensures Exec(env, cmds).accepted == env.accepted
  {
    EnumeratesElements(cmds, others + EmitsOf(completed));
    if r in FullRanges(completed) {
      assert forall c :: multiset(cmds)[c] <= 1;
      EmitOnce(env, cmds, r);
    } else {
      NoEmitOf(env, cmds, r);
    }
    ExecEffect(env, cmds, Headers(r));
  }

  lemma InitiateAccounted(s: State, cache: Cache, start: set<BodyId>, s': State, cmds: seq<Command>, env: Env)
    requires HeadersOk(s) && Accounted(s, env) && Initiate(s, cache, start, s', cmds)
    ensures Accounted(s', Exec(env, cmds))
  {
    var hits := Hits(s, cache);
    var s2 := Started(AfterHits(s, hits), start);
    forall r
      ensures Exec(env, cmds).emitted[r] + Count(Held(s', r)) <= Exec(env, cmds).accepted[r]
    {
      EnumeratedEmits(env, cmds, ResetsOf(s, hits) + FetchesOf(start), s2.completed, r);
    }
  }

  lemma EmitsAccounted(s: State, emits: seq<Command>, env: Env)
    requires HeadersOk(s) && Accounted(s, env) && Enumerates(emits, EmitsOf(s.completed))
    ensures Accounted(Unfinished(s), Exec(env, emits))
  {
    assert {} + EmitsOf(s.completed) == EmitsOf(s.completed);
    forall r
      ensures Exec(env, emits).emitted[r] + Count(Held(Unfinished(s), r)) <= Exec(env, emits).accepted[r]
    {
      EnumeratedEmits(env, emits, {}, s.completed, r);
    }
  }

  /** Commands that emit nothing leave the books alone. */
  lemma QuietAccounted(s: State, s': State, cmds: seq<Command>, env: Env)
    requires Accounted(s, env) && (forall c <- cmds :: !c.Emit?) && forall r | Held(s', r) :: Held(s, r)
    ensures Accounted(s', Exec(env, cmds))
  {
    forall r
      ensures Exec(env, cmds).emitted[r] + Count(Held(s', r)) <= Exec(env, cmds).accepted[r]
    {
      NoEmitOf(env, cmds, r);
      ExecEffect(env, cmds, Headers(r));
    }
  }

  /** What the first part of a response handler does not do. */
  ghost predicate Plain(s: State, s1: State, first: seq<Command>) {
    && (forall c <- first :: !c.Emit? && !c.SendResponse?)
    && (forall r | Held(s1, r) :: Held(s, r))
    && s1.headersRequests == s.headersRequests && s1.payloadRequests == s.payloadRequests
  }

  lemma HeadersForSelfPlain(s: State, sender: Option<NodeId>, response: HeadersResponse, peer: Option<NodeId>)
    requires response.range in s.selfHeaders
    ensures var (s1, first) := HeadersForSelf(s, sender, response, peer); Plain(s, s1, first)
  {
  }

  lemma PayloadForSelfPlain(s: State, sender: Option<NodeId>, response: BodyResponse, peer: Option<NodeId>)
    requires AwaitsPayload(s, BodyIdIn(response))
    ensures var (s1, first) := PayloadForSelf(s, sender, response, peer); Plain(s, s1, first)
  {
  }

  lemma HeadersHandlerAccounted(s: State, cache: Cache, sender: Option<NodeId>, response: HeadersResponse,
                                peer: Option<NodeId>, s': State, cmds: seq<Command>, env: Env)
    requires Core(s) && Accounted(s, env) && HandleHeadersForSelf(s, cache, sender, response, peer, s', cmds)
    ensures Accounted(s', Exec(env, cmds))
  {
    hide Accounted, Initiate, HeadersForSelf;
    if response.range in s.selfHeaders {
      var start, more :| HeadersForSelfWith(s, cache, sender, response, peer, start, more, s', cmds);
      var (s1, first) := HeadersForSelf(s, sender, response, peer);
      HeadersForSelfKeepsCore(s, sender, response, peer);
      HeadersForSelfPlain(s, sender, response, peer);
      QuietAccounted(s, s1, first, env);
      InitiateAccounted(s1, cache, start, s', more, Exec(env, first));
      ExecJoin(env, first, more);
    }
  }

  lemma PayloadHandlerAccounted(s: State, cache: Cache, sender: Option<NodeId>, response: BodyResponse,
                                peer: Option<NodeId>, s': State, cmds: seq<Command>, env: Env)
    requires Core(s) && Accounted(s, env) && HandlePayloadForSelf(s, cache, sender, response, peer, s', cmds)
    ensures Accounted(s', Exec(env, cmds))
  {
    hide Accounted, Initiate, PayloadForSelf;
    if AwaitsPayload(s, BodyIdIn(response)) {
      var start, emits, more :|
        PayloadForSelfWith(s, cache, sender, response, peer, start, emits, more, s', cmds);
      var (s1, first) := PayloadForSelf(s, sender, response, peer);
      PayloadForSelfKeepsCore(s, sender, response, peer);
      PayloadForSelfPlain(s, sender, response, peer);
      QuietAccounted(s, s1, first, env);
      EmitsAccounted(s1, emits, Exec(env, first));
      InitiateAccounted(Unfinished(s1), cache, start, s', more, Exec(Exec(env, first), emits));
      ExecJoin(env, first, emits);
      ExecJoin(env, first + emits, more);
    }
  }

  // ---------------------------------------------------------------- replies to peers

  /** Whoever is still waiting asked for what will be answered. */
  ghost predicate WaitingAsked(s: State, asked: set<(NodeId, Request)>) {
    && (forall r <- s.headersRequests, p <- s.headersRequests[r] ::
          (p, Headers(RequestedRange(r, s.headersRequests[r][p]))) in asked)
    && (forall id <- s.payloadRequests, p <- s.payloadRequests[id] :: (p, Payload(id)) in asked)
  }

  /** A reply answers a request of that very peer, and headers found pass the check that the
      peer itself will make. */
  ghost predicate ReplyOk(asked: set<(NodeId, Request)>, to: NodeId, response: Response) {
    match response
    case HeadersResponse(r) =>
      (to, Headers(r.range)) in asked && (r.HeadersFound? ==> Verifies(r.range, r.headers))
    case PayloadResponse(r) => (to, Payload(BodyIdIn(r))) in asked
  }

  ghost predicate RepliesOk(asked: set<(NodeId, Request)>, cmds: seq<Command>) {
    forall c <- cmds | c.SendResponse? :: ReplyOk(asked, c.to, c.response)
  }

  lemma LedgerRepliesOk(s: State, response: Response, replies: seq<Command>, asked: set<(NodeId, Request)>)
    requires Core(s) && WaitingAsked(s, asked) && Enumerates(replies, RepliesTo(s, response))
    requires response.HeadersResponse? && response.headers.HeadersFound? ==>
               Verifies(response.headers.range, response.headers.headers)
    ensures RepliesOk(asked, replies)
  {
    EnumeratesElements(replies, RepliesTo(s, response));
    forall c <- replies
      ensures c.SendResponse? && ReplyOk(asked, c.to, c.response)
    {
      if response.HeadersResponse? {
        var r := response.headers;
        var cached := s.headersRequests[r.range][c.to];
        assert CachedOk(r.range, cached);
        if r.HeadersFound? {
          StitchedVerifies(r.range, r.headers, cached);
        }
      }
    }
  }

  lemma SelfHandlersSilent(s: State, cache: Cache, start: set<BodyId>, s': State, cmds: seq<Command>)
    requires Initiate(s, cache, start, s', cmds)
    ensures forall c <- cmds :: !c.SendResponse?
    ensures s'.headersRequests == s.headersRequests && s'.payloadRequests == s.payloadRequests
  {
    InitiateCommands(s, cache, start, s', cmds);
  }

  lemma HeadersHandlerSilent(s: State, cache: Cache, sender: Option<NodeId>, response: HeadersResponse,
                             peer: Option<NodeId>, s': State, cmds: seq<Command>)
    requires HandleHeadersForSelf(s, cache, sender, response, peer, s', cmds)
    ensures forall c <- cmds :: !c.SendResponse?
    ensures s'.headersRequests == s.headersRequests && s'.payloadRequests == s.payloadRequests
  {
    hide Initiate, HeadersForSelf;
    if response.range in s.selfHeaders {
      var start, more :| HeadersForSelfWith(s, cache, sender, response, peer, start, more, s', cmds);
      HeadersForSelfPlain(s, sender, response, peer);
      SelfHandlersSilent(HeadersForSelf(s, sender, response, peer).0, cache, start, s', more);
    }
  }

  lemma PayloadHandlerSilent(s: State, cache: Cache, sender: Option<NodeId>, response: BodyResponse,
                             peer: Option<NodeId>, s': State, cmds: seq<Command>)
    requires HandlePayloadForSelf(s, cache, sender, response, peer, s', cmds)
    ensures forall c <- cmds :: !c.SendResponse?
    ensures s'.headersRequests == s.headersRequests && s'.payloadRequests == s.payloadRequests
  {
    hide Initiate, PayloadForSelf;
    if AwaitsPayload(s, BodyIdIn(response)) {
      var start, emits, more :|
        PayloadForSelfWith(s, cache, sender, response, peer, start, emits, more, s', cmds);
      var s1 := PayloadForSelf(s, sender, response, peer).0;
      PayloadForSelfPlain(s, sender, response, peer);
      SelfHandlersSilent(Unfinished(s1), cache, start, s', more);
      EnumeratesElements(emits, EmitsOf(s1.completed));
    }
  }

  // ---------------------------------------------------------------- steps

  datatype Event =
    | SelfRequested(requester: Requester, range: BlockRange)
    | SelfCancelled(requester: Requester, range: BlockRange)
    | PeerRequested(sender: NodeId, request: Request)
    | LedgerResponded(response: Response, peer: Option<NodeId>)
    | PeerResponded(sender: NodeId, response: Response)
    | TimedOut(request: Request, peer: Option<NodeId>)

  function RequestOf(response: Response): Request {
    match response
    case HeadersResponse(r) => Headers(r.range)
    case PayloadResponse(r) => Payload(BodyIdIn(r))
  }

  ghost predicate HandleResponseForSelf(s: State, cache: Cache, sender: Option<NodeId>, response: Response,
                                        peer: Option<NodeId>, s': State, cmds: seq<Command>) {
    match response
    case HeadersResponse(r) => HandleHeadersForSelf(s, cache, sender, r, peer, s', cmds)
    case PayloadResponse(r) => HandlePayloadForSelf(s, cache, sender, r, peer, s', cmds)
  }

  /** One call of a handler.  The event names the peer picked, should one be needed and to be had. */
  ghost predicate Next(s: State, cache: Cache, e: Event, s': State, cmds: seq<Command>)
    requires CacheOk(cache)
  {
    match e
    case SelfRequested(requester, range) => (s', cmds) == HandleSelfRequest(s, requester, range)
    case SelfCancelled(requester, range) => s' == HandleSelfCancel(s, requester, range) && cmds == []
    case PeerRequested(sender, Headers(range)) => (s', cmds) == HandlePeerHeaders(s, cache, sender, range)
    case PeerRequested(sender, Payload(id)) => (s', cmds) == HandlePeerPayload(s, cache, sender, id)
    case LedgerResponded(response, peer) => HandleLedgerResponse(s, cache, response, peer, s', cmds)
    case PeerResponded(sender, response) => HandleResponseForSelf(s, cache, Some(sender), response, None, s', cmds)
    case TimedOut(request, peer) => (s', cmds) == HandleTimeout(s, request, peer)
  }

  /** Headers that the ledger has are those of the range.  Apart from that the ledger may answer
      anything, also twice, timers may go off at any time, and peers may send anything. */
  ghost predicate Allowed(e: Event) {
    e.LedgerResponded? && e.response.HeadersResponse? && e.response.headers.HeadersFound? ==>
      Verifies(e.response.headers.range, e.response.headers.headers)
  }

  /** What the event itself does to the surroundings. */
  ghost function Before(s: State, env: Env, e: Event): Env {
    match e
    case SelfRequested(requester, range) =>
      if Accepted(s, requester, range) then env.(accepted := env.accepted + multiset{range}) else env
    case PeerRequested(sender, request) => env.(asked := env.asked + {(sender, request)})
    case LedgerResponded(response, _) => env.(fetches := env.fetches - multiset{RequestOf(response)})
    case TimedOut(request, _) => env.(timers := env.timers - {request})
    case _ => env
  }

  ghost function After(s: State, env: Env, e: Event, cmds: seq<Command>): Env {
    Exec(Before(s, env, e), cmds)
  }

  ghost predicate SysInv(s: State, env: Env) {
    Inv(s) && Covered(s, env) && PeersCovered(s, env) && Accounted(s, env) && WaitingAsked(s, env.asked)
  }

  lemma StepKeepsInv(s: State, cache: Cache, e: Event, s': State, cmds: seq<Command>)
    requires CacheOk(cache) && Inv(s) && Next(s, cache, e, s', cmds)
    ensures Inv(s') && EmitsOk(s'.mode, cmds)
  {
    hide Inv, HandleHeadersForSelf, HandlePayloadForSelf, HandleLedgerResponse;
    match e
    case SelfRequested(requester, range) => SelfRequestKeepsInv(s, requester, range);
    case SelfCancelled(requester, range) => CancelKeepsInv(s, requester, range);
    case PeerRequested(sender, Headers(range)) => PeerHeadersKeepsInv(s, cache, sender, range);
    case PeerRequested(sender, Payload(id)) => PeerPayloadKeepsInv(s, cache, sender, id);
    case LedgerResponded(response, peer) => LedgerKeepsInv(s, cache, response, peer, s', cmds);
    case PeerResponded(sender, HeadersResponse(r)) => HeadersHandlerKeepsInv(s, cache, Some(sender), r, None, s', cmds);
    case PeerResponded(sender, PayloadResponse(r)) => PayloadHandlerKeepsInv(s, cache, Some(sender), r, None, s', cmds);
    case TimedOut(request, peer) =>
      TimeoutKeepsInv(s, request, peer);
  }

  lemma LedgerCovered(s: State, cache: Cache, response: Response,
                      peer: Option<NodeId>, s': State, cmds: seq<Command>, env: Env)
    requires Covered(s, env) && HandleLedgerResponse(s, cache, response, peer, s', cmds)
    requires Allowed(LedgerResponded(response, peer))
    ensures Covered(s', After(s, env, LedgerResponded(response, peer), cmds))
  {
    hide Covered, HandleHeadersForSelf, HandlePayloadForSelf;
    var replies, rest :| LedgerResponseWith(s, cache, response, replies, rest, peer, s', cmds);
    var env1 := Before(s, env, LedgerResponded(response, peer));
    RepliesNotEmits(s, response, replies);
    ExecSilent(env1, replies);
    ExecJoin(env1, replies, rest);
    WaitingNotCovered(s, env, response);
    match response
    case HeadersResponse(r) =>
      HeadersHandlerCovered(s.(headersRequests := s.headersRequests - {r.range}), cache, None, r, peer, s', rest, env);
    case PayloadResponse(r) =>
      PayloadHandlerCovered(s.(payloadRequests := s.payloadRequests - {BodyIdIn(r)}),
                            cache, None, r, peer, s', rest, env);
  }

  lemma WaitingNotCovered(s: State, env: Env, response: Response)
    requires Covered(s, env)
    ensures match response
            case HeadersResponse(r) => Covered(s.(headersRequests := s.headersRequests - {r.range}), env)
            case PayloadResponse(r) => Covered(s.(payloadRequests := s.payloadRequests - {BodyIdIn(r)}), env)
  {
  }

  lemma {:induction false} ExecSilent(env: Env, cmds: seq<Command>)
    requires forall c <- cmds :: c.SendResponse?
    ensures Exec(env, cmds) == env
    decreases |cmds|
  {
    if cmds != [] {
      var init, last := cmds[..|cmds|-1], cmds[|cmds|-1];
      assert cmds == init + [last] && last in cmds;
      ExecSilent(env, init);
      assert ExecOne(env, last) == env;
    }
  }

  lemma ExecFetch(env: Env, c: Command)
    ensures Exec(env, [c]) == ExecOne(env, c)
  {
    assert [c][..0] == [];
  }

  lemma SelfRequestCovered(s: State, requester: Requester, range: BlockRange, env: Env)
    requires Covered(s, env)
    ensures var (s', cmds) := HandleSelfRequest(s, requester, range);
            Covered(s', After(s, env, SelfRequested(requester, range), cmds))
  {
    ExecFetch(Before(s, env, SelfRequested(requester, range)), FetchHeaders(range));
  }

  lemma PeerRequestCovered(s: State, cache: Cache, sender: NodeId, request: Request, s': State, cmds: seq<Command>,
                           env: Env)
    requires CacheOk(cache) && Covered(s, env) && Next(s, cache, PeerRequested(sender, request), s', cmds)
    ensures Covered(s', After(s, env, PeerRequested(sender, request), cmds))
  {
    PeerRequestEffect(s, cache, sender, request, s', cmds);
    hide Next;
    NoResetCovered(s, s', cmds, Before(s, env, PeerRequested(sender, request)));
  }

  lemma PeerHeadersEffect(s: State, cache: Cache, sender: NodeId, range: BlockRange)
    requires CacheOk(cache)
    ensures var (s', cmds) := HandlePeerHeaders(s, cache, sender, range);
            && s' == s.(headersRequests := s'.headersRequests)
            && forall c <- cmds :: !c.ResetTimeout? && !c.Emit?
  {
  }

  lemma PeerPayloadEffect(s: State, cache: Cache, sender: NodeId, id: BodyId)
    ensures var (s', cmds) := HandlePeerPayload(s, cache, sender, id);
            && s' == s.(payloadRequests := s'.payloadRequests)
            && forall c <- cmds :: !c.ResetTimeout? && !c.Emit?
  {
  }

  lemma TimeoutEffect(s: State, request: Request, peer: Option<NodeId>)
    ensures var (s', cmds) := HandleTimeout(s, request, peer);
            && s' == s.(selfHeaders := s'.selfHeaders, selfPayloads := s'.selfPayloads)
            && s'.selfHeaders.Keys == s.selfHeaders.Keys
            && forall c <- cmds :: !c.SendResponse? && !c.Emit?
  {
  }

  lemma PeerRequestEffect(s: State, cache: Cache, sender: NodeId, request: Request, s': State, cmds: seq<Command>)
    requires CacheOk(cache) && Next(s, cache, PeerRequested(sender, request), s', cmds)
    ensures s' == s.(headersRequests := s'.headersRequests, payloadRequests := s'.payloadRequests)
    ensures forall c <- cmds :: !c.ResetTimeout? && !c.Emit?
  {
    hide HandlePeerHeaders, HandlePeerPayload;
    match request
    case Headers(range) => PeerHeadersEffect(s, cache, sender, range);
    case Payload(id) => PeerPayloadEffect(s, cache, sender, id);
  }

  /** Only a reset can uncover a request. */
  lemma NoResetCovered(s: State, s': State, cmds: seq<Command>, env: Env)
    requires Covered(s, env) && s'.selfHeaders == s.selfHeaders && s'.selfPayloads == s.selfPayloads
    requires forall c <- cmds :: !c.ResetTimeout?
    ensures Covered(s', Exec(env, cmds))
  {
    forall q: Request
      ensures q in env.timers ==> q in Exec(env, cmds).timers
      ensures q in env.fetches ==> q in Exec(env, cmds).fetches
    {
      ExecEffect(env, cmds, q);
    }
  }

  lemma TimeoutCovered(s: State, request: Request, peer: Option<NodeId>, env: Env)
    requires Covered(s, env)
    ensures var (s', cmds) := HandleTimeout(s, request, peer);
            Covered(s', After(s, env, TimedOut(request, peer), cmds))
  {
    hide Covered, AskPeer;
    var env1 := Before(s, env, TimedOut(request, peer));
    AskPeerAlive(env1, peer, request);
    var (s', cmds) := HandleTimeout(s, request, peer);
    match request
    case Headers(range) => HeadersChangeCovered(s, s', env, Exec(env1, cmds), range);
    case Payload(id) => PayloadChangeCovered(s, s', env, Exec(env1, cmds), id);
  }

  lemma StepCovered(s: State, cache: Cache, e: Event, s': State, cmds: seq<Command>, env: Env)
    requires CacheOk(cache) && Covered(s, env) && Allowed(e) && Next(s, cache, e, s', cmds)
    ensures Covered(s', After(s, env, e, cmds))
  {
    hide HandleHeadersForSelf, HandlePayloadForSelf, HandleLedgerResponse;
    match e
    case SelfRequested(requester, range) => SelfRequestCovered(s, requester, range, env);
    case SelfCancelled(_, _) =>
    case PeerRequested(sender, request) => PeerRequestCovered(s, cache, sender, request, s', cmds, env);
    case LedgerResponded(response, peer) => LedgerCovered(s, cache, response, peer, s', cmds, env);
    case PeerResponded(sender, HeadersResponse(r)) =>
      HeadersHandlerCovered(s, cache, Some(sender), r, None, s', cmds, env);
    case PeerResponded(sender, PayloadResponse(r)) =>
      PayloadHandlerCovered(s, cache, Some(sender), r, None, s', cmds, env);
    case TimedOut(request, peer) =>
      TimeoutCovered(s, request, peer, env);
  }

  // ---------------------------------------------------------------- pending peer requests

  lemma FetchesKept(env: Env, cmds: seq<Command>, s: State)
    requires PeersCovered(s, env)
    ensures PeersCovered(s, Exec(env, cmds))
  {
    forall q: Request
      ensures q in env.fetches ==> q in Exec(env, cmds).fetches
    {
      ExecEffect(env, cmds, q);
    }
  }

  lemma PeerRequestPending(s: State, cache: Cache, sender: NodeId, request: Request, s': State, cmds: seq<Command>,
                           env: Env)
    requires CacheOk(cache) && PeersCovered(s, env) && Next(s, cache, PeerRequested(sender, request), s', cmds)
    ensures PeersCovered(s', Exec(env, cmds))
  {
    hide CachedHeaders, HasCached, Exec;
    FetchesKept(env, cmds, s);
    match request
    case Headers(range) =>
      if range.num > 0 && |CachedHeaders(cache, range)| != range.num {
        ExecEffect(env, cmds, Headers(LedgerRange(range, CachedHeaders(cache, range))));
      }
    case Payload(id) =>
      ExecEffect(env, cmds, Payload(id));
  }

  lemma LedgerPending(s: State, cache: Cache, response: Response,
                      peer: Option<NodeId>, s': State, cmds: seq<Command>, env: Env)
    requires PeersCovered(s, env) && HandleLedgerResponse(s, cache, response, peer, s', cmds)
    ensures PeersCovered(s', After(s, env, LedgerResponded(response, peer), cmds))
  {
    hide HandleHeadersForSelf, HandlePayloadForSelf, Exec;
    var replies, rest :| LedgerResponseWith(s, cache, response, replies, rest, peer, s', cmds);
    match response {
      case HeadersResponse(r) =>
        HeadersHandlerSilent(s.(headersRequests := s.headersRequests - {r.range}), cache, None, r, peer, s', rest);
      case PayloadResponse(r) =>
        PayloadHandlerSilent(s.(payloadRequests := s.payloadRequests - {BodyIdIn(r)}), cache, None, r, peer, s', rest);
    }
    assert PeersCovered(s', Before(s, env, LedgerResponded(response, peer)));
    FetchesKept(Before(s, env, LedgerResponded(response, peer)), cmds, s');
  }

  lemma StepPeersCovered(s: State, cache: Cache, e: Event, s': State, cmds: seq<Command>, env: Env)
    requires CacheOk(cache) && PeersCovered(s, env) && Next(s, cache, e, s', cmds)
    ensures PeersCovered(s', After(s, env, e, cmds))
  {
    var env1 := Before(s, env, e);
    match e
    case PeerRequested(sender, request) =>
      hide Next, Exec;
      PeerRequestPending(s, cache, sender, request, s', cmds, env1);
    case LedgerResponded(response, peer) => LedgerPending(s, cache, response, peer, s', cmds, env);
    case _ =>
      SelfEventPending(s, cache, e, s', cmds);
      hide Next, Exec;
      FetchesKept(env1, cmds, s');
  }

  lemma SelfRequestAccounted(s: State, requester: Requester, range: BlockRange, env: Env)
    requires Accounted(s, env)
    ensures var (s', cmds) := HandleSelfRequest(s, requester, range);
            Accounted(s', After(s, env, SelfRequested(requester, range), cmds))
  {
    ExecFetch(Before(s, env, SelfRequested(requester, range)), FetchHeaders(range));
  }

  lemma LedgerAccounted(s: State, cache: Cache, response: Response,
                        peer: Option<NodeId>, s': State, cmds: seq<Command>, env: Env)
    requires Inv(s) && Accounted(s, env) && HandleLedgerResponse(s, cache, response, peer, s', cmds)
    ensures Accounted(s', After(s, env, LedgerResponded(response, peer), cmds))
  {
    hide HandleHeadersForSelf, HandlePayloadForSelf;
    var replies, rest :| LedgerResponseWith(s, cache, response, replies, rest, peer, s', cmds);
    var env1 := Before(s, env, LedgerResponded(response, peer));
    RepliesNotEmits(s, response, replies);
    ExecSilent(env1, replies);
    ExecJoin(env1, replies, rest);
    DropWaiting(s, response);
    match response
    case HeadersResponse(r) =>
      HeadersHandlerAccounted(s.(headersRequests := s.headersRequests - {r.range}),
                              cache, None, r, peer, s', rest, env1);
    case PayloadResponse(r) =>
      PayloadHandlerAccounted(s.(payloadRequests := s.payloadRequests - {BodyIdIn(r)}),
                              cache, None, r, peer, s', rest, env1);
  }

  lemma StepAccounted(s: State, cache: Cache, e: Event, s': State, cmds: seq<Command>, env: Env)
    requires CacheOk(cache) && Inv(s) && Accounted(s, env) && Next(s, cache, e, s', cmds)
    ensures Accounted(s', After(s, env, e, cmds))
  {
    hide HandleHeadersForSelf, HandlePayloadForSelf, HandleLedgerResponse, Accounted;
    match e
    case SelfRequested(requester, range) => SelfRequestAccounted(s, requester, range, env);
    case SelfCancelled(_, _) => QuietEventAccounted(s, cache, e, s', cmds, env);
    case PeerRequested(_, _) => QuietEventAccounted(s, cache, e, s', cmds, env);
    case LedgerResponded(response, peer) => LedgerAccounted(s, cache, response, peer, s', cmds, env);
    case PeerResponded(sender, HeadersResponse(r)) =>
      HeadersHandlerAccounted(s, cache, Some(sender), r, None, s', cmds, env);
    case PeerResponded(sender, PayloadResponse(r)) =>
      PayloadHandlerAccounted(s, cache, Some(sender), r, None, s', cmds, env);
    case TimedOut(_, _) => QuietEventAccounted(s, cache, e, s', cmds, env);
  }

  lemma QuietEventAccounted(s: State, cache: Cache, e: Event, s': State, cmds: seq<Command>, env: Env)
    requires CacheOk(cache) && Accounted(s, env) && Next(s, cache, e, s', cmds)
    requires e.SelfCancelled? || e.PeerRequested? || e.TimedOut?
    ensures Accounted(s', After(s, env, e, cmds))
  {
    hide Accounted;
    QuietEvent(s, cache, e, s', cmds);
    hide Next;
    QuietAccounted(s, s', cmds, env);
    AskedNotAccounted(s', cmds, env, Before(s, env, e));
  }

  lemma QuietEvent(s: State, cache: Cache, e: Event, s': State, cmds: seq<Command>)
    requires CacheOk(cache) && Next(s, cache, e, s', cmds)
    requires e.SelfCancelled? || e.PeerRequested? || e.TimedOut?
    ensures (forall c <- cmds :: !c.Emit?) && forall r | Held(s', r) :: Held(s, r)
  {
    hide HandlePeerHeaders, HandlePeerPayload, HandleTimeout;
    match e
    case SelfCancelled(_, _) =>
    case PeerRequested(sender, request) => PeerRequestEffect(s, cache, sender, request, s', cmds);
    case TimedOut(request, peer) =>
      TimeoutEffect(s, request, peer);
  }

  /** The books depend on the history of ranges only. */
  lemma {:induction false} AskedNotAccounted(s: State, cmds: seq<Command>, env: Env, env1: Env)
    requires Accounted(s, Exec(env, cmds)) && env1.accepted == env.accepted && env1.emitted == env.emitted
    ensures Accounted(s, Exec(env1, cmds))
  {
    SameBooks(cmds, env, env1);
  }

  lemma {:induction false} SameBooks(cmds: seq<Command>, env: Env, env1: Env)
    requires env1.accepted == env.accepted && env1.emitted == env.emitted
    ensures Exec(env1, cmds).accepted == Exec(env, cmds).accepted
    ensures Exec(env1, cmds).emitted == Exec(env, cmds).emitted
    decreases |cmds|
  {
    if cmds != [] {
      SameBooks(cmds[..|cmds|-1], env, env1);
    }
  }

  lemma PeerHeadersAsked(s: State, cache: Cache, sender: NodeId, range: BlockRange, asked: set<(NodeId, Request)>)
    requires CacheOk(cache) && WaitingAsked(s, asked) && (sender, Headers(range)) in asked
    ensures var (s', cmds) := HandlePeerHeaders(s, cache, sender, range);
            WaitingAsked(s', asked) && RepliesOk(asked, cmds)
  {
    if range.num > 0 {
      CachedFits(cache, range);
      hide CachedHeaders, CachedOk, Verifies;
    }
  }

  lemma PeerPayloadAsked(s: State, cache: Cache, sender: NodeId, id: BodyId, asked: set<(NodeId, Request)>)
    requires WaitingAsked(s, asked) && (sender, Payload(id)) in asked
    ensures var (s', cmds) := HandlePeerPayload(s, cache, sender, id);
            WaitingAsked(s', asked) && RepliesOk(asked, cmds)
  {
  }

  lemma PeerRequestAsked(s: State, cache: Cache, sender: NodeId, request: Request, s': State, cmds: seq<Command>,
                         asked: set<(NodeId, Request)>)
    requires CacheOk(cache) && Next(s, cache, PeerRequested(sender, request), s', cmds)
    requires WaitingAsked(s, asked) && (sender, request) in asked
    ensures WaitingAsked(s', asked) && RepliesOk(asked, cmds)
  {
    hide HandlePeerHeaders, HandlePeerPayload, WaitingAsked, RepliesOk;
    match request
    case Headers(range) => PeerHeadersAsked(s, cache, sender, range, asked);
    case Payload(id) => PeerPayloadAsked(s, cache, sender, id, asked);
  }

  lemma LedgerAsked(s: State, cache: Cache, response: Response, peer: Option<NodeId>, s': State, cmds: seq<Command>,
                    asked: set<(NodeId, Request)>)
    requires Inv(s) && HandleLedgerResponse(s, cache, response, peer, s', cmds) && WaitingAsked(s, asked)
    requires response.HeadersResponse? && response.headers.HeadersFound? ==>
               Verifies(response.headers.range, response.headers.headers)
    ensures WaitingAsked(s', asked) && RepliesOk(asked, cmds)
  {
    hide HandleHeadersForSelf, HandlePayloadForSelf, Core;
    var replies, rest :| LedgerResponseWith(s, cache, response, replies, rest, peer, s', cmds);
    LedgerRepliesOk(s, response, replies, asked);
    match response
    case HeadersResponse(r) =>
      HeadersHandlerSilent(s.(headersRequests := s.headersRequests - {r.range}), cache, None, r, peer, s', rest);
    case PayloadResponse(r) =>
      PayloadHandlerSilent(s.(payloadRequests := s.payloadRequests - {BodyIdIn(r)}), cache, None, r, peer, s', rest);
  }

  lemma StepAsked(s: State, cache: Cache, e: Event, s': State, cmds: seq<Command>, env: Env)
    requires CacheOk(cache) && Inv(s) && WaitingAsked(s, env.asked) && Allowed(e) && Next(s, cache, e, s', cmds)
    ensures var asked := After(s, env, e, cmds).asked;
            WaitingAsked(s', asked) && RepliesOk(asked, cmds)
  {
    hide HandleHeadersForSelf, HandlePayloadForSelf, HandleLedgerResponse, Inv, WaitingAsked, RepliesOk;
    var env1 := Before(s, env, e);
    AskedKept(env1, cmds);
    AskedMore(s, env.asked, env1.asked);
    match e
    case PeerRequested(sender, request) => PeerRequestAsked(s, cache, sender, request, s', cmds, env1.asked);
    case LedgerResponded(response, peer) => LedgerAsked(s, cache, response, peer, s', cmds, env.asked);
    case _ => SelfEventSilent(s, cache, e, s', cmds, env.asked);
  }

  /** Events on the node's own behalf leave the pending peer requests alone and reply to nobody. */
  lemma SelfEventPending(s: State, cache: Cache, e: Event, s': State, cmds: seq<Command>)
    requires CacheOk(cache) && Next(s, cache, e, s', cmds) && !e.PeerRequested? && !e.LedgerResponded?
    ensures s'.headersRequests == s.headersRequests && s'.payloadRequests == s.payloadRequests
    ensures forall c <- cmds :: !c.SendResponse?
  {
    hide HandleHeadersForSelf, HandlePayloadForSelf, HandleTimeout;
    match e {
      case SelfRequested(_, _) =>
      case SelfCancelled(_, _) =>
      case PeerResponded(sender, HeadersResponse(r)) => HeadersHandlerSilent(s, cache, Some(sender), r, None, s', cmds);
      case PeerResponded(sender, PayloadResponse(r)) => PayloadHandlerSilent(s, cache, Some(sender), r, None, s', cmds);
      case TimedOut(request, peer) =>
        TimeoutEffect(s, request, peer);
    }
  }

  lemma SelfEventSilent(s: State, cache: Cache, e: Event, s': State, cmds: seq<Command>, asked: set<(NodeId, Request)>)
    requires CacheOk(cache) && WaitingAsked(s, asked) && Next(s, cache, e, s', cmds)
    requires !e.PeerRequested? && !e.LedgerResponded?
    ensures WaitingAsked(s', asked) && RepliesOk(asked, cmds)
  {
    SelfEventPending(s, cache, e, s', cmds);
    hide Next;
    NothingReplied(s, s', cmds, asked);
  }

  lemma AskedKept(env: Env, cmds: seq<Command>)
    ensures Exec(env, cmds).asked == env.asked
  {
    ExecEffect(env, cmds, Payload(BodyHash(Body([]))));
  }

  lemma AskedMore(s: State, asked: set<(NodeId, Request)>, more: set<(NodeId, Request)>)
    requires WaitingAsked(s, asked) && asked <= more
    ensures WaitingAsked(s, more)
  {
  }

  lemma NothingReplied(s: State, s': State, cmds: seq<Command>, asked: set<(NodeId, Request)>)
    requires WaitingAsked(s, asked) && forall c <- cmds :: !c.SendResponse?
    requires s'.headersRequests == s.headersRequests && s'.payloadRequests == s.payloadRequests
    ensures WaitingAsked(s', asked) && RepliesOk(asked, cmds)
  {
  }

  // ---------------------------------------------------------------- runs

  datatype Step = Step(event: Event, cache: Cache, state: State, cmds: seq<Command>)

  /** A sequence of handler calls, each with its event, the cache of the moment, the state it
      leaves and the commands it issues. */
  ghost predicate IsRun(s: State, env: Env, steps: seq<Step>)
    decreases |steps|
  {
    steps != [] ==>
      var step := steps[0];
      && CacheOk(step.cache)
      && Allowed(step.event)
      && Next(s, step.cache, step.event, step.state, step.cmds)
      && IsRun(step.state, After(s, env, step.event, step.cmds), steps[1..])
  }

  ghost function FinalState(s: State, steps: seq<Step>): State {
    if steps == [] then s else steps[|steps|-1].state
  }

  ghost function FinalEnv(s: State, env: Env, steps: seq<Step>): Env
    decreases |steps|
  {
    if steps == [] then env
    else FinalEnv(steps[0].state, After(s, env, steps[0].event, steps[0].cmds), steps[1..])
  }

  /** Everything sent by one step is in order. */
  ghost predicate OutputOk(step: Step, asked: set<(NodeId, Request)>) {
    EmitsOk(step.state.mode, step.cmds) && RepliesOk(asked, step.cmds)
  }

  lemma StepSafe(s: State, env: Env, step: Step)
    requires SysInv(s, env) && CacheOk(step.cache) && Allowed(step.event)
    requires Next(s, step.cache, step.event, step.state, step.cmds)
    ensures SysInv(step.state, After(s, env, step.event, step.cmds))
    ensures OutputOk(step, After(s, env, step.event, step.cmds).asked)
  {
    hide Inv, Covered, PeersCovered, Accounted, WaitingAsked, Next, RepliesOk, EmitsOk, After;
    StepKeepsInv(s, step.cache, step.event, step.state, step.cmds);
    StepCovered(s, step.cache, step.event, step.state, step.cmds, env);
    StepPeersCovered(s, step.cache, step.event, step.state, step.cmds, env);
    StepAccounted(s, step.cache, step.event, step.state, step.cmds, env);
    StepAsked(s, step.cache, step.event, step.state, step.cmds, env);
  }

  ghost predicate OutputsOk(s: State, env: Env, steps: seq<Step>)
    decreases |steps|
  {
    steps != [] ==>
      var env1 := After(s, env, steps[0].event, steps[0].cmds);
      OutputOk(steps[0], env1.asked) && OutputsOk(steps[0].state, env1, steps[1..])
  }

  /** Over every run: the invariant holds in the end, no self request is stuck, every pending peer
      request waits for a ledger fetch, no range was emitted more often than accepted, and
      everything emitted or replied on the way was right. */
  lemma {:induction false} RunSafe(s: State, env: Env, steps: seq<Step>)
    requires SysInv(s, env) && IsRun(s, env, steps)
    ensures SysInv(FinalState(s, steps), FinalEnv(s, env, steps))
    ensures OutputsOk(s, env, steps)
    decreases |steps|
  {
    hide SysInv, Next, After, Allowed, OutputOk;
    if steps != [] {
      StepSafe(s, env, steps[0]);
      RunSafe(steps[0].state, After(s, env, steps[0].event, steps[0].cmds), steps[1..]);
    }
  }

  lemma InitialSafe()
    ensures SysInv(INITIAL, QUIET)
  {
    assert Initiated(map[]) == {} && Queued(map[]) == {};
  }

  /** From the start, in particular, whatever was emitted had been accepted as often. */
  lemma EmittedWasAccepted(steps: seq<Step>)
    requires IsRun(INITIAL, QUIET, steps)
    ensures FinalEnv(INITIAL, QUIET, steps).emitted <= FinalEnv(INITIAL, QUIET, steps).accepted
    ensures Covered(FinalState(INITIAL, steps), FinalEnv(INITIAL, QUIET, steps))
  {
    InitialSafe();
    RunSafe(INITIAL, QUIET, steps);
  }
}
