/** Self requests are neither lost nor served after a cancel, over whole runs. */
module SyncConservation {
  import opened Blocks
  import opened Sync
  import opened SyncInvariant
  import opened SyncRuns

  lemma {:induction false} ExecEmitted(a: Env, b: Env, cmds: seq<Command>, r: BlockRange)
    requires a.emitted == b.emitted
    ensures Exec(a, cmds).emitted == Exec(b, cmds).emitted
    ensures Exec(a, cmds).emitted[r] >= a.emitted[r]
    decreases |cmds|
  {
    if cmds != [] {
      var init, last := cmds[..|cmds|-1], cmds[|cmds|-1];
      ExecEmitted(a, b, init, r);
      var x, y := Exec(a, init), Exec(b, init);
      assert Exec(a, cmds) == ExecOne(x, last) && Exec(b, cmds) == ExecOne(y, last);
      hide Exec;
      assert ExecOne(x, last).emitted == ExecOne(y, last).emitted;
    }
  }

  /** The event does not ask for the range. */
  predicate AsksOther(e: Event, r: BlockRange) {
    e.SelfRequested? ==> e.range != r
  }

  /** A range that is not held is not emitted by the next step, and not held after it, unless the
      step asks for it. */
  lemma UnheldStep(s: State, env: Env, step: Step, r: BlockRange)
    requires Inv(s) && Accounted(s, env) && !Held(s, r) && AsksOther(step.event, r)
    requires CacheOk(step.cache) && Next(s, step.cache, step.event, step.state, step.cmds)
    ensures !Held(step.state, r) && After(s, env, step.event, step.cmds).emitted[r] == env.emitted[r]
  {
    hide Next, Inv, Held;
    var strict := env.(accepted := env.accepted[r := env.emitted[r]]);
    assert Accounted(s, strict);
    StepAccounted(s, step.cache, step.event, step.state, step.cmds, strict);
    var before := Before(s, strict, step.event);
    assert before.accepted[r] == env.emitted[r];
    ExecEffect(before, step.cmds, Headers(r));
    ExecEmitted(before, Before(s, env, step.event), step.cmds, r);
  }

  lemma {:induction false} UnheldNotEmitted(s: State, env: Env, steps: seq<Step>, r: BlockRange)
    requires SysInv(s, env) && IsRun(s, env, steps) && !Held(s, r)
    requires forall i | 0 <= i < |steps| :: AsksOther(steps[i].event, r)
    ensures FinalEnv(s, env, steps).emitted[r] == env.emitted[r]
    decreases |steps|
  {
    if steps != [] {
      StepSafe(s, env, steps[0]);
      UnheldStep(s, env, steps[0], r);
      UnheldNotEmitted(steps[0].state, After(s, env, steps[0].event, steps[0].cmds), steps[1..], r);
    }
  }

  /** Once the current requester has cancelled a range, no run emits it until it is asked for
      again. */
  lemma CancelledNotEmitted(s: State, env: Env, r: BlockRange, steps: seq<Step>)
    requires SysInv(s, env) && IsRun(HandleSelfCancel(s, s.mode, r), env, steps)
    requires forall i | 0 <= i < |steps| :: AsksOther(steps[i].event, r)
    ensures FinalEnv(HandleSelfCancel(s, s.mode, r), env, steps).emitted[r] == env.emitted[r]
  {
    var cancelled := HandleSelfCancel(s, s.mode, r);
    assert !Held(cancelled, r);
    CancelledSafe(s, env, r);
    hide SysInv, HandleSelfCancel, Held, IsRun;
    UnheldNotEmitted(cancelled, env, steps, r);
  }

  lemma CancelledSafe(s: State, env: Env, r: BlockRange)
    requires SysInv(s, env)
    ensures SysInv(HandleSelfCancel(s, s.mode, r), env)
  {
    var cancelled := HandleSelfCancel(s, s.mode, r);
    var step := Step(SelfCancelled(s.mode, r), TreeCache(map[]), cancelled, []);
    hide SysInv, HandleSelfCancel;
    StepSafe(s, env, step);
    assert After(s, env, step.event, []) == env;
  }

  // ---------------------------------------------------------------- nothing is lost

  predicate Emits(cmds: seq<Command>, r: BlockRange) {
    exists i :: 0 <= i < |cmds| && cmds[i].Emit? && cmds[i].range == r
  }

  /** The current requester cancels the range, or another requester takes over. */
  predicate Drops(s: State, e: Event, r: BlockRange) {
    match e
    case SelfCancelled(requester, range) => requester == s.mode && range == r
    case SelfRequested(requester, range) => requester != s.mode && range.num != 0
    case _ => false
  }

  lemma EmitsLater(a: seq<Command>, b: seq<Command>, r: BlockRange)
    ensures Emits(a, r) || Emits(b, r) ==> Emits(a + b, r)
  {
    if Emits(a, r) {
      var i :| 0 <= i < |a| && a[i].Emit? && a[i].range == r;
      assert (a + b)[i] == a[i];
    } else if Emits(b, r) {
      var i :| 0 <= i < |b| && b[i].Emit? && b[i].range == r;
      assert (a + b)[|a| + i] == b[i];
    }
  }

  lemma EmitListed(completed: map<BlockRange, Completed>, r: BlockRange, all: set<Command>, cmds: seq<Command>)
    requires r in FullRanges(completed) && EmitsOf(completed) <= all && Enumerates(cmds, all)
    ensures Emits(cmds, r)
  {
    var c := EmitOf(completed, r);
    assert c in EmitsOf(completed);
    EnumeratesElements(cmds, all);
    var i :| 0 <= i < |cmds| && cmds[i] == c;
  }

  lemma InitiateNotLost(s: State, cache: Cache, start: set<BodyId>, s': State, cmds: seq<Command>, r: BlockRange)
    requires Initiate(s, cache, start, s', cmds) && Held(s, r)
    ensures Held(s', r) || Emits(cmds, r)
  {
    var hits := Hits(s, cache);
    var s2 := Started(AfterHits(s, hits), start);
    if r in FullRanges(s2.completed) {
      EmitListed(s2.completed, r, ResetsOf(s, hits) + FetchesOf(start) + EmitsOf(s2.completed), cmds);
    }
  }

  lemma HeadersForSelfHolds(s: State, sender: Option<NodeId>, response: HeadersResponse, peer: Option<NodeId>,
                            r: BlockRange)
    requires response.range in s.selfHeaders && Held(s, r)
    ensures Held(HeadersForSelf(s, sender, response, peer).0, r)
  {
    hide Verifies, Enqueue, EmptySlots;
  }

  lemma PayloadForSelfHolds(s: State, sender: Option<NodeId>, response: BodyResponse, peer: Option<NodeId>,
                            r: BlockRange)
    requires AwaitsPayload(s, BodyIdIn(response)) && Held(s, r)
    ensures Held(PayloadForSelf(s, sender, response, peer).0, r)
  {
  }

  lemma HeadersNotLost(s: State, cache: Cache, sender: Option<NodeId>, response: HeadersResponse,
                       peer: Option<NodeId>, s': State,
                       cmds: seq<Command>, r: BlockRange)
    requires HandleHeadersForSelf(s, cache, sender, response, peer, s', cmds) && Held(s, r)
    ensures Held(s', r) || Emits(cmds, r)
  {
    hide HeadersForSelf, Initiate, Held, Emits;
    if response.range in s.selfHeaders {
      var start, more :| HeadersForSelfWith(s, cache, sender, response, peer, start, more, s', cmds);
      var (s1, first) := HeadersForSelf(s, sender, response, peer);
      HeadersForSelfHolds(s, sender, response, peer, r);
      InitiateNotLost(s1, cache, start, s', more, r);
      EmitsLater(first, more, r);
    }
  }

  lemma PayloadNotLost(s: State, cache: Cache, sender: Option<NodeId>, response: BodyResponse,
                       peer: Option<NodeId>, s': State,
                       cmds: seq<Command>, r: BlockRange)
    requires HandlePayloadForSelf(s, cache, sender, response, peer, s', cmds) && Held(s, r)
    ensures Held(s', r) || Emits(cmds, r)
  {
    hide PayloadForSelf, Initiate, Emits, Full, EmitsOf, Enumerates;
    if AwaitsPayload(s, BodyIdIn(response)) {
      var start, emits, more :| PayloadForSelfWith(s, cache, sender, response, peer, start, emits, more,
          s', cmds);
      var (s1, first) := PayloadForSelf(s, sender, response, peer);
      PayloadForSelfHolds(s, sender, response, peer, r);
      if r in FullRanges(s1.completed) {
        EmitListed(s1.completed, r, EmitsOf(s1.completed), emits);
      } else {
        assert Held(Unfinished(s1), r);
        InitiateNotLost(Unfinished(s1), cache, start, s', more, r);
      }
      EmitsLater(first, emits, r);
      EmitsLater(first + emits, more, r);
    }
  }

  lemma LedgerNotLost(s: State, cache: Cache, response: Response,
                      peer: Option<NodeId>, s': State, cmds: seq<Command>, r: BlockRange)
    requires HandleLedgerResponse(s, cache, response, peer, s', cmds) && Held(s, r)
    ensures Held(s', r) || Emits(cmds, r)
  {
    var replies, rest :| LedgerResponseWith(s, cache, response, replies, rest, peer, s', cmds);
    match response {
      case HeadersResponse(h) =>
        HeadersNotLost(s.(headersRequests := s.headersRequests - {h.range}), cache, None, h, peer, s', rest, r);
      case PayloadResponse(p) =>
        PayloadNotLost(s.(payloadRequests := s.payloadRequests - {BodyIdIn(p)}), cache, None, p, peer, s', rest, r);
    }
    EmitsLater(replies, rest, r);
  }

  lemma RequestNotLost(s: State, requester: Requester, range: BlockRange, r: BlockRange)
    requires Held(s, r) && (requester == s.mode || range.num == 0)
    ensures Held(HandleSelfRequest(s, requester, range).0, r)
  {
  }

  lemma CancelNotLost(s: State, requester: Requester, range: BlockRange, r: BlockRange)
    requires Inv(s) && Held(s, r) && (requester != s.mode || range != r)
    ensures Held(HandleSelfCancel(s, requester, range), r)
  {
  }

  lemma PeerNotLost(s: State, cache: Cache, sender: NodeId, request: Request, s': State, cmds: seq<Command>,
                    r: BlockRange)
    requires CacheOk(cache) && Held(s, r) && Next(s, cache, PeerRequested(sender, request), s', cmds)
    ensures Held(s', r)
  {
    hide CachedHeaders, HasCached, LedgerRange;
  }

  lemma TimeoutNotLost(s: State, request: Request, peer: Option<NodeId>, r: BlockRange)
    requires Held(s, r)
    ensures Held(HandleTimeout(s, request, peer).0, r)
  {
  }

  /** A held range stays held until it is emitted, cancelled or swept away by another requester. */
  lemma StepNotLost(s: State, cache: Cache, e: Event, s': State, cmds: seq<Command>, r: BlockRange)
    requires CacheOk(cache) && Inv(s) && Next(s, cache, e, s', cmds) && Held(s, r) && !Drops(s, e, r)
    ensures Held(s', r) || Emits(cmds, r)
  {
    hide HandleHeadersForSelf, HandlePayloadForSelf, HandleLedgerResponse, Emits, Inv, Held;
    match e
    case SelfRequested(requester, range) => RequestNotLost(s, requester, range, r);
    case SelfCancelled(requester, range) => CancelNotLost(s, requester, range, r);
    case PeerRequested(sender, request) => PeerNotLost(s, cache, sender, request, s', cmds, r);
    case LedgerResponded(response, peer) => LedgerNotLost(s, cache, response, peer, s', cmds, r);
    case PeerResponded(sender, HeadersResponse(h)) => HeadersNotLost(s, cache, Some(sender), h, None, s', cmds, r);
    case PeerResponded(sender, PayloadResponse(p)) => PayloadNotLost(s, cache, Some(sender), p, None, s', cmds, r);
    case TimedOut(request, peer) =>
      TimeoutNotLost(s, request, peer, r);
  }

  lemma {:induction false} EmitCounted(env: Env, cmds: seq<Command>, r: BlockRange)
    requires Emits(cmds, r)
    ensures Exec(env, cmds).emitted[r] > env.emitted[r]
    decreases |cmds|
  {
    var init, last := cmds[..|cmds|-1], cmds[|cmds|-1];
    if last.Emit? && last.range == r {
      ExecEmitted(env, env, init, r);
    } else {
      var i :| 0 <= i < |cmds| && cmds[i].Emit? && cmds[i].range == r;
      assert init[i] == cmds[i];
      EmitCounted(env, init, r);
    }
  }

  lemma {:induction false} EmittedGrows(s: State, env: Env, steps: seq<Step>, r: BlockRange)
    ensures FinalEnv(s, env, steps).emitted[r] >= env.emitted[r]
    decreases |steps|
  {
    if steps != [] {
      var before := Before(s, env, steps[0].event);
      ExecEmitted(before, before, steps[0].cmds, r);
      EmittedGrows(steps[0].state, After(s, env, steps[0].event, steps[0].cmds), steps[1..], r);
    }
  }

  ghost predicate NeverDropped(s: State, steps: seq<Step>, r: BlockRange)
    decreases |steps|
  {
    steps != [] ==> !Drops(s, steps[0].event, r) && NeverDropped(steps[0].state, steps[1..], r)
  }

  lemma SafeInv(s: State, env: Env)
    requires SysInv(s, env)
    ensures Inv(s)
  {
  }

  lemma BeforeEmitted(s: State, env: Env, e: Event)
    ensures Before(s, env, e).emitted == env.emitted
  {
  }

  lemma {:induction false} HeldNotLost(s: State, env: Env, steps: seq<Step>, r: BlockRange)
    requires SysInv(s, env) && IsRun(s, env, steps) && Held(s, r) && NeverDropped(s, steps, r)
    ensures Held(FinalState(s, steps), r) || FinalEnv(s, env, steps).emitted[r] > env.emitted[r]
    decreases |steps|
  {
    if steps != [] {
      hide SysInv, Inv, Next, Held, Drops, Emits, Exec, Before, Allowed;
      var step, next := steps[0], After(s, env, steps[0].event, steps[0].cmds);
      assert Inv(s) by { SafeInv(s, env); }
      assert Before(s, env, step.event).emitted == env.emitted by { BeforeEmitted(s, env, step.event); }
      StepSafe(s, env, step);
      StepNotLost(s, step.cache, step.event, step.state, step.cmds, r);
      if Held(step.state, r) {
        ExecEmitted(Before(s, env, step.event), Before(s, env, step.event), step.cmds, r);
        HeldNotLost(step.state, next, steps[1..], r);
      } else {
        EmitCounted(Before(s, env, step.event), step.cmds, r);
        EmittedGrows(step.state, next, steps[1..], r);
      }
    }
  }

  /** An accepted self request is served, or still held and covered by a fetch or a timer, at the
      end of every run that neither cancels it nor switches the requester. */
  lemma AcceptedNotLost(s: State, env: Env, requester: Requester, r: BlockRange, steps: seq<Step>)
    requires SysInv(s, env) && Accepted(s, requester, r)
    requires var s1 := HandleSelfRequest(s, requester, r).0;
             IsRun(s1, AfterRequest(s, env, requester, r), steps) && NeverDropped(s1, steps, r)
    ensures var (s1, env1) := (HandleSelfRequest(s, requester, r).0, AfterRequest(s, env, requester, r));
            || FinalEnv(s1, env1, steps).emitted[r] > env.emitted[r]
            || (Held(FinalState(s1, steps), r) && Covered(FinalState(s1, steps), FinalEnv(s1, env1, steps)))
  {
    var (s1, cmds) := HandleSelfRequest(s, requester, r);
    var env1 := AfterRequest(s, env, requester, r);
    var step := Step(SelfRequested(requester, r), TreeCache(map[]), s1, cmds);
    assert Held(s1, r);
    StepSafe(s, env, step);
    ExecEmitted(Before(s, env, step.event), Before(s, env, step.event), cmds, r);
    hide Covered, Accounted, WaitingAsked, HandleSelfRequest, Held;
    HeldNotLost(s1, env1, steps, r);
    RunSafe(s1, env1, steps);
  }

  ghost function AfterRequest(s: State, env: Env, requester: Requester, r: BlockRange): Env {
    After(s, env, SelfRequested(requester, r), HandleSelfRequest(s, requester, r).1)
  }
}
