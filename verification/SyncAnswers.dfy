/** How block sync answers its peers: with what is at hand, or with what the ledger finds. */
module SyncAnswers {
  import opened Blocks
  import opened Sync
  import opened SyncInvariant
  import opened SyncRuns
  import opened SyncEffects
  import Forests

  // ---------------------------------------------------------------- payloads

  /** A peer that asks for a payload at hand gets it at once; otherwise the ledger is asked, and the
      peer waits. */
  lemma PeerPayloadAnswered(s: State, cache: Cache, sender: NodeId, id: BodyId, s': State, cmds: seq<Command>)
    requires CacheOk(cache) && Inv(s) && Next(s, cache, PeerRequested(sender, Payload(id)), s', cmds)
    ensures AtHand(cache, s.completed, id) ==>
              && s' == s
              && exists body | BodyIdOf(body) == id :: cmds == [SendResponse(sender, PayloadResponse(BodyFound(body)))]
    ensures !AtHand(cache, s.completed, id) ==>
              && cmds == [FetchPayload(id)]
              && id in s'.payloadRequests && sender in s'.payloadRequests[id]
  {
    HasCachedIff(s, cache, id);
    hide AtHand, HasCached;
    assert BodyIdOf(id.body) == id;
  }

  // ---------------------------------------------------------------- headers

  /** All these headers are those of blocks in the tree. */
  predicate InTree(cache: Cache, headers: seq<Header>) {
    cache.TreeCache? && forall h <- headers :: IdOf(h) in cache.blocks
  }

  lemma LastNSnoc<T>(s: seq<T>, x: T, n: nat)
    requires n > 0
    ensures LastN(s + [x], n) == LastN(s, n - 1) + [x]
  {
  }

  lemma HeadersOfSnoc(blocks: seq<Block>, b: Block)
    ensures HeadersOf(blocks + [b]) == HeadersOf(blocks) + [b.header]
  {
  }

  lemma VerifiesInit(range: BlockRange, headers: seq<Header>)
    requires range.num > 0 && Verifies(range, headers)
    ensures var init, last := headers[..|headers|-1], headers[|headers|-1];
            && headers == init + [last] && IdOf(last) == range.last
            && Verifies(BlockRange(last.qc.id, range.num - 1), init)
  {
    var init := headers[..|headers|-1];
    assert forall i | 0 <= i < |init| :: init[i] == headers[i];
  }

  /** Headers of a range that are all in the tree are what is found there. */
  lemma {:induction false} FoundInTree(cache: Cache, range: BlockRange, headers: seq<Header>)
    requires CacheOk(cache) && Verifies(range, headers) && InTree(cache, headers)
    ensures CachedHeaders(cache, range) == headers
    decreases range.num
  {
    var bs := cache.blocks;
    if range.num == 0 {
      assert |CachedHeaders(cache, range)| == 0;
    } else {
      VerifiesInit(range, headers);
      var init, last := headers[..|headers|-1], headers[|headers|-1];
      assert last in headers && forall h <- init :: h in headers;
      FoundInTree(cache, BlockRange(last.qc.id, range.num - 1), init);
      var up, b := Forests.ParentChain(bs, last.qc.id), bs[range.last];
      assert b.header == last;
      assert Forests.ParentChain(bs, range.last) == up + [b];
      HeadersOfSnoc(up, b);
      LastNSnoc(HeadersOf(up), last, range.num);
    }
  }

  lemma {:induction false} ParentChainKnown(bs: Forests.BlockMap, id: BlockId)
    requires Forests.Keyed(bs)
    ensures forall h <- HeadersOf(Forests.ParentChain(bs, id)) :: IdOf(h) in bs
    ensures var chain := Forests.ParentChain(bs, id);
            (if chain == [] then id else ParentOf(chain[0])) !in bs
    decreases id
  {
    if id in bs {
      var p := ParentOf(bs[id]);
      ParentChainKnown(bs, p);
      HeadersOfSnoc(Forests.ParentChain(bs, p), bs[id]);
    }
  }

  /** What is found in the tree is from the tree; if it is not the whole range, the block before it is
      not in the tree. */
  lemma CachedFromTree(cache: Cache, range: BlockRange)
    requires CacheOk(cache) && range.num > 0
    ensures var cached := CachedHeaders(cache, range);
            && (cached != [] ==> InTree(cache, cached))
            && (|cached| < range.num && cache.TreeCache? ==> LedgerRange(range, cached).last !in cache.blocks)
  {
    match cache
    case TreeCache(bs) =>
      var chain := Forests.ParentChain(bs, range.last);
      ParentChainKnown(bs, range.last);
      var all := HeadersOf(chain);
      assert chain != [] ==> all[0] == chain[0].header;
      var k := if |all| <= range.num then 0 else |all| - range.num;
      assert LastN(all, range.num) == all[k..];
      assert forall h <- all[k..] :: h in all;
    case BufferCache(_) =>
  }

  /** The peer waits for this range of the ledger, which the tree knows nothing of, and will be
      answered for the range it asked for. */
  predicate WaitsFor(s: State, cache: Cache, sender: NodeId, range: BlockRange, ledger: BlockRange) {
    && ledger.num > 0
    && (cache.TreeCache? ==> ledger.last !in cache.blocks)
    && ledger in s.headersRequests && sender in s.headersRequests[ledger]
    && (s.headersRequests[ledger][sender] != [] ==> InTree(cache, s.headersRequests[ledger][sender]))
    && RequestedRange(ledger, s.headersRequests[ledger][sender]) == range
  }

  /** A peer that asks for a range in the tree gets it at once; otherwise the ledger is asked for what
      the tree lacks, and the peer waits. */
  lemma PeerHeadersAnswered(s: State, cache: Cache, sender: NodeId, range: BlockRange, s': State, cmds: seq<Command>)
    requires CacheOk(cache) && Next(s, cache, PeerRequested(sender, Headers(range)), s', cmds)
    ensures range.num == 0 ==> s' == s && cmds == []
    ensures forall headers | range.num > 0 && Verifies(range, headers) && InTree(cache, headers) ::
              s' == s && cmds == [SendResponse(sender, HeadersResponse(HeadersFound(range, headers)))]
    ensures range.num > 0 && (forall headers | Verifies(range, headers) :: !InTree(cache, headers)) ==>
              exists ledger :: cmds == [FetchHeaders(ledger)] && WaitsFor(s', cache, sender, range, ledger)
  {
    if range.num > 0 {
      forall headers | Verifies(range, headers) && InTree(cache, headers)
        ensures CachedHeaders(cache, range) == headers
      {
        FoundInTree(cache, range, headers);
      }
      CachedFits(cache, range);
      CachedFromTree(cache, range);
      hide CachedHeaders, Verifies, InTree, CachedOk;
      var cached := CachedHeaders(cache, range);
      if |cached| < range.num {
        assert WaitsFor(s', cache, sender, range, LedgerRange(range, cached));
      }
    }
  }

  // ---------------------------------------------------------------- word from the ledger

  lemma RepliesGiven(s: State, cache: Cache, response: Response, peer: Option<NodeId>, s': State, cmds: seq<Command>)
    requires HandleLedgerResponse(s, cache, response, peer, s', cmds)
    ensures forall c <- RepliesTo(s, response) :: c in cmds
    ensures match response
            case HeadersResponse(r) =>
              s'.headersRequests == s.headersRequests - {r.range} && s'.payloadRequests == s.payloadRequests
            case PayloadResponse(r) =>
              s'.payloadRequests == s.payloadRequests - {BodyIdIn(r)} && s'.headersRequests == s.headersRequests
  {
    hide HandleHeadersForSelf, HandlePayloadForSelf, HeadersReplies, PayloadReplies;
    var replies, rest :| LedgerResponseWith(s, cache, response, replies, rest, peer, s', cmds);
    EnumeratesElements(replies, RepliesTo(s, response));
    match response
    case HeadersResponse(r) =>
      HeadersHandlerSilent(s.(headersRequests := s.headersRequests - {r.range}), cache, None, r, peer, s', rest);
    case PayloadResponse(r) =>
      PayloadHandlerSilent(s.(payloadRequests := s.payloadRequests - {BodyIdIn(r)}), cache, None, r, peer, s', rest);
  }

  /** Headers that the ledger finds go to every peer that waits for them, followed by what the tree had
      for that peer; that it lacks them is passed on likewise.  Nobody is left waiting for them. */
  lemma WaitingHeadersAnswered(s: State, cache: Cache, response: HeadersResponse, peer: Option<NodeId>,
                               s': State, cmds: seq<Command>)
    requires CacheOk(cache) && Next(s, cache, LedgerResponded(HeadersResponse(response), peer), s', cmds)
    ensures response.range in s.headersRequests ==>
              forall p <- s.headersRequests[response.range] ::
                var cached := s.headersRequests[response.range][p];
                var range := RequestedRange(response.range, cached);
                SendResponse(p, HeadersResponse(if response.HeadersFound?
                                                then HeadersFound(range, response.headers + cached)
                                                else HeadersNotAvailable(range))) in cmds
    ensures s'.headersRequests == s.headersRequests - {response.range} && s'.payloadRequests == s.payloadRequests
  {
    RepliesGiven(s, cache, HeadersResponse(response), peer, s', cmds);
    hide Next;
    if response.range in s.headersRequests {
      var waiting := s.headersRequests[response.range];
      forall p <- waiting
        ensures ReplyTo(response, waiting, p) in cmds
      {
        assert ReplyTo(response, waiting, p) in RepliesTo(s, HeadersResponse(response));
      }
    }
  }

  /** The ledger's word on a payload goes to every peer that waits for it. */
  lemma WaitingPayloadsAnswered(s: State, cache: Cache, response: BodyResponse, peer: Option<NodeId>,
                                s': State, cmds: seq<Command>)
    requires CacheOk(cache) && Next(s, cache, LedgerResponded(PayloadResponse(response), peer), s', cmds)
    ensures var id := BodyIdIn(response);
            id in s.payloadRequests ==>
              forall p <- s.payloadRequests[id] :: SendResponse(p, PayloadResponse(response)) in cmds
    ensures s'.payloadRequests == s.payloadRequests - {BodyIdIn(response)} && s'.headersRequests == s.headersRequests
  {
    RepliesGiven(s, cache, PayloadResponse(response), peer, s', cmds);
    hide Next;
    if BodyIdIn(response) in s.payloadRequests {
      forall p <- s.payloadRequests[BodyIdIn(response)]
        ensures SendResponse(p, PayloadResponse(response)) in cmds
      {
        assert SendResponse(p, PayloadResponse(response)) in RepliesTo(s, PayloadResponse(response));
      }
    }
  }

  // ---------------------------------------------------------------- nobody is forgotten

  /** The peer waits for what the ledger has to say on this request. */
  predicate Waits(s: State, p: NodeId, q: Request) {
    match q
    case Headers(range) => range in s.headersRequests && p in s.headersRequests[range]
    case Payload(id) => id in s.payloadRequests && p in s.payloadRequests[id]
  }

  /** The commands answer the peer on headers, or on this payload. */
  predicate Answers(cmds: seq<Command>, p: NodeId, q: Request) {
    exists c <- cmds :: c.SendResponse? && c.to == p &&
      match q
      case Headers(_) => c.response.HeadersResponse?
      case Payload(_) => c.response.PayloadResponse? && RequestOf(c.response) == q
  }

  lemma LedgerWaiting(s: State, cache: Cache, response: Response, peer: Option<NodeId>, s': State, cmds: seq<Command>,
                      p: NodeId, q: Request)
    requires CacheOk(cache) && Next(s, cache, LedgerResponded(response, peer), s', cmds) && Waits(s, p, q)
    ensures RequestOf(response) != q ==> Waits(s', p, q)
    ensures RequestOf(response) == q ==> Answers(cmds, p, q)
  {
    match response
    case HeadersResponse(r) =>
      WaitingHeadersAnswered(s, cache, r, peer, s', cmds);
      hide Next;
      if Headers(r.range) == q {
        assert p in s.headersRequests[r.range];
      }
    case PayloadResponse(r) =>
      WaitingPayloadsAnswered(s, cache, r, peer, s', cmds);
      hide Next;
      if Payload(BodyIdIn(r)) == q {
        assert SendResponse(p, PayloadResponse(r)) in cmds;
      }
  }

  lemma RequestWaiting(s: State, cache: Cache, sender: NodeId, request: Request, s': State, cmds: seq<Command>,
                       p: NodeId, q: Request)
    requires CacheOk(cache) && Next(s, cache, PeerRequested(sender, request), s', cmds) && Waits(s, p, q)
    ensures Waits(s', p, q)
  {
    hide CachedHeaders, HasCached, LedgerRange;
    match request
    case Headers(range) =>
    case Payload(id) =>
  }

  /** A peer that waits is answered by the step, or waits on. */
  lemma StepWaiting(s: State, cache: Cache, e: Event, s': State, cmds: seq<Command>, p: NodeId, q: Request)
    requires CacheOk(cache) && Next(s, cache, e, s', cmds) && Waits(s, p, q)
    ensures Waits(s', p, q) || Answers(cmds, p, q)
    ensures !e.LedgerResponded? ==> Waits(s', p, q)
  {
    hide Next, Answers;
    match e
    case PeerRequested(sender, request) => RequestWaiting(s, cache, sender, request, s', cmds, p, q);
    case LedgerResponded(response, peer) => LedgerWaiting(s, cache, response, peer, s', cmds, p, q);
    case _ => SelfEventPending(s, cache, e, s', cmds);
  }

  lemma WaitingCovered(s: State, env: Env, p: NodeId, q: Request)
    requires SysInv(s, env) && Waits(s, p, q)
    ensures q in env.fetches
  {
    hide Inv, Covered, Accounted, WaitingAsked;
  }

  /** Over every run a peer that waits is answered, or waits on for a ledger fetch not yet answered. */
  lemma {:induction false} RunWaiting(s: State, env: Env, steps: seq<Step>, p: NodeId, q: Request)
    requires SysInv(s, env) && IsRun(s, env, steps) && Waits(s, p, q)
    ensures || (exists i :: 0 <= i < |steps| && Answers(steps[i].cmds, p, q))
            || (Waits(FinalState(s, steps), p, q) && q in FinalEnv(s, env, steps).fetches)
    decreases |steps|
  {
    hide Next, Answers, Waits, SysInv, After, Allowed, OutputOk;
    if steps == [] {
      WaitingCovered(s, env, p, q);
    } else {
      var step, rest := steps[0], steps[1..];
      StepWaiting(s, step.cache, step.event, step.state, step.cmds, p, q);
      if !Answers(step.cmds, p, q) {
        StepSafe(s, env, step);
        RunWaiting(step.state, After(s, env, step.event, step.cmds), rest, p, q);
        if i :| 0 <= i < |rest| && Answers(rest[i].cmds, p, q) {
          assert Answers(steps[i + 1].cmds, p, q);
        }
      }
    }
  }
}
