/**
 Block sync as a state machine over values: the state, the messages and commands, and what
 each handler does to them.  Hash-map iteration order is left open: where a handler walks a
 map, the commands are specified as an enumeration of a set.
 */
module Sync {
  import opened Blocks
  import opened Forests

  /** The most payload requests in flight at once. */
  const MAX_PAYLOAD_REQUESTS := 10

  datatype Requester = Consensus | StateSync

  datatype Request = Headers(range: BlockRange) | Payload(id: BodyId)

  datatype HeadersResponse = HeadersFound(range: BlockRange, headers: seq<Header>)
      | HeadersNotAvailable(range: BlockRange)
  datatype BodyResponse = BodyFound(body: Body) | BodyNotAvailable(id: BodyId)
  datatype Response = HeadersResponse(headers: HeadersResponse) | PayloadResponse(payload: BodyResponse)

  datatype Command =
    | SendRequest(peer: NodeId, request: Request)
    | ScheduleTimeout(request: Request)
    | ResetTimeout(request: Request)
    | SendResponse(to: NodeId, response: Response)
    | FetchHeaders(range: BlockRange)
    | FetchPayload(id: BodyId)
    | Emit(requester: Requester, range: BlockRange, blocks: seq<Block>)

  /** `to` is None while the request is with the own ledger, or no peer was to be had. */
  datatype SelfRequest = SelfRequest(requester: Requester, to: Option<NodeId>)

  datatype Slot = Slot(header: Header, body: Option<Body>)
  datatype Completed = Completed(requester: Requester, slots: seq<Slot>, cache: map<BodyId, Body>)

  datatype State = State(
    headersRequests: map<BlockRange, map<NodeId, seq<Header>>>,
    payloadRequests: map<BodyId, set<NodeId>>,
    selfHeaders: map<BlockRange, SelfRequest>,
    selfPayloads: map<BodyId, Option<SelfRequest>>,
    inFlight: int,
    completed: map<BlockRange, Completed>,
    mode: Requester)

  const INITIAL := State(map[], map[], map[], map[], 0, map[], StateSync)

  /** Where blocks may be at hand already: the live block tree, or the buffer used while
      syncing state. */
  datatype Cache = TreeCache(blocks: BlockMap) | BufferCache(bodies: map<BodyId, Body>)

  ghost predicate CacheOk(cache: Cache) {
    match cache
    case TreeCache(bs) => Keyed(bs) && forall id <- bs :: BodyMatches(bs[id])
    case BufferCache(bodies) => forall id <- bodies :: BodyIdOf(bodies[id]) == id
  }

  predicate CacheHas(cache: Cache, id: BodyId) {
    match cache
    case TreeCache(bs) => exists x <- bs :: bs[x].header.bodyId == id
    case BufferCache(bodies) => id in bodies
  }

  predicate HasCached(cache: Cache, completed: map<BlockRange, Completed>, id: BodyId) {
    CacheHas(cache, id) || exists r <- completed :: id in completed[r].cache
  }

  /** `cmds` lists the commands of a set, each once, in some order. */
  ghost predicate Enumerates(cmds: seq<Command>, all: set<Command>) {
    multiset(cmds) == multiset(all)
  }

  // ---------------------------------------------------------------- headers

  /** Each header names its predecessor as parent. */
  predicate Linked(headers: seq<Header>) {
    forall i | 0 < i < |headers| :: headers[i].qc.id == IdOf(headers[i-1])
  }

  /** The headers are those of the range: the right number, the right end, one chain. */
  predicate Verifies(range: BlockRange, headers: seq<Header>) {
    && |headers| == range.num
    && (headers != [] ==> IdOf(headers[|headers|-1]) == range.last)
    && Linked(headers)
  }

  function HeadersOf(blocks: seq<Block>): (r: seq<Header>)
    ensures |r| == |blocks|
  {
    seq(|blocks|, i requires 0 <= i < |blocks| => blocks[i].header)
  }

  function LastN<T>(s: seq<T>, n: nat): seq<T> {
    if |s| <= n then s else s[|s|-n..]
  }

  /** The cached end of a range: the last headers of the chain that ends there. */
  function CachedHeaders(cache: Cache, range: BlockRange): seq<Header>
    requires CacheOk(cache)
  {
    match cache
    case TreeCache(bs) => LastN(HeadersOf(ParentChain(bs, range.last)), range.num)
    case BufferCache(_) => []
  }

  /** What is left of a range for the ledger once the cached headers are taken off. */
  function LedgerRange(range: BlockRange, cached: seq<Header>): BlockRange
    requires |cached| <= range.num
  {
    BlockRange(if cached == [] then range.last else cached[0].qc.id, range.num - |cached|)
  }

  /** The range a peer asked for, from what was left for the ledger and what was cached. */
  function RequestedRange(ledger: BlockRange, cached: seq<Header>): BlockRange {
    BlockRange(if cached == [] then ledger.last else IdOf(cached[|cached|-1]), ledger.num + |cached|)
  }

  // ---------------------------------------------------------------- filling in bodies

  /** Fills an empty slot whose body is among `ids`. */
  function FillSlot(slot: Slot, ids: set<BodyId>): Slot {
    if slot.body.None? && slot.header.bodyId in ids then slot.(body := Some(slot.header.bodyId.body)) else slot
  }

  function FillSlots(slots: seq<Slot>, ids: set<BodyId>): (r: seq<Slot>)
    ensures |r| == |slots|
  {
    seq(|slots|, i requires 0 <= i < |slots| => FillSlot(slots[i], ids))
  }

  predicate Wants(slots: seq<Slot>, id: BodyId) {
    exists slot <- slots :: slot.body.None? && slot.header.bodyId == id
  }

  function Wanted(slots: seq<Slot>, ids: set<BodyId>): set<BodyId> {
    set id <- ids | Wants(slots, id)
  }

  function BodiesOf(ids: set<BodyId>): map<BodyId, Body> {
    map id <- ids :: id.body
  }

  function Fill(c: Completed, ids: set<BodyId>): Completed {
    c.(slots := FillSlots(c.slots, ids), cache := c.cache + BodiesOf(Wanted(c.slots, ids)))
  }

  function FillAll(completed: map<BlockRange, Completed>, ids: set<BodyId>): map<BlockRange, Completed> {
    map r <- completed.Keys :: Fill(completed[r], ids)
  }

  predicate Full(slots: seq<Slot>) {
    forall slot <- slots :: slot.body.Some?
  }

  function FullBlocks(slots: seq<Slot>): (r: seq<Block>)
    requires Full(slots)
    ensures |r| == |slots|
  {
    seq(|slots|, i requires 0 <= i < |slots| => Block(slots[i].header, slots[i].body.value))
  }

  // ---------------------------------------------------------------- emitting

  function EmitOf(completed: map<BlockRange, Completed>, r: BlockRange): Command
    requires r in completed && Full(completed[r].slots)
  {
    Emit(completed[r].requester, r, FullBlocks(completed[r].slots))
  }

  function FullRanges(completed: map<BlockRange, Completed>): set<BlockRange> {
    set r <- completed.Keys | Full(completed[r].slots)
  }

  function EmitsOver(completed: map<BlockRange, Completed>, ranges: set<BlockRange>): set<Command>
    requires ranges <= FullRanges(completed)
  {
    set r <- ranges :: EmitOf(completed, r)
  }

  function EmitsOf(completed: map<BlockRange, Completed>): set<Command> {
    EmitsOver(completed, FullRanges(completed))
  }

  function Unfinished(s: State): State {
    s.(completed := s.completed - FullRanges(s.completed))
  }

  // ---------------------------------------------------------------- starting payload requests

  function Initiated(reqs: map<BodyId, Option<SelfRequest>>): set<BodyId> {
    set id <- reqs.Keys | reqs[id].Some?
  }

  function Queued(reqs: map<BodyId, Option<SelfRequest>>): set<BodyId> {
    set id <- reqs.Keys | reqs[id].None?
  }

  /** The requested payloads that turn out to be at hand. */
  function Hits(s: State, cache: Cache): set<BodyId> {
    set id <- s.selfPayloads.Keys | HasCached(cache, s.completed, id)
  }

  function AfterHits(s: State, hits: set<BodyId>): State {
    s.(selfPayloads := s.selfPayloads - hits,
       inFlight := s.inFlight - |hits * Initiated(s.selfPayloads)|,
       completed := FillAll(s.completed, hits))
  }

  /** Timers of payload requests that were with a peer. */
  function ResetsOf(s: State, hits: set<BodyId>): set<Command> {
    set id <- hits | id in s.selfPayloads && s.selfPayloads[id].Some? && s.selfPayloads[id].value.to.Some?
      :: ResetTimeout(Payload(id))
  }

  /** Queued payloads are started until none is left or the limit is reached. */
  predicate LegalStart(s: State, start: set<BodyId>) {
    && start <= Queued(s.selfPayloads)
    && (start == {} || s.inFlight + |start| <= MAX_PAYLOAD_REQUESTS)
    && (start == Queued(s.selfPayloads) || s.inFlight + |start| >= MAX_PAYLOAD_REQUESTS)
  }

  function Started(s: State, start: set<BodyId>): State {
    s.(selfPayloads := map id <- s.selfPayloads.Keys ::
                         if id in start then Some(SelfRequest(s.mode, None)) else s.selfPayloads[id],
       inFlight := s.inFlight + |start|)
  }

  function FetchesOf(start: set<BodyId>): set<Command> {
    set id <- start :: FetchPayload(id)
  }

  /** try_initiate_payload_requests_for_self. */
  ghost predicate Initiate(s: State, cache: Cache, start: set<BodyId>, s': State, cmds: seq<Command>) {
    var hits := Hits(s, cache);
    var s1 := AfterHits(s, hits);
    var s2 := Started(s1, start);
    && LegalStart(s1, start)
    && s' == Unfinished(s2)
    && Enumerates(cmds, ResetsOf(s, hits) + FetchesOf(start) + EmitsOf(s2.completed))
  }

  // ---------------------------------------------------------------- handlers for self

  predicate Accepted(s: State, requester: Requester, range: BlockRange) {
    range.num != 0 && (requester != s.mode || (range !in s.selfHeaders && range !in s.completed))
  }

  function Cleared(s: State): State {
    s.(selfHeaders := map[], selfPayloads := map[], inFlight := 0, completed := map[])
  }

  function HandleSelfRequest(s: State, requester: Requester, range: BlockRange): (State, seq<Command>) {
    if range.num == 0 then (s, [])
    else
      var s1 := if requester != s.mode then Cleared(s).(mode := requester) else s;
      if Accepted(s, requester, range)
      then (s1.(selfHeaders := s1.selfHeaders[range := SelfRequest(requester, None)]), [FetchHeaders(range)])
      else (s1, [])
  }

  function HandleSelfCancel(s: State, requester: Requester, range: BlockRange): State {
    s.(selfHeaders := if range in s.selfHeaders && s.selfHeaders[range].requester == requester
                      then s.selfHeaders - {range} else s.selfHeaders,
       completed := if range in s.completed && s.completed[range].requester == requester
                    then s.completed - {range} else s.completed)
  }

  /** A request goes to the picked peer, if any; either way it is tried again later. */
  function AskPeer(peer: Option<NodeId>, request: Request): seq<Command> {
    (if peer.Some? then [SendRequest(peer.value, request)] else []) + [ScheduleTimeout(request)]
  }

  function BodyIdsOf(headers: seq<Header>): set<BodyId> {
    set h <- headers :: h.bodyId
  }

  /** New payload requests are queued; those already on the list stay as they are. */
  function Enqueue(reqs: map<BodyId, Option<SelfRequest>>, headers: seq<Header>): map<BodyId, Option<SelfRequest>> {
    (map id <- BodyIdsOf(headers) :: None) + reqs
  }

  function EmptySlots(headers: seq<Header>): seq<Slot> {
    seq(|headers|, i requires 0 <= i < |headers| => Slot(headers[i], None))
  }

  function HeadersForSelf(s: State, sender: Option<NodeId>, response: HeadersResponse, peer: Option<NodeId>)
    : (State, seq<Command>)
    requires response.range in s.selfHeaders
  {
    var range := response.range;
    match response
    case HeadersFound(_, headers) =>
      if Verifies(range, headers) then
        (s.(selfHeaders := s.selfHeaders - {range},
            selfPayloads := Enqueue(s.selfPayloads, headers),
            completed := s.completed[range := Completed(s.mode, EmptySlots(headers), map[])]),
         if sender.Some? then [ResetTimeout(Headers(range))] else [])
      else (s, [])
    case HeadersNotAvailable(_) =>
      if sender.None? && s.selfHeaders[range].to.None? then
        (s.(selfHeaders := s.selfHeaders[range := s.selfHeaders[range].(to := peer)]), AskPeer(peer, Headers(range)))
      else (s, [])
  }

  ghost predicate HandleHeadersForSelf(s: State, cache: Cache, sender: Option<NodeId>, response: HeadersResponse,
                                       peer: Option<NodeId>, s': State, cmds: seq<Command>) {
    if response.range !in s.selfHeaders then s' == s && cmds == []
    else exists start, more :: HeadersForSelfWith(s, cache, sender, response, peer, start, more, s', cmds)
  }

  ghost predicate HeadersForSelfWith(s: State, cache: Cache, sender: Option<NodeId>, response: HeadersResponse,
                                     peer: Option<NodeId>, start: set<BodyId>, more: seq<Command>,
                                     s': State, cmds: seq<Command>)
    requires response.range in s.selfHeaders
  {
    var (s1, first) := HeadersForSelf(s, sender, response, peer);
    cmds == first + more && Initiate(s1, cache, start, s', more)
  }

  function BodyIdIn(response: BodyResponse): BodyId {
    match response
    case BodyFound(body) => BodyIdOf(body)
    case BodyNotAvailable(id) => id
  }

  predicate AwaitsPayload(s: State, id: BodyId) {
    id in s.selfPayloads && s.selfPayloads[id].Some?
  }

  function PayloadForSelf(s: State, sender: Option<NodeId>, response: BodyResponse, peer: Option<NodeId>)
    : (State, seq<Command>)
    requires AwaitsPayload(s, BodyIdIn(response))
  {
    var id := BodyIdIn(response);
    match response
    case BodyFound(_) =>
      (s.(inFlight := s.inFlight - 1, selfPayloads := s.selfPayloads - {id}, completed := FillAll(s.completed, {id})),
       if sender.Some? then [ResetTimeout(Payload(id))] else [])
    case BodyNotAvailable(_) =>
      var req := s.selfPayloads[id].value;
      if sender.None? && req.to.None? then
        (s.(selfPayloads := s.selfPayloads[id := Some(req.(to := peer))]), AskPeer(peer, Payload(id)))
      else (s, [])
  }

  ghost predicate HandlePayloadForSelf(s: State, cache: Cache, sender: Option<NodeId>, response: BodyResponse,
                                       peer: Option<NodeId>, s': State, cmds: seq<Command>) {
    if !AwaitsPayload(s, BodyIdIn(response)) then s' == s && cmds == []
    else exists start, emits, more ::
           PayloadForSelfWith(s, cache, sender, response, peer, start, emits, more, s', cmds)
  }

  ghost predicate PayloadForSelfWith(s: State, cache: Cache, sender: Option<NodeId>, response: BodyResponse,
                                     peer: Option<NodeId>, start: set<BodyId>, emits: seq<Command>, more: seq<Command>,
                                     s': State, cmds: seq<Command>)
    requires AwaitsPayload(s, BodyIdIn(response))
  {
    var (s1, first) := PayloadForSelf(s, sender, response, peer);
    && cmds == first + emits + more
    && Enumerates(emits, EmitsOf(s1.completed))
    && Initiate(Unfinished(s1), cache, start, s', more)
  }

  function HandleTimeout(s: State, request: Request, peer: Option<NodeId>): (State, seq<Command>) {
    match request
    case Headers(range) =>
      if range in s.selfHeaders then
        (s.(selfHeaders := s.selfHeaders[range := s.selfHeaders[range].(to := peer)]), AskPeer(peer, request))
      else (s, [])
    case Payload(id) =>
      if AwaitsPayload(s, id) then
        (s.(selfPayloads := s.selfPayloads[id := Some(s.selfPayloads[id].value.(to := peer))]), AskPeer(peer, request))
      else (s, [])
  }

  // ---------------------------------------------------------------- handlers for peers

  function HandlePeerHeaders(s: State, cache: Cache, sender: NodeId, range: BlockRange): (State, seq<Command>)
    requires CacheOk(cache)
  {
    if range.num == 0 then (s, [])
    else
      var cached := CachedHeaders(cache, range);
      if |cached| == range.num then
        (s, [SendResponse(sender, HeadersResponse(HeadersFound(range, cached)))])
      else
        var ledger := LedgerRange(range, cached);
        var entry := if ledger in s.headersRequests then s.headersRequests[ledger] else map[];
        (s.(headersRequests := s.headersRequests[ledger := entry[sender := cached]]), [FetchHeaders(ledger)])
  }

  function HandlePeerPayload(s: State, cache: Cache, sender: NodeId, id: BodyId): (State, seq<Command>) {
    if HasCached(cache, s.completed, id) then
      (s, [SendResponse(sender, PayloadResponse(BodyFound(id.body)))])
    else
      var entry := if id in s.payloadRequests then s.payloadRequests[id] else {};
      (s.(payloadRequests := s.payloadRequests[id := entry + {sender}]), [FetchPayload(id)])
  }

  /** The answer to a peer whose cached headers complete what the ledger returned. */
  function PeerReply(response: HeadersResponse, cached: seq<Header>): HeadersResponse {
    var requested := RequestedRange(response.range, cached);
    match response
    case HeadersFound(_, headers) => HeadersFound(requested, headers + cached)
    case HeadersNotAvailable(_) => HeadersNotAvailable(requested)
  }

  function ReplyTo(response: HeadersResponse, waiting: map<NodeId, seq<Header>>, p: NodeId): Command
    requires p in waiting
  {
    SendResponse(p, HeadersResponse(PeerReply(response, waiting[p])))
  }

  function RepliesFor(response: HeadersResponse, waiting: map<NodeId, seq<Header>>, peers: set<NodeId>): set<Command>
    requires peers <= waiting.Keys
  {
    set p <- peers :: ReplyTo(response, waiting, p)
  }

  function PayloadsFor(response: BodyResponse, peers: set<NodeId>): set<Command> {
    set p <- peers :: SendResponse(p, PayloadResponse(response))
  }

  function HeadersReplies(s: State, response: HeadersResponse): set<Command> {
    if response.range !in s.headersRequests then {}
    else
      var waiting := s.headersRequests[response.range];
      RepliesFor(response, waiting, waiting.Keys)
  }

  function PayloadReplies(s: State, response: BodyResponse): set<Command> {
    var id := BodyIdIn(response);
    if id !in s.payloadRequests then {} else PayloadsFor(response, s.payloadRequests[id])
  }

  ghost predicate HandleLedgerResponse(s: State, cache: Cache, response: Response,
                                       peer: Option<NodeId>, s': State, cmds: seq<Command>) {
    exists replies, rest :: LedgerResponseWith(s, cache, response, replies, rest, peer, s', cmds)
  }

  ghost predicate LedgerResponseWith(s: State, cache: Cache, response: Response, replies: seq<Command>,
                                     rest: seq<Command>, 
                                     peer: Option<NodeId>, s': State, cmds: seq<Command>) {
    && cmds == replies + rest
    && match response
       case HeadersResponse(r) =>
         && Enumerates(replies, HeadersReplies(s, r))
         && HandleHeadersForSelf(s.(headersRequests := s.headersRequests - {r.range}), cache, None, r, peer, s', rest)
       case PayloadResponse(r) =>
         && Enumerates(replies, PayloadReplies(s, r))
         && HandlePayloadForSelf(s.(payloadRequests := s.payloadRequests - {BodyIdIn(r)}),
                                 cache, None, r, peer, s', rest)
  }
}
