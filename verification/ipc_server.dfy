/** The UI-side server: the single-slot pending request, the per-connection
    answer, and the life of the slot over any sequence of connections and
    responses.

    Each accepted connection owns a `oneshot` channel. The model names the
    channel by a waiter number (allocated from `nextWaiter`) and records in
    `outcomes` what that connection's receiving half has observed: the string
    sent through it, or the fact that its sender was dropped. A waiter that is in
    neither `outcomes` nor the slot does not exist yet. */
module IpcServer {
  import opened Wrappers
  import opened IpcTypes

  /** What the receiving half of one connection's channel observes. */
  datatype Outcome = Delivered(text: string) | Closed

  /** `PendingRequest`: the request and the sender owned by the waiting connection. */
  datatype Pending = Pending(request: IpcRequest, waiter: nat)

  /** `IpcServerState`: the mutex-guarded slot, plus the outcome every finished
      waiter has observed and the next fresh waiter number. */
  datatype ServerState = ServerState(
    slot: Option<Pending>,
    outcomes: map<nat, Outcome>,
    nextWaiter: nat)

  const NoPendingRequest: string := "没有等待中的请求"
  const IdMismatch: string := "请求 ID 不匹配"
  const ChannelClosed: string := "响应通道已关闭"

  /** True when waiter `w` currently owns the slot. */
  predicate Waiting(st: ServerState, w: nat)
  {
    st.slot.Some? && st.slot.value.waiter == w
  }

  /** Every waiter created so far is in exactly one place: still in the slot, or
      finished with a recorded outcome. No connection is forgotten (it would hang)
      and none is both answered and still pending. */
  ghost predicate Valid(st: ServerState)
  {
    && (forall w :: w in st.outcomes ==> w < st.nextWaiter)
    && (st.slot.Some? ==> st.slot.value.waiter < st.nextWaiter && st.slot.value.waiter !in st.outcomes)
    && (forall w: nat :: w < st.nextWaiter ==> w in st.outcomes || Waiting(st, w))
  }

  /** `IpcServerState::new`: an empty slot and no connection seen yet. */
  function Init(): (st: ServerState)
    ensures Valid(st) && st.slot.None? && st.outcomes == map[]
  {
    ServerState(None, map[], 0)
  }

  /** `set_pending`: the slot now holds exactly the new request with a fresh
      waiter; a request that was there before loses its sender, so its connection
      observes `Closed` instead of waiting forever. Returns the new waiter. */
  function SetPending(st: ServerState, request: IpcRequest): (r: (ServerState, nat))
    ensures r.0.slot == Some(Pending(request, r.1))
    ensures Valid(st) ==> r.1 !in st.outcomes && !Waiting(st, r.1)
    ensures st.slot.Some? ==> r.0.outcomes == st.outcomes[st.slot.value.waiter := Closed]
    ensures st.slot.None? ==> r.0.outcomes == st.outcomes
    ensures Valid(st) ==> Valid(r.0)
  {
    var w := st.nextWaiter;
    var outcomes := match st.slot
      case Some(previous) => st.outcomes[previous.waiter := Closed]
      case None => st.outcomes;
    (ServerState(Some(Pending(request, w)), outcomes, w + 1), w)
  }

  /** `send_response`: answers the pending request when its id matches.
      An empty slot and a different id are errors that leave the state as it was
      (on a mismatch the very same pending request is put back). */
  function SendResponse(st: ServerState, requestId: string, response: string): (r: (ServerState, Result<()>))
    ensures r.1.Ok? <==> st.slot.Some? && st.slot.value.request.id == requestId
    ensures st.slot.None? ==> r == (st, Err(NoPendingRequest))
    ensures st.slot.Some? && st.slot.value.request.id != requestId ==> r == (st, Err(IdMismatch))
    ensures r.1.Ok? ==>
              && r.0.slot.None?
              && r.0.nextWaiter == st.nextWaiter
              && r.0.outcomes == st.outcomes[st.slot.value.waiter := Delivered(response)]
    ensures Valid(st) ==> Valid(r.0)
  {
    match st.slot
    case None => (st, Err(NoPendingRequest))
    case Some(p) =>
      if p.request.id == requestId then
        (ServerState(None, st.outcomes[p.waiter := Delivered(response)], st.nextWaiter), Ok(()))
      else
        (st, Err(IdMismatch))
  }

  /** The first line read from a connection: nothing (end of stream), a failed
      read or text that does not parse as a request (`Malformed`: an I/O error or
      invalid UTF-8 in `read_line` ends the connection before `set_pending` just
      as a parse error does), or a request. */
  datatype ConnLine = Eof | Malformed | Line(request: IpcRequest)

  /** A connection that registered its request and waits for an answer. */
  datatype Connection = Connection(requestId: string, waiter: nat)

  /** The effect of the first half of `handle_connection`. */
  datatype Accepted = Accepted(state: ServerState, conn: Option<Connection>, forwarded: Option<IpcRequest>)

  /** First half of `handle_connection`: read one line; on a request, register it
      in the slot and forward a copy to the UI. End of stream and a parse error
      end the connection without touching the slot. */
  function Accept(st: ServerState, line: ConnLine): (r: Accepted)
    ensures !line.Line? ==> r == Accepted(st, None, None)
    ensures line.Line? ==>
              && r.conn.Some?
              && r.conn.value.requestId == line.request.id
              && r.state.slot == Some(Pending(line.request, r.conn.value.waiter))
              && r.forwarded == Some(line.request)
    ensures Valid(st) && line.Line? ==> r.conn.value.waiter !in st.outcomes && !Waiting(st, r.conn.value.waiter)
    ensures line.Line? ==>
              var (st', w) := SetPending(st, line.request);
              r.state == st' && r.conn.value.waiter == w
    ensures Valid(st) ==> Valid(r.state)
  {
    match line
    case Eof => Accepted(st, None, None)
    case Malformed => Accepted(st, None, None)
    case Line(request) =>
      var (st', w) := SetPending(st, request);
      Accepted(st', Some(Connection(request.id, w)), Some(request))
  }

  /** The `IpcResponse` a connection writes once its receiver resolves. */
  function Reply(requestId: string, outcome: Outcome): (r: IpcResponse)
    ensures r.id == requestId
    ensures r.success <==> outcome.Delivered?
    ensures outcome.Delivered? ==> r.response == outcome.text && r.error.None?
    ensures outcome.Closed? ==> r.response == "" && r.error == Some(ChannelClosed)
  {
    match outcome
    case Delivered(text) => IpcResponse(requestId, text, true, None)
    case Closed => IpcResponse(requestId, "", false, Some(ChannelClosed))
  }

  /** The state of a connection's outgoing side: still waiting for its receiver,
      reply written, or closed without writing anything (end of stream or a
      request that did not parse). */
  datatype Wire = Awaiting | Written(response: IpcResponse) | Dropped

  /** Second half of `handle_connection`: the reply written on the connection
      once its receiver resolves; until then it is still waiting. */
  function Finish(st: ServerState, conn: Connection): (r: Wire)
    ensures !r.Dropped?
    ensures r.Written? <==> conn.waiter in st.outcomes
    ensures r.Written? ==> r.response.id == conn.requestId
  {
    if conn.waiter in st.outcomes then Written(Reply(conn.requestId, st.outcomes[conn.waiter])) else Awaiting
  }

  /** The whole of `handle_connection` as seen from the client: a connection that
      returned before `set_pending` writes nothing and closes; one that parked a
      request is finished against the `later` state. */
  function Outgoing(accepted: Accepted, later: ServerState): (r: Wire)
    ensures r.Dropped? <==> accepted.conn.None?
    ensures accepted.conn.Some? ==>
              (r.Written? <==> accepted.conn.value.waiter in later.outcomes)
    ensures r.Written? ==> r.response.id == accepted.conn.value.requestId
  {
    match accepted.conn
    case None => Dropped
    case Some(conn) => Finish(later, conn)
  }

  /** Anything that reaches the server state: a new connection's first line, or
      the UI answering a request id. */
  datatype Event = Connect(line: ConnLine) | Respond(requestId: string, response: string)

  function Step(st: ServerState, e: Event): ServerState
  {
    match e
    case Connect(line) => Accept(st, line).state
    case Respond(id, text) => SendResponse(st, id, text).0
  }

  /** The state after the events happen one after another, each atomically. */
  function Run(st: ServerState, events: seq<Event>): ServerState
    decreases |events|
  {
    if |events| == 0 then st else Run(Step(st, events[0]), events[1..])
  }

  /** Outcomes recorded in `a` are still in `b`, unchanged. */
  ghost predicate Extends(a: map<nat, Outcome>, b: map<nat, Outcome>)
  {
    forall w :: w in a ==> w in b && b[w] == a[w]
  }

  /** One event never rewrites an outcome already observed and never reuses a waiter number. */
  lemma StepKeepsOutcomes(st: ServerState, e: Event)
    requires Valid(st)
    ensures Valid(Step(st, e))
    ensures Extends(st.outcomes, Step(st, e).outcomes)
    ensures st.nextWaiter <= Step(st, e).nextWaiter
  {
  }

  /** Over any sequence of connections and responses the invariant holds. */
  lemma {:induction false} RunPreservesValid(st: ServerState, events: seq<Event>)
    requires Valid(st)
    ensures Valid(Run(st, events))
    decreases |events|
  {
    if |events| > 0 {
      StepKeepsOutcomes(st, events[0]);
      RunPreservesValid(Step(st, events[0]), events[1..]);
    }
  }

  /** Over any sequence of events, every outcome observed is kept as it was:
      no connection receives a second answer or has its answer replaced. */
  lemma {:induction false} RunKeepsOutcomes(st: ServerState, events: seq<Event>)
    requires Valid(st)
    ensures Extends(st.outcomes, Run(st, events).outcomes)
    decreases |events|
  {
    if |events| > 0 {
      StepKeepsOutcomes(st, events[0]);
      RunKeepsOutcomes(Step(st, events[0]), events[1..]);
    }
  }

  /** Exactly once, per waiter: a successful response reaches the waiter holding
      the slot, a repeated response with the same id finds the slot empty, and
      whatever happens afterwards that waiter's answer stays the one delivered. */
  lemma ExactlyOnce(st: ServerState, requestId: string, response: string, again: string, events: seq<Event>)
    requires Valid(st)
    requires SendResponse(st, requestId, response).1.Ok?
    ensures var after := SendResponse(st, requestId, response).0;
            && st.slot.Some?
            && SendResponse(after, requestId, again) == (after, Err(NoPendingRequest))
            && st.slot.value.waiter in Run(after, events).outcomes
            && Run(after, events).outcomes[st.slot.value.waiter] == Delivered(response)
  {
    var after := SendResponse(st, requestId, response).0;
    RunKeepsOutcomes(after, events);
  }

  /** A request superseded by a newer one is never left hanging: its connection
      observes `Closed` and, whatever happens later, writes the channel-closed
      failure carrying its own id. */
  lemma SupersededRequestFails(st: ServerState, first: IpcRequest, second: IpcRequest, events: seq<Event>)
    requires Valid(st)
    ensures var a := Accept(st, Line(first));
            var b := Accept(a.state, Line(second));
            var conn := a.conn.value;
            var final := Run(b.state, events);
            Finish(final, conn) == Written(IpcResponse(first.id, "", false, Some(ChannelClosed)))
  {
    var a := Accept(st, Line(first));
    var b := Accept(a.state, Line(second));
    RunKeepsOutcomes(b.state, events);
  }

  /** A connection whose request was answered with `response` writes exactly
      `{id, response, success: true, error: None}`, for ever after. */
  lemma AnsweredRequestReplies(st: ServerState, request: IpcRequest, response: string, events: seq<Event>)
    requires Valid(st)
    ensures var a := Accept(st, Line(request));
            var answered := SendResponse(a.state, request.id, response);
            && answered.1 == Ok(())
            && Finish(Run(answered.0, events), a.conn.value) == Written(IpcResponse(request.id, response, true, None))
  {
    var a := Accept(st, Line(request));
    var answered := SendResponse(a.state, request.id, response);
    RunKeepsOutcomes(answered.0, events);
  }
}
