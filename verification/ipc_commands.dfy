/** The Tauri side of the server: the command the frontend calls to answer a
    request, the start-up that installs the server state, and the loop that
    forwards every received request to the frontend as an event. */
module IpcCommands {
  import opened Wrappers
  import opened IpcTypes
  import IpcServer

  const NotInitialised: string := "IPC 服务器未初始化"
  const SendFailedPrefix: string := "发送 IPC 响应失败: "
  const StartFailedPrefix: string := "启动 IPC 服务器失败: "
  const McpRequestEvent: string := "mcp-request"
  const LegacyRequestEvent: string := "ipc-mcp-request"

  /** `IpcStateWrapper`: the server state once it has been installed. */
  type StateWrapper = Option<IpcServer.ServerState>

  /** `send_ipc_response`: refuses while no server state is installed; otherwise
      answers through the server state and prefixes any failure. */
  function SendIpcResponse(wrapper: StateWrapper, requestId: string, response: string): (r: (StateWrapper, Result<()>))
    ensures wrapper.None? ==> r == (None, Err(NotInitialised))
    ensures wrapper.Some? ==>
              var inner := IpcServer.SendResponse(wrapper.value, requestId, response);
              && r.0 == Some(inner.0)
              && (r.1.Ok? <==> inner.1.Ok?)
              && (inner.1.Err? ==> r.1 == Err(SendFailedPrefix + inner.1.error))
  {
    match wrapper
    case None => (None, Err(NotInitialised))
    case Some(st) =>
      var (st', res) := IpcServer.SendResponse(st, requestId, response);
      (Some(st'), match res case Ok(u) => Ok(u) case Err(e) => Err(SendFailedPrefix + e))
  }

  /** `start_ipc_server`, up to listening: a fresh server state is installed in
      the wrapper first, so it stays installed even when `start` then fails with
      `startError`. */
  function StartIpcServer(wrapper: StateWrapper, startError: Option<string>): (r: (StateWrapper, Result<()>))
    ensures r.0 == Some(IpcServer.Init())
    ensures r.1.Ok? <==> startError.None?
    ensures startError.Some? ==> r.1 == Err(StartFailedPrefix + startError.value)
  {
    var installed := Some(IpcServer.Init());
    match startError
    case None => (installed, Ok(()))
    case Some(e) => (installed, Err(StartFailedPrefix + e))
  }

  /** Because the state is stored before listening, the frontend's answer after
      start-up, even a failed one, reaches the server state: with no request
      parked it fails with the prefixed empty-slot text, never with
      `NotInitialised`, and the fresh state stays installed. */
  lemma StartedServerAnswersFromState(wrapper: StateWrapper, startError: Option<string>, requestId: string, response: string)
    ensures var started := StartIpcServer(wrapper, startError).0;
            SendIpcResponse(started, requestId, response)
              == (started, Err(SendFailedPrefix + IpcServer.NoPendingRequest))
    ensures SendIpcResponse(StartIpcServer(wrapper, startError).0, requestId, response).1 != Err(NotInitialised)
  {
  }

  /** The JSON values the forwarded payload uses. */
  datatype Json = JNull | JBool(b: bool) | JString(s: string) | JArray(items: seq<Json>)

  function OptionsToJson(options: Option<seq<string>>): (j: Json)
    ensures options.None? <==> j.JNull?
    ensures options.Some? ==> j.JArray? && |j.items| == |options.value|
    ensures options.Some? ==> forall i :: 0 <= i < |j.items| ==> j.items[i] == JString(options.value[i])
  {
    match options
    case None => JNull
    case Some(xs) => JArray(seq(|xs|, i requires 0 <= i < |xs| => JString(xs[i])))
  }

  /** The frontend's view of `predefined_options`: null, or an array of strings. */
  function OptionsFromJson(j: Json): Option<Option<seq<string>>>
  {
    match j
    case JNull => Some(None)
    case JArray(items) =>
      if forall i :: 0 <= i < |items| ==> items[i].JString? then
        Some(Some(seq(|items|, i requires 0 <= i < |items| => items[i].s)))
      else None
    case _ => None
  }

  /** The object emitted to the frontend for one request: exactly the four request
      fields under their wire names. */
  function Payload(request: IpcRequest): (p: map<string, Json>)
    ensures p.Keys == {"id", "message", "predefined_options", "is_markdown"}
    ensures p["id"] == JString(request.id) && p["message"] == JString(request.message)
    ensures p["is_markdown"] == JBool(request.isMarkdown)
    ensures p["predefined_options"] == OptionsToJson(request.predefinedOptions)
  {
    map["id" := JString(request.id),
        "message" := JString(request.message),
        "predefined_options" := OptionsToJson(request.predefinedOptions),
        "is_markdown" := JBool(request.isMarkdown)]
  }

  /** How the frontend reads a forwarded payload back into a request. */
  function RequestFromPayload(p: map<string, Json>): Option<IpcRequest>
  {
    if "id" in p && "message" in p && "predefined_options" in p && "is_markdown" in p
       && p["id"].JString? && p["message"].JString? && p["is_markdown"].JBool?
    then
      match OptionsFromJson(p["predefined_options"])
      case Some(options) => Some(IpcRequest(p["id"].s, p["message"].s, options, p["is_markdown"].b))
      case None => None
    else None
  }

  /** The payload loses nothing: the frontend recovers the request it came from. */
  lemma PayloadRoundTrip(request: IpcRequest)
    ensures RequestFromPayload(Payload(request)) == Some(request)
  {
    var p := Payload(request);
    match request.predefinedOptions
    case None =>
    case Some(xs) =>
      var j := OptionsToJson(request.predefinedOptions);
      assert seq(|j.items|, i requires 0 <= i < |j.items| => j.items[i].s) == xs;
  }

  /** One call of `emit`: the event name, the payload, and whether it succeeded. */
  datatype Emission = Emission(event: string, payload: map<string, Json>, ok: bool)

  /** The two emits made for one request. The first one's failure is only
      logged, so the second is attempted in every case. */
  function EmitBoth(request: IpcRequest, firstOk: bool, secondOk: bool): (r: seq<Emission>)
    ensures |r| == 2
    ensures r[0] == Emission(McpRequestEvent, Payload(request), firstOk)
    ensures r[1] == Emission(LegacyRequestEvent, Payload(request), secondOk)
    ensures RequestFromPayload(r[0].payload) == Some(request) && RequestFromPayload(r[1].payload) == Some(request)
  {
    PayloadRoundTrip(request);
    [Emission(McpRequestEvent, Payload(request), firstOk),
     Emission(LegacyRequestEvent, Payload(request), secondOk)]
  }

  /** The forwarding task of `start_ipc_server` over the requests it receives, in
      order; `emitResults[i]` says how the two emits for request `i` fared. Every
      request yields the two emits, in order, whatever any emit returned. */
  method ForwardRequests(requests: seq<IpcRequest>, emitResults: seq<(bool, bool)>) returns (emitted: seq<Emission>)
    requires |emitResults| == |requests|
    ensures |emitted| == 2 * |requests|
    ensures forall i :: 0 <= i < |requests| ==>
              && emitted[2 * i] == Emission(McpRequestEvent, Payload(requests[i]), emitResults[i].0)
              && emitted[2 * i + 1] == Emission(LegacyRequestEvent, Payload(requests[i]), emitResults[i].1)
    ensures forall i :: 0 <= i < |requests| ==>
              && RequestFromPayload(emitted[2 * i].payload) == Some(requests[i])
              && RequestFromPayload(emitted[2 * i + 1].payload) == Some(requests[i])
  {
    emitted := [];
    var k := 0;
    while k < |requests|
      invariant 0 <= k <= |requests|
      invariant |emitted| == 2 * k
      invariant forall i :: 0 <= i < k ==>
                  && emitted[2 * i] == Emission(McpRequestEvent, Payload(requests[i]), emitResults[i].0)
                  && emitted[2 * i + 1] == Emission(LegacyRequestEvent, Payload(requests[i]), emitResults[i].1)
    {
      emitted := emitted + EmitBoth(requests[k], emitResults[k].0, emitResults[k].1);
      k := k + 1;
    }
    forall i | 0 <= i < |requests|
      ensures RequestFromPayload(Payload(requests[i])) == Some(requests[i])
    {
      PayloadRoundTrip(requests[i]);
    }
  }
}
