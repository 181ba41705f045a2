/** The MCP-side client: how one exchange over the socket ends, and how the
    response line is turned back into the popup's answer. */
module IpcClient {
  import opened Wrappers
  import opened IpcTypes
  import IpcServer

  const CannotConnect: string := "无法连接到 UI 进程"
  const TimedOutWaiting: string := "等待响应超时"
  const ReadFailedText: string := "读取响应失败"
  const ConnectionClosed: string := "连接已关闭"
  const ParseFailed: string := "解析响应失败"
  const UnknownError: string := "未知错误"

  /** How one exchange in `send_request_unix` ended, as seen by the client.
      `Eof` is a read of zero bytes; `Reply` a line that parsed as a response. */
  datatype Exchange =
    | ConnectFailed
    | WriteFailed(err: string)
    | TimedOut
    | ReadFailed
    | Eof
    | Unparsable
    | Reply(response: IpcResponse)

  /** `send_request_unix`: every failure becomes the error text shown for it;
      only a reply marked successful yields text, and it yields that text as sent. */
  function Interpret(x: Exchange): (r: Result<string>)
    ensures r.Ok? <==> x.Reply? && x.response.success
    ensures r.Ok? ==> r.value == x.response.response
    ensures x.Reply? && !x.response.success ==>
              r == Err(if x.response.error.Some? then x.response.error.value else UnknownError)
    ensures x.Eof? ==> r == Err(ConnectionClosed)
    ensures x.ConnectFailed? ==> r == Err(CannotConnect)
    ensures x.TimedOut? ==> r == Err(TimedOutWaiting)
    ensures x.ReadFailed? ==> r == Err(ReadFailedText)
    ensures x.Unparsable? ==> r == Err(ParseFailed)
    ensures x.WriteFailed? ==> r == Err(x.err)
  {
    match x
    case ConnectFailed => Err(CannotConnect)
    case WriteFailed(err) => Err(err)
    case TimedOut => Err(TimedOutWaiting)
    case ReadFailed => Err(ReadFailedText)
    case Eof => Err(ConnectionClosed)
    case Unparsable => Err(ParseFailed)
    case Reply(response) =>
      if response.success then Ok(response.response)
      else Err(match response.error case Some(e) => e case None => UnknownError)
  }

  /** What the client observes of the server's side of the connection: the
      written line, a close without a line (a zero-byte read), or, while the
      server is still waiting, nothing until the 600-second timeout. */
  function Receive(wire: IpcServer.Wire): (x: Exchange)
    ensures wire.Written? <==> x.Reply?
    ensures wire.Written? ==> x.response == wire.response
    ensures wire.Dropped? <==> x.Eof?
    ensures wire.Awaiting? <==> x.TimedOut?
  {
    match wire
    case Written(response) => Reply(response)
    case Dropped => Eof
    case Awaiting => TimedOut
  }

  /** The answer a waiter observed, as the client reports it. */
  function OutcomeResult(o: IpcServer.Outcome): Result<string>
  {
    match o
    case Delivered(text) => Ok(text)
    case Closed => Err(IpcServer.ChannelClosed)
  }

  /** Round trip over the wire: whatever a connection's receiver observed, the
      reply the server writes is read back by the client as exactly that outcome. */
  lemma ReplyRoundTrip(requestId: string, o: IpcServer.Outcome)
    ensures Interpret(Receive(IpcServer.Written(IpcServer.Reply(requestId, o)))) == OutcomeResult(o)
  {
  }

  /** A zero-length read is never mistaken for an empty answer, and a server
      that is still waiting yields the timeout error, not an answer. */
  lemma EofIsNeverAnAnswer(wire: IpcServer.Wire)
    ensures wire.Dropped? ==> Interpret(Receive(wire)) == Err(ConnectionClosed)
    ensures wire.Awaiting? ==> Interpret(Receive(wire)) == Err(TimedOutWaiting)
    ensures Interpret(Receive(wire)).Ok? ==> wire.Written? && wire.response.success
  {
  }

  /** A first line that is end of stream or not a request reaches the client as a
      closed connection, whatever happens to the server afterwards. */
  lemma UnreadRequestIsClosed(st: IpcServer.ServerState, line: IpcServer.ConnLine, later: IpcServer.ServerState)
    ensures !line.Line? <==> IpcServer.Outgoing(IpcServer.Accept(st, line), later).Dropped?
    ensures !line.Line? ==> Interpret(Receive(IpcServer.Outgoing(IpcServer.Accept(st, line), later))) == Err(ConnectionClosed)
  {
  }
}
