/** The whole hand-off, from the MCP popup request through the UI's server
    state and the frontend's answer back to the popup's result. */
module EndToEnd {
  import opened Wrappers
  import opened IpcTypes
  import IpcServer
  import IpcClient
  import IpcCommands
  import Popup

  /** A popup answered by the running UI: the server registers the converted
      request, the frontend's `send_ipc_response` with the popup's id succeeds,
      the connection writes a successful reply with that id whatever happens
      afterwards, and the popup returns exactly the frontend's text without
      starting a new process. */
  lemma AnsweredPopupRoundTrip(
    popup: PopupRequest, st: IpcServer.ServerState, response: string,
    later: seq<IpcServer.Event>, facts: Popup.ProcessFacts)
    requires IpcServer.Valid(st)
    ensures var a := IpcServer.Accept(st, IpcServer.Line(FromPopup(popup)));
            var answered := IpcCommands.SendIpcResponse(Some(a.state), popup.id, response);
            && answered.1 == Ok(())
            && answered.0.Some?
            && var written := IpcServer.Finish(IpcServer.Run(answered.0.value, later), a.conn.value);
               && written == IpcServer.Written(IpcResponse(popup.id, response, true, None))
               && Popup.CreateTauriPopup(popup, true, IpcClient.Receive(written), facts)
                  == Popup.PopupRun(Some(FromPopup(popup)), None, Ok(response))
  {
    IpcServer.AnsweredRequestReplies(st, FromPopup(popup), response, later);
  }

  /** Through the Tauri command, an answer is accepted once: repeating it fails
      with the prefixed empty-slot error and leaves the state unchanged. */
  lemma CommandAnswersOnce(popup: PopupRequest, st: IpcServer.ServerState, response: string, again: string)
    requires IpcServer.Valid(st)
    ensures var a := IpcServer.Accept(st, IpcServer.Line(FromPopup(popup)));
            var first := IpcCommands.SendIpcResponse(Some(a.state), popup.id, response);
            var second := IpcCommands.SendIpcResponse(first.0, popup.id, again);
            && first.1.Ok?
            && second == (first.0, Err(IpcCommands.SendFailedPrefix + IpcServer.NoPendingRequest))
  {
  }

  /** A popup whose request was overtaken by a newer one before the UI answered
      gets the channel-closed error from the IPC exchange, and therefore falls
      back to a new UI process instead of waiting. */
  lemma SupersededPopupFallsBack(
    first: PopupRequest, second: PopupRequest, st: IpcServer.ServerState,
    later: seq<IpcServer.Event>, facts: Popup.ProcessFacts)
    requires IpcServer.Valid(st)
    ensures var a := IpcServer.Accept(st, IpcServer.Line(FromPopup(first)));
            var b := IpcServer.Accept(a.state, IpcServer.Line(FromPopup(second)));
            var exchange := IpcClient.Receive(IpcServer.Finish(IpcServer.Run(b.state, later), a.conn.value));
            && IpcClient.Interpret(exchange) == Err(IpcServer.ChannelClosed)
            && Popup.CreateTauriPopup(first, true, exchange, facts).newProcess
               == Some(Popup.CreateNewUiProcess(first, facts))
  {
    IpcServer.SupersededRequestFails(st, FromPopup(first), FromPopup(second), later);
  }

  /** Whatever happens to the slot after a popup's request is registered, any
      reply its connection writes carries the popup's own id. */
  lemma ReplyCarriesPopupId(popup: PopupRequest, st: IpcServer.ServerState, later: seq<IpcServer.Event>)
    ensures var a := IpcServer.Accept(st, IpcServer.Line(FromPopup(popup)));
            var written := IpcServer.Finish(IpcServer.Run(a.state, later), a.conn.value);
            written.Written? ==> written.response.id == popup.id
  {
  }
}
