# Popup request hand-off between the MCP server and the UI process

This project models how the hengjing MCP server hands a popup request to the
desktop UI (the `等` program) and gets exactly one answer back. When the UI is
already running, the MCP side connects to a local Unix socket and sends one
`IpcRequest`. The UI's server parks that request in a single-slot
"pending request" cell and forwards it to the frontend as a Tauri event. The
frontend answers with the `send_ipc_response` command. The connection then
writes one `IpcResponse`, and the client turns it back into text or an error.
When the UI is not running, or the exchange fails, the handler starts a new UI
process and reads the answer from that process's output instead.

Modules, one per source file:

- `Wrappers` (`wrappers.dfy`): `Option` and `Result`, where the error is the displayed error text.
- `IpcTypes` (`ipc_types.dfy`): the request and response records, the conversion from the popup request, and the socket path (`ipc/mod.rs`).
- `IpcServer` (`ipc_server.dfy`): the pending-request slot, the connection handler, and traces of connections and answers (`ipc/server.rs`).
- `IpcClient` (`ipc_client.dfy`): how the client reads the reply (`ipc/client.rs`).
- `IpcCommands` (`ipc_commands.dfy`): the Tauri command, server start-up, and the forwarding loop with its two event names (`ipc/commands.rs`).
- `Text` (`text.dfy`): the Rust standard-library operations the handler uses: `str::trim` over Unicode White_Space, `Path::extension`, and ASCII case-insensitive comparison.
- `Popup` (`popup.dfy`): the dispatch policy, command lookup, the executable test, and how process output is read (`mcp/handlers/popup.rs`).
- `EndToEnd` (`end_to_end.dfy`): the whole path, from the popup request to the popup's result.

The `oneshot` channel a connection waits on is modelled as a waiter number.
The server state records in `outcomes` what each finished waiter observed:
`Delivered(text)` when the sender was used, or `Closed` when the sender was
dropped because a newer request replaced it. "Exactly once" is therefore
stated per waiter, not per request id. Ids are not unique, so two
connections may carry the same id. `IpcServer.Valid` states that every waiter
created so far is either in the slot or has exactly one recorded outcome.
The lemmas show that no later event ever rewrites a recorded outcome.

Mutex-guarded operations are modelled as atomic steps. All environment facts
are parameters:

- whether the UI is running;
- how the IPC exchange ended;
- whether writing the request file failed;
- the executable's directory, and the existence and mode of the sibling file;
- the result of the `--version` probe;
- how the process exited and what it printed.

JSON encoding is assumed to round-trip. A line that does not parse is its own
case (`Malformed` on the server side, `Unparsable` on the client side).

`set_pending` does not refuse a second request. It replaces the pending one,
and the earlier connection fails with 响应通道已关闭 (server.rs:36-39, 174-180).

A connection's outgoing side is `Awaiting` until its waiter has an outcome,
then `Written`. A connection that read end of stream or an unparsable line
returns before `set_pending` and is `Dropped` (`IpcServer.Outgoing`). The client reads `Dropped` as a zero-byte read. While the server is
still `Awaiting`, the client gets nothing until its 600-second timeout.

Paths are joined with the target's `Path::join` rules. On Unix the separator is
`/`. On Windows both `/` and `\` are separators, `\` is inserted, and a bare
drive such as `C:` gets no separator. This applies to the socket path, the
request file and the sibling command. On Windows, `is_executable` looks only at
the extension. The sibling `等` has no extension, so it is never chosen on
Windows (`Popup.WindowsNeverPicksSibling`).

## Model

| member | source | states |
|---|---|---|
| IpcTypes.FromPopup | src/rust/ipc/mod.rs:34-42 | the IPC request carries the popup's id, message, predefined options and markdown flag unchanged |
| IpcTypes.FromPopupInjective | src/rust/ipc/mod.rs:17-42 | the conversion loses nothing: two popup requests give the same IPC request only if they are equal |
| IpcTypes.SocketPath | src/rust/ipc/mod.rs:45-55 | the socket is `hengjing-ui.sock` directly inside the temporary directory, after the platform's separator when the directory does not already end in one |
| IpcTypes.SocketPathInTempDir | src/rust/ipc/mod.rs:47-55 | on both platforms the socket path starts with the temporary directory and its last component is exactly `hengjing-ui.sock` |
| IpcTypes.Join | src/rust/mcp/handlers/popup.rs:44 | `Path::join`: a rooted name replaces the directory; otherwise the name is appended, after the platform's main separator when the directory is non-empty, does not end in a separator and is not a bare drive |
| IpcTypes.JoinFileName | src/rust/mcp/handlers/popup.rs:79 | joining a separator-free name gives a path that starts with the directory and whose last component is exactly that name |
| IpcServer.Init | src/rust/ipc/server.rs:28-33 | a new server state has an empty slot, has answered nobody, and satisfies the slot invariant |
| IpcServer.SetPending | src/rust/ipc/server.rs:35-39 | the slot then holds exactly the new request with a waiter never seen before; a request it replaces has its sender dropped, so its waiter observes `Closed`; the invariant is kept |
| IpcServer.SendResponse | src/rust/ipc/server.rs:41-56 | succeeds iff a request is pending with the given id; the text is then delivered to that waiter and the slot is emptied; an empty slot fails with 没有等待中的请求; a different id fails with 请求 ID 不匹配; each failure leaves the whole state, including the pending request, as it was |
| IpcServer.Accept | src/rust/ipc/server.rs:139-158 | a zero-byte read or an unparsable line ends the connection and leaves the slot untouched; a request is parked in the slot exactly as `set_pending` parks it, under the waiter `set_pending` allocates, and forwarded to the frontend |
| IpcServer.Reply | src/rust/ipc/server.rs:161-185 | the written response always carries the connection's request id; it is successful with the delivered text and no error iff the waiter got a text; otherwise the text is empty and the error is 响应通道已关闭 |
| IpcServer.Finish | src/rust/ipc/server.rs:160-186 | a connection has written a reply iff its waiter has an outcome, and the reply carries the id the connection read; until then it is still waiting, never closed |
| IpcServer.Outgoing | src/rust/ipc/server.rs:140-186 | a connection writes nothing and closes exactly when its first line was end of stream or not a request; a parked connection has written its reply iff its waiter has an outcome, with the id it read |
| IpcServer.StepKeepsOutcomes | src/rust/ipc/server.rs:36-56 | a single set-pending or send-response keeps the invariant and never changes an outcome already observed |
| IpcServer.RunPreservesValid | src/rust/ipc/server.rs:20-56 | over any sequence of connections and answers, the slot holds at most one waiter, and every other waiter has an outcome |
| IpcServer.RunKeepsOutcomes | src/rust/ipc/server.rs:42-55 | over any sequence of events, an observed outcome is never replaced, so no waiter receives a second answer |
| IpcServer.ExactlyOnce | src/rust/ipc/server.rs:44-54 | after a successful answer, repeating it with the same id fails with 没有等待中的请求, and the answered waiter keeps that text whatever happens later |
| IpcServer.SupersededRequestFails | src/rust/ipc/server.rs:152-180 | a request replaced by a newer one does not hang: its connection writes `{id, "", false, 响应通道已关闭}` with its own id |
| IpcServer.AnsweredRequestReplies | src/rust/ipc/server.rs:155-168 | answering a parked request with its id succeeds, and its connection writes `{id, text, true, None}` |
| IpcClient.Interpret | src/rust/ipc/client.rs:55-94 | text is returned only for a reply marked successful, and exactly as the reply carries it; an unsuccessful reply gives its error, or 未知错误 when it has none; a zero-byte read gives 连接已关闭; a failed connect, a timeout, a failed read and an unparsable reply give 无法连接到 UI 进程, 等待响应超时, 读取响应失败 and 解析响应失败; a failed write gives its own I/O error |
| IpcClient.Receive | src/rust/ipc/client.rs:75-88 | the client reads the line the server wrote; a connection closed without a line reads as zero bytes; a server still waiting leads to the timeout |
| IpcClient.ReplyRoundTrip | src/rust/ipc/client.rs:86-94 | the client reads back a written reply as the waiter's outcome: a delivered text as `Ok` of that text, a closed channel as the error 响应通道已关闭 |
| IpcClient.EofIsNeverAnAnswer | src/rust/ipc/client.rs:75-83 | a connection closed without a reply is the error 连接已关闭 and a server still waiting is 等待响应超时, never an empty answer; any success comes from a successful reply |
| IpcClient.UnreadRequestIsClosed | src/rust/ipc/server.rs:140-146 | a connection is dropped exactly when its first line was end of stream or not a request, and its client then gets 连接已关闭 whatever the server does afterwards |
| IpcCommands.SendIpcResponse | src/rust/ipc/commands.rs:20-34 | without an installed server state it fails with IPC 服务器未初始化 and changes nothing; otherwise it succeeds exactly when the server's send-response does, and any failure is prefixed with 发送 IPC 响应失败: |
| IpcCommands.StartIpcServer | src/rust/ipc/commands.rs:37-57 | a fresh server state is installed before listening starts, so it stays installed even when start-up fails; that failure is prefixed with 启动 IPC 服务器失败: |
| IpcCommands.StartedServerAnswersFromState | src/rust/ipc/commands.rs:52-57 | because the state is stored before listening, after any start-up, failed or not, an answer with no request parked fails with 发送 IPC 响应失败: 没有等待中的请求, never with IPC 服务器未初始化, and the fresh state stays installed |
| IpcCommands.Payload | src/rust/ipc/commands.rs:65-71 | the forwarded object has exactly the keys id, message, predefined_options and is_markdown, each holding the request's value |
| IpcCommands.PayloadRoundTrip | src/rust/ipc/commands.rs:65-71 | the frontend recovers the original request from the forwarded object |
| IpcCommands.EmitBoth | src/rust/ipc/commands.rs:73-80 | each request is emitted as mcp-request and then as ipc-mcp-request, with the same payload, from which the frontend decodes the request; the second emit happens even when the first fails |
| IpcCommands.ForwardRequests | src/rust/ipc/commands.rs:59-82 | for requests received in order, the emits are exactly two per request, in request order, whatever each emit returned, and each decodes back to its request |
| Text.IsWhitespace | src/rust/mcp/handlers/popup.rs:62 | a character is whitespace for `trim` exactly when it is one of the 25 code points Unicode lists with the White_Space property |
| Text.Trim | src/rust/mcp/handlers/popup.rs:62 | the trimmed text is the contiguous part of the input between leading and trailing whitespace; it neither starts nor ends with whitespace |
| Text.TrimEmptyIffAllWhitespace | src/rust/mcp/handlers/popup.rs:62-63 | the trimmed output is empty exactly when the process printed only whitespace |
| Text.TrimIdempotent | src/rust/mcp/handlers/popup.rs:62 | trimming an already trimmed answer changes nothing |
| Text.Extension | src/rust/mcp/handlers/popup.rs:118-119 | a file name has an extension iff it is not `..` and has a dot after its first character; the extension is the dot-free text after the last dot, after a non-empty stem |
| Text.ExtensionExamples | src/rust/mcp/handlers/popup.rs:118-119 | `..` and `.bashrc` have no extension; `ui.exe` has `exe`; `a.tar.gz` has `gz` |
| Text.AsciiLower | src/rust/mcp/handlers/popup.rs:120 | an ASCII upper-case letter becomes its lower-case letter, every other character is unchanged, and the result is never upper-case ASCII |
| Text.EqIgnoreAsciiCase | src/rust/mcp/handlers/popup.rs:120 | two strings match exactly when their ASCII-lower-cased forms are equal, that is, when they have the same length and each pair of characters is equal or is one ASCII letter in its two cases; equal strings always match |
| Popup.IsExecutable | src/rust/mcp/handlers/popup.rs:107-123 | on Unix: the metadata was readable and some execute bit (owner, group or other) of the mode is set; on Windows: the extension is `exe` in any ASCII case |
| Popup.ExecutableExamples | src/rust/mcp/handlers/popup.rs:107-123 | a group execute bit alone is enough; mode 0o644 and unreadable metadata are not; on Windows `ui.EXE` is executable and `ui.exe.bak` is not, whatever its mode |
| Popup.FindUiCommand | src/rust/mcp/handlers/popup.rs:75-97 | an existing, executable sibling 等 wins over the global 等; the global 等 is used only when its `--version` probe succeeded; with neither it fails with the installation hint |
| Popup.LocalAvailable | src/rust/mcp/handlers/popup.rs:77-80 | the sibling is used only when the executable's directory is known and the sibling exists; on Unix it also needs a readable mode with an execute bit; on Windows it never qualifies |
| Popup.GlobalAvailable | src/rust/mcp/handlers/popup.rs:99-105 | the global command counts as available exactly when `等 --version` started and exited successfully; a failure to start counts as unavailable |
| Popup.WindowsNeverPicksSibling | src/rust/mcp/handlers/popup.rs:77-83 | on Windows the sibling is never used, so lookup there yields the global command or the error |
| Popup.InterpretOutput | src/rust/mcp/handlers/popup.rs:60-71 | a successful exit yields 用户取消了操作 when stdout is only whitespace, and otherwise the trimmed stdout, which is non-empty and has no surrounding whitespace; a failed exit is an error that ends with the stderr text |
| Popup.CreateNewUiProcess | src/rust/mcp/handlers/popup.rs:40-72 | the request file is `mcp_request_<id>.json` joined to the temporary directory; the process starts only when that file was written and a command was found, and it gets the arguments `--mcp-request <file>`; a process that could not be started returns its spawn error; the file is removed only when the process ran; an answer exists only after a successful exit, and it is never empty |
| Popup.RequestFileName | src/rust/mcp/handlers/popup.rs:44 | the file name is `mcp_request_`, the id, then `.json`, so the id can be read back from it; it never starts at a root or a drive |
| Popup.CreateTauriPopup | src/rust/mcp/handlers/popup.rs:13-38 | IPC is tried exactly when the UI is running, and then with the converted request; a successful IPC answer is returned without starting a process; in every other case the new-process path runs and its result is returned |
| Popup.OnlyIpcAnswersEmpty | src/rust/mcp/handlers/popup.rs:20-66 | an empty answer can come only from a running UI over IPC, with no process started; an IPC reply with an empty text is returned as it is |
| EndToEnd.AnsweredPopupRoundTrip | src/rust/ipc/server.rs:161-168 | when the frontend answers a popup's request, the connection writes `{popup id, text, true, None}`, and the popup returns exactly that text without starting a process |
| EndToEnd.CommandAnswersOnce | src/rust/ipc/commands.rs:28-30 | through the Tauri command, a second answer to the same request fails with the prefixed 没有等待中的请求 and changes nothing |
| EndToEnd.SupersededPopupFallsBack | src/rust/mcp/handlers/popup.rs:20-37 | a popup whose request was replaced gets 响应通道已关闭 over IPC and falls back to a new UI process |
| EndToEnd.ReplyCarriesPopupId | src/rust/ipc/server.rs:146-176 | whatever happens after the request is parked, any reply on its connection carries the original popup id |

## Left out

- Socket I/O is left out: binding, accepting, connecting, reading, writing, and removing the socket file in `start`, `cleanup_socket` and `is_ui_running`. Only their results enter the model, as the `uiRunning` flag and the `Exchange` cases.
- tokio scheduling is left out: `spawn`, the `mpsc` channel, `Mutex` and `spawn_blocking`. Slot operations are atomic steps, and the forwarding loop is a sequence of received requests. A panicked blocking task (the `JoinError` at popup.rs:37) is not modelled.
- The 600-second client timeout is one error case (`TimedOut`), with no clock.
- `serde_json` encoding and parsing are assumed to round-trip. A line that does not parse is its own case. Serialising the popup into the request file is assumed to succeed.
- IpcServer.SendResponse: a `send` that fails because the receiving connection already went away is still recorded as delivered. The source ignores that result and returns `Ok` either way.
- Write errors after a reply is produced are not modelled. These are the `?` on `write_all` and `flush` in `handle_connection`.
- `from_utf8_lossy` is not modelled: process output enters the model already decoded as text.
- `current_exe`, `metadata`, `exists`, `fs::write`, `fs::remove_file` and process spawning are not modelled. Their results are parameters (`LookupFacts`, `ProcessFacts`).
- IpcTypes.Join: Windows prefixes other than a plain drive are not modelled, such as UNC and verbatim `\\?\` paths. A rooted name without a drive replaces the whole directory, whereas Rust keeps the directory's drive. None of the names the program joins starts at a root or a drive.
- The Windows stubs of `start`, `is_ui_running` and `send_request` have no behaviour and are not modelled.
- `PopupRequest` is defined in `mcp/types.rs`, which is not part of this model. It is modelled with the four fields the conversion reads.
- `app/setup.rs` is start-up wiring over configuration loading and is not part of this model.
- The frontend is not part of this model: the timeout auto-submit engine, debounced configuration persistence, window presentation mode, and drag gating. Its source is not among the modelled files.
