/** The MCP popup handler: deliver the popup through the running UI when
    possible, otherwise start a new UI process and read its answer from the
    process output. Every fact about the environment (is the UI running, how the
    IPC exchange ended, file metadata, how the process exited) is a parameter. */
module Popup {
  import opened Wrappers
  import opened IpcTypes
  import opened Text
  import IpcClient

  /** The UI command's file name. */
  const UiCommand: string := "等"
  const CancelledText: string := "用户取消了操作"
  const UiFailedPrefix: string := "UI进程失败: "
  const RequestFlag: string := "--mcp-request"
  const NotFoundMessage: string :=
    "找不到等 UI 命令。请确保：\n1. 已编译项目：cargo build --release\n2. 或已全局安装：./install.sh\n3. 或等命令在同目录下"

  /** Execute permission bits for owner, group and others: `0o111`. */
  const ExecuteBits: bv32 := 0x49

  /** `is_executable`. On Unix: the metadata could be read and some execute bit
      (owner, group or other) is set. On Windows: the file name's extension is
      `exe` in any ASCII case; the mode plays no part. */
  function IsExecutable(platform: Platform, fileName: string, mode: Option<bv32>): (r: bool)
    ensures platform.Unix? ==>
              (r <==> mode.Some? &&
                      ((mode.value >> 6) & 1 == 1 || (mode.value >> 3) & 1 == 1 || mode.value & 1 == 1))
    ensures platform.Windows? ==>
              (r <==> Extension(fileName).Some? && EqIgnoreAsciiCase(Extension(fileName).value, "exe"))
  {
    match platform
    case Unix => mode.Some? && mode.value & ExecuteBits != 0
    case Windows =>
      match Extension(fileName)
      case Some(ext) => EqIgnoreAsciiCase(ext, "exe")
      case None => false
  }

  /** Concrete readings of the executable test: any single execute bit is enough
      on Unix, a readable `0o644` file is not; on Windows only the extension counts. */
  lemma ExecutableExamples()
    ensures IsExecutable(Unix, UiCommand, Some(0x8))
    ensures !IsExecutable(Unix, UiCommand, Some(0x1A4))
    ensures !IsExecutable(Unix, UiCommand, None)
    ensures IsExecutable(Windows, "ui.EXE", None)
    ensures !IsExecutable(Windows, "ui.exe.bak", Some(0x1FF))
  {
    assert "ui.EXE"[..5] == "ui.EX";
    assert "ui.EX"[..4] == "ui.E";
    assert "ui.E"[..3] == "ui.";
    assert LastIndexOf("ui.EXE", '.') == 2;
    assert Extension("ui.EXE") == Some("EXE");
    assert "ui.exe.bak"[..9] == "ui.exe.ba";
    assert "ui.exe.ba"[..8] == "ui.exe.b";
    assert "ui.exe.b"[..7] == "ui.exe.";
    assert LastIndexOf("ui.exe.bak", '.') == 6;
    assert Extension("ui.exe.bak") == Some("bak");
  }

  /** What `find_ui_command` can learn about its surroundings. `exeDir` is the
      directory of the running executable (`None` when `current_exe` fails or has
      no parent); `localExists` and `localMode` describe the sibling `等` there
      (`localMode` is `None` when its metadata cannot be read); `versionProbe`
      is how `等 --version` ended (`None` when it could not be started). */
  datatype LookupFacts = LookupFacts(
    exeDir: Option<string>,
    localExists: bool,
    localMode: Option<bv32>,
    versionProbe: Option<bool>)

  /** The sibling test of `find_ui_command`: the executable's directory is known,
      the sibling `等` exists there, and it passes the executable test. On Unix
      that means a readable mode with an execute bit; on Windows it never holds,
      since the name `等` has no extension. */
  predicate LocalAvailable(platform: Platform, facts: LookupFacts)
    ensures LocalAvailable(platform, facts) ==> facts.exeDir.Some? && facts.localExists
    ensures platform.Unix? ==>
              (LocalAvailable(platform, facts) <==>
                 facts.exeDir.Some? && facts.localExists && facts.localMode.Some?
                 && facts.localMode.value & ExecuteBits != 0)
    ensures platform.Windows? ==> !LocalAvailable(platform, facts)
  {
    assert '.' !in UiCommand;
    facts.exeDir.Some? && facts.localExists && IsExecutable(platform, UiCommand, facts.localMode)
  }

  /** `test_command_available("等")`: true exactly when `等 --version` could be
      started and exited successfully; a failure to start counts as unavailable. */
  predicate GlobalAvailable(facts: LookupFacts)
    ensures GlobalAvailable(facts) <==> facts.versionProbe == Some(true)
    // A consequence of the line above, spelled out: a probe that could not start means unavailable.
    ensures facts.versionProbe.None? ==> !GlobalAvailable(facts)
  {
    match facts.versionProbe
    case Some(success) => success
    case None => false
  }

  /** `find_ui_command`: the sibling of the running executable first, then the
      global command, otherwise the installation hint. */
  function FindUiCommand(platform: Platform, facts: LookupFacts): (r: Result<string>)
    ensures LocalAvailable(platform, facts) ==> r == Ok(Join(platform, facts.exeDir.value, UiCommand))
    ensures !LocalAvailable(platform, facts) && GlobalAvailable(facts) ==> r == Ok(UiCommand)
    ensures r.Err? <==> !LocalAvailable(platform, facts) && !GlobalAvailable(facts)
    ensures r.Err? ==> r.error == NotFoundMessage
  {
    if LocalAvailable(platform, facts) then Ok(Join(platform, facts.exeDir.value, UiCommand))
    else if GlobalAvailable(facts) then Ok(UiCommand)
    else Err(NotFoundMessage)
  }

  /** On Windows the sibling named `等` has no extension, so it never passes the
      executable test: lookup there always ends with the global command or fails. */
  lemma WindowsNeverPicksSibling(facts: LookupFacts)
    ensures !LocalAvailable(Windows, facts)
    ensures FindUiCommand(Windows, facts).Ok? ==> FindUiCommand(Windows, facts).value == UiCommand
  {
  }

  /** How the UI process ended: it could not be started, or it exited with the
      given status and output (already decoded to text). */
  datatype SpawnResult = SpawnFailed(err: string) | Exited(success: bool, stdout: string, stderr: string)

  /** `create_new_ui_process`'s reading of the process output: a successful
      exit answers with the trimmed standard output, or with the cancellation
      text when nothing but whitespace was printed; a failed exit reports the
      standard error. */
  function InterpretOutput(success: bool, stdout: string, stderr: string): (r: Result<string>)
    ensures r.Ok? <==> success
    ensures r.Ok? ==> |r.value| > 0
    ensures success && AllWhitespace(stdout) ==> r.value == CancelledText
    ensures success && !AllWhitespace(stdout) ==>
              && |r.value| > 0
              && !IsWhitespace(r.value[0]) && !IsWhitespace(r.value[|r.value| - 1])
              && r.value == Trim(stdout)
    ensures !success ==> r.error == UiFailedPrefix + stderr && EndsWith(r.error, stderr)
  {
    TrimEmptyIffAllWhitespace(stdout);
    if success then
      var answer := Trim(stdout);
      if |answer| == 0 then Ok(CancelledText) else Ok(answer)
    else
      var e := UiFailedPrefix + stderr;
      assert e[|e| - |stderr|..] == stderr;
      Err(e)
  }

  /** Everything `create_new_ui_process` learns from outside: whether writing the
      request file failed, the command lookup facts, and how the process ended. */
  datatype ProcessFacts = ProcessFacts(
    platform: Platform,
    tempDir: string,
    writeError: Option<string>,
    lookup: LookupFacts,
    spawn: SpawnResult)

  /** A started process: the program and its arguments. */
  datatype Invocation = Invocation(program: string, args: seq<string>)

  /** What one call of `create_new_ui_process` did and returned. */
  datatype ProcessRun = ProcessRun(
    requestFile: string,
    invocation: Option<Invocation>,
    removesRequestFile: bool,
    result: Result<string>)

  const RequestFilePrefix: string := "mcp_request_"
  const RequestFileSuffix: string := ".json"

  /** Name of the request file written for the popup with this id. The id can be
      read back from it, and the name never starts at a root or a drive. */
  function RequestFileName(id: string): (name: string)
    ensures StartsWith(name, RequestFilePrefix) && EndsWith(name, RequestFileSuffix)
    ensures |name| == |RequestFilePrefix| + |id| + |RequestFileSuffix|
    ensures name[|RequestFilePrefix|..|name| - |RequestFileSuffix|] == id
    ensures forall platform: Platform :: !Replaces(platform, name)
  {
    var name := RequestFilePrefix + id + RequestFileSuffix;
    assert name[|RequestFilePrefix|..|name| - |RequestFileSuffix|] == id;
    name
  }

  /** `create_new_ui_process`: write the request file, find the command, run it
      with `--mcp-request <file>`, delete the file and read the output. An error
      in any step before the process has run returns at once, leaving the file
      in place. */
  function CreateNewUiProcess(request: PopupRequest, facts: ProcessFacts): (r: ProcessRun)
    ensures r.requestFile == Join(facts.platform, facts.tempDir, RequestFileName(request.id))
    ensures r.result.Ok? ==> |r.result.value| > 0
    ensures r.invocation.Some? <==> facts.writeError.None? && FindUiCommand(facts.platform, facts.lookup).Ok?
    ensures r.invocation.Some? ==>
              r.invocation.value == Invocation(FindUiCommand(facts.platform, facts.lookup).value, [RequestFlag, r.requestFile])
    ensures r.removesRequestFile <==> r.invocation.Some? && facts.spawn.Exited?
    ensures r.result.Ok? ==> r.removesRequestFile && facts.spawn.success
    ensures facts.writeError.Some? ==> r.result == Err(facts.writeError.value)
    ensures facts.writeError.None? && FindUiCommand(facts.platform, facts.lookup).Err? ==> r.result == Err(NotFoundMessage)
    ensures facts.writeError.None? && FindUiCommand(facts.platform, facts.lookup).Ok? && facts.spawn.SpawnFailed? ==>
              r.result == Err(facts.spawn.err)
    ensures r.removesRequestFile ==> r.result == InterpretOutput(facts.spawn.success, facts.spawn.stdout, facts.spawn.stderr)
  {
    var file := Join(facts.platform, facts.tempDir, RequestFileName(request.id));
    match facts.writeError
    case Some(e) => ProcessRun(file, None, false, Err(e))
    case None =>
      match FindUiCommand(facts.platform, facts.lookup)
      case Err(e) => ProcessRun(file, None, false, Err(e))
      case Ok(program) =>
        var invocation := Some(Invocation(program, [RequestFlag, file]));
        match facts.spawn
        case SpawnFailed(e) => ProcessRun(file, invocation, false, Err(e))
        case Exited(success, stdout, stderr) =>
          ProcessRun(file, invocation, true, InterpretOutput(success, stdout, stderr))
  }

  /** What one call of `create_tauri_popup` did and returned: the request sent over
      IPC (if any), the new process run (if any), and the answer. */
  datatype PopupRun = PopupRun(ipcSent: Option<IpcRequest>, newProcess: Option<ProcessRun>, result: Result<string>)

  /** `create_tauri_popup`: when the UI is running, send the request over IPC and
      return its answer on success; in every other case start a new UI process. */
  function CreateTauriPopup(request: PopupRequest, uiRunning: bool, exchange: IpcClient.Exchange, facts: ProcessFacts): (r: PopupRun)
    ensures r.ipcSent.Some? <==> uiRunning
    ensures r.ipcSent.Some? ==> r.ipcSent.value == FromPopup(request)
    ensures r.newProcess.None? <==> uiRunning && IpcClient.Interpret(exchange).Ok?
    ensures r.newProcess.None? ==> r.result == IpcClient.Interpret(exchange)
    ensures r.newProcess.Some? ==>
              r.newProcess.value == CreateNewUiProcess(request, facts) && r.result == r.newProcess.value.result
  {
    var sent := if uiRunning then Some(FromPopup(request)) else None;
    if uiRunning && IpcClient.Interpret(exchange).Ok? then
      PopupRun(sent, None, IpcClient.Interpret(exchange))
    else
      var run := CreateNewUiProcess(request, facts);
      PopupRun(sent, Some(run), run.result)
  }

  /** An empty answer can only come from the running UI over IPC: the process
      path turns empty output into the cancellation text, while an IPC reply
      carrying an empty string is returned as it is. */
  lemma OnlyIpcAnswersEmpty(request: PopupRequest, uiRunning: bool, exchange: IpcClient.Exchange, facts: ProcessFacts)
    ensures CreateTauriPopup(request, uiRunning, exchange, facts).result == Ok("") ==>
              uiRunning && CreateTauriPopup(request, uiRunning, exchange, facts).newProcess.None?
    ensures CreateTauriPopup(request, true, IpcClient.Reply(IpcResponse(request.id, "", true, None)), facts).result == Ok("")
  {
  }
}
