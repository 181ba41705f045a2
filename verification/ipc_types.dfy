/** The records exchanged between the MCP side and the UI process, the conversion
    from the MCP popup request, and the location of the local socket. */
module IpcTypes {
  import opened Wrappers

  /** Target family selected by `#[cfg(unix)]` / `#[cfg(windows)]`. */
  datatype Platform = Unix | Windows

  /** The popup request as the MCP handler receives it. Only the four fields the
      conversion reads are modelled. */
  datatype PopupRequest = PopupRequest(
    id: string,
    message: string,
    predefinedOptions: Option<seq<string>>,
    isMarkdown: bool)

  /** One request travelling from the MCP side to the UI process. */
  datatype IpcRequest = IpcRequest(
    id: string,
    message: string,
    predefinedOptions: Option<seq<string>>,
    isMarkdown: bool)

  /** The single answer written back on the connection that carried the request. */
  datatype IpcResponse = IpcResponse(
    id: string,
    response: string,
    success: bool,
    error: Option<string>)

  /** `IpcRequest::from(&PopupRequest)`: a field-by-field copy. */
  function FromPopup(p: PopupRequest): (r: IpcRequest)
    ensures r.id == p.id && r.message == p.message
    ensures r.predefinedOptions == p.predefinedOptions && r.isMarkdown == p.isMarkdown
  {
    IpcRequest(p.id, p.message, p.predefinedOptions, p.isMarkdown)
  }

  /** No two different popup requests become the same IPC request: nothing the
      popup carries in these four fields is lost on the way. */
  lemma FromPopupInjective(p: PopupRequest, q: PopupRequest)
    ensures FromPopup(p) == FromPopup(q) <==> p == q
  {
  }

  /** `std::path::is_separator` for the target: `/` on Unix; `/` or `\` on Windows. */
  predicate IsSeparator(platform: Platform, c: char)
  {
    c == '/' || (platform.Windows? && c == '\\')
  }

  /** `std::path::MAIN_SEPARATOR`. */
  function MainSeparator(platform: Platform): (c: char)
    ensures IsSeparator(platform, c)
  {
    match platform
    case Unix => '/'
    case Windows => '\\'
  }

  /** A Windows drive prefix such as `C:` at the start of a path. */
  predicate HasDrivePrefix(path: string)
  {
    |path| >= 2 && ('A' <= path[0] <= 'Z' || 'a' <= path[0] <= 'z') && path[1] == ':'
  }

  /** Pushing `name` replaces the whole directory: `name` starts at a root, or on
      Windows carries a drive prefix. */
  predicate Replaces(platform: Platform, name: string)
  {
    (|name| > 0 && IsSeparator(platform, name[0])) || (platform.Windows? && HasDrivePrefix(name))
  }

  /** `PathBuf::push` puts a separator between `dir` and a relative name when
      `dir` is non-empty, does not already end in a separator, and is not a bare
      Windows drive such as `C:`. */
  predicate NeedsSeparator(platform: Platform, dir: string)
  {
    && |dir| > 0
    && !IsSeparator(platform, dir[|dir| - 1])
    && !(platform.Windows? && |dir| == 2 && HasDrivePrefix(dir))
  }

  /** `Path::join`: a rooted `name` replaces `dir`; otherwise `name` is appended,
      after the platform's main separator when one is needed. */
  function Join(platform: Platform, dir: string, name: string): (r: string)
    ensures Replaces(platform, name) ==> r == name
    ensures !Replaces(platform, name) && NeedsSeparator(platform, dir) ==>
              r == dir + [MainSeparator(platform)] + name
    ensures !Replaces(platform, name) && !NeedsSeparator(platform, dir) ==> r == dir + name
  {
    if Replaces(platform, name) then name
    else if NeedsSeparator(platform, dir) then dir + [MainSeparator(platform)] + name
    else dir + name
  }

  /** Index of the last separator in `path`, or -1 when it has none. */
  function LastSeparator(platform: Platform, path: string): (i: int)
    ensures -1 <= i < |path|
    ensures i >= 0 ==> IsSeparator(platform, path[i])
    ensures forall j :: i < j < |path| ==> !IsSeparator(platform, path[j])
    decreases |path|
  {
    if |path| == 0 then -1
    else if IsSeparator(platform, path[|path| - 1]) then |path| - 1
    else LastSeparator(platform, path[..|path| - 1])
  }

  /** The last component of a path: the text after its last separator. */
  function FileName(platform: Platform, path: string): string
  {
    path[LastSeparator(platform, path) + 1..]
  }

  /** Text without separators does not move the last separator. */
  lemma {:induction false} LastSeparatorOfAppend(platform: Platform, a: string, t: string)
    requires forall j :: 0 <= j < |t| ==> !IsSeparator(platform, t[j])
    ensures LastSeparator(platform, a + t) == LastSeparator(platform, a)
    decreases |t|
  {
    if |t| > 0 {
      var t' := t[..|t| - 1];
      assert (a + t)[..|a + t| - 1] == a + t';
      LastSeparatorOfAppend(platform, a, t');
    } else {
      assert a + t == a;
    }
  }

  /** Joining a plain file name to a directory gives a path that starts with the
      directory and whose last component is exactly that file name. */
  lemma JoinFileName(platform: Platform, dir: string, name: string)
    requires forall j :: 0 <= j < |name| ==> !IsSeparator(platform, name[j])
    requires !(platform.Windows? && HasDrivePrefix(name))
    requires !(platform.Windows? && |dir| == 2 && HasDrivePrefix(dir))
    ensures StartsWith(Join(platform, dir, name), dir)
    ensures FileName(platform, Join(platform, dir, name)) == name
  {
    var r := Join(platform, dir, name);
    var head := r[..|r| - |name|];
    assert r == head + name;
    LastSeparatorOfAppend(platform, head, name);
    if |head| > 0 {
      assert IsSeparator(platform, head[|head| - 1]);
      assert LastSeparator(platform, head) == |head| - 1;
    }
  }

  const SocketName: string := "hengjing-ui.sock"

  /** `get_socket_path`: the file `hengjing-ui.sock` directly inside the
      temporary directory. The `cfg(unix)` and `cfg(windows)` variants have the
      same body; they differ only through the platform's `Path::join`. */
  function SocketPath(platform: Platform, tempDir: string): (r: string)
    ensures NeedsSeparator(platform, tempDir) ==> r == tempDir + [MainSeparator(platform)] + SocketName
    ensures !NeedsSeparator(platform, tempDir) ==> r == tempDir + SocketName
  {
    Join(platform, tempDir, SocketName)
  }

  /** The socket path lies in the temporary directory and its last component is
      the socket's name. */
  lemma SocketPathInTempDir(platform: Platform, tempDir: string)
    requires !(platform.Windows? && |tempDir| == 2 && HasDrivePrefix(tempDir))
    ensures StartsWith(SocketPath(platform, tempDir), tempDir)
    ensures FileName(platform, SocketPath(platform, tempDir)) == SocketName
  {
    JoinFileName(platform, tempDir, SocketName);
  }
}
