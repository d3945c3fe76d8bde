/** send.ts: serving a file from under a root directory. The path is normalised and refused if it
    travels up; a hidden path is skipped unless allowed; a missing file (or a directory without an
    index file) is status 51; otherwise the response becomes status 20 with the file's media type as
    meta and its bytes as body. */
module Send {
  import opened Basics
  import opened Text
  import opened Encoding
  import opened Errors
  import opened Response
  import opened Request
  import opened Context
  import opened Middleware

  /** `SendOptions`; `None` stands for a missing (undefined) property. */
  datatype SendOptions = SendOptions(root: string, index: Option<string>, contentTypes: Option<map<string, string>>, hidden: Option<bool>)

  /** The path functions of the standard library and the media-type lookup, as collaborators. */
  datatype PathLib = PathLib(
    normalize: string -> string,
    join: (string, string) -> string,
    extname: string -> string,
    contentType: string -> Option<string>)

  /** What `Deno.stat` reports about a path that exists. */
  datatype FileInfo = FileInfo(isFile: bool, isDirectory: bool)

  /** The file system, as seen through `Deno.stat` and `Deno.readFile`: each succeeds or throws. */
  datatype FileSystem = FileSystem(stat: string -> Result<FileInfo, Thrown>, readFile: string -> Result<seq<byte>, Thrown>)

  const TravelsUp: Thrown := GemErr(NewGemError(59, Some("Path must not travel up from the root directory")))
  const NotFound: Thrown := GemErr(NewGemError(51))

  const GeminiType: string := "text/gemini; lang=en"

  // ---------------------------------------------------------------- hidden paths

  /** A segment is hidden when it starts with '.' and is neither "." nor "..". */
  predicate HiddenSegment(segment: string) {
    |segment| > 0 && segment[0] == '.' && segment != "." && segment != ".."
  }

  /** `isHidden(path)`: the loop over the '/'-separated segments returns on its first iteration, so
      only the first segment is ever inspected. */
  method IsHidden(path: string) returns (h: bool)
    ensures h == HiddenSegment(FirstSegment(path, '/'))
  {
    var pathArr := Split(path, '/');
    for k := 0 to |pathArr|
      invariant k == 0
    {
      var segment := pathArr[k];
      if |segment| > 0 && segment[0] == '.' && segment != "." && segment != ".." {
        return true;
      }
      return false;
    }
    assert false;
  }

  /** Only the first segment counts: whatever follows the first '/' does not change the answer. */
  lemma {:induction false} FirstSegmentOnly(first: string, rest: string)
    requires '/' !in first
    ensures FirstSegment(first + "/" + rest, '/') == first
    decreases |first|
  {
    if first != [] {
      assert (first + "/" + rest)[1..] == first[1..] + "/" + rest;
      FirstSegmentOnly(first[1..], rest);
    }
  }

  /** A dot-file at the top is hidden; one below the first segment is not, and neither are "." and
      ".." segments. */
  lemma HiddenExamples()
    ensures HiddenSegment(FirstSegment(".git/config", '/'))
    ensures !HiddenSegment(FirstSegment("public/.env", '/'))
    ensures !HiddenSegment(FirstSegment("./index.gmi", '/'))
    ensures !HiddenSegment(FirstSegment("", '/'))
  {
    HiddenAtTop();
    ShownBelowTop();
    ShownDot();
    assert FirstSegment("", '/') == "";
  }

  lemma HiddenAtTop()
    ensures FirstSegment(".git/config", '/') == ".git"
  {
    assert ".git/config" == ".git" + "/" + "config";
    FirstSegmentOnly(".git", "config");
  }

  lemma ShownBelowTop()
    ensures FirstSegment("public/.env", '/') == "public"
  {
    assert "public/.env" == "public" + "/" + ".env";
    FirstSegmentOnly("public", ".env");
  }

  lemma ShownDot()
    ensures FirstSegment("./index.gmi", '/') == "."
  {
    assert "./index.gmi" == "." + "/" + "index.gmi";
    FirstSegmentOnly(".", "index.gmi");
  }

  // ---------------------------------------------------------------- what send does

  /** How `send` ends: without touching the response, by throwing, or by serving a file. */
  datatype Plan = Skip | Fail(err: Thrown) | Serve(meta: string, contents: seq<byte>)

  /** The `hidden` option, defaulting to false. */
  predicate HiddenAllowed(opts: SendOptions) {
    opts.hidden == Some(true)
  }

  /** `index` is used only when it is truthy: given and not the empty string. */
  predicate HasIndex(opts: SendOptions) {
    opts.index.Some? && opts.index.value != ""
  }

  /** The `try` around the `stat` calls: the path to read, or GemError(51) for any failure there. */
  function Located(p: string, opts: SendOptions, lib: PathLib, fs: FileSystem): (r: Result<string, Thrown>)
    ensures r.Err? ==> r.error == NotFound
    ensures fs.stat(p).Err? ==> r == Err(NotFound)
    ensures fs.stat(p).Ok? && !(fs.stat(p).value.isDirectory && HasIndex(opts)) ==> r == Ok(p)
    ensures fs.stat(p).Ok? && fs.stat(p).value.isDirectory && HasIndex(opts)
         ==> r == (var q := lib.join(p, opts.index.value);
                   if fs.stat(q).Ok? && fs.stat(q).value.isFile then Ok(q) else Err(NotFound))
  {
    match fs.stat(p)
    case Err(_) => Err(NotFound)
    case Ok(info) =>
      if info.isDirectory && HasIndex(opts) then
        var q := lib.join(p, opts.index.value);
        match fs.stat(q)
        case Err(_) => Err(NotFound)
        case Ok(info2) => if info2.isFile then Ok(q) else Err(NotFound)
      else Ok(p)
  }

  /** The meta of a served file: the caller's table for the extension, then the Gemini extensions,
      then the media-type lookup, then 'text/plain'. */
  function Meta(p: string, contentTypes: Option<map<string, string>>, lib: PathLib): string {
    var ext := lib.extname(p);
    if contentTypes.Some? && ext in contentTypes.value then contentTypes.value[ext]
    else if ext == ".gmi" || ext == ".gemini" then GeminiType
    else if lib.contentType(p).Some? then lib.contentType(p).value
    else "text/plain"
  }

  /** The `catch` around `readFile`: a NotFound error, or an Error whose message mentions
      'os error 21' (reading a directory), becomes GemError(51); anything else is rethrown as is. */
  function ReadFailure(e: Thrown): (r: Thrown)
    ensures r == NotFound || r == e
  {
    var notFound := e.JsError? && e.name == "NotFound";
    var isDirectory := !e.NonError? && Contains(LoggedMessage(e), "os error 21");
    if notFound || isDirectory then NotFound else e
  }

  function SendPlan(path: string, opts: SendOptions, lib: PathLib, fs: FileSystem): Plan {
    var normalPath := lib.normalize(path);
    if StartsWith(normalPath, "..") then Fail(TravelsUp)
    else
      var p := lib.join(opts.root, normalPath);
      if HiddenSegment(FirstSegment(p, '/')) && !HiddenAllowed(opts) then Skip
      else match Located(p, opts, lib, fs)
        case Err(e) => Fail(e)
        case Ok(q) =>
          match fs.readFile(q)
          case Err(e) => Fail(ReadFailure(e))
          case Ok(contents) => Serve(Meta(q, opts.contentTypes, lib), contents)
  }

  /** `send(ctx, path, opts)`: fails, skips, or sets exactly status 20, the meta and the file bytes. */
  method Send(response: GemResponse, path: string, opts: SendOptions, lib: PathLib, fs: FileSystem) returns (r: Result<(), Thrown>)
    modifies response
    ensures match SendPlan(path, opts, lib, fs)
      case Skip => r == Ok(()) && response.Snapshot() == old(response.Snapshot())
      case Fail(e) => r == Err(e) && response.Snapshot() == old(response.Snapshot())
      case Serve(meta, contents) => r == Ok(()) && response.Snapshot() == Fields(20, meta, Bytes(contents))
  {
    var normalPath := lib.normalize(path);
    if StartsWith(normalPath, "..") {
      return Err(TravelsUp);
    }
    var pathToRequest := lib.join(opts.root, normalPath);
    var hiddenPath := IsHidden(pathToRequest);
    if hiddenPath && !HiddenAllowed(opts) {
      return Ok(());
    }
    var info := fs.stat(pathToRequest);
    if info.Err? {
      return Err(NotFound);
    }
    if info.value.isDirectory && HasIndex(opts) {
      pathToRequest := lib.join(pathToRequest, opts.index.value);
      var info2 := fs.stat(pathToRequest);
      if info2.Err? || !info2.value.isFile {
        return Err(NotFound);
      }
    }
    var meta := Meta(pathToRequest, opts.contentTypes, lib);
    var contents := fs.readFile(pathToRequest);
    if contents.Err? {
      return Err(ReadFailure(contents.error));
    }
    response.status := 20;
    response.meta := meta;
    response.body := Bytes(contents.value);
    r := Ok(());
  }

  /** `GemContextSendOptions`: the send options plus an optional path. */
  datatype ContextSendOptions = ContextSendOptions(path: Option<string>, send: SendOptions)

  /** The path `ctx.send(opts)` sends: `opts.path`, or the request's pathname when no path is given
      (an empty path is kept, since `??` replaces only null and undefined). */
  function SendPath(opts: ContextSendOptions, request: GemRequest): string {
    if opts.path.Some? then opts.path.value else request.url.pathname
  }

  /** `ctx.send(opts)` */
  method ContextSend(ctx: GemContext, opts: ContextSendOptions, lib: PathLib, fs: FileSystem) returns (r: Result<(), Thrown>)
    modifies ctx.response
    ensures match SendPlan(SendPath(opts, ctx.request), opts.send, lib, fs)
      case Skip => r == Ok(()) && ctx.response.Snapshot() == old(ctx.response.Snapshot())
      case Fail(e) => r == Err(e) && ctx.response.Snapshot() == old(ctx.response.Snapshot())
      case Serve(meta, contents) => r == Ok(()) && ctx.response.Snapshot() == Fields(20, meta, Bytes(contents))
  {
    var path := if opts.path.Some? then opts.path.value else ctx.request.url.pathname;
    r := Send(ctx.response, path, opts.send, lib, fs);
  }

  /** The statements of a handler `ctx => ctx.send(opts)` once `send` has settled on `plan`: the
      three assignments of a served file, the throw of a failure, or nothing. It never calls `next`. */
  function PlanSteps(plan: Plan): (s: Script)
    ensures Next !in s
    ensures plan.Fail? <==> |s| > 0 && s[0].Throw?
    ensures plan.Fail? ==> s[0] == Throw(plan.err)
  {
    match plan
    case Skip => []
    case Fail(e) => [Throw(e)]
    case Serve(meta, contents) => [Step.Assign(SetStatus(20)), Step.Assign(SetMeta(meta)), Step.Assign(SetBody(Bytes(contents)))]
  }

  /** `ctx => ctx.send(opts)` as `use` receives it. */
  function SendHandler(opts: ContextSendOptions, lib: PathLib, fs: FileSystem): (h: Handler)
    ensures forall request :: Next !in h(request)
    ensures forall request ::
              SendPlan(SendPath(opts, request), opts.send, lib, fs).Fail? <==> |h(request)| > 0 && h(request)[0].Throw?
  {
    request => PlanSteps(SendPlan(SendPath(opts, request), opts.send, lib, fs))
  }

  /** Registered as handler `i` of a chain, sending has the effect `ContextSend` promises: the
      response untouched on a skip, the failure thrown, or exactly status 20, the meta and the bytes. */
  lemma SendAsHandler(mw: seq<Script>, tail: Option<Script>, i: nat, plan: Plan, st: State)
    requires i <= |mw|
    ensures HandlerResult(mw, tail, i, PlanSteps(plan), 0, st)
         == match plan
            case Skip => (Done, st)
            case Fail(e) => (Failed(e), st)
            case Serve(meta, contents) => (Done, st.(response := Fields(20, meta, Bytes(contents))))
  {
    match plan
    case Skip =>
    case Fail(e) =>
    case Serve(meta, contents) =>
      var s := PlanSteps(plan);
      var f1 := Assigned(st.response, SetStatus(20));
      var f2 := Assigned(f1, SetMeta(meta));
      var f3 := Assigned(f2, SetBody(Bytes(contents)));
      assert HandlerResult(mw, tail, i, s, 0, st) == HandlerResult(mw, tail, i, s, 1, st.(response := f1));
      assert HandlerResult(mw, tail, i, s, 1, st.(response := f1)) == HandlerResult(mw, tail, i, s, 2, st.(response := f2));
      assert HandlerResult(mw, tail, i, s, 2, st.(response := f2)) == HandlerResult(mw, tail, i, s, 3, st.(response := f3));
      assert f3 == Fields(20, meta, Bytes(contents));
  }

  // ---------------------------------------------------------------- properties

  /** A path that normalises to one starting with ".." is refused with status 59, whatever the
      file system holds: no file is looked at. */
  lemma TraversalRefused(path: string, opts: SendOptions, lib: PathLib, fs: FileSystem)
    requires StartsWith(lib.normalize(path), "..")
    ensures SendPlan(path, opts, lib, fs) == Fail(TravelsUp)
    ensures TravelsUp.gem.status == 59
  {
  }

  /** A hidden path, when hidden files are not allowed, is skipped whatever the file system holds:
      the response is left untouched. */
  lemma HiddenSkipped(path: string, opts: SendOptions, lib: PathLib, fs: FileSystem)
    requires !StartsWith(lib.normalize(path), "..")
    requires HiddenSegment(FirstSegment(lib.join(opts.root, lib.normalize(path)), '/'))
    requires opts.hidden != Some(true)
    ensures SendPlan(path, opts, lib, fs) == Skip
  {
  }

  /** Every failure `send` reports is status 59 (travelling up), status 51 (missing), or an error the
      file system threw, passed on unchanged. */
  lemma SendFailures(path: string, opts: SendOptions, lib: PathLib, fs: FileSystem)
    ensures var plan := SendPlan(path, opts, lib, fs);
      plan.Fail? ==>
        || plan.err == TravelsUp
        || plan.err == NotFound
        || exists q :: fs.readFile(q).Err? && plan.err == fs.readFile(q).error
  {
    var plan := SendPlan(path, opts, lib, fs);
    var normalPath := lib.normalize(path);
    if plan.Fail? && !StartsWith(normalPath, "..") {
      var p := lib.join(opts.root, normalPath);
      match Located(p, opts, lib, fs)
      case Err(e) =>
      case Ok(q) =>
        assert fs.readFile(q).Err?;
    }
  }

  /** A directory is served through its index file only; when that is not a file, the answer is 51. */
  lemma DirectoryWithoutIndexFile(p: string, opts: SendOptions, lib: PathLib, fs: FileSystem)
    requires fs.stat(p).Ok? && fs.stat(p).value.isDirectory && HasIndex(opts)
    requires var q := lib.join(p, opts.index.value); fs.stat(q).Ok? ==> !fs.stat(q).value.isFile
    ensures Located(p, opts, lib, fs) == Err(NotFound)
  {
  }

  /** The precedence of the meta: a caller's entry wins over everything; without one, Gemini files
      are text/gemini whatever the media-type lookup says; the lookup comes next; 'text/plain' last. */
  lemma MetaPrecedence(p: string, table: map<string, string>, lib: PathLib)
    ensures lib.extname(p) in table ==> Meta(p, Some(table), lib) == table[lib.extname(p)]
    ensures lib.extname(p) !in table && lib.extname(p) in {".gmi", ".gemini"} ==> Meta(p, Some(table), lib) == GeminiType
    ensures lib.extname(p) !in table && lib.extname(p) !in {".gmi", ".gemini"} && lib.contentType(p).Some?
         ==> Meta(p, Some(table), lib) == lib.contentType(p).value
    ensures lib.extname(p) !in table && lib.extname(p) !in {".gmi", ".gemini"} && lib.contentType(p) == None
         ==> Meta(p, Some(table), lib) == "text/plain"
    ensures Meta(p, None, lib) == Meta(p, Some(map[]), lib)
  {
  }

  /** The errors of `readFile` that mean "no such file" become 51; all others pass through. */
  lemma ReadFailureMapping(name: string, message: string, g: GemError)
    ensures ReadFailure(JsError("NotFound", message)) == NotFound
    ensures Contains(message, "os error 21") ==> ReadFailure(JsError(name, message)) == NotFound
    ensures name != "NotFound" && !Contains(message, "os error 21") ==> ReadFailure(JsError(name, message)) == JsError(name, message)
    ensures Contains(g.message, "os error 21") ==> ReadFailure(GemErr(g)) == NotFound
    ensures !Contains(g.message, "os error 21") ==> ReadFailure(GemErr(g)) == GemErr(g)
    ensures ReadFailure(NonError) == NonError
  {
  }

  /** What the client receives for a served file: status 20, the meta, and the file's bytes unchanged. */
  lemma ServedFileReceived(meta: string, contents: seq<byte>)
    requires '\r' !in meta
    ensures Serialize(Fields(20, meta, Bytes(contents))).Ok?
    ensures ParseResponse(Serialize(Fields(20, meta, Bytes(contents))).value) == Some(Received(20, Encode(meta), contents))
  {
    SerializeRoundTrip(Fields(20, meta, Bytes(contents)));
  }
}
