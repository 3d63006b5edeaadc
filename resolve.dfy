/** The two decision procedures behind the installer's tools, with probing and file-system
    queries lifted to inputs: `install_repo_mcp_server` (mcp_builder/server.py:172-263) and
    `install_local_mcp_server` (mcp_builder/server.py:266-357). Each yields a plan: the
    arguments of the one `install_to_claude_desktop` call to make, or the message to return. */
module Resolve {
  import opened Wrappers
  import opened Text
  import opened JsonValue
  import opened Naming

  /** Which of `node`, `npm`, `npx`, `pip` and `python` are on the PATH. */
  datatype Tools = Tools(node: bool, npm: bool, npx: bool, pip: bool, python: bool)

  /** The four success messages. */
  datatype Route = ViaNpx | ViaPython | LocalNode | LocalPython

  /** Either one installation, named by the server name handed to `install_to_claude_desktop`
      (which sanitizes it into the key), or a failure message. */
  datatype Plan =
    | Install(serverName: string, command: string, args: seq<string>, cwd: Option<string>, route: Route)
    | Fail(msg: string)

  const SuccessPrefix: string := "Successfully installed"
  const RestartHint: string := "! Please tell the user to restart the application."
  // Long messages are written as a few shorter literals joined; the verifier reads characters of
  // a short literal directly, which is how the lemmas below tell failures from successes.
  const CouldNot: string := "Could not determine "
  const NeitherRuntime: string := "Neither Node.js nor Python " + "is installed. Please install one of them."
  const NodeErrorPrefix: string := "Error installing " + "Node.js MCP server: "

  /** What a success message says before the quoted server name. */
  function RouteLead(route: Route): string {
    match route
    case ViaNpx => " MCP server "
    case ViaPython => " MCP server "
    case LocalNode => " local Node.js MCP server "
    case LocalPython => " local Python MCP server "
  }

  /** What a success message says after the quoted server name. */
  function RouteTail(route: Route): string {
    match route
    case ViaNpx => " via npx" + RestartHint
    case ViaPython => " via Python" + RestartHint
    case LocalNode => RestartHint
    case LocalPython => RestartHint
  }

  function Quoted(s: string): string {
    "'" + s + "'"
  }

  function SuccessMessage(route: Route, serverName: string): string {
    SuccessPrefix + (RouteLead(route) + (Quoted(serverName) + RouteTail(route)))
  }

  function UnknownPackage(name: string): string {
    CouldNot + ("how to install " + Quoted(name))
  }

  function PathMissing(path: string): string {
    "Path " + (Quoted(path) + " does not exist.")
  }

  function UnknownProject(path: string): string {
    CouldNot + ("how to install MCP server from " + Quoted(path) + ". Make sure it's a valid " + "Node.js or Python project.")
  }

  /** `args`, with None read as the empty list. */
  function ArgsOrEmpty(args: Option<seq<string>>): seq<string> {
    if args.Some? then args.value else []
  }

  /** A name that starts with '@' or has no '.' is taken for an npm package. */
  predicate LikelyNpm(name: string) {
    StartsWith(name, "@") || '.' !in name
  }

  /** `install_repo_mcp_server`, first matching rule wins. */
  function ResolveRemote(name: string, args: Option<seq<string>>, t: Tools): (plan: Plan)
    ensures plan.Fail? ==> plan.msg == NeitherRuntime || plan.msg == UnknownPackage(name)
    ensures plan.Install? ==> plan.cwd == None && (t.node || t.python)
    ensures plan.Install? && plan.route == ViaNpx ==>
              t.npm && t.npx && plan.command == "npx" && plan.args == [name] + ArgsOrEmpty(args)
    ensures plan.Install? && plan.route != ViaNpx ==>
              plan.route == ViaPython && t.pip && t.python && plan.command == "python" &&
              plan.args == ["-m", name] + ArgsOrEmpty(args)
  {
    var extra := ArgsOrEmpty(args);
    if !t.node && !t.python then Fail(NeitherRuntime)
    else if t.npm && t.npx && LikelyNpm(name) then
      var serverName := if StartsWith(name, "@") && '/' in name then Split(name, '/')[1] else name;
      Install(serverName, "npx", [name] + extra, None, ViaNpx)
    else if t.pip && t.python && '.' in name then
      Install(name, "python", ["-m", name] + extra, None, ViaPython)
    else if t.npm && t.npx then
      var serverName := if '/' in name then LastPiece(name, '/') else name;
      Install(serverName, "npx", [name] + extra, None, ViaNpx)
    else if t.pip && t.python then
      var serverName := if '.' in name then LastPiece(name, '.') else name;
      Install(serverName, "python", ["-m", name] + extra, None, ViaPython)
    else Fail(UnknownPackage(name))
  }

  /** `package.json` as `json.load` left it: a decoding error's text, or the parsed value. */
  datatype Manifest = Unparsable(cause: string) | Parsed(value: Json)

  /** What the local resolver asks of the file system about `path`: whether it exists, the three
      marker files, `package.json`'s contents, whether `path/<module name>` is a directory, and
      `os.listdir(path)` in the order it returns. */
  datatype Project = Project(
    pathExists: bool,
    hasPackageJson: bool,
    hasPyprojectToml: bool,
    hasSetupPy: bool,
    manifest: Manifest,
    moduleDirExists: bool,
    listing: seq<string>)

  /** `package_json.get("main", "index.js")` made into a usable path, or the text of the exception
      raised on the way: a decoding error, a manifest that is not an object (no `.get`), or a
      `main` that `os.path.join` cannot take. */
  function MainFile(m: Manifest): (r: Result<string, string>)
    ensures m.Unparsable? ==> r == Err(m.cause)
    ensures r.Ok? <==> m.Parsed? && m.value.JObject? &&
                       ("main" in m.value.fields ==> m.value.fields["main"].JString?)
    ensures r.Ok? && "main" !in m.value.fields ==> r.value == "index.js"
    ensures r.Ok? && "main" in m.value.fields ==> r.value == m.value.fields["main"].s
  {
    match m
    case Unparsable(cause) => Err(cause)
    case Parsed(v) =>
      if !v.JObject? then Err("the manifest is not a JSON object")
      else if "main" !in v.fields then Ok("index.js")
      else if v.fields["main"].JString? then Ok(v.fields["main"].s)
      else Err("the manifest's 'main' is not a string")
  }

  /** `os.path.join(dir, file)` on POSIX: an absolute `file` replaces `dir`, and a '/' is put
      between them unless `dir` is empty or already ends with one. */
  function PathJoin(dir: string, file: string): (p: string)
    ensures EndsWith(p, file)
    ensures StartsWith(file, "/") ==> p == file
    ensures !StartsWith(file, "/") ==> StartsWith(p, dir)
  {
    if StartsWith(file, "/") then file
    else if dir == "" || EndsWith(dir, "/") then
      assert (dir + file)[..|dir|] == dir && (dir + file)[|dir|..] == file;
      dir + file
    else
      assert (dir + "/" + file)[..|dir|] == dir && (dir + "/" + file)[|dir| + 1..] == file;
      dir + "/" + file
  }

  /** `os.path.basename(path)` on POSIX: what follows the last '/'. */
  function Basename(path: string): (base: string)
    ensures '/' !in base
  {
    SplitPiecesFree(path, '/', |Split(path, '/')| - 1);
    LastPiece(path, '/')
  }

  /** A Python source file other than `setup.py`. */
  predicate IsPyEntry(f: string) {
    EndsWith(f, ".py") && f != "setup.py"
  }

  /** The position of the first Python entry file in the listing, |listing| when there is none:
      the element `py_files[0]` of the comprehension picks. */
  function FirstPyIndex(listing: seq<string>): (i: nat)
    ensures i <= |listing|
    ensures i < |listing| ==> IsPyEntry(listing[i])
    ensures forall j :: 0 <= j < i ==> !IsPyEntry(listing[j])
  {
    if listing == [] then 0
    else if IsPyEntry(listing[0]) then 0
    else 1 + FirstPyIndex(listing[1..])
  }

  /** The entry file the Python fallback runs: every ".py" removed from the listed name, then one
      ".py" put back. */
  function PyEntryFile(listed: string): (file: string)
    ensures EndsWith(file, ".py") && |file| <= |listed| + 3
  {
    var stem := RemoveAll(listed, ".py");
    assert (stem + ".py")[|stem|..] == ".py";
    stem + ".py"
  }

  /** `install_local_mcp_server`, first matching rule wins. */
  function ResolveLocal(path: string, args: Option<seq<string>>, t: Tools, p: Project): (plan: Plan)
    ensures plan.Fail? ==> plan.msg == PathMissing(path) || plan.msg == UnknownProject(path) ||
                           (MainFile(p.manifest).Err? && plan.msg == NodeErrorPrefix + MainFile(p.manifest).error)
    ensures plan.Install? ==> p.pathExists && plan.serverName == Basename(path) && |plan.args| >= 1
    ensures plan.Install? && plan.route == LocalNode ==>
              p.hasPackageJson && t.node && t.npm && plan.command == "node" && plan.cwd == None
    ensures plan.Install? && plan.route != LocalNode ==>
              plan.route == LocalPython && (p.hasPyprojectToml || p.hasSetupPy) && t.python &&
              plan.command == "python" && (plan.cwd == Some(path) <==> p.moduleDirExists) &&
              (p.moduleDirExists ==> plan.args[0] == "-m") && (!p.moduleDirExists ==> plan.cwd == None)
  {
    var extra := ArgsOrEmpty(args);
    if !p.pathExists then Fail(PathMissing(path))
    else
      var serverName := Basename(path);
      if p.hasPackageJson && t.node && t.npm then
        match MainFile(p.manifest)
        case Err(cause) => Fail(NodeErrorPrefix + cause)
        case Ok(main) => Install(serverName, "node", [PathJoin(path, main)] + extra, None, LocalNode)
      else if (p.hasPyprojectToml || p.hasSetupPy) && t.python then
        if p.moduleDirExists then
          Install(serverName, "python", ["-m", ReplaceChar(serverName, '-', '_')] + extra, Some(path), LocalPython)
        else
          var i := FirstPyIndex(p.listing);
          if i < |p.listing| then
            Install(serverName, "python", [PathJoin(path, PyEntryFile(p.listing[i]))] + extra, None, LocalPython)
          else Fail(UnknownProject(path))
      else Fail(UnknownProject(path))
  }

  // ---------------------------------------------------------------------------------------------
  // Messages

  /** Every success message starts with "Successfully installed" and quotes the server name. */
  lemma SuccessMessageShape(route: Route, serverName: string)
    ensures StartsWith(SuccessMessage(route, serverName), SuccessPrefix)
    ensures Occurs(SuccessMessage(route, serverName), Quoted(serverName))
  {
    var body := RouteLead(route) + (Quoted(serverName) + RouteTail(route));
    StartsWithConcat(SuccessPrefix, body);
    OccursInMiddle(RouteLead(route), Quoted(serverName), RouteTail(route));
    OccursAfter(SuccessPrefix, body, Quoted(serverName));
  }

  /** A message whose first character is not 'S' is not a success message. */
  lemma NotSuccessText(head: string, rest: string)
    requires |head| > 0 && head[0] != 'S'
    ensures !StartsWith(head + rest, SuccessPrefix)
  {
    assert (head + rest)[0] == head[0];
  }

  /** No failure message of the remote resolver starts with "Successfully installed". */
  lemma RemoteFailureIsNotSuccess(name: string, args: Option<seq<string>>, t: Tools)
    requires ResolveRemote(name, args, t).Fail?
    ensures !StartsWith(ResolveRemote(name, args, t).msg, SuccessPrefix)
  {
    if !t.node && !t.python {
      NotSuccessText("Neither Node.js nor Python ", "is installed. Please install one of them.");
    } else {
      NotSuccessText(CouldNot, "how to install " + Quoted(name));
    }
  }

  /** The three failure messages of the local resolver. */
  lemma LocalFailureMessages(path: string, args: Option<seq<string>>, t: Tools, p: Project)
    requires ResolveLocal(path, args, t, p).Fail?
    ensures var msg := ResolveLocal(path, args, t, p).msg;
      || (!p.pathExists && msg == PathMissing(path))
      || (p.pathExists && p.hasPackageJson && t.node && t.npm && MainFile(p.manifest).Err? &&
          msg == NodeErrorPrefix + MainFile(p.manifest).error)
      || (p.pathExists && msg == UnknownProject(path))
  {
  }

  /** No failure message of the local resolver starts with "Successfully installed". */
  lemma LocalFailureIsNotSuccess(path: string, args: Option<seq<string>>, t: Tools, p: Project)
    requires ResolveLocal(path, args, t, p).Fail?
    ensures !StartsWith(ResolveLocal(path, args, t, p).msg, SuccessPrefix)
  {
    LocalFailureMessages(path, args, t, p);
    var msg := ResolveLocal(path, args, t, p).msg;
    if msg == PathMissing(path) {
      NotSuccessText("Path ", Quoted(path) + " does not exist.");
    } else if msg == UnknownProject(path) {
      NotSuccessText(CouldNot, "how to install MCP server from " + Quoted(path) + ". Make sure it's a valid "
                               + "Node.js or Python project.");
    } else {
      NotSuccessText(NodeErrorPrefix, MainFile(p.manifest).error);
    }
  }

  // ---------------------------------------------------------------------------------------------
  // Remote resolver

  /** The remote resolver installs exactly when a runtime is present and one of the two
      tool pairs (npm with npx, pip with python) is complete. */
  lemma RemoteInstallsIff(name: string, args: Option<seq<string>>, t: Tools)
    ensures ResolveRemote(name, args, t).Install? <==>
            (t.node || t.python) && ((t.npm && t.npx) || (t.pip && t.python))
  {
  }

  /** Without Node.js and Python nothing is installed and the resolver says so. */
  lemma RemoteNoRuntime(name: string, args: Option<seq<string>>, t: Tools)
    requires !t.node && !t.python
    ensures ResolveRemote(name, args, t) == Fail(NeitherRuntime)
  {
  }

  /** First rule: an npm-looking name runs through `npx` with the name first and the extra
      arguments after it, stored under the sanitized name (a scoped name under its package). */
  lemma RemoteNpxFirst(name: string, args: Option<seq<string>>, t: Tools)
    requires (t.node || t.python) && t.npm && t.npx && LikelyNpm(name)
    ensures var plan := ResolveRemote(name, args, t);
      && plan.Install? && plan.route == ViaNpx && plan.command == "npx"
      && plan.args == [name] + ArgsOrEmpty(args) && plan.cwd == None
      && plan.serverName == (if Scoped(name) then Split(name, '/')[1] else name)
      && SanitizeName(plan.serverName) == SanitizeName(name)
  {
    if Scoped(name) {
      SanitizeScoped(name);
    }
  }

  /** Second rule: a dotted name runs as `python -m <name>`; the message quotes the name as given
      while the key is its sanitized form. */
  lemma RemotePythonSecond(name: string, args: Option<seq<string>>, t: Tools)
    requires (t.node || t.python) && !(t.npm && t.npx && LikelyNpm(name))
    requires t.pip && t.python && '.' in name
    ensures ResolveRemote(name, args, t) ==
            Install(name, "python", ["-m", name] + ArgsOrEmpty(args), None, ViaPython)
  {
  }

  /** The npx fallback is reached only by a dotted name not starting with '@', and keys by the
      LAST '/'-separated piece of the name. */
  lemma RemoteNpxFallback(name: string, args: Option<seq<string>>, t: Tools)
    requires (t.node || t.python) && !(t.npm && t.npx && LikelyNpm(name))
    requires !(t.pip && t.python && '.' in name) && t.npm && t.npx
    ensures !StartsWith(name, "@") && '.' in name
    ensures ResolveRemote(name, args, t) ==
            Install(LastPiece(name, '/'), "npx", [name] + ArgsOrEmpty(args), None, ViaNpx)
  {
    if '/' !in name {
      assert Split(name, '/') == [name];
    }
  }

  /** The pip fallback is reached only by a name without '.', so its last dotted piece is the
      name itself. */
  lemma RemotePythonFallback(name: string, args: Option<seq<string>>, t: Tools)
    requires (t.node || t.python) && !(t.npm && t.npx)
    requires !(t.pip && t.python && '.' in name) && t.pip && t.python
    ensures '.' !in name
    ensures ResolveRemote(name, args, t) ==
            Install(name, "python", ["-m", name] + ArgsOrEmpty(args), None, ViaPython)
  {
  }

  /** With a runtime but neither tool pair, the resolver cannot decide and installs nothing. */
  lemma RemoteUndetermined(name: string, args: Option<seq<string>>, t: Tools)
    requires (t.node || t.python) && !(t.npm && t.npx) && !(t.pip && t.python)
    ensures ResolveRemote(name, args, t) == Fail(UnknownPackage(name))
  {
  }

  // ---------------------------------------------------------------------------------------------
  // Local resolver

  /** A path that does not exist is reported and nothing is installed. */
  lemma LocalMissingPath(path: string, args: Option<seq<string>>, t: Tools, p: Project)
    requires !p.pathExists
    ensures ResolveLocal(path, args, t, p) == Fail(PathMissing(path))
  {
  }

  /** Every local installation is named by the directory's base name, which holds no '/'. */
  lemma LocalServerName(path: string, args: Option<seq<string>>, t: Tools, p: Project)
    requires ResolveLocal(path, args, t, p).Install?
    ensures ResolveLocal(path, args, t, p).serverName == Basename(path)
    ensures var k := AfterLast(path, '/'); Basename(path) == path[k..] && (k == 0 || path[k - 1] == '/')
    ensures '/' !in Basename(path)
  {
    LastPieceIsSuffix(path, '/');
  }

  /** A Node.js project with `node` and `npm` runs `node <path>/<main>` (main defaulting to
      `index.js`); anything that goes wrong on the way becomes an error message. The Python
      rules are not tried. */
  lemma LocalNodeRule(path: string, args: Option<seq<string>>, t: Tools, p: Project)
    requires p.pathExists && p.hasPackageJson && t.node && t.npm
    ensures var plan := ResolveLocal(path, args, t, p);
      match MainFile(p.manifest)
      case Ok(main) => plan == Install(Basename(path), "node", [PathJoin(path, main)] + ArgsOrEmpty(args), None, LocalNode)
      case Err(cause) => plan == Fail(NodeErrorPrefix + cause)
    ensures p.manifest.Parsed? && p.manifest.value.JObject? && "main" !in p.manifest.value.fields ==>
            MainFile(p.manifest) == Ok("index.js")
  {
  }

  /** A Python project whose module directory exists runs `python -m <base name with '-' as '_'>`
      from the project directory. */
  lemma LocalPythonModule(path: string, args: Option<seq<string>>, t: Tools, p: Project)
    requires p.pathExists && !(p.hasPackageJson && t.node && t.npm)
    requires (p.hasPyprojectToml || p.hasSetupPy) && t.python && p.moduleDirExists
    ensures var plan := ResolveLocal(path, args, t, p);
      && plan == Install(Basename(path), "python", ["-m", ReplaceChar(Basename(path), '-', '_')] + ArgsOrEmpty(args),
                         Some(path), LocalPython)
      && '-' !in plan.args[1]
  {
  }

  /** Otherwise the first listed `.py` file other than `setup.py` is run by path; when that file is
      `stem.py` with no other ".py" in `stem`, the path is the listed file's own. */
  lemma LocalPythonFile(path: string, args: Option<seq<string>>, t: Tools, p: Project)
    requires p.pathExists && !(p.hasPackageJson && t.node && t.npm)
    requires (p.hasPyprojectToml || p.hasSetupPy) && t.python && !p.moduleDirExists
    ensures var i := FirstPyIndex(p.listing);
      var plan := ResolveLocal(path, args, t, p);
      && (i < |p.listing| ==> plan == Install(Basename(path), "python",
                                 [PathJoin(path, PyEntryFile(p.listing[i]))] + ArgsOrEmpty(args), None, LocalPython))
      && (i == |p.listing| ==> plan == Fail(UnknownProject(path)))
      && (forall j :: 0 <= j < i ==> !IsPyEntry(p.listing[j]))
    ensures var i := FirstPyIndex(p.listing);
      i < |p.listing| && !Occurs(p.listing[i][..|p.listing[i]| - 3], ".py") ==>
        PyEntryFile(p.listing[i]) == p.listing[i]
  {
    var i := FirstPyIndex(p.listing);
    if i < |p.listing| {
      var f := p.listing[i];
      var stem := f[..|f| - 3];
      assert f == stem + ".py";
      if !Occurs(stem, ".py") {
        RemovePySuffix(stem);
      }
    }
  }

  /** The entry-file quirk: every ".py" is stripped from the listed name before one is put back,
      so a listed `a.pyb.py` (say `my.pyfile.py`) is run as `ab.py` (`myfile.py`), another file. */
  lemma PyEntryFileQuirk(a: string, b: string)
    requires '.' !in a && '.' !in b
    ensures PyEntryFile(a + ".py" + b + ".py") == a + b + ".py"
    ensures PyEntryFile(a + ".py" + b + ".py") != a + ".py" + b + ".py"
  {
    RemovePyAfterDotless(a, b + ".py");
    assert a + ".py" + b + ".py" == a + ".py" + (b + ".py");
    RemovePyAfterDotless(b, "");
    assert b + ".py" == b + ".py" + "";
    assert RemoveAll("", ".py") == "";
  }

  /** Without a usable manifest marker and runtime, nothing is installed. */
  lemma LocalUndetermined(path: string, args: Option<seq<string>>, t: Tools, p: Project)
    requires p.pathExists && !(p.hasPackageJson && t.node && t.npm)
    requires !((p.hasPyprojectToml || p.hasSetupPy) && t.python)
    ensures ResolveLocal(path, args, t, p) == Fail(UnknownProject(path))
  {
  }

  /** The local resolver installs exactly when the path exists and either the Node.js rule applies
      with a usable `main`, or the Python rule applies and finds a module directory or a `.py` file. */
  lemma LocalInstallsIff(path: string, args: Option<seq<string>>, t: Tools, p: Project)
    ensures ResolveLocal(path, args, t, p).Install? <==>
            p.pathExists &&
            (if p.hasPackageJson && t.node && t.npm then MainFile(p.manifest).Ok?
             else (p.hasPyprojectToml || p.hasSetupPy) && t.python &&
                  (p.moduleDirExists || exists j :: 0 <= j < |p.listing| && IsPyEntry(p.listing[j])))
  {
    if exists j :: 0 <= j < |p.listing| && IsPyEntry(p.listing[j]) {
      var j :| 0 <= j < |p.listing| && IsPyEntry(p.listing[j]);
      assert FirstPyIndex(p.listing) <= j;
    }
  }
}
