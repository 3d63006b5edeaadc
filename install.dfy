/** The two installer tools as they run against the configuration file: resolve a plan, then make
    at most one `install_to_claude_desktop` call (mcp_builder/server.py:172-357). */
module Installer {
  import opened Wrappers
  import opened Text
  import opened Naming
  import opened Config
  import opened Resolve

  /** What a tool hands back: the status message, or the configuration error that escapes it. */
  datatype Reply = Message(text: string) | Raised(error: ConfigError)

  predicate Succeeded(r: Reply) {
    r.Message? && StartsWith(r.text, SuccessPrefix)
  }

  /** `install_repo_mcp_server`. Configuration errors propagate out of it. */
  method InstallRepo(store: ConfigFile, name: string, args: Option<seq<string>>,
                     envVars: Option<seq<string>>, tools: Tools) returns (r: Reply)
    modifies store
    ensures match ResolveRemote(name, args, tools)
      case Fail(msg) => r == Message(msg) && store.disk == old(store.disk) && store.writes == old(store.writes)
      case Install(serverName, command, a, cwd, route) =>
        match Upserted(old(store.disk), SanitizeName(serverName), EntryJson(command, a, envVars, cwd))
        case Ok(doc) => r == Message(SuccessMessage(route, serverName)) && store.disk == Stored(JsonValue.JObject(doc))
        case Err(e) => r == Raised(e) && store.disk == old(store.disk)
    ensures Succeeded(r) <==> store.writes == old(store.writes) + 1
    ensures !Succeeded(r) <==> store.writes == old(store.writes)
  {
    var plan := ResolveRemote(name, args, tools);
    match plan {
      case Fail(msg) =>
        RemoteFailureIsNotSuccess(name, args, tools);
        r := Message(msg);
      case Install(serverName, command, a, cwd, route) =>
        var err := store.Upsert(serverName, command, a, envVars, cwd);
        if err.None? {
          SuccessMessageShape(route, serverName);
          r := Message(SuccessMessage(route, serverName));
        } else {
          r := Raised(err.value);
        }
    }
  }

  /** `install_local_mcp_server`. In the Node.js branch a configuration error is caught and
      reported; in the Python branch it propagates. */
  method InstallLocal(store: ConfigFile, path: string, args: Option<seq<string>>,
                      envVars: Option<seq<string>>, tools: Tools, project: Project) returns (r: Reply)
    modifies store
    ensures match ResolveLocal(path, args, tools, project)
      case Fail(msg) => r == Message(msg) && store.disk == old(store.disk) && store.writes == old(store.writes)
      case Install(serverName, command, a, cwd, route) =>
        match Upserted(old(store.disk), SanitizeName(serverName), EntryJson(command, a, envVars, cwd))
        case Ok(doc) => r == Message(SuccessMessage(route, serverName)) && store.disk == Stored(JsonValue.JObject(doc))
        case Err(e) =>
          r == (if route == LocalNode then Message(NodeErrorPrefix + ErrorText(e)) else Raised(e))
          && store.disk == old(store.disk)
    ensures Succeeded(r) <==> store.writes == old(store.writes) + 1
    ensures !Succeeded(r) <==> store.writes == old(store.writes)
  {
    var plan := ResolveLocal(path, args, tools, project);
    match plan {
      case Fail(msg) =>
        LocalFailureIsNotSuccess(path, args, tools, project);
        r := Message(msg);
      case Install(serverName, command, a, cwd, route) =>
        var err := store.Upsert(serverName, command, a, envVars, cwd);
        if err.None? {
          SuccessMessageShape(route, serverName);
          r := Message(SuccessMessage(route, serverName));
        } else if route == LocalNode {
          NotSuccessText(NodeErrorPrefix, ErrorText(err.value));
          r := Message(NodeErrorPrefix + ErrorText(err.value));
        } else {
          r := Raised(err.value);
        }
    }
  }
}
