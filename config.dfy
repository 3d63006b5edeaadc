/** The host configuration file and its read-merge-write update, the body of
    `install_to_claude_desktop` (mcp_builder/server.py:106-169). */
module Config {
  import opened Wrappers
  import opened JsonValue
  import opened EnvVars
  import opened Naming

  /** What reading the configuration file yields: no file, UTF-8 text that is not JSON, or a parsed
      value. */
  datatype Disk = Missing | Invalid | Stored(value: Json)

  /** The TypeErrors Python raises while merging: the document, or its `mcpServers` member, is not
      a JSON object and cannot be indexed by a string key. */
  datatype ConfigError = DocumentNotObject | ServersNotObject

  function ErrorText(e: ConfigError): string {
    match e
    case DocumentNotObject => "the configuration document is not a JSON object"
    case ServersNotObject => "'mcpServers' is not a JSON object"
  }

  const ServersKey: string := "mcpServers"

  /** The `env` member written for a parsed environment: an object, or null when parsing gave None. */
  function EnvJson(env: Option<map<string, string>>): Json {
    match env
    case None => JNull
    case Some(m) => JObject(map k | k in m :: JString(m[k]))
  }

  /** The server entry `{command, args, env?, cwd?}`. */
  function EntryJson(command: string, args: seq<string>, envVars: Option<seq<string>>, cwd: Option<string>): (e: Json)
    ensures e.JObject? && e.fields.Keys <= {"command", "args", "env", "cwd"}
    ensures "command" in e.fields && e.fields["command"] == JString(command)
    ensures "args" in e.fields && e.fields["args"] == Strings(args)
  {
    var base := map["command" := JString(command), "args" := Strings(args)];
    var withEnv := if envVars.Some? && envVars.value != [] then base["env" := EnvJson(EnvOf(envVars))] else base;
    JObject(if cwd.Some? && cwd.value != "" then withEnv["cwd" := JString(cwd.value)] else withEnv)
  }

  /** The document read back: empty when the file is missing or not JSON. */
  function LoadDoc(disk: Disk): (r: Result<map<string, Json>, ConfigError>)
    ensures r.Err? <==> disk.Stored? && !disk.value.JObject?
    ensures r.Ok? ==> (if disk.Stored? then disk.value == JObject(r.value) else r.value == map[])
  {
    match disk
    case Missing => Ok(map[])
    case Invalid => Ok(map[])
    case Stored(v) => if v.JObject? then Ok(v.fields) else Err(DocumentNotObject)
  }

  /** `mcpServers`, created empty when absent. */
  function Servers(doc: map<string, Json>): (r: Result<map<string, Json>, ConfigError>)
    ensures r.Err? <==> ServersKey in doc && !doc[ServersKey].JObject?
    ensures r.Ok? ==> (if ServersKey in doc then doc[ServersKey] == JObject(r.value) else r.value == map[])
  {
    if ServersKey !in doc then Ok(map[])
    else if doc[ServersKey].JObject? then Ok(doc[ServersKey].fields)
    else Err(ServersNotObject)
  }

  /** The document after `config["mcpServers"][key] = entry`. */
  function PutServer(doc: map<string, Json>, key: string, entry: Json): (r: Result<map<string, Json>, ConfigError>)
    ensures r.Err? <==> Servers(doc).Err?
    ensures r.Ok? ==> r.value.Keys == doc.Keys + {ServersKey}
    ensures r.Ok? ==> r.value[ServersKey].JObject? && r.value[ServersKey].fields.Keys == Servers(doc).value.Keys + {key}
    ensures r.Ok? ==> r.value[ServersKey].fields[key] == entry
  {
    match Servers(doc)
    case Err(e) => Err(e)
    case Ok(servers) => Ok(doc[ServersKey := JObject(servers[key := entry])])
  }

  /** The document written back by one upsert of `entry` under `key`, or the error that stops it. */
  function Upserted(disk: Disk, key: string, entry: Json): (r: Result<map<string, Json>, ConfigError>)
    ensures r.Err? <==> LoadDoc(disk).Err? || Servers(LoadDoc(disk).value).Err?
    ensures r.Ok? ==> ServersKey in r.value && r.value[ServersKey].JObject?
    ensures r.Ok? ==> key in r.value[ServersKey].fields && r.value[ServersKey].fields[key] == entry
  {
    match LoadDoc(disk)
    case Err(e) => Err(e)
    case Ok(doc) => PutServer(doc, key, entry)
  }

  /** The configuration file, rewritten in place by each installation. */
  class ConfigFile {
    var disk: Disk
    /** How many upserts have written the file. */
    ghost var writes: nat

    constructor (initial: Disk)
      ensures disk == initial && writes == 0
    {
      disk := initial;
      writes := 0;
    }

    /** `install_to_claude_desktop`: sanitize the name, read the file, make sure `mcpServers`
        exists, store the entry under the key (replacing any earlier one whole) and write the
        file back. */
    method Upsert(serverName: string, command: string, args: seq<string>,
                  envVars: Option<seq<string>>, cwd: Option<string>) returns (err: Option<ConfigError>)
      modifies this
      ensures match Upserted(old(disk), SanitizeName(serverName), EntryJson(command, args, envVars, cwd))
              case Ok(doc) => err == None && disk == Stored(JObject(doc)) && writes == old(writes) + 1
              case Err(e) => err == Some(e) && disk == old(disk) && writes == old(writes)
    {
      var key := SanitizeName(serverName);
      var config: map<string, Json>;
      match disk {
        case Missing => config := map[];
        case Invalid => config := map[];
        case Stored(v) =>
          if !v.JObject? {
            return Some(DocumentNotObject);
          }
          config := v.fields;
      }
      assert LoadDoc(disk) == Ok(config);
      ghost var loaded := config;
      if ServersKey !in config {
        config := config[ServersKey := JObject(map[])];
      }
      assert config == loaded[ServersKey := config[ServersKey]];
      var serverConfig := map["command" := JString(command), "args" := Strings(args)];
      if envVars.Some? && envVars.value != [] {
        var parsed := ParseEnvVars(envVars);
        serverConfig := serverConfig["env" := EnvJson(parsed)];
      }
      if cwd.Some? && cwd.value != "" {
        serverConfig := serverConfig["cwd" := JString(cwd.value)];
      }
      assert JObject(serverConfig) == EntryJson(command, args, envVars, cwd);
      var servers := config[ServersKey];
      if !servers.JObject? {
        return Some(ServersNotObject);
      }
      assert Servers(loaded) == Ok(servers.fields);
      config := config[ServersKey := JObject(servers.fields[key := JObject(serverConfig)])];
      assert config == loaded[ServersKey := JObject(servers.fields[key := JObject(serverConfig)])];
      disk := Stored(JObject(config));
      writes := writes + 1;
      err := None;
    }
  }

  /** The entry always has `command` and `args`; `env` exactly when a non-empty list was given,
      holding the parsed mapping or null; `cwd` exactly when a non-empty directory was given;
      nothing else. */
  lemma EntryFields(command: string, args: seq<string>, envVars: Option<seq<string>>, cwd: Option<string>)
    ensures var e := EntryJson(command, args, envVars, cwd);
      && e.JObject?
      && e.fields.Keys <= {"command", "args", "env", "cwd"}
      && "command" in e.fields && e.fields["command"] == JString(command)
      && "args" in e.fields && e.fields["args"] == Strings(args)
      && ("env" in e.fields <==> envVars.Some? && envVars.value != [])
      && ("env" in e.fields ==> e.fields["env"] == EnvJson(EnvOf(envVars)))
      && ("env" in e.fields ==> (e.fields["env"] == JNull <==>
            forall i :: 0 <= i < |envVars.value| ==> '=' !in envVars.value[i]))
      && ("cwd" in e.fields <==> cwd.Some? && cwd.value != "")
      && ("cwd" in e.fields ==> e.fields["cwd"] == JString(cwd.value))
  {
    EnvOfNone(envVars);
  }

  /** A missing or unparsable file is treated as an empty document: the result holds only
      `mcpServers` with the one entry. */
  lemma UpsertFromScratch(disk: Disk, key: string, entry: Json)
    requires disk.Missing? || disk.Invalid?
    ensures Upserted(disk, key, entry) == Ok(map[ServersKey := JObject(map[key := entry])])
  {
  }

  /** The upsert fails exactly when the document, or its `mcpServers`, is present but not an object. */
  lemma UpsertFails(disk: Disk, key: string, entry: Json)
    ensures Upserted(disk, key, entry).Err? <==>
            disk.Stored? && (!disk.value.JObject? ||
              (ServersKey in disk.value.fields && !disk.value.fields[ServersKey].JObject?))
  {
  }

  /** After an upsert, `mcpServers[key]` is the new entry; every other server and every other
      top-level member is as it was, and nothing else is added. */
  lemma UpsertPreservesRest(disk: Disk, key: string, entry: Json)
    requires Upserted(disk, key, entry).Ok?
    ensures var before := LoadDoc(disk).value;
      var after := Upserted(disk, key, entry).value;
      && after.Keys == before.Keys + {ServersKey}
      && (forall k :: k in before && k != ServersKey ==> after[k] == before[k])
      && after[ServersKey].JObject?
      && after[ServersKey].fields.Keys == Servers(before).value.Keys + {key}
      && after[ServersKey].fields[key] == entry
      && (forall s :: s in Servers(before).value && s != key ==>
            after[ServersKey].fields[s] == Servers(before).value[s])
  {
  }

  /** Writing the same entry under the same key twice gives the document of one write. */
  lemma UpsertIdempotent(disk: Disk, key: string, entry: Json)
    requires Upserted(disk, key, entry).Ok?
    ensures var once := Upserted(disk, key, entry).value;
      Upserted(Stored(JObject(once)), key, entry) == Ok(once)
  {
    var once := Upserted(disk, key, entry).value;
    var servers := once[ServersKey].fields;
    assert servers[key := entry] == servers;
    assert once[ServersKey := JObject(servers)] == once;
  }
}
