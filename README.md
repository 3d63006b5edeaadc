# mcp-builder installer core, modelled in Dafny

mcp-builder is a small tool server with two tools. `install_repo_mcp_server` installs an MCP server
published on npm or PyPI. `install_local_mcp_server` installs one from a local directory. Neither tool
downloads anything. Each decides how the server should be launched (command, arguments, optional
environment, optional working directory). It then records that launch descriptor in the Claude
Desktop configuration file, under a sanitized key in the file's `mcpServers` object.

This project models that core:

- `wrappers.dfy`, module `Wrappers`: `Option` and `Result`.
- `text.dfy`, module `Text`: the Python `str` operations the code relies on: `split` on one
  character, `find`, `replace` and `startswith`/`endswith`. Lemmas give the split/join round trip,
  that the last piece is the text after the last separator, and how `replace(".py", "")` behaves on
  the names the local resolver meets; of that removal in general only the length bound is stated.
- `json.dfy`, module `JsonValue`: parsed JSON values.
- `env.dfy`, module `EnvVars`: `parse_env_vars`. It is an imperative method with a loop, proved
  equal to a specification function `EnvOf`. Lemmas give the keys, "last duplicate wins" and
  exactly when it yields `None`.
- `naming.dfy`, module `Naming`: the key sanitiser inside `install_to_claude_desktop`.
- `config.dfy`, module `Config`: the configuration file as a class `ConfigFile`. Its field `disk`
  holds what a read yields: missing, invalid JSON, or a parsed value. Its method `Upsert` is the
  read-merge-write of `install_to_claude_desktop`. A ghost counter `writes` counts completed
  upserts. Lemmas state what the merge keeps, adds and replaces.
- `resolve.dfy`, module `Resolve`: the two first-match-wins decision procedures as pure functions.
  Tool probing and file-system queries are inputs. The result is a `Plan`: either one
  installation (server name, command, arguments, working directory, success route) or a failure
  message. Lemmas cover every branch.
- `install.dfy`, module `Installer`: the two tools as methods. Each resolves a plan and makes at
  most one `Upsert` call on the `ConfigFile`. They prove that a reply starting with "Successfully
  installed" goes with exactly one completed upsert, and any other reply with none.
- `scenarios.dfy`, module `Scenarios`: typical inputs (`["A=1","B=2=x"]`, `@scope`, and the
  shapes `@scope/pkg/more`, `@scope/pkg` and `a.b` of names such as `@a/b/c`, `@foo/bar` and
  `my.module`).

Behaviour of the code worth knowing, all of it captured by the model:

- A dotted Python package is stored under its sanitized key while the success message quotes the
  raw name: `my.module` is keyed `my-module` (mcp_builder/server.py:221-233 with 131).
- A non-empty env list in which no entry holds `=` writes `"env": null`; the `env` field is not
  omitted (mcp_builder/server.py:157-158 with 67).
- The pip fallback's "last dotted segment" rule never applies: a dotted name with pip and python
  is taken by the earlier Python rule, so the fallback only sees names without a `.` and keys them
  by the name itself (mcp_builder/server.py:222, 251).
- The npx rules need `node` or `python` plus `npm` and `npx`; Node.js itself is not required
  (mcp_builder/server.py:195, 202, 236).
- When `package.json` cannot be parsed, or `main` is unusable, the Node.js branch returns an
  "Error installing Node.js MCP server" message; it does not fall back to `index.js`
  (mcp_builder/server.py:303-308, 319-320).
- A configuration file holding JSON that is not an object, or whose `mcpServers` is not an
  object, is not treated as empty: Python raises a TypeError there, modelled as `ConfigError`
  (mcp_builder/server.py:140-147, 165).

## Model

| member | source | states |
|---|---|---|
| `Text.IndexOf` | mcp_builder/server.py:64 | the result is the position of the first occurrence of the character (or the length when absent): every earlier character differs |
| `Text.Split` | mcp_builder/server.py:128 | `str.split` on one character: the string alone when the separator is absent, at least two pieces when it is present |
| `Text.SplitAfter` | mcp_builder/server.py:128 | a separator-free prefix followed by the separator is the first piece, and the rest is split on its own |
| `Text.SplitPiecesFree` | mcp_builder/server.py:128 | no piece of a split holds the separator |
| `Text.JoinSplit` | mcp_builder/server.py:128 | joining the pieces of a split with the separator gives the original string back |
| `Text.AfterLast` | mcp_builder/server.py:239 | the start of the last piece: 0 or right after a separator, with no separator from there on |
| `Text.LastPieceIsSuffix` | mcp_builder/server.py:239 | `split("/")[-1]` is the suffix after the last separator |
| `Text.ReplaceChar` | mcp_builder/server.py:326 | `replace("-", "_")` keeps the length and changes exactly the `-` characters, to `_` |
| `Text.RemoveAll` | mcp_builder/server.py:345 | `replace(".py", "")` never lengthens the string |
| `Text.RemoveAllAbsent` | mcp_builder/server.py:345 | a string without `.py` in it is left unchanged by the removal |
| `Text.RemovePyAfterDotless` | mcp_builder/server.py:345 | in `a + ".py" + b`, with no `.` in `a`, the removal keeps `a` and drops that `.py` |
| `Text.RemovePySuffix` | mcp_builder/server.py:345-351 | for `stem + ".py"` with no `.py` inside `stem`, removing `.py` gives back exactly `stem` |
| `JsonValue.Strings` | mcp_builder/server.py:151-154 | the `args` list is written as a JSON array holding the same strings in the same order |
| `EnvVars.ParseEnvVars` | mcp_builder/server.py:56-67 | the loop returns exactly `EnvOf` of its input |
| `EnvVars.EnvOf` | mcp_builder/server.py:58-67 | a returned mapping is never empty and is the one built from the entries in order |
| `EnvVars.KeyOf` | mcp_builder/server.py:64 | the key is the text before the first `=`: it holds no `=` and is shorter than the entry |
| `EnvVars.ValueOf` | mcp_builder/server.py:64 | the value is the text after the first `=`, shorter than the entry |
| `EnvVars.EnvMap` | mcp_builder/server.py:61-65 | the mapping built entry by entry has at most as many keys as there are entries, and no key holds `=` |
| `EnvVars.SplitAtFirstEquals` | mcp_builder/server.py:64 | each entry splits at its first `=`: key, `=`, value reassemble the entry and the key holds no `=` (the value may) |
| `EnvVars.EnvMapKeys` | mcp_builder/server.py:62-65 | a key is in the mapping if and only if some entry holding `=` names it; entries without `=` add nothing |
| `EnvVars.EnvMapLastWins` | mcp_builder/server.py:65 | the value stored under a key is that of the last entry with that key |
| `EnvVars.EnvOfNone` | mcp_builder/server.py:58-67 | the result is `None` if and only if the list is absent, empty, or has no entry holding `=` |
| `Naming.ReplaceInvalid` | mcp_builder/server.py:131 | every character outside `[A-Za-z0-9_-]` becomes `-`, all others stay in place, length kept |
| `Naming.Unscoped` | mcp_builder/server.py:125-128 | a scoped name `@…/…` is reduced to a piece holding no `/`; any other name is kept as it is |
| `Naming.SanitizeName` | mcp_builder/server.py:125-131 | every character of the key is in `[A-Za-z0-9_-]` |
| `Naming.SanitizeUnscoped` | mcp_builder/server.py:125-131 | a name not of the form `@…/…` keeps its length and every allowed character in place; only the others become `-` |
| `Naming.SanitizeScoped` | mcp_builder/server.py:125-128 | a name `@…/…` is keyed by its second `/`-separated piece, the same key as that piece alone |
| `Naming.ReplaceInvalidFixes` | mcp_builder/server.py:131 | a string of allowed characters only is left unchanged |
| `Naming.SanitizeIdempotent` | mcp_builder/server.py:125-131 | sanitizing a key again changes nothing |
| `Config.ConfigFile.Upsert` | mcp_builder/server.py:106-169 | on success the file holds the merged document (key = sanitized name, entry built from command, args, env, cwd) and one more write is counted; on a non-object document or `mcpServers` the matching error is returned and the file is untouched |
| `Config.EntryJson` | mcp_builder/server.py:151-162 | the entry is an object with `command` and `args` as given, and no members besides `command`, `args`, `env` and `cwd` |
| `Config.LoadDoc` | mcp_builder/server.py:140-144 | a missing or unparsable file reads as the empty document; a stored value is read as is, and it is an error exactly when it is not an object |
| `Config.Servers` | mcp_builder/server.py:146-165 | `mcpServers` is read as is, or as empty when absent; it is an error exactly when present and not an object |
| `Config.PutServer` | mcp_builder/server.py:165 | storing fails exactly when `mcpServers` is unusable; otherwise the document gains at most the `mcpServers` member and `mcpServers` gains at most the key, which holds the entry |
| `Config.Upserted` | mcp_builder/server.py:140-169 | the upsert fails exactly when the document or its `mcpServers` is unusable; otherwise the written document holds an object `mcpServers` whose member under the key is the entry |
| `Config.EntryFields` | mcp_builder/server.py:151-162 | the entry always has `command` and `args`; `env` if and only if a non-empty list was given, holding the parsed mapping, or null exactly when no entry holds `=`; `cwd` if and only if a non-empty directory was given; nothing else |
| `Config.UpsertFromScratch` | mcp_builder/server.py:140-148 | a missing or invalid file yields a document with only `mcpServers` and the one entry |
| `Config.UpsertFails` | mcp_builder/server.py:140-165 | the upsert fails if and only if the stored document, or its `mcpServers`, is not a JSON object |
| `Config.UpsertPreservesRest` | mcp_builder/server.py:146-165 | `mcpServers[key]` becomes the new entry whole; every other server and every other top-level member is unchanged; no other key is added |
| `Config.UpsertIdempotent` | mcp_builder/server.py:165 | upserting the same entry under the same key again leaves the document as one upsert made it |
| `Resolve.FirstPyIndex` | mcp_builder/server.py:342-345 | the position of the first `.py` file other than `setup.py` in listing order, every earlier file failing that test; the length when there is none |
| `Resolve.ResolveRemote` | mcp_builder/server.py:185-263 | a failure says that neither runtime is installed or that the package could not be placed; an install needs a runtime, sets no working directory, and is either `npx <name> <args…>` with npm and npx, or `python -m <name> <args…>` with pip and python |
| `Resolve.ResolveLocal` | mcp_builder/server.py:279-357 | a failure is the missing-path, Node.js error or could-not-determine message; an install needs the path, is named by its base name, and is either `node …` without a working directory (package.json, node, npm) or `python …` (a Python marker and python), run from the project directory exactly when the module directory exists |
| `Resolve.MainFile` | mcp_builder/server.py:303-314 | an unparsable manifest gives its decoding error; a usable file name results exactly when the manifest is an object whose `main`, if present, is a string; with no `main` it is `index.js`; a string `main` is the file name |
| `Resolve.PathJoin` | mcp_builder/server.py:314 | the joined path ends with the file; an absolute file replaces the directory, otherwise the path starts with the directory |
| `Resolve.Basename` | mcp_builder/server.py:291 | the base name holds no `/` |
| `Resolve.PyEntryFile` | mcp_builder/server.py:345-351 | the file run ends in `.py` and is at most three characters longer than the listed name |
| `Resolve.SuccessMessageShape` | mcp_builder/server.py:218-355 | each success message starts with "Successfully installed" and quotes the unsanitized server name |
| `Resolve.RemoteFailureIsNotSuccess` | mcp_builder/server.py:195-263 | no failure message of the remote tool starts with "Successfully installed" |
| `Resolve.LocalFailureMessages` | mcp_builder/server.py:282-357 | a local failure is the missing-path message, the Node.js error message (only in that branch), or the could-not-determine message |
| `Resolve.LocalFailureIsNotSuccess` | mcp_builder/server.py:282-357 | no failure message of the local tool starts with "Successfully installed" |
| `Resolve.RemoteInstallsIff` | mcp_builder/server.py:195-263 | the remote tool installs if and only if node or python is present and npm+npx or pip+python are both present |
| `Resolve.RemoteNoRuntime` | mcp_builder/server.py:195-196 | without node and python the "Neither Node.js nor Python…" message is returned |
| `Resolve.RemoteNpxFirst` | mcp_builder/server.py:199-218 | an npm-looking name with npm and npx runs `npx <name> <args…>`; the message quotes the package `pkg` of a scoped `@scope/pkg` and the raw name otherwise, and the key is the sanitized name |
| `Resolve.RemotePythonSecond` | mcp_builder/server.py:221-233 | otherwise a dotted name with pip and python runs `python -m <name> <args…>`, the server name being the raw name |
| `Resolve.RemoteNpxFallback` | mcp_builder/server.py:236-250 | the npx fallback is reached only by a dotted name not starting with `@`, and is named by the last `/` piece |
| `Resolve.RemotePythonFallback` | mcp_builder/server.py:251-261 | the pip fallback is reached only by a name without `.`, so it is named by the name itself |
| `Resolve.RemoteUndetermined` | mcp_builder/server.py:263 | a runtime without either tool pair gives "Could not determine how to install '<name>'" |
| `Resolve.LocalMissingPath` | mcp_builder/server.py:282-283 | a missing path gives "Path '<path>' does not exist." |
| `Resolve.LocalServerName` | mcp_builder/server.py:291 | every local install is named by the base name: the text after the last `/`, holding no `/` |
| `Resolve.LocalNodeRule` | mcp_builder/server.py:300-320 | with `package.json`, node and npm: run `node <join(path, main)> <args…>` with `main` defaulting to `index.js`, or return the error message; the Python rules are not tried |
| `Resolve.LocalPythonModule` | mcp_builder/server.py:323-339 | with a Python marker, python and the module directory: run `python -m <base name with - as _>` from the project directory |
| `Resolve.LocalPythonFile` | mcp_builder/server.py:340-357 | otherwise run the first listed `.py` file other than `setup.py`, by path, or fail when there is none; a file `stem.py` with no other `.py` is run under its own name |
| `Resolve.PyEntryFileQuirk` | mcp_builder/server.py:345-351 | a listed `a.pyb.py` is run as `ab.py`, a different file, because every `.py` is stripped before one is put back |
| `Resolve.LocalUndetermined` | mcp_builder/server.py:357 | without a usable manifest rule the could-not-determine message is returned |
| `Resolve.LocalInstallsIff` | mcp_builder/server.py:282-357 | the local tool installs if and only if the path exists and either the Node.js rule applies with a usable `main`, or the Python rule applies and finds the module directory or a `.py` file |
| `Installer.InstallRepo` | mcp_builder/server.py:172-263 | a failure plan returns its message and leaves the file alone; an install plan makes one upsert and returns the success message, or raises its error; a success reply if and only if exactly one write happened |
| `Installer.InstallLocal` | mcp_builder/server.py:266-357 | as above, except that in the Node.js branch a configuration error becomes an "Error installing Node.js MCP server:" message |
| `Scenarios.EnvExample` | mcp_builder/server.py:61-67 | `["A=1","B=2=x"]` gives `{A: "1", B: "2=x"}` |
| `Scenarios.ScopedPieces` | mcp_builder/server.py:125-128 | `@scope/pkg`, alone or followed by `/…`, is scoped and its second piece is `pkg` |
| `Scenarios.ScopedKeepsSecondPiece` | mcp_builder/server.py:125-131 | `@scope/pkg/more` is keyed `pkg`, not by its last piece |
| `Scenarios.ScopeOnlyExample` | mcp_builder/server.py:125-131 | `@scope` is keyed `-scope` |
| `Scenarios.DottedKey` | mcp_builder/server.py:131 | a dotted module name `a.b` is keyed `a-b` |
| `Scenarios.RemoteScoped` | mcp_builder/server.py:202-218 | `@scope/pkg` with only the Node.js tools runs `npx @scope/pkg` under the name `pkg` |
| `Scenarios.RemoteDotted` | mcp_builder/server.py:221-233 | `a.b` with only the Python tools runs `python -m a.b`, named `a.b` and keyed `a-b` |

## Left out

- The tool-protocol layer: the FastMCP server object, tool registration and `main`/`mcp.run`. These are external dispatch and transport.
- `run_command`, `is_pypi_package` and `is_npm_package`. They run subprocesses and neither tool calls them.
- `check_command_exists`, a PATH lookup. Its five answers are the boolean fields of `Tools`.
- `get_claude_desktop_config_path`. It depends on the platform and the environment. The file's location is taken as fixed, and the `ValueError` for a missing path cannot occur.
- `read_config` and `write_config`. They duplicate the inline read and write and are never called.
- JSON text, indentation and member order. The model works on parsed values. Objects are maps, so the order in which `json.dump` writes members is not modelled.
- Number normalisation. A number is kept as uninterpreted text, while Python's `json.load` turns it into an int or float and `json.dump` writes that back in its own form (`1.50` becomes `1.5`, `1e2` becomes `100.0`, `1E400` becomes `Infinity`), so other servers' numbers may change text on a rewrite.
- File access errors other than a missing file or invalid JSON (permissions, a file that is not valid UTF-8, a failing write, a directory in the way). The model has no such outcome. In Python they propagate from the remote tool and the Python branch, and are caught in the Node.js branch.
- A missing configuration directory. `install_to_claude_desktop` never creates the directory (the unused `write_config` would), so with no `Claude` directory Python's write fails, while the model's upsert on a `Missing` file succeeds.
- `os.listdir` raising (a permission error, say). It escapes from the Python branch of the local tool (mcp_builder/server.py:342); the model takes the listing as given.
- `os.path.exists`, `isdir` and `listdir`. Their answers are the fields of `Project`. The listing is taken in the order given. `moduleDirExists` stands for `isdir(join(path, module_name))`.
- `os.path.join` and `basename` are modelled as their POSIX versions. Windows drive letters and `\` separators are not.
- `Resolve.MainFile`: the text of a Python exception raised in the Node.js branch (`str(e)`) is approximated. A JSON decoding error's text is an input. A manifest that is not an object, and a `main` that is not a string, get fixed descriptive texts.
- `Config.ErrorText`: the TypeError texts of a non-object configuration document are replaced by descriptive texts.
