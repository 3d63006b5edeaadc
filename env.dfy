/** `parse_env_vars`: turning `KEY=VALUE` strings into an environment mapping (mcp_builder/server.py:56-67). */
module EnvVars {
  import opened Wrappers
  import opened Text

  /** The part before the first '=' (`entry.split("=", 1)[0]`). */
  function KeyOf(entry: string): (key: string)
    requires '=' in entry
    ensures '=' !in key && |key| < |entry|
  {
    entry[..IndexOf(entry, '=')]
  }

  /** The part after the first '=' (`entry.split("=", 1)[1]`); it may itself hold '='. */
  function ValueOf(entry: string): (value: string)
    requires '=' in entry
    ensures |value| < |entry|
  {
    entry[IndexOf(entry, '=') + 1..]
  }

  /** Splitting at the first '=' loses nothing, and the key holds no '='. */
  lemma SplitAtFirstEquals(entry: string)
    requires '=' in entry
    ensures KeyOf(entry) + "=" + ValueOf(entry) == entry
    ensures '=' !in KeyOf(entry)
  {
    var i := IndexOf(entry, '=');
    assert entry == entry[..i] + [entry[i]] + entry[i + 1..];
  }

  /** The mapping built from the entries in order: an entry without '=' is skipped, and a key seen
      again overwrites its earlier value. */
  function EnvMap(entries: seq<string>): (m: map<string, string>)
    ensures |m| <= |entries|
    ensures forall k :: k in m ==> '=' !in k
    decreases |entries|
  {
    if entries == [] then map[]
    else
      var m := EnvMap(entries[..|entries| - 1]);
      var e := entries[|entries| - 1];
      if '=' in e then m[KeyOf(e) := ValueOf(e)] else m
  }

  /** What `parse_env_vars` returns: nothing for an absent or empty list, and nothing either when no
      entry holds '=' (an empty dict is falsy), otherwise the mapping. */
  function EnvOf(envVars: Option<seq<string>>): (r: Option<map<string, string>>)
    ensures r.Some? ==> r.value != map[]
    ensures r.Some? ==> envVars.Some? && r.value == EnvMap(envVars.value)
  {
    if envVars.None? || envVars.value == [] then None
    else
      var m := EnvMap(envVars.value);
      if m == map[] then None else Some(m)
  }

  /** The loop of `parse_env_vars`, filling the mapping one entry at a time. */
  method ParseEnvVars(envVars: Option<seq<string>>) returns (r: Option<map<string, string>>)
    ensures r == EnvOf(envVars)
  {
    if envVars.None? || envVars.value == [] {
      return None;
    }
    var entries := envVars.value;
    var envObj: map<string, string> := map[];
    for i := 0 to |entries|
      invariant envObj == EnvMap(entries[..i])
    {
      var entry := entries[i];
      assert entries[..i + 1][..i] == entries[..i];
      if '=' in entry {
        var k := IndexOf(entry, '=');
        envObj := envObj[entry[..k] := entry[k + 1..]];
      }
    }
    assert entries[..|entries|] == entries;
    r := if envObj == map[] then None else Some(envObj);
  }

  /** A key is in the mapping exactly when some entry holding '=' names it. */
  lemma {:induction false} EnvMapKeys(entries: seq<string>, k: string)
    ensures k in EnvMap(entries) <==>
            exists i :: 0 <= i < |entries| && '=' in entries[i] && KeyOf(entries[i]) == k
    decreases |entries|
  {
    if entries != [] {
      var init := entries[..|entries| - 1];
      EnvMapKeys(init, k);
      if exists i :: 0 <= i < |init| && '=' in init[i] && KeyOf(init[i]) == k {
        var i :| 0 <= i < |init| && '=' in init[i] && KeyOf(init[i]) == k;
        assert entries[i] == init[i];
      }
      if exists i :: 0 <= i < |entries| && '=' in entries[i] && KeyOf(entries[i]) == k {
        var i :| 0 <= i < |entries| && '=' in entries[i] && KeyOf(entries[i]) == k;
        if i < |init| { assert init[i] == entries[i]; }
      }
    }
  }

  /** The value stored under a key is the one of the LAST entry naming that key. */
  lemma {:induction false} EnvMapLastWins(entries: seq<string>, i: nat)
    requires i < |entries| && '=' in entries[i]
    requires forall j :: i < j < |entries| && '=' in entries[j] ==> KeyOf(entries[j]) != KeyOf(entries[i])
    ensures KeyOf(entries[i]) in EnvMap(entries)
    ensures EnvMap(entries)[KeyOf(entries[i])] == ValueOf(entries[i])
    decreases |entries|
  {
    var init := entries[..|entries| - 1];
    if i < |entries| - 1 {
      assert init[i] == entries[i];
      forall j | i < j < |init| && '=' in init[j]
        ensures KeyOf(init[j]) != KeyOf(init[i])
      {
        assert init[j] == entries[j];
      }
      EnvMapLastWins(init, i);
    }
  }

  /** `parse_env_vars` gives nothing exactly when the list is absent or no entry of it holds '='
      (the empty list included); entries without '=' are dropped silently. */
  lemma EnvOfNone(envVars: Option<seq<string>>)
    ensures EnvOf(envVars) == None <==>
            envVars.None? || forall i :: 0 <= i < |envVars.value| ==> '=' !in envVars.value[i]
  {
    if envVars.Some? {
      var entries := envVars.value;
      if exists i :: 0 <= i < |entries| && '=' in entries[i] {
        var i :| 0 <= i < |entries| && '=' in entries[i];
        EnvMapKeys(entries, KeyOf(entries[i]));
      } else if EnvMap(entries) != map[] {
        var k :| k in EnvMap(entries);
        EnvMapKeys(entries, k);
      }
    }
  }
}
