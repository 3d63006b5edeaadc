/** The config key derived from a package or directory name (mcp_builder/server.py:123-131). */
module Naming {
  import opened Text

  /** The characters `[a-zA-Z0-9_-]` that a key may hold. */
  predicate Allowed(c: char) {
    ('a' <= c <= 'z') || ('A' <= c <= 'Z') || ('0' <= c <= '9') || c == '_' || c == '-'
  }

  /** Every character of `s` may appear in a key. */
  predicate AllAllowed(s: string) {
    forall i :: 0 <= i < |s| ==> Allowed(s[i])
  }

  /** `re.sub(r'[^a-zA-Z0-9_-]', '-', s)`: every disallowed character becomes '-', one for one. */
  function ReplaceInvalid(s: string): (r: string)
    ensures |r| == |s|
    ensures forall i :: 0 <= i < |s| ==> r[i] == (if Allowed(s[i]) then s[i] else '-')
  {
    if s == [] then [] else [if Allowed(s[0]) then s[0] else '-'] + ReplaceInvalid(s[1..])
  }

  /** A name is scoped when it starts with '@' and holds a '/'. */
  predicate Scoped(name: string) {
    StartsWith(name, "@") && '/' in name
  }

  /** `@scope/pkg/...` keeps its second '/'-separated piece; every other name is kept whole. */
  function Unscoped(name: string): (r: string)
    ensures Scoped(name) ==> '/' !in r
    ensures !Scoped(name) ==> r == name
  {
    if Scoped(name) then
      SplitPiecesFree(name, '/', 1);
      Split(name, '/')[1]
    else name
  }

  /** The key `install_to_claude_desktop` stores a server under. */
  function SanitizeName(name: string): (key: string)
    ensures AllAllowed(key)
  {
    ReplaceInvalid(Unscoped(name))
  }

  /** An unscoped name keeps its length and every allowed character in place; only the others
      turn into '-'. */
  lemma SanitizeUnscoped(name: string)
    requires !Scoped(name)
    ensures |SanitizeName(name)| == |name|
    ensures forall i :: 0 <= i < |name| ==>
              SanitizeName(name)[i] == (if Allowed(name[i]) then name[i] else '-')
  {
  }

  /** A scoped name is keyed by its second piece alone: `@scope/pkg` and `pkg` share a key. */
  lemma SanitizeScoped(name: string)
    requires Scoped(name)
    ensures SanitizeName(name) == ReplaceInvalid(Split(name, '/')[1])
    ensures SanitizeName(name) == SanitizeName(Split(name, '/')[1])
  {
    SplitPiecesFree(name, '/', 1);
  }

  /** A string of allowed characters only is its own replacement. */
  lemma ReplaceInvalidFixes(s: string)
    requires AllAllowed(s)
    ensures ReplaceInvalid(s) == s
  {
  }

  /** Sanitizing a key again changes nothing. */
  lemma SanitizeIdempotent(name: string)
    ensures SanitizeName(SanitizeName(name)) == SanitizeName(name)
  {
    var key := SanitizeName(name);
    if |key| > 0 {
      assert Allowed(key[0]);
      assert key[..1] != "@";
    }
    assert !Scoped(key);
    ReplaceInvalidFixes(key);
  }
}
