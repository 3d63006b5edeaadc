/** Typical inputs of the installer, each stated over its varying parts and checked against the
    model. */
module Scenarios {
  import opened Wrappers
  import opened Text
  import opened EnvVars
  import opened Naming
  import opened Resolve

  /** `["A=1", "B=2=x"]` gives `{A: "1", B: "2=x"}`: each entry splits at its first '=' only. */
  lemma EnvExample()
    ensures EnvOf(Some(["A=1", "B=2=x"])) == Some(map["A" := "1", "B" := "2=x"])
  {
    var entries := ["A=1", "B=2=x"];
    assert IndexOf("A=1", '=') == 1;
    assert IndexOf("B=2=x", '=') == 1;
    assert KeyOf("A=1") == "A" && ValueOf("A=1") == "1";
    assert KeyOf("B=2=x") == "B" && ValueOf("B=2=x") == "2=x";
    assert entries[..1] == ["A=1"];
    assert ["A=1"][..0] == [];
    assert EnvMap(["A=1"]) == map["A" := "1"];
    assert EnvMap(entries) == map["A" := "1", "B" := "2=x"];
    assert "A" in EnvMap(entries);
  }

  /** A key character is never '/'. */
  lemma AllowedNoSlash(s: string)
    requires AllAllowed(s)
    ensures '/' !in s
  {
    forall i | 0 <= i < |s| ensures s[i] != '/' {
      assert Allowed(s[i]);
    }
  }

  /** `@scope/pkg` followed by nothing or by a further '/'-piece is scoped, with `pkg` as its
      second piece. */
  lemma ScopedPieces(scope: string, pkg: string, rest: string)
    requires '/' !in scope && '/' !in pkg && (rest == [] || rest[0] == '/')
    ensures var name := "@" + scope + "/" + pkg + rest;
            Scoped(name) && Split(name, '/')[1] == pkg
  {
    var name := "@" + scope + "/" + pkg + rest;
    var lead := "@" + scope;
    assert '/' !in lead by {
      forall i | 0 <= i < |lead| ensures lead[i] != '/' {
        if i > 0 { assert lead[i] == scope[i - 1]; }
      }
    }
    assert name == lead + ['/'] + (pkg + rest);
    SplitAfter(lead, '/', pkg + rest);
    if rest != [] {
      assert pkg + rest == pkg + ['/'] + rest[1..];
      SplitAfter(pkg, '/', rest[1..]);
    }
    assert name[..1] == "@" && name[|lead|] == '/';
  }

  /** `@scope/pkg/more` is keyed by `pkg`, the piece right after the first '/', not the last
      piece. */
  lemma ScopedKeepsSecondPiece(scope: string, pkg: string, more: string)
    requires '/' !in scope && AllAllowed(pkg)
    ensures SanitizeName("@" + scope + "/" + pkg + "/" + more) == pkg
  {
    AllowedNoSlash(pkg);
    ScopedPieces(scope, pkg, "/" + more);
    assert "@" + scope + "/" + pkg + "/" + more == "@" + scope + "/" + pkg + ("/" + more);
    ReplaceInvalidFixes(pkg);
  }

  /** `@scope`, with no '/', is not reduced; its '@' becomes '-'. */
  lemma ScopeOnlyExample()
    ensures SanitizeName("@scope") == "-scope"
  {
    assert !Scoped("@scope");
  }

  /** A dotted Python module name such as `my.module` is stored with the dot turned into '-'. */
  lemma DottedKey(a: string, b: string)
    requires AllAllowed(a) && AllAllowed(b)
    ensures SanitizeName(a + "." + b) == a + "-" + b
  {
    var name := a + "." + b;
    assert !Scoped(name);
    SanitizeUnscoped(name);
    forall i | 0 <= i < |name| ensures SanitizeName(name)[i] == (a + "-" + b)[i] {
      if i < |a| {
        assert name[i] == a[i] && Allowed(a[i]);
      } else if i > |a| {
        assert name[i] == b[i - |a| - 1] && Allowed(b[i - |a| - 1]);
      }
    }
  }

  /** With only the Node.js tools, `@scope/pkg` is stored under `pkg` and run as `npx @scope/pkg`. */
  lemma RemoteScoped(scope: string, pkg: string)
    requires '/' !in scope && AllAllowed(pkg)
    ensures var name := "@" + scope + "/" + pkg;
            ResolveRemote(name, None, Tools(true, true, true, false, false)) ==
            Install(pkg, "npx", [name], None, ViaNpx)
  {
    var name := "@" + scope + "/" + pkg;
    AllowedNoSlash(pkg);
    ScopedPieces(scope, pkg, []);
    assert name + [] == name;
  }

  /** With only the Python tools, `a.b` runs as `python -m a.b`; the message quotes `a.b` while
      the key is `a-b`. */
  lemma RemoteDotted(a: string, b: string)
    requires AllAllowed(a) && AllAllowed(b)
    ensures var name := a + "." + b;
            && ResolveRemote(name, None, Tools(false, false, false, true, true)) ==
               Install(name, "python", ["-m", name], None, ViaPython)
            && SanitizeName(name) == a + "-" + b
  {
    var name := a + "." + b;
    assert name[|a|] == '.';
    RemotePythonSecond(name, None, Tools(false, false, false, true, true));
    DottedKey(a, b);
  }
}
