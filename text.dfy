/** The handful of Python `str` operations the installer relies on, over `seq<char>`. */
module Text {

  predicate StartsWith(s: string, prefix: string) {
    |prefix| <= |s| && s[..|prefix|] == prefix
  }

  predicate EndsWith(s: string, suffix: string) {
    |suffix| <= |s| && s[|s| - |suffix|..] == suffix
  }

  /** `s.find(c)`, with |s| standing for "not found". */
  function IndexOf(s: string, c: char): (i: nat)
    ensures i <= |s|
    ensures i < |s| ==> s[i] == c
    ensures forall j :: 0 <= j < i ==> s[j] != c
  {
    if s == [] then 0
    else if s[0] == c then 0
    else 1 + IndexOf(s[1..], c)
  }

  /** `s.split(c)` for a one-character separator: the maximal pieces between separators, in order.
      Defined one character at a time: a separator opens a new piece, any other character joins
      the first piece of the rest. */
  function Split(s: string, c: char): (parts: seq<string>)
    ensures |parts| >= 1
    ensures c !in s ==> parts == [s]
    ensures c in s ==> |parts| >= 2
    decreases |s|
  {
    if s == [] then [[]]
    else
      var rest := Split(s[1..], c);
      if s[0] == c then [[]] + rest
      else
        assert [s[0]] + s[1..] == s;
        assert c in s ==> c in s[1..];
        [[s[0]] + rest[0]] + rest[1..]
  }

  /** A separator-free prefix followed by a separator is the first piece; the rest is split on
      its own. */
  lemma {:induction false} SplitAfter(a: string, c: char, rest: string)
    requires c !in a
    ensures Split(a + [c] + rest, c) == [a] + Split(rest, c)
    decreases |a|
  {
    var s := a + [c] + rest;
    if a == [] {
      assert s[0] == c && s[1..] == rest;
    } else {
      assert s[0] == a[0] != c;
      assert s[1..] == a[1..] + [c] + rest;
      SplitAfter(a[1..], c, rest);
      var r := Split(s[1..], c);
      assert r[0] == a[1..] && r[1..] == Split(rest, c);
      assert [a[0]] + a[1..] == a;
    }
  }

  /** No piece of a split holds the separator. */
  lemma {:induction false} SplitPiecesFree(s: string, c: char, k: nat)
    requires k < |Split(s, c)|
    ensures c !in Split(s, c)[k]
    decreases |s|
  {
    if s != [] {
      var rest := Split(s[1..], c);
      if s[0] == c {
        if k > 0 {
          SplitPiecesFree(s[1..], c, k - 1);
        }
      } else if k == 0 {
        SplitPiecesFree(s[1..], c, 0);
        assert Split(s, c)[0] == [s[0]] + rest[0];
      } else {
        SplitPiecesFree(s[1..], c, k);
      }
    }
  }

  /** `c.join(parts)`, the inverse of Split. */
  function Join(parts: seq<string>, c: char): string
    requires |parts| >= 1
  {
    if |parts| == 1 then parts[0]
    else parts[0] + [c] + Join(parts[1..], c)
  }

  /** One step of Join. */
  lemma JoinStep(parts: seq<string>, c: char)
    requires |parts| >= 2
    ensures Join(parts, c) == parts[0] + [c] + Join(parts[1..], c)
  {
  }

  /** Joining the pieces of a split gives back the original string. */
  lemma {:induction false} JoinSplit(s: string, c: char)
    ensures Join(Split(s, c), c) == s
    decreases |s|
  {
    if c in s {
      var i := IndexOf(s, c);
      var a, rest := s[..i], s[i + 1..];
      assert s == a + [c] + rest;
      SplitAfter(a, c, rest);
      JoinStep([a] + Split(rest, c), c);
      assert ([a] + Split(rest, c))[1..] == Split(rest, c);
      JoinSplit(rest, c);
    }
  }

  /** `s.split(c)[-1]`. */
  function LastPiece(s: string, c: char): string {
    var parts := Split(s, c);
    parts[|parts| - 1]
  }

  /** Where the last piece starts: one past the last separator, or 0 (Python's `s.rfind(c) + 1`). */
  function AfterLast(s: string, c: char): (k: nat)
    ensures k <= |s|
    ensures k == 0 || s[k - 1] == c
    ensures forall j :: k <= j < |s| ==> s[j] != c
    decreases |s|
  {
    if s == [] then 0
    else
      var k := AfterLast(s[1..], c);
      if k > 0 then k + 1 else if s[0] == c then 1 else 0
  }

  /** The last piece is what follows the last separator. */
  lemma {:induction false} LastPieceIsSuffix(s: string, c: char)
    ensures LastPiece(s, c) == s[AfterLast(s, c)..]
    decreases |s|
  {
    if s != [] {
      var rest := Split(s[1..], c);
      var parts := Split(s, c);
      var k := AfterLast(s[1..], c);
      LastPieceIsSuffix(s[1..], c);
      if k > 0 {
        assert s[1..][k - 1] == c;
        assert parts[|parts| - 1] == rest[|rest| - 1];
        assert s[k + 1..] == s[1..][k..];
      } else if s[0] == c {
        assert parts[|parts| - 1] == rest[|rest| - 1];
        assert s[1..] == s[1..][0..];
      } else {
        assert c !in s[1..] by {
          forall j | 0 <= j < |s[1..]| ensures s[1..][j] != c { }
        }
        assert [s[0]] + s[1..] == s;
      }
    }
  }

  /** `s.replace(a, b)` for single characters. */
  function ReplaceChar(s: string, a: char, b: char): (r: string)
    ensures |r| == |s|
    ensures forall i :: 0 <= i < |s| ==> r[i] == (if s[i] == a then b else s[i])
  {
    if s == [] then [] else [if s[0] == a then b else s[0]] + ReplaceChar(s[1..], a, b)
  }

  /** Whether `pat` occurs in `s` (`pat in s`). */
  predicate Occurs(s: string, pat: string)
    decreases |s|
  {
    |pat| <= |s| && (s[..|pat|] == pat || (|s| > 0 && Occurs(s[1..], pat)))
  }

  /** A string starts with what is put in front of it. */
  lemma StartsWithConcat(a: string, b: string)
    ensures StartsWith(a + b, a)
  {
    assert (a + b)[..|a|] == a;
  }

  /** A pattern occurs in any string that has it between two others. */
  lemma {:induction false} OccursInMiddle(a: string, pat: string, b: string)
    ensures Occurs(a + (pat + b), pat)
    decreases |a|
  {
    var s := a + (pat + b);
    if a == [] {
      assert s == pat + b;
      assert s[..|pat|] == pat;
    } else {
      OccursInMiddle(a[1..], pat, b);
      assert s[1..] == a[1..] + (pat + b);
    }
  }

  /** Putting a string in front keeps every occurrence. */
  lemma {:induction false} OccursAfter(a: string, b: string, pat: string)
    requires Occurs(b, pat)
    ensures Occurs(a + b, pat)
    decreases |a|
  {
    if a != [] {
      OccursAfter(a[1..], b, pat);
      assert (a + b)[1..] == a[1..] + b;
    } else {
      assert a + b == b;
    }
  }

  /** `s.replace(pat, "")`: removes the non-overlapping occurrences of `pat`, scanning left to right. */
  function RemoveAll(s: string, pat: string): (r: string)
    requires |pat| > 0
    ensures |r| <= |s|
    decreases |s|
  {
    if |s| < |pat| then s
    else if s[..|pat|] == pat then RemoveAll(s[|pat|..], pat)
    else [s[0]] + RemoveAll(s[1..], pat)
  }

  /** One step of removing ".py" where the string does not start with '.'. */
  lemma RemovePyKeep(s: string)
    requires |s| >= 3 && s[0] != '.'
    ensures RemoveAll(s, ".py") == [s[0]] + RemoveAll(s[1..], ".py")
  {
  }

  /** One step of removing ".py" where the string starts with it. */
  lemma RemovePyDrop(s: string)
    requires |s| >= 3 && s[..3] == ".py"
    ensures RemoveAll(s, ".py") == RemoveAll(s[3..], ".py")
  {
  }

  /** Removing ".py" from `a + ".py" + b`, where `a` has no '.', keeps `a` and removes that ".py". */
  lemma {:induction false} RemovePyAfterDotless(a: string, b: string)
    requires '.' !in a
    ensures RemoveAll(a + ".py" + b, ".py") == a + RemoveAll(b, ".py")
    decreases |a|
  {
    var s := a + ".py" + b;
    if a == [] {
      assert s[..3] == ".py" && s[3..] == b;
      RemovePyDrop(s);
    } else {
      assert s[0] == a[0] && s[1..] == a[1..] + ".py" + b;
      RemovePyKeep(s);
      RemovePyAfterDotless(a[1..], b);
      assert [a[0]] + (a[1..] + RemoveAll(b, ".py")) == a + RemoveAll(b, ".py");
    }
  }

  /** A string without an occurrence of the pattern is left as it is. */
  lemma {:induction false} RemoveAllAbsent(s: string, pat: string)
    requires |pat| > 0 && !Occurs(s, pat)
    ensures RemoveAll(s, pat) == s
    decreases |s|
  {
    if |s| >= |pat| {
      RemoveAllAbsent(s[1..], pat);
      assert [s[0]] + s[1..] == s;
    }
  }

  /** Stripping ".py" from `stem + ".py"` gives `stem` back exactly when `stem` has no ".py" of its own:
      a ".py" cannot straddle the end of the stem, because '.' is neither 'p' nor 'y'. */
  lemma {:induction false} RemovePySuffix(stem: string)
    requires !Occurs(stem, ".py")
    ensures RemoveAll(stem + ".py", ".py") == stem
    decreases |stem|
  {
    var s := stem + ".py";
    if stem == [] {
      assert s[3..] == [];
    } else {
      NoPyAtFront(stem);
      assert !Occurs(stem[1..], ".py");
      RemovePySuffix(stem[1..]);
      assert s[1..] == stem[1..] + ".py";
      assert [stem[0]] + stem[1..] == stem;
    }
  }

  /** A ".py" cannot straddle the end of a stem without one of its own. */
  lemma NoPyAtFront(stem: string)
    requires stem != [] && !Occurs(stem, ".py")
    ensures (stem + ".py")[..3] != ".py"
  {
    var s := stem + ".py";
    if |stem| >= 3 {
      assert s[..3] == stem[..3];
    } else if |stem| == 2 {
      assert s[2] == '.';
    } else {
      assert s[1] == '.';
    }
  }
}
