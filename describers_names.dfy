/**
 * Display names of suites and tests (Suite.fullName, Suite.ancestorTitles,
 * Test.fullName, Test.ancestorTitles in packages/describers/src/index.ts).
 */
module SuiteNames {
  import opened Wrappers
  import opened SuiteTree

  // ---------------------------------------------------------------------------
  // String.prototype.trim
  // ---------------------------------------------------------------------------

  /** The characters ECMAScript's trim removes: WhiteSpace and LineTerminator. */
  predicate IsWhitespace(c: char) {
    || c == '\t' || c == '\n' || c == '\U{000B}' || c == '\U{000C}' || c == '\r'
    || c == ' ' || c == '\U{00A0}' || c == '\U{1680}'
    || ('\U{2000}' <= c <= '\U{200A}')
    || c == '\U{2028}' || c == '\U{2029}' || c == '\U{202F}' || c == '\U{205F}'
    || c == '\U{3000}' || c == '\U{FEFF}'
  }

  ghost predicate AllWhitespace(s: string) {
    forall k | 0 <= k < |s| :: IsWhitespace(s[k])
  }

  /** Neither end of s is whitespace. */
  ghost predicate Trimmed(s: string) {
    s == [] || (!IsWhitespace(s[0]) && !IsWhitespace(s[|s| - 1]))
  }

  function TrimStart(s: string): (r: string)
    ensures |r| <= |s| && r == s[|s| - |r|..]
    ensures AllWhitespace(s[..|s| - |r|])
    ensures r == [] || !IsWhitespace(r[0])
  {
    if s != [] && IsWhitespace(s[0]) then TrimStart(s[1..]) else s
  }

  function TrimEnd(s: string): (r: string)
    ensures |r| <= |s| && r == s[..|r|]
    ensures AllWhitespace(s[|r|..])
    ensures r == [] || !IsWhitespace(r[|r| - 1])
  {
    if s != [] && IsWhitespace(s[|s| - 1]) then TrimEnd(s[..|s| - 1]) else s
  }

  /** r is the slice of s from lo, with nothing but whitespace around it. */
  ghost predicate Surrounds(s: string, lo: nat, r: string)
    requires lo + |r| <= |s|
  {
    r == s[lo..lo + |r|] && AllWhitespace(s[..lo]) && AllWhitespace(s[lo + |r|..])
  }

  /** String.prototype.trim: the input less its leading and trailing whitespace. */
  function Trim(s: string): (r: string)
    ensures Trimmed(r) && |r| <= |s|
  {
    TrimEnd(TrimStart(s))
  }

  /** What trim removes is whitespace at both ends, and what it keeps is one slice of the input. */
  lemma TrimSlices(s: string)
    ensures exists lo: nat | lo + |Trim(s)| <= |s| :: Surrounds(s, lo, Trim(s))
  {
    var t := TrimStart(s);
    var r := TrimEnd(t);
    var lo := |s| - |t|;
    assert r == s[lo..lo + |r|];
    assert s[lo + |r|..] == t[|r|..];
    assert Surrounds(s, lo, r);
    assert Trim(s) == r;
  }

  lemma TrimOfTrimmed(s: string)
    requires Trimmed(s)
    ensures Trim(s) == s
  {
    if s != [] {
      assert TrimStart(s) == s;
    }
  }

  /** Array.prototype.join with a separator. */
  function Join(xs: seq<string>, sep: string): string {
    if xs == [] then ""
    else if |xs| == 1 then xs[0]
    else Join(xs[..|xs| - 1], sep) + sep + xs[|xs| - 1]
  }

  ghost predicate CleanTitles(xs: seq<string>) {
    forall k | 0 <= k < |xs| :: xs[k] != "" && Trimmed(xs[k])
  }

  lemma {:induction false} JoinOfCleanTitles(xs: seq<string>)
    requires CleanTitles(xs)
    ensures Trimmed(Join(xs, " "))
    ensures Join(xs, " ") == "" <==> xs == []
  {
    if |xs| > 1 {
      JoinOfCleanTitles(xs[..|xs| - 1]);
    }
  }

  /**
   * One step of fullName: trimming "<prefix> <name>" for a clean prefix is the
   * join of the titles with the name appended, or the prefix alone for an
   * empty name.
   */
  lemma JoinStep(titles: seq<string>, name: string)
    requires CleanTitles(titles) && Trimmed(name)
    ensures Trim(Join(titles, " ") + " " + name)
         == if name == "" then Join(titles, " ") else Join(titles + [name], " ")
  {
    var j := Join(titles, " ");
    JoinOfCleanTitles(titles);
    var s := j + " " + name;
    if name == "" {
      assert TrimEnd(s) == j by {
        if j != [] { assert s[..|s| - 1] == j; }
      }
      if j == [] {
        assert TrimStart(s) == "";
      } else {
        assert TrimStart(s) == s;
      }
    } else {
      assert (titles + [name])[..|titles|] == titles;
      if j == [] {
        assert titles == [];
        assert s[1..] == name;
        assert TrimStart(s) == TrimStart(name) == name;
        TrimOfTrimmed(name);
      } else {
        assert Trimmed(s);
        TrimOfTrimmed(s);
      }
    }
  }

  // ---------------------------------------------------------------------------
  // Suite and test names
  // ---------------------------------------------------------------------------

  /** Suite.fullName: the parent's full name and this name, space-joined and trimmed. */
  function FullName(a: Arena, i: nat): (r: string)
    requires WellFormed(a) && i < |a.suites|
    ensures a.suites[i].parent.Some? ==> Trimmed(r)
    decreases i
  {
    SuiteFacts(a, i);
    match a.suites[i].parent
    case None => a.suites[i].name
    case Some(p) => Trim(FullName(a, p) + " " + a.suites[i].name)
  }

  /** Suite.ancestorTitles: the non-empty names from the root down to this suite. */
  function AncestorTitles(a: Arena, i: nat): (r: seq<string>)
    requires WellFormed(a) && i < |a.suites|
    ensures forall k | 0 <= k < |r| :: r[k] != ""
    decreases i
  {
    SuiteFacts(a, i);
    var name := a.suites[i].name;
    match a.suites[i].parent
    case None => if name == "" then [] else [name]
    case Some(p) => if name == "" then AncestorTitles(a, p) else AncestorTitles(a, p) + [name]
  }

  /** The names along a chain of suites, with the empty ones dropped. */
  function NamedSuites(a: Arena, chain: seq<nat>): seq<string>
    requires forall k | 0 <= k < |chain| :: chain[k] < |a.suites|
  {
    if chain == [] then []
    else
      var rest := NamedSuites(a, chain[..|chain| - 1]);
      var name := a.suites[chain[|chain| - 1]].name;
      if name == "" then rest else rest + [name]
  }

  /** ancestorTitles lists exactly the non-empty names on the suite's chain, root first. */
  lemma {:induction false} AncestorTitlesAreNamedChain(a: Arena, i: nat)
    requires WellFormed(a) && i < |a.suites|
    ensures AncestorTitles(a, i) == NamedSuites(a, SuiteChain(a, i))
    decreases i
  {
    SuiteFacts(a, i);
    var chain := SuiteChain(a, i);
    if a.suites[i].parent.Some? {
      var p := a.suites[i].parent.value;
      AncestorTitlesAreNamedChain(a, p);
      assert chain[..|chain| - 1] == SuiteChain(a, p);
    } else {
      assert chain[..|chain| - 1] == [];
    }
  }

  /** Every suite from the root down to i has a name without outer whitespace. */
  ghost predicate CleanNames(a: Arena, i: nat)
    requires WellFormed(a) && i < |a.suites|
  {
    var chain := SuiteChain(a, i);
    forall k | 0 <= k < |chain| :: Trimmed(a.suites[chain[k]].name)
  }

  /**
   * With names that carry no outer whitespace, fullName is the titles of
   * ancestorTitles joined by single spaces: empty names vanish from both.
   */
  lemma {:induction false} FullNameJoinsTitles(a: Arena, i: nat)
    requires WellFormed(a) && i < |a.suites| && CleanNames(a, i)
    ensures CleanTitles(AncestorTitles(a, i))
    ensures FullName(a, i) == Join(AncestorTitles(a, i), " ")
    decreases i
  {
    SuiteFacts(a, i);
    var chain := SuiteChain(a, i);
    var name := a.suites[i].name;
    assert Trimmed(a.suites[chain[|chain| - 1]].name);
    if a.suites[i].parent.Some? {
      var p := a.suites[i].parent.value;
      assert chain == SuiteChain(a, p) + [i];
      assert CleanNames(a, p) by {
        var pc := SuiteChain(a, p);
        forall k | 0 <= k < |pc| ensures Trimmed(a.suites[pc[k]].name) {
          assert pc[k] == chain[k];
        }
      }
      FullNameJoinsTitles(a, p);
      var titles := AncestorTitles(a, p);
      assert FullName(a, i) == Trim(Join(titles, " ") + " " + name);
      JoinStep(titles, name);
      if name == "" {
        assert AncestorTitles(a, i) == titles;
      } else {
        assert AncestorTitles(a, i) == titles + [name];
        assert CleanTitles(titles + [name]) by {
          forall k | 0 <= k < |titles| + 1
            ensures (titles + [name])[k] != "" && Trimmed((titles + [name])[k])
          {
            if k < |titles| { assert (titles + [name])[k] == titles[k]; }
          }
        }
      }
    } else {
      assert chain == [i];
    }
  }

  /** Test.fullName: the suite's full name and the test name, space-joined and trimmed. */
  function TestFullName(a: Arena, t: nat): (r: string)
    requires WellFormed(a) && t < |a.tests|
    ensures Trimmed(r)
  {
    assert TestOk(a, t);
    Trim(FullName(a, a.tests[t].suite) + " " + a.tests[t].name)
  }

  /** Test.ancestorTitles: the suite's titles followed by the test's own name. */
  function TestAncestorTitles(a: Arena, t: nat): (r: seq<string>)
    requires WellFormed(a) && t < |a.tests|
    ensures |r| > 0 && r[|r| - 1] == a.tests[t].name
    ensures forall k | 0 <= k < |r| - 1 :: r[k] != ""
  {
    assert TestOk(a, t);
    AncestorTitles(a, a.tests[t].suite) + [a.tests[t].name]
  }

  /** For a non-empty, clean test name, a test's fullName joins its ancestorTitles. */
  lemma TestFullNameJoinsTitles(a: Arena, t: nat)
    requires WellFormed(a) && t < |a.tests|
    requires TestOk(a, t) && CleanNames(a, a.tests[t].suite)
    requires a.tests[t].name != "" && Trimmed(a.tests[t].name)
    ensures TestFullName(a, t) == Join(TestAncestorTitles(a, t), " ")
  {
    var s := a.tests[t].suite;
    FullNameJoinsTitles(a, s);
    JoinStep(AncestorTitles(a, s), a.tests[t].name);
  }
}
