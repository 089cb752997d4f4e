/**
 * Registration and lazy resolution of suites (packages/describers/src/index.ts):
 * describe/fdescribe/xdescribe and _createSuite, it/fit/xit, the four hook
 * registrars, and Suite.tests, which runs a suite's deferred body once,
 * memoises the tests it finds and resolves the child suites in order.
 *
 * The module-level `currentSuite` of the source is the `current` field of a
 * Registry; the registrars add to whatever suite it names.
 */
module Registration {
  import opened Wrappers
  import opened SuiteTree

  // ---------------------------------------------------------------------------
  // The work still hidden in deferred bodies
  // ---------------------------------------------------------------------------

  /** A body counts one for itself and the sizes of the suite bodies it declares. */
  function BodySize(b: Body): nat
    decreases b, 1
  {
    1 + DeclsSize(b, 0)
  }

  /** The sizes of the suite bodies declared by b.decls[k..]. */
  function DeclsSize(b: Body, k: nat): nat
    decreases b, 0, |b.decls| - k
  {
    if k >= |b.decls| then 0
    else
      assert b.decls[k] in b.decls;
      (match b.decls[k]
       case DeclareSuite(args, _) => BodySize(args.body)
       case _ => 0)
      + DeclsSize(b, k + 1)
  }

  /** The size a registration adds: a declared suite brings its body. */
  function DeclSize(d: Decl): nat {
    match d
    case DeclareSuite(args, _) => BodySize(args.body)
    case _ => 0
  }

  function CallbackSize(cb: Option<Body>): nat {
    match cb
    case None => 0
    case Some(b) => BodySize(b)
  }

  /** The total size of the bodies not yet run; resolution makes it shrink. */
  function Pending(s: seq<SuiteNode>): nat {
    if s == [] then 0 else Pending(s[..|s| - 1]) + CallbackSize(s[|s| - 1].callback)
  }

  lemma {:induction false} PendingUpdate(s: seq<SuiteNode>, i: nat, n: SuiteNode)
    requires i < |s|
    ensures Pending(s[i := n]) + CallbackSize(s[i].callback) == Pending(s) + CallbackSize(n.callback)
    decreases |s|
  {
    var s' := s[i := n];
    if i < |s| - 1 {
      assert s'[..|s'| - 1] == s[..|s| - 1][i := n];
      PendingUpdate(s[..|s| - 1], i, n);
    } else {
      assert s'[..|s'| - 1] == s[..|s| - 1];
    }
  }

  lemma PendingAppend(s: seq<SuiteNode>, n: SuiteNode)
    ensures Pending(s + [n]) == Pending(s) + CallbackSize(n.callback)
  {
    assert (s + [n])[..|s|] == s;
  }

  // ---------------------------------------------------------------------------
  // Arena updates that keep it well formed
  // ---------------------------------------------------------------------------

  /** The name _createSuite gives: the first argument when a body follows it, '' otherwise. */
  function SuiteName(args: SuiteArgs): string {
    match args
    case Named(name, _) => name
    case Anonymous(_) => ""
  }

  /** A suite replaced by one with the same links and a consistent memo keeps the arena well formed. */
  lemma ReplaceKeepsWellFormed(a: Arena, i: nat, n: SuiteNode)
    requires WellFormed(a) && i < |a.suites|
    requires n.parent == a.suites[i].parent && n.children == a.suites[i].children
    requires n.callback.Some? ==> n.resolved == []
    requires forall k | 0 <= k < |n.resolved| :: n.resolved[k] < |a.tests|
    ensures WellFormed(Arena(a.suites[i := n], a.tests))
    ensures n.name == a.suites[i].name && n.focused == a.suites[i].focused && n.skipped == a.suites[i].skipped ==>
      Extends(a, Arena(a.suites[i := n], a.tests))
  {
    var b := Arena(a.suites[i := n], a.tests);
    forall j | 0 < j < |b.suites| ensures ParentOk(b, j) {
      assert ParentOk(a, j);
    }
    forall j, k | 0 <= j < |b.suites| && 0 <= k < |b.suites[j].children|
      ensures ChildOk(b, j, b.suites[j].children[k])
    {
      assert ChildOk(a, j, a.suites[j].children[k]);
    }
    forall t | 0 <= t < |b.tests| ensures TestOk(b, t) {
      assert TestOk(a, t);
    }
    forall j | 0 <= j < |b.suites| ensures ResolvedOk(b, j) && DistinctKids(b, j) {
      assert ResolvedOk(a, j) && DistinctKids(a, j);
    }
  }

  /** Appending a fresh, childless suite under p keeps the arena well formed. */
  lemma AddSuiteKeepsWellFormed(a: Arena, p: nat, n: SuiteNode)
    requires WellFormed(a) && p < |a.suites|
    requires n.parent == Some(p) && n.children == [] && n.resolved == []
    ensures WellFormed(Arena(a.suites[p := a.suites[p].(children := a.suites[p].children + [SuiteChild(|a.suites|)])] + [n], a.tests))
  {
    var id := |a.suites|;
    var b := Arena(a.suites[p := a.suites[p].(children := a.suites[p].children + [SuiteChild(id)])] + [n], a.tests);
    forall j | 0 < j < |b.suites| ensures ParentOk(b, j) {
      if j < id {
        assert ParentOk(a, j);
      }
    }
    forall j, k | 0 <= j < |b.suites| && 0 <= k < |b.suites[j].children|
      ensures ChildOk(b, j, b.suites[j].children[k])
    {
      if j != p || k < |a.suites[p].children| {
        assert ChildOk(a, j, a.suites[j].children[k]);
      }
    }
    forall t | 0 <= t < |b.tests| ensures TestOk(b, t) {
      assert TestOk(a, t);
    }
    forall j | 0 <= j < |b.suites| ensures ResolvedOk(b, j) && DistinctKids(b, j) {
      if j < id {
        assert ResolvedOk(a, j) && DistinctKids(a, j);
      }
      if j == p {
        var kids := a.suites[p].children;
        forall k | 0 <= k < |kids| ensures kids[k] != SuiteChild(id) {
          assert ChildOk(a, p, kids[k]);
        }
      }
    }
  }

  /** Appending a test to suite p keeps the arena well formed. */
  lemma AddTestKeepsWellFormed(a: Arena, p: nat, n: TestNode)
    requires WellFormed(a) && p < |a.suites| && n.suite == p
    ensures WellFormed(Arena(a.suites[p := a.suites[p].(children := a.suites[p].children + [TestChild(|a.tests|)])], a.tests + [n]))
  {
    var id := |a.tests|;
    var b := Arena(a.suites[p := a.suites[p].(children := a.suites[p].children + [TestChild(id)])], a.tests + [n]);
    forall j | 0 < j < |b.suites| ensures ParentOk(b, j) {
      assert ParentOk(a, j);
    }
    forall j, k | 0 <= j < |b.suites| && 0 <= k < |b.suites[j].children|
      ensures ChildOk(b, j, b.suites[j].children[k])
    {
      if j != p || k < |a.suites[p].children| {
        assert ChildOk(a, j, a.suites[j].children[k]);
      }
    }
    forall t | 0 <= t < |b.tests| ensures TestOk(b, t) {
      if t < id {
        assert TestOk(a, t);
      }
    }
    forall j | 0 <= j < |b.suites| ensures ResolvedOk(b, j) && DistinctKids(b, j) {
      assert ResolvedOk(a, j) && DistinctKids(a, j);
      if j == p {
        var kids := a.suites[p].children;
        forall k | 0 <= k < |kids| ensures kids[k] != TestChild(id) {
          assert ChildOk(a, p, kids[k]);
        }
      }
    }
  }

  // ---------------------------------------------------------------------------
  // What resolution produces
  // ---------------------------------------------------------------------------

  /** The tests of the first n children of i, the suites among them expanded in full. */
  function FlattenKids(a: Arena, i: nat, n: nat): seq<nat>
    requires i < |a.suites| && n <= |a.suites[i].children|
    decreases |a.suites| - i, 0, n
  {
    if n == 0 then []
    else
      FlattenKids(a, i, n - 1) +
      match a.suites[i].children[n - 1]
      case TestChild(t) => [t]
      case SuiteChild(j) => if i < j < |a.suites| then Flatten(a, j) else []
  }

  /** Every test below suite i, depth first, each suite's children in registration order. */
  function Flatten(a: Arena, i: nat): seq<nat>
    requires i < |a.suites|
    decreases |a.suites| - i, 1
  {
    FlattenKids(a, i, |a.suites[i].children|)
  }

  /** The memo of Suite.tests after one level: tests as they are, child suites by their own memo. */
  function ExpandKids(a: Arena, i: nat, n: nat): seq<nat>
    requires i < |a.suites| && n <= |a.suites[i].children|
  {
    if n == 0 then []
    else
      ExpandKids(a, i, n - 1) +
      match a.suites[i].children[n - 1]
      case TestChild(t) => [t]
      case SuiteChild(j) => if j < |a.suites| then a.suites[j].resolved else []
  }

  // ---------------------------------------------------------------------------
  // How resolution ends
  // ---------------------------------------------------------------------------

  /** Of two steps in a row, the first failure: p unless it is NoError, then q. */
  function Then(p: Outcome, q: Outcome): (r: Outcome)
    ensures r == NoError <==> p == NoError && q == NoError
  {
    if p != NoError then p else q
  }

  /**
   * How resolving a suite whose body is b, and which has no children yet,
   * ends: the body's own error, else the first error met while resolving the
   * suites it declares, in order.
   */
  function BodyOutcome(b: Body): Outcome
    decreases b, 1
  {
    Then(b.outcome, DeclsOutcome(b, |b.decls|))
  }

  /** The first error met while resolving the suites declared by b.decls[..n], in order. */
  function DeclsOutcome(b: Body, n: nat): Outcome
    requires n <= |b.decls|
    decreases b, 0, n
  {
    if n == 0 then NoError
    else
      assert b.decls[n - 1] in b.decls;
      Then(DeclsOutcome(b, n - 1),
           match b.decls[n - 1]
           case DeclareSuite(args, _) => BodyOutcome(args.body)
           case _ => NoError)
  }

  /**
   * How Suite.tests on suite i ends: NoError for a suite already resolved;
   * otherwise the body's error, else the first error met while resolving its
   * children in order, first those it had, then those its body declared.
   */
  function ResolveOutcome(a: Arena, i: nat): Outcome
    requires i < |a.suites|
    decreases |a.suites| - i, 1
  {
    match a.suites[i].callback
    case None => NoError
    case Some(b) => Then(b.outcome, Then(ChildrenOutcome(a, i, a.suites[i].children), DeclsOutcome(b, |b.decls|)))
  }

  /** The first error met while resolving the given children of suite i, in order. */
  function ChildrenOutcome(a: Arena, i: nat, kids: seq<Child>): Outcome
    requires i < |a.suites|
    decreases |a.suites| - i, 0, |kids|
  {
    if kids == [] then NoError
    else Then(ChildrenOutcome(a, i, kids[..|kids| - 1]), KidOutcome(a, i, kids[|kids| - 1]))
  }

  /** Resolving one child: a test contributes nothing, a suite its own resolution. */
  function KidOutcome(a: Arena, i: nat, c: Child): Outcome
    requires i < |a.suites|
    decreases |a.suites| - i, 0, 0
  {
    match c
    case SuiteChild(j) => if i < j < |a.suites| then ResolveOutcome(a, j) else NoError
    case TestChild(_) => NoError
  }

  /** A body and every suite body it declares, however deep, end without error. */
  predicate BodyOk(b: Body)
    decreases b
  {
    b.outcome == NoError && forall d | d in b.decls :: d.DeclareSuite? ==> BodyOk(d.args.body)
  }

  /**
   * Every body still pending in the subtree of i, and every suite body those
   * declare, however deep, ends without error.
   */
  ghost predicate BodiesOk(a: Arena, i: nat)
    requires i < |a.suites|
    decreases |a.suites| - i
  {
    && (a.suites[i].callback.Some? ==> BodyOk(a.suites[i].callback.value))
    && forall k | 0 <= k < |a.suites[i].children| ::
         var c := a.suites[i].children[k];
         c.SuiteChild? && i < c.suite < |a.suites| ==> BodiesOk(a, c.suite)
  }

  /** A body resolves without error exactly when it and every body it declares end without error. */
  lemma {:induction false} BodyOkOutcome(b: Body)
    ensures BodyOk(b) <==> BodyOutcome(b) == NoError
    decreases b, 1
  {
    DeclsOkOutcome(b, |b.decls|);
    assert b.decls[..|b.decls|] == b.decls;
  }

  lemma {:induction false} DeclsOkOutcome(b: Body, n: nat)
    requires n <= |b.decls|
    ensures DeclsOutcome(b, n) == NoError <==> forall d | d in b.decls[..n] :: d.DeclareSuite? ==> BodyOk(d.args.body)
    decreases b, 0, n
  {
    if n > 0 {
      DeclsOkOutcome(b, n - 1);
      var d := b.decls[n - 1];
      assert d in b.decls;
      assert b.decls[..n] == b.decls[..n - 1] + [d];
      if d.DeclareSuite? {
        BodyOkOutcome(d.args.body);
      }
    }
  }

  /** When every pending body below i ends without error, resolving i ends without error. */
  lemma {:induction false} BodiesOkResolve(a: Arena, i: nat)
    requires i < |a.suites| && BodiesOk(a, i)
    ensures ResolveOutcome(a, i) == NoError
    decreases |a.suites| - i, 1
  {
    var kids := a.suites[i].children;
    ChildrenOk(a, i, kids);
    if a.suites[i].callback.Some? {
      var b := a.suites[i].callback.value;
      BodyOkOutcome(b);
      DeclsOkOutcome(b, |b.decls|);
      assert b.decls[..|b.decls|] == b.decls;
    }
  }

  lemma {:induction false} ChildrenOk(a: Arena, i: nat, kids: seq<Child>)
    requires i < |a.suites|
    requires forall k | 0 <= k < |kids| :: kids[k].SuiteChild? && i < kids[k].suite < |a.suites| ==> BodiesOk(a, kids[k].suite)
    ensures ChildrenOutcome(a, i, kids) == NoError
    decreases |a.suites| - i, 0, |kids|
  {
    if kids != [] {
      ChildrenOk(a, i, kids[..|kids| - 1]);
      var c := kids[|kids| - 1];
      if c.SuiteChild? && i < c.suite < |a.suites| {
        BodiesOkResolve(a, c.suite);
      }
    }
  }

  /** The first error among x and then y is the first error of x, else that of y. */
  lemma {:induction false} ChildrenOutcomeAppend(a: Arena, i: nat, x: seq<Child>, y: seq<Child>)
    requires i < |a.suites|
    ensures ChildrenOutcome(a, i, x + y) == Then(ChildrenOutcome(a, i, x), ChildrenOutcome(a, i, y))
    decreases |y|
  {
    if y == [] {
      assert x + y == x;
    } else {
      var init := y[..|y| - 1];
      assert (x + y)[..|x + y| - 1] == x + init;
      ChildrenOutcomeAppend(a, i, x, init);
    }
  }

  /** How a suite with no children resolves: as its pending body, if it has one. */
  function PendingOutcome(s: SuiteNode): Outcome {
    if s.callback.Some? then BodyOutcome(s.callback.value) else NoError
  }

  /** A suite without children resolves as its pending body does. */
  lemma LeafOutcome(a: Arena, c: nat)
    requires c < |a.suites| && a.suites[c].children == []
    ensures ResolveOutcome(a, c) == PendingOutcome(a.suites[c])
  {
  }

  /** Nothing in the subtree of i has been resolved yet. */
  ghost predicate Pristine(a: Arena, i: nat)
    requires i < |a.suites|
    decreases |a.suites| - i
  {
    && a.suites[i].callback.Some?
    && forall k | 0 <= k < |a.suites[i].children| ::
         var c := a.suites[i].children[k];
         c.SuiteChild? && i < c.suite < |a.suites| ==> Pristine(a, c.suite)
  }

  /** Child k of suite i is test t, or a suite whose subtree holds the suite of t. */
  ghost predicate KidCovers(a: Arena, i: nat, k: nat, t: nat)
    requires WellFormed(a) && i < |a.suites| && k < |a.suites[i].children| && t < |a.tests|
  {
    var c := a.suites[i].children[k];
    c == TestChild(t) || (c.SuiteChild? && InSubtree(a, c.suite, a.tests[t].suite))
  }

  /** The tests from the first n children of i are those some of these children cover. */
  lemma {:induction false} FlattenKidsMembers(a: Arena, i: nat, n: nat, t: nat)
    requires WellFormed(a) && i < |a.suites| && n <= |a.suites[i].children| && t < |a.tests|
    ensures t in FlattenKids(a, i, n) <==> exists k | 0 <= k < n :: KidCovers(a, i, k, t)
    decreases |a.suites| - i, 0, n
  {
    if n > 0 {
      FlattenKidsMembers(a, i, n - 1, t);
      var c := a.suites[i].children[n - 1];
      assert ChildOk(a, i, c);
      if c.SuiteChild? {
        FlattenMembers(a, c.suite, t);
      }
      if t in FlattenKids(a, i, n) && t !in FlattenKids(a, i, n - 1) {
        assert KidCovers(a, i, n - 1, t);
      }
    }
  }

  /** Flatten lists exactly the tests whose suite lies in the subtree of i. */
  lemma {:induction false} FlattenMembers(a: Arena, i: nat, t: nat)
    requires WellFormed(a) && i < |a.suites| && t < |a.tests|
    ensures t in Flatten(a, i) <==> i in SuiteChain(a, a.tests[t].suite)
    decreases |a.suites| - i, 1
  {
    var kids := a.suites[i].children;
    FlattenKidsMembers(a, i, |kids|, t);
    if t in Flatten(a, i) {
      FlattenSound(a, i, t);
    }
    if i in SuiteChain(a, a.tests[t].suite) {
      var k := CoveringKid(a, i, t);
    }
  }

  lemma FlattenSound(a: Arena, i: nat, t: nat)
    requires WellFormed(a) && i < |a.suites| && t < |a.tests|
    requires exists k | 0 <= k < |a.suites[i].children| :: KidCovers(a, i, k, t)
    ensures i in SuiteChain(a, a.tests[t].suite)
  {
    var kids := a.suites[i].children;
    var s := a.tests[t].suite;
    var k :| 0 <= k < |kids| && KidCovers(a, i, k, t);
    assert ChildOk(a, i, kids[k]);
    if kids[k].SuiteChild? {
      ChildSubtree(a, i, kids[k].suite, s);
    }
  }

  /** The child of i through which the suite of t hangs below i. */
  lemma CoveringKid(a: Arena, i: nat, t: nat) returns (k: nat)
    requires WellFormed(a) && i < |a.suites| && t < |a.tests|
    requires i in SuiteChain(a, a.tests[t].suite)
    ensures k < |a.suites[i].children| && KidCovers(a, i, k, t)
  {
    var kids := a.suites[i].children;
    var s := a.tests[t].suite;
    var chain := SuiteChain(a, s);
    assert TestOk(a, t);
    if s == i {
      k :| 0 <= k < |kids| && kids[k] == TestChild(t);
    } else {
      var m :| 0 <= m < |chain| && chain[m] == i;
      assert m + 1 < |chain|;
      var c := chain[m + 1];
      ChainStep(a, s, m);
      ChainPrefix(a, s, m + 1);
      assert ParentOk(a, c);
      k :| 0 <= k < |kids| && kids[k] == SuiteChild(c);
      assert InSubtree(a, c, s);
    }
  }

  /** Consecutive suites on a chain are parent and child. */
  lemma ChainStep(a: Arena, s: nat, m: nat)
    requires WellFormed(a) && s < |a.suites| && m + 1 < |SuiteChain(a, s)|
    ensures a.suites[SuiteChain(a, s)[m + 1]].parent == Some(SuiteChain(a, s)[m])
  {
    var chain := SuiteChain(a, s);
    var c := chain[m + 1];
    assert chain[m] < c;
    ChainPrefix(a, s, m + 1);
    var cc := SuiteChain(a, c);
    assert cc == chain[..m + 2];
    SuiteFacts(a, c);
    var p := a.suites[c].parent.value;
    var pc := SuiteChain(a, p);
    assert cc == pc + [c];
    assert pc == cc[..|cc| - 1];
    assert p == pc[|pc| - 1] == cc[m];
  }

  // ---------------------------------------------------------------------------
  // Stability of the views under changes elsewhere
  // ---------------------------------------------------------------------------

  /** A suite on the chain of k is never younger than k. */
  lemma InChainBelow(a: Arena, c: nat, k: nat)
    requires WellFormed(a) && k < |a.suites| && c in SuiteChain(a, k)
    ensures c <= k
  {
    var chain := SuiteChain(a, k);
    var m :| 0 <= m < |chain| && chain[m] == c;
    if m < |chain| - 1 {
      assert chain[m] < chain[|chain| - 1];
    }
  }

  lemma UnchangedChild(a0: Arena, a1: Arena, x: nat, c: nat)
    requires WellFormed(a0) && x < c < |a0.suites| && a0.suites[c].parent == Some(x)
    requires Unchanged(a0, a1, x)
    ensures Unchanged(a0, a1, c)
  {
    forall k | 0 <= k < |a0.suites| && c in SuiteChain(a0, k)
      ensures SameAt(a0, a1, k)
    {
      ChildSubtree(a0, x, c, k);
    }
  }

  /** Changing suite i alone leaves the subtree of every younger suite as it was. */
  lemma UnchangedAbove(a0: Arena, a1: Arena, i: nat, c: nat)
    requires WellFormed(a0) && i < c && |a0.suites| <= |a1.suites|
    requires forall k | 0 <= k < |a0.suites| && k != i :: a1.suites[k] == a0.suites[k]
    ensures Unchanged(a0, a1, c)
  {
    forall k | 0 <= k < |a0.suites| && c in SuiteChain(a0, k)
      ensures SameAt(a0, a1, k)
    {
      InChainBelow(a0, c, k);
    }
  }

  lemma {:induction false} FlattenKidsSame(a0: Arena, a1: Arena, i: nat, n: nat)
    requires WellFormed(a0) && WellFormed(a1) && i < |a0.suites| <= |a1.suites|
    requires a1.suites[i].children == a0.suites[i].children && n <= |a0.suites[i].children|
    requires forall m | 0 <= m < n && a0.suites[i].children[m].SuiteChild? :: Unchanged(a0, a1, a0.suites[i].children[m].suite)
    ensures FlattenKids(a1, i, n) == FlattenKids(a0, i, n)
    decreases |a0.suites| - i, 0, n
  {
    if n > 0 {
      FlattenKidsSame(a0, a1, i, n - 1);
      var c := a0.suites[i].children[n - 1];
      assert ChildOk(a0, i, c);
      if c.SuiteChild? {
        FlattenStable(a0, a1, c.suite);
      }
    }
  }

  /** Flatten of x depends on the subtree of x alone. */
  lemma {:induction false} FlattenStable(a0: Arena, a1: Arena, x: nat)
    requires WellFormed(a0) && WellFormed(a1) && x < |a0.suites| <= |a1.suites| && Unchanged(a0, a1, x)
    ensures Flatten(a1, x) == Flatten(a0, x)
    decreases |a0.suites| - x, 1
  {
    assert SuiteChain(a0, x)[|SuiteChain(a0, x)| - 1] == x;
    assert SameAt(a0, a1, x);
    var kids := a0.suites[x].children;
    forall m | 0 <= m < |kids| && kids[m].SuiteChild?
      ensures Unchanged(a0, a1, kids[m].suite)
    {
      assert ChildOk(a0, x, kids[m]);
      UnchangedChild(a0, a1, x, kids[m].suite);
    }
    FlattenKidsSame(a0, a1, x, |kids|);
  }

  /** Whether the subtree of x is untouched depends on that subtree alone. */
  lemma {:induction false} PristineStable(a0: Arena, a1: Arena, x: nat)
    requires WellFormed(a0) && WellFormed(a1) && x < |a0.suites| <= |a1.suites| && Unchanged(a0, a1, x)
    requires Pristine(a0, x)
    ensures Pristine(a1, x)
    decreases |a0.suites| - x
  {
    assert SuiteChain(a0, x)[|SuiteChain(a0, x)| - 1] == x;
    assert SameAt(a0, a1, x);
    var kids := a0.suites[x].children;
    forall m | 0 <= m < |kids| && kids[m].SuiteChild?
      ensures Pristine(a1, kids[m].suite)
    {
      assert ChildOk(a0, x, kids[m]);
      UnchangedChild(a0, a1, x, kids[m].suite);
      PristineStable(a0, a1, kids[m].suite);
    }
  }

  /** How resolving x ends depends on the subtree of x alone. */
  lemma {:induction false} ResolveStable(a0: Arena, a1: Arena, x: nat)
    requires WellFormed(a0) && x < |a0.suites| <= |a1.suites| && Unchanged(a0, a1, x)
    ensures ResolveOutcome(a1, x) == ResolveOutcome(a0, x)
    decreases |a0.suites| - x, 1
  {
    assert SuiteChain(a0, x)[|SuiteChain(a0, x)| - 1] == x;
    assert SameAt(a0, a1, x);
    var kids := a0.suites[x].children;
    forall m | 0 <= m < |kids| && kids[m].SuiteChild?
      ensures kids[m].suite < |a0.suites| && (x < kids[m].suite ==> Unchanged(a0, a1, kids[m].suite))
    {
      assert ChildOk(a0, x, kids[m]);
      UnchangedChild(a0, a1, x, kids[m].suite);
    }
    ChildrenOutcomeSame(a0, a1, x, kids);
  }

  lemma {:induction false} ChildrenOutcomeSame(a0: Arena, a1: Arena, i: nat, kids: seq<Child>)
    requires WellFormed(a0) && i < |a0.suites| <= |a1.suites|
    requires forall m | 0 <= m < |kids| && kids[m].SuiteChild? ::
      kids[m].suite < |a0.suites| && (i < kids[m].suite ==> Unchanged(a0, a1, kids[m].suite))
    ensures ChildrenOutcome(a1, i, kids) == ChildrenOutcome(a0, i, kids)
    decreases |a0.suites| - i, 0, |kids|
  {
    if kids != [] {
      ChildrenOutcomeSame(a0, a1, i, kids[..|kids| - 1]);
      var c := kids[|kids| - 1];
      if c.SuiteChild? && i < c.suite {
        ResolveStable(a0, a1, c.suite);
      }
    }
  }

  lemma {:induction false} ExpandKidsSame(a0: Arena, a1: Arena, i: nat, n: nat)
    requires WellFormed(a0) && WellFormed(a1) && i < |a0.suites| && |a0.suites| <= |a1.suites|
    requires a1.suites[i].children == a0.suites[i].children && n <= |a0.suites[i].children|
    requires forall m | 0 <= m < n && a0.suites[i].children[m].SuiteChild? ::
      a0.suites[i].children[m].suite < |a0.suites| &&
      a1.suites[a0.suites[i].children[m].suite].resolved == a0.suites[a0.suites[i].children[m].suite].resolved
    ensures ExpandKids(a1, i, n) == ExpandKids(a0, i, n)
  {
    if n > 0 {
      ExpandKidsSame(a0, a1, i, n - 1);
    }
  }

  /** A suite with one more hook at the end of the list of the given kind. */
  function WithHook(s: SuiteNode, kind: HookKind, callback: Callback): (r: SuiteNode)
    ensures r.parent == s.parent && r.children == s.children && r.callback == s.callback && r.resolved == s.resolved
    ensures r.name == s.name && r.focused == s.focused && r.skipped == s.skipped
  {
    match kind
    case BeforeEach => s.(beforeEach := s.beforeEach + [callback])
    case AfterEach => s.(afterEach := s.afterEach + [callback])
    case BeforeAll => s.(beforeAll := s.beforeAll + [callback])
    case AfterAll => s.(afterAll := s.afterAll + [callback])
  }

  /** Rewriting suite i's own memo leaves what its children contribute as it was. */
  lemma AfterOwnUpdate(a0: Arena, a1: Arena, i: nat, n: nat)
    requires WellFormed(a0) && WellFormed(a1) && i < |a0.suites| == |a1.suites|
    requires forall k | 0 <= k < |a0.suites| && k != i :: a1.suites[k] == a0.suites[k]
    requires a1.suites[i].children == a0.suites[i].children && n <= |a0.suites[i].children|
    ensures ExpandKids(a1, i, n) == ExpandKids(a0, i, n)
    ensures FlattenKids(a1, i, n) == FlattenKids(a0, i, n)
    ensures forall m | 0 <= m < |a0.suites[i].children| && a0.suites[i].children[m].SuiteChild? ::
      Pristine(a0, a0.suites[i].children[m].suite) ==> Pristine(a1, a0.suites[i].children[m].suite)
  {
    var kids := a0.suites[i].children;
    forall m | 0 <= m < |kids| && kids[m].SuiteChild?
      ensures kids[m].suite < |a0.suites| && a1.suites[kids[m].suite] == a0.suites[kids[m].suite]
      ensures Unchanged(a0, a1, kids[m].suite)
    {
      assert ChildOk(a0, i, kids[m]);
      UnchangedAbove(a0, a1, i, kids[m].suite);
    }
    ExpandKidsSame(a0, a1, i, n);
    FlattenKidsSame(a0, a1, i, n);
    forall m | 0 <= m < |kids| && kids[m].SuiteChild? && Pristine(a0, kids[m].suite)
      ensures Pristine(a1, kids[m].suite)
    {
      PristineStable(a0, a1, kids[m].suite);
    }
  }

  /** Resolving child idx of suite i leaves i and the other children's subtrees as they were. */
  lemma AfterChildResolved(a0: Arena, a1: Arena, i: nat, idx: nat)
    requires WellFormed(a0) && WellFormed(a1) && Extends(a0, a1) && i < |a0.suites|
    requires idx < |a0.suites[i].children| && a0.suites[i].children[idx].SuiteChild?
    requires FramedBy(a0, a1, a0.suites[i].children[idx].suite)
    ensures a1.suites[i] == a0.suites[i]
    ensures ExpandKids(a1, i, idx) == ExpandKids(a0, i, idx)
    ensures FlattenKids(a1, i, idx) == FlattenKids(a0, i, idx)
    ensures forall m | 0 <= m < |a0.suites[i].children| && m != idx && a0.suites[i].children[m].SuiteChild? ::
      Pristine(a0, a0.suites[i].children[m].suite) ==> Pristine(a1, a0.suites[i].children[m].suite)
  {
    var kids := a0.suites[i].children;
    var j := kids[idx].suite;
    assert ChildOk(a0, i, kids[idx]);
    if j in SuiteChain(a0, i) {
      InChainBelow(a0, j, i);
    }
    assert DistinctKids(a0, i);
    assert SameAt(a0, a1, i);
    forall m | 0 <= m < |kids| && m != idx && kids[m].SuiteChild?
      ensures kids[m].suite < |a0.suites| && a1.suites[kids[m].suite] == a0.suites[kids[m].suite]
      ensures Unchanged(a0, a1, kids[m].suite)
    {
      assert ChildOk(a0, i, kids[m]);
      SiblingUnchanged(a0, a1, i, j, kids[m].suite);
      assert SuiteChain(a0, kids[m].suite)[|SuiteChain(a0, kids[m].suite)| - 1] == kids[m].suite;
      assert SameAt(a0, a1, kids[m].suite);
    }
    ExpandKidsSame(a0, a1, i, idx);
    FlattenKidsSame(a0, a1, i, idx);
    forall m | 0 <= m < |kids| && m != idx && kids[m].SuiteChild? && Pristine(a0, kids[m].suite)
      ensures Pristine(a1, kids[m].suite)
    {
      PristineStable(a0, a1, kids[m].suite);
    }
  }

  /** Every child suite from position n on is untouched. */
  ghost predicate AllKidsPristine(a: Arena, i: nat, n: nat)
    requires i < |a.suites|
  {
    forall m | n <= m < |a.suites[i].children| ::
      var c := a.suites[i].children[m];
      c.SuiteChild? && i < c.suite < |a.suites| ==> Pristine(a, c.suite)
  }

  /**
   * After an untouched suite's body has run, every child is untouched: the
   * old ones kept their subtrees, the new ones have a pending body and no children.
   */
  lemma KidsStayPristine(a0: Arena, a1: Arena, i: nat)
    requires WellFormed(a0) && WellFormed(a1) && Extends(a0, a1) && i < |a0.suites|
    requires Pristine(a0, i)
    requires forall k | 0 <= k < |a0.suites| && k != i :: a1.suites[k] == a0.suites[k]
    requires forall k | |a0.suites| <= k < |a1.suites| :: a1.suites[k].children == [] && a1.suites[k].callback.Some?
    ensures AllKidsPristine(a1, i, 0)
  {
    var kids := a1.suites[i].children;
    forall m | 0 <= m < |kids| && kids[m].SuiteChild?
      ensures Pristine(a1, kids[m].suite)
    {
      var c := kids[m].suite;
      assert ChildOk(a1, i, kids[m]);
      if c < |a0.suites| {
        assert ParentOk(a0, c);
        var l :| 0 <= l < |a0.suites[i].children| && a0.suites[i].children[l] == SuiteChild(c);
        assert Pristine(a0, c);
        UnchangedAbove(a0, a1, i, c);
        PristineStable(a0, a1, c);
      }
    }
  }

  /** The loop invariants of Collect survive resolving child idx. */
  lemma ChildResolved(a0: Arena, pre: Arena, post: Arena, i: nat, idx: nat, pristine: bool)
    requires WellFormed(a0) && WellFormed(pre) && WellFormed(post) && i < |a0.suites|
    requires Extends(a0, pre) && FramedBy(a0, pre, i) && Extends(pre, post)
    requires idx < |pre.suites[i].children| && pre.suites[i].children[idx].SuiteChild?
    requires FramedBy(pre, post, pre.suites[i].children[idx].suite)
    requires pristine ==> AllKidsPristine(pre, i, idx)
    ensures Extends(a0, post) && FramedBy(a0, post, i)
    ensures post.suites[i] == pre.suites[i]
    ensures ExpandKids(post, i, idx) == ExpandKids(pre, i, idx)
    ensures FlattenKids(post, i, idx) == FlattenKids(pre, i, idx)
    ensures pristine ==> AllKidsPristine(post, i, idx + 1)
  {
    var kids := pre.suites[i].children;
    assert ChildOk(pre, i, kids[idx]);
    AfterChildResolved(pre, post, i, idx);
    FramedTrans(a0, pre, post, i, kids[idx].suite);
    ExtendsTrans(a0, pre, post);
  }

  /** The loop invariants of Collect survive appending to suite i's memo. */
  lemma OwnUpdated(a0: Arena, mid: Arena, post: Arena, i: nat, idx: nat, more: seq<nat>, pristine: bool)
    requires WellFormed(a0) && WellFormed(mid) && i < |a0.suites|
    requires Extends(a0, mid) && FramedBy(a0, mid, i)
    requires idx < |mid.suites[i].children| && mid.suites[i].callback.None?
    requires post.suites == mid.suites[i := mid.suites[i].(resolved := mid.suites[i].resolved + more)] && post.tests == mid.tests
    requires mid.suites[i].resolved == ExpandKids(mid, i, idx)
    requires more == match mid.suites[i].children[idx]
      case TestChild(t) => [t]
      case SuiteChild(j) => mid.suites[j].resolved
    requires pristine ==> mid.suites[i].resolved == FlattenKids(mid, i, idx) && AllKidsPristine(mid, i, idx + 1)
    requires pristine && mid.suites[i].children[idx].SuiteChild? ==> more == Flatten(mid, mid.suites[i].children[idx].suite)
    ensures WellFormed(post) && Pending(post.suites) == Pending(mid.suites)
    ensures Extends(a0, post) && FramedBy(a0, post, i)
    ensures post.suites[i].resolved == ExpandKids(post, i, idx + 1)
    ensures pristine ==> post.suites[i].resolved == FlattenKids(post, i, idx + 1) && AllKidsPristine(post, i, idx + 1)
  {
    var kids := mid.suites[i].children;
    assert ChildOk(mid, i, kids[idx]);
    if kids[idx].SuiteChild? {
      SuiteFacts(mid, kids[idx].suite);
    }
    MemoGrown(a0, mid, post, i, more);
    AfterOwnUpdate(mid, post, i, idx);
    if kids[idx].SuiteChild? {
      var j := kids[idx].suite;
      UnchangedAbove(mid, post, i, j);
      FlattenStable(mid, post, j);
    }
  }

  /** Appending known tests to the memo of a resolved suite i keeps the frame around i. */
  lemma MemoGrown(a0: Arena, mid: Arena, post: Arena, i: nat, more: seq<nat>)
    requires WellFormed(a0) && WellFormed(mid) && i < |a0.suites|
    requires Extends(a0, mid) && FramedBy(a0, mid, i) && mid.suites[i].callback.None?
    requires forall k | 0 <= k < |more| :: more[k] < |mid.tests|
    requires post.suites == mid.suites[i := mid.suites[i].(resolved := mid.suites[i].resolved + more)] && post.tests == mid.tests
    ensures WellFormed(post) && Pending(post.suites) == Pending(mid.suites)
    ensures Extends(a0, post) && FramedBy(a0, post, i)
  {
    var node := mid.suites[i].(resolved := mid.suites[i].resolved + more);
    SuiteFacts(mid, i);
    ReplaceKeepsWellFormed(mid, i, node);
    PendingUpdate(mid.suites, i, node);
    ExtendsTrans(a0, mid, post);
    forall k | 0 <= k < |a0.suites| && i !in SuiteChain(a0, k)
      ensures SameAt(a0, post, k)
    {
      assert SuiteChain(a0, k)[|SuiteChain(a0, k)| - 1] == k;
      assert SameAt(a0, mid, k);
    }
  }

  /** The children from position n on still resolve in a as they were due to in a1. */
  ghost predicate OutcomesKept(a1: Arena, a: Arena, i: nat, kids: seq<Child>, n: nat) {
    forall m | n <= m < |kids| && kids[m].SuiteChild? && i < kids[m].suite < |a1.suites| ::
      kids[m].suite < |a.suites| && ResolveOutcome(a, kids[m].suite) == ResolveOutcome(a1, kids[m].suite)
  }

  /** Resolving child idx of suite i leaves how the later children resolve as it was. */
  lemma KeptAfterChild(a1: Arena, pre: Arena, post: Arena, i: nat, idx: nat)
    requires WellFormed(pre) && Extends(pre, post) && i < |pre.suites|
    requires idx < |pre.suites[i].children| && pre.suites[i].children[idx].SuiteChild?
    requires FramedBy(pre, post, pre.suites[i].children[idx].suite)
    requires OutcomesKept(a1, pre, i, pre.suites[i].children, idx)
    ensures OutcomesKept(a1, post, i, pre.suites[i].children, idx + 1)
  {
    var kids := pre.suites[i].children;
    var j := kids[idx].suite;
    assert ChildOk(pre, i, kids[idx]);
    assert DistinctKids(pre, i);
    forall m | idx + 1 <= m < |kids| && kids[m].SuiteChild? && i < kids[m].suite < |a1.suites|
      ensures kids[m].suite < |post.suites| && ResolveOutcome(post, kids[m].suite) == ResolveOutcome(a1, kids[m].suite)
    {
      assert ChildOk(pre, i, kids[m]);
      SiblingUnchanged(pre, post, i, j, kids[m].suite);
      ResolveStable(pre, post, kids[m].suite);
    }
  }

  /** Rewriting suite i alone leaves how its children resolve as it was. */
  lemma KeptAfterOwn(a1: Arena, mid: Arena, post: Arena, i: nat, n: nat)
    requires WellFormed(mid) && i < |mid.suites| == |post.suites|
    requires forall k | 0 <= k < |mid.suites| && k != i :: post.suites[k] == mid.suites[k]
    requires OutcomesKept(a1, mid, i, mid.suites[i].children, n)
    ensures OutcomesKept(a1, post, i, mid.suites[i].children, n)
  {
    var kids := mid.suites[i].children;
    forall m | n <= m < |kids| && kids[m].SuiteChild? && i < kids[m].suite < |a1.suites|
      ensures kids[m].suite < |post.suites| && ResolveOutcome(post, kids[m].suite) == ResolveOutcome(a1, kids[m].suite)
    {
      UnchangedAbove(mid, post, i, kids[m].suite);
      ResolveStable(mid, post, kids[m].suite);
    }
  }

  lemma ChildrenOutcomeNext(a: Arena, i: nat, kids: seq<Child>, n: nat)
    requires i < |a.suites| && n < |kids|
    ensures ChildrenOutcome(a, i, kids[..n + 1]) == Then(ChildrenOutcome(a, i, kids[..n]), KidOutcome(a, i, kids[n]))
  {
    assert kids[..n + 1][..n] == kids[..n];
  }

  /** When child n is the first to fail, resolving all the children ends with its error. */
  lemma ChildrenOutcomeStop(a: Arena, i: nat, kids: seq<Child>, n: nat)
    requires i < |a.suites| && n < |kids|
    requires ChildrenOutcome(a, i, kids[..n]) == NoError && KidOutcome(a, i, kids[n]) != NoError
    ensures ChildrenOutcome(a, i, kids) == KidOutcome(a, i, kids[n])
  {
    ChildrenOutcomeNext(a, i, kids, n);
    assert kids == kids[..n + 1] + kids[n + 1..];
    ChildrenOutcomeAppend(a, i, kids[..n + 1], kids[n + 1..]);
  }

  /**
   * Resolving suite i stopped at child n, a suite whose resolution failed with
   * error: the children before it resolved without error, and i's memo holds
   * what they contributed (in full, when nothing below i was resolved before).
   * a1 is the arena when the loop over the children began.
   */
  ghost predicate StoppedAtChild(a1: Arena, a: Arena, i: nat, n: nat, pristine: bool, error: Outcome) {
    && i < |a1.suites| && i < |a.suites| && a.suites[i].children == a1.suites[i].children
    && n < |a1.suites[i].children| && a1.suites[i].children[n].SuiteChild?
    && ChildrenOutcome(a1, i, a1.suites[i].children[..n]) == NoError
    && KidOutcome(a1, i, a1.suites[i].children[n]) == error
    && a.suites[i].resolved == ExpandKids(a, i, n)
    && (pristine ==> a.suites[i].resolved == FlattenKids(a, i, n))
  }

  // ---------------------------------------------------------------------------
  // What a body's registrations add
  // ---------------------------------------------------------------------------

  /** The suite that describe, fdescribe or xdescribe creates under cur, its body kept for later. */
  function NewSuite(cur: nat, args: SuiteArgs, mode: Mode): SuiteNode {
    SuiteNode(SuiteName(args), Some(cur), [], [], [], [], [], mode == Focused, mode == Skipped, Some(args.body), [])
  }

  /** The test that it, fit or xit creates in suite cur. */
  function NewTest(cur: nat, name: string, callback: Callback, mode: Mode): TestNode {
    TestNode(name, cur, callback, mode == Focused, mode == Skipped)
  }

  /** A suite's hooks of one kind. */
  function HookList(s: SuiteNode, kind: HookKind): seq<Callback> {
    match kind
    case BeforeEach => s.beforeEach
    case AfterEach => s.afterEach
    case BeforeAll => s.beforeAll
    case AfterAll => s.afterAll
  }

  /** The arena after one registration call made against suite cur. */
  function Declared(a: Arena, cur: nat, d: Decl): (r: Arena)
    requires cur < |a.suites|
    ensures |a.suites| <= |r.suites|
  {
    var s := a.suites[cur];
    match d
    case DeclareSuite(args, mode) =>
      Arena(a.suites[cur := s.(children := s.children + [SuiteChild(|a.suites|)])] + [NewSuite(cur, args, mode)], a.tests)
    case DeclareTest(name, callback, mode) =>
      Arena(a.suites[cur := s.(children := s.children + [TestChild(|a.tests|)])], a.tests + [NewTest(cur, name, callback, mode)])
    case DeclareHook(kind, callback) =>
      Arena(a.suites[cur := WithHook(s, kind, callback)], a.tests)
  }

  /** The arena after the first n registration calls of decls, made in order against suite cur. */
  function Registered(a: Arena, cur: nat, decls: seq<Decl>, n: nat): (r: Arena)
    requires cur < |a.suites| && n <= |decls|
    ensures |a.suites| <= |r.suites|
  {
    if n == 0 then a
    else Declared(Registered(a, cur, decls, n - 1), cur, decls[n - 1])
  }

  /** The suite a registration declares under cur, if it declares one. */
  function DeclSuites(cur: nat, d: Decl): seq<SuiteNode> {
    match d
    case DeclareSuite(args, mode) => [NewSuite(cur, args, mode)]
    case _ => []
  }

  /** The test a registration declares in cur, if it declares one. */
  function DeclTests(cur: nat, d: Decl): seq<TestNode> {
    match d
    case DeclareTest(name, callback, mode) => [NewTest(cur, name, callback, mode)]
    case _ => []
  }

  /** The child a registration adds when the arena holds ns suites and nt tests. */
  function DeclKids(d: Decl, ns: nat, nt: nat): seq<Child> {
    match d
    case DeclareSuite(_, _) => [SuiteChild(ns)]
    case DeclareTest(_, _, _) => [TestChild(nt)]
    case DeclareHook(_, _) => []
  }

  /** The hook of the given kind a registration adds, if it adds one. */
  function DeclHooks(d: Decl, kind: HookKind): seq<Callback> {
    match d
    case DeclareHook(k, callback) => if k == kind then [callback] else []
    case _ => []
  }

  /** The suites the first n registrations declare under cur, in order. */
  function SuitesOf(cur: nat, decls: seq<Decl>, n: nat): seq<SuiteNode>
    requires n <= |decls|
  {
    if n == 0 then [] else SuitesOf(cur, decls, n - 1) + DeclSuites(cur, decls[n - 1])
  }

  /** The tests the first n registrations declare in cur, in order. */
  function TestsOf(cur: nat, decls: seq<Decl>, n: nat): seq<TestNode>
    requires n <= |decls|
  {
    if n == 0 then [] else TestsOf(cur, decls, n - 1) + DeclTests(cur, decls[n - 1])
  }

  /** How many suites the first n registrations declare. */
  function SuiteCount(decls: seq<Decl>, n: nat): nat
    requires n <= |decls|
  {
    if n == 0 then 0 else SuiteCount(decls, n - 1) + if decls[n - 1].DeclareSuite? then 1 else 0
  }

  /** How many tests the first n registrations declare. */
  function TestCount(decls: seq<Decl>, n: nat): nat
    requires n <= |decls|
  {
    if n == 0 then 0 else TestCount(decls, n - 1) + if decls[n - 1].DeclareTest? then 1 else 0
  }

  /** The bodies of the suites the first n registrations declare, in order. */
  function SuiteBodies(decls: seq<Decl>, n: nat): seq<Body>
    requires n <= |decls|
  {
    if n == 0 then []
    else SuiteBodies(decls, n - 1) + if decls[n - 1].DeclareSuite? then [decls[n - 1].args.body] else []
  }

  /**
   * The children the first n registrations add, in order, when the arena
   * already holds ns suites and nt tests: each new suite or test takes the
   * next index.
   */
  function KidsOf(decls: seq<Decl>, n: nat, ns: nat, nt: nat): seq<Child>
    requires n <= |decls|
  {
    if n == 0 then []
    else KidsOf(decls, n - 1, ns, nt) + DeclKids(decls[n - 1], ns + SuiteCount(decls, n - 1), nt + TestCount(decls, n - 1))
  }

  /** The callbacks the first n registrations add as hooks of one kind, in order. */
  function HooksDeclared(decls: seq<Decl>, n: nat, kind: HookKind): seq<Callback>
    requires n <= |decls|
  {
    if n == 0 then [] else HooksDeclared(decls, n - 1, kind) + DeclHooks(decls[n - 1], kind)
  }

  /** The arena once the body of suite i has run: the body taken, its registrations made against i. */
  function AfterBody(a: Arena, i: nat): (r: Arena)
    requires i < |a.suites| && a.suites[i].callback.Some?
    ensures |a.suites| <= |r.suites|
  {
    var decls := a.suites[i].callback.value.decls;
    Registered(Taken(a, i), i, decls, |decls|)
  }

  lemma {:induction false} CountsOf(cur: nat, decls: seq<Decl>, n: nat)
    requires n <= |decls|
    ensures |SuitesOf(cur, decls, n)| == SuiteCount(decls, n) && |TestsOf(cur, decls, n)| == TestCount(decls, n)
  {
    if n > 0 {
      CountsOf(cur, decls, n - 1);
    }
  }

  /** The fields of a suite other than its children and hooks. */
  predicate SameHeader(s: SuiteNode, t: SuiteNode) {
    && s.name == t.name && s.parent == t.parent && s.focused == t.focused && s.skipped == t.skipped
    && s.callback == t.callback && s.resolved == t.resolved
  }

  /** One registration against cur, in the terms of the declaration alone. */
  lemma DeclaredShape(a: Arena, cur: nat, d: Decl)
    requires cur < |a.suites|
    ensures var r := Declared(a, cur, d);
      && r.suites[..|a.suites|] == a.suites[cur := r.suites[cur]]
      && r.suites[|a.suites|..] == DeclSuites(cur, d)
      && r.tests == a.tests + DeclTests(cur, d)
      && r.suites[cur].children == a.suites[cur].children + DeclKids(d, |a.suites|, |a.tests|)
      && (forall kind :: HookList(r.suites[cur], kind) == HookList(a.suites[cur], kind) + DeclHooks(d, kind))
      && SameHeader(r.suites[cur], a.suites[cur])
  {
    var r := Declared(a, cur, d);
    if d.DeclareSuite? {
      assert r.suites[..|a.suites|] == a.suites[cur := r.suites[cur]];
    }
  }

  lemma DeclaredKids(a: Arena, cur: nat, d: Decl)
    requires cur < |a.suites|
    ensures Declared(a, cur, d).suites[cur].children == a.suites[cur].children + DeclKids(d, |a.suites|, |a.tests|)
  {
  }

  /**
   * The first n registrations of a body, made in order against suite cur:
   * the suites they declare are appended to the arena and the tests to the
   * test list, in declaration order; cur gains exactly the matching
   * children, in that order, and each hook list gains that kind's hooks, in
   * order; nothing else about cur, and no other existing suite, changes.
   */
  lemma RegisteredShape(a: Arena, cur: nat, decls: seq<Decl>, n: nat)
    requires cur < |a.suites| && n <= |decls|
    ensures var r := Registered(a, cur, decls, n);
      && r.suites[..|a.suites|] == a.suites[cur := r.suites[cur]]
      && r.suites[|a.suites|..] == SuitesOf(cur, decls, n)
      && r.tests == a.tests + TestsOf(cur, decls, n)
      && r.suites[cur].children == a.suites[cur].children + KidsOf(decls, n, |a.suites|, |a.tests|)
      && (forall kind :: HookList(r.suites[cur], kind) == HookList(a.suites[cur], kind) + HooksDeclared(decls, n, kind))
      && SameHeader(r.suites[cur], a.suites[cur])
  {
    RegisteredSuites(a, cur, decls, n);
    RegisteredTests(a, cur, decls, n);
    RegisteredKids(a, cur, decls, n);
    RegisteredHooks(a, cur, decls, n);
  }

  lemma {:induction false} RegisteredSuites(a: Arena, cur: nat, decls: seq<Decl>, n: nat)
    requires cur < |a.suites| && n <= |decls|
    ensures var r := Registered(a, cur, decls, n);
      && r.suites[..|a.suites|] == a.suites[cur := r.suites[cur]]
      && r.suites[|a.suites|..] == SuitesOf(cur, decls, n)
      && SameHeader(r.suites[cur], a.suites[cur])
  {
    if n > 0 {
      var d := decls[n - 1];
      var before := Registered(a, cur, decls, n - 1);
      var r := Declared(before, cur, d);
      RegisteredSuites(a, cur, decls, n - 1);
      DeclaredShape(before, cur, d);
      PrefixStep(a.suites, before.suites, r.suites, SuitesOf(cur, decls, n - 1), DeclSuites(cur, d), cur);
    }
  }

  /**
   * A sequence that is A with element cur replaced and S1 appended, then has
   * element cur replaced again and E appended, is A with cur replaced and S1 + E appended.
   */
  lemma PrefixStep<T>(A: seq<T>, B: seq<T>, R: seq<T>, S1: seq<T>, E: seq<T>, cur: nat)
    requires cur < |A| <= |B| <= |R|
    requires B[..|A|] == A[cur := B[cur]] && B[|A|..] == S1
    requires R[..|B|] == B[cur := R[cur]] && R[|B|..] == E
    ensures R[..|A|] == A[cur := R[cur]] && R[|A|..] == S1 + E
  {
    assert R[..|A|] == R[..|B|][..|A|];
    assert B[cur := R[cur]][..|A|] == B[..|A|][cur := R[cur]];
    assert R[|A|..] == R[..|B|][|A|..] + R[|B|..];
    assert B[cur := R[cur]][|A|..] == B[|A|..];
  }

  lemma {:induction false} RegisteredTests(a: Arena, cur: nat, decls: seq<Decl>, n: nat)
    requires cur < |a.suites| && n <= |decls|
    ensures var r := Registered(a, cur, decls, n);
      && r.tests == a.tests + TestsOf(cur, decls, n)
      && |r.suites| == |a.suites| + |SuitesOf(cur, decls, n)|
  {
    if n > 0 {
      RegisteredTests(a, cur, decls, n - 1);
      DeclaredSizes(Registered(a, cur, decls, n - 1), cur, decls[n - 1]);
    }
  }

  /** How many suites and tests the first n registrations add, whatever suite they are made against. */
  lemma RegisteredCounts(a: Arena, cur: nat, decls: seq<Decl>, n: nat)
    requires cur < |a.suites| && n <= |decls|
    ensures var r := Registered(a, cur, decls, n);
      |r.suites| == |a.suites| + SuiteCount(decls, n) && |r.tests| == |a.tests| + TestCount(decls, n)
  {
    RegisteredTests(a, cur, decls, n);
    CountsOf(cur, decls, n);
  }

  lemma DeclaredSizes(a: Arena, cur: nat, d: Decl)
    requires cur < |a.suites|
    ensures var r := Declared(a, cur, d);
      r.tests == a.tests + DeclTests(cur, d) && |r.suites| == |a.suites| + |DeclSuites(cur, d)|
  {
  }

  lemma {:induction false} RegisteredKids(a: Arena, cur: nat, decls: seq<Decl>, n: nat)
    requires cur < |a.suites| && n <= |decls|
    ensures Registered(a, cur, decls, n).suites[cur].children == a.suites[cur].children + KidsOf(decls, n, |a.suites|, |a.tests|)
  {
    if n > 0 {
      var before := Registered(a, cur, decls, n - 1);
      RegisteredKids(a, cur, decls, n - 1);
      RegisteredCounts(a, cur, decls, n - 1);
      DeclaredKids(before, cur, decls[n - 1]);
      KidsOfStep(a.suites[cur].children, decls, n, |a.suites|, |a.tests|, before.suites[cur].children, |before.suites|, |before.tests|);
    }
  }

  /** One more registration appends its child to those of the registrations before it. */
  lemma KidsOfStep(base: seq<Child>, decls: seq<Decl>, n: nat, ns: nat, nt: nat, prev: seq<Child>, bs: nat, bt: nat)
    requires 0 < n <= |decls| && prev == base + KidsOf(decls, n - 1, ns, nt)
    requires bs == ns + SuiteCount(decls, n - 1) && bt == nt + TestCount(decls, n - 1)
    ensures prev + DeclKids(decls[n - 1], bs, bt) == base + KidsOf(decls, n, ns, nt)
  {
  }

  lemma {:induction false} RegisteredHooks(a: Arena, cur: nat, decls: seq<Decl>, n: nat)
    requires cur < |a.suites| && n <= |decls|
    ensures forall kind :: HookList(Registered(a, cur, decls, n).suites[cur], kind) == HookList(a.suites[cur], kind) + HooksDeclared(decls, n, kind)
  {
    if n > 0 {
      var d := decls[n - 1];
      var before := Registered(a, cur, decls, n - 1);
      var r := Declared(before, cur, d);
      RegisteredHooks(a, cur, decls, n - 1);
      DeclaredShape(before, cur, d);
      forall kind ensures HookList(r.suites[cur], kind) == HookList(a.suites[cur], kind) + HooksDeclared(decls, n, kind) {
        assert HookList(r.suites[cur], kind) == HookList(before.suites[cur], kind) + DeclHooks(d, kind);
      }
    }
  }

  /** The suites a body declares hang under cur, without children and with their own body pending. */
  lemma {:induction false} SuitesOfFresh(cur: nat, decls: seq<Decl>, n: nat)
    requires n <= |decls|
    ensures |SuitesOf(cur, decls, n)| == |SuiteBodies(decls, n)|
    ensures forall k | 0 <= k < |SuitesOf(cur, decls, n)| ::
      && SuitesOf(cur, decls, n)[k].parent == Some(cur)
      && SuitesOf(cur, decls, n)[k].children == [] && SuitesOf(cur, decls, n)[k].callback == Some(SuiteBodies(decls, n)[k])
  {
    if n > 0 {
      SuitesOfFresh(cur, decls, n - 1);
    }
  }

  /**
   * Registrations against cur grow the arena under cur: every other existing
   * suite is kept, cur keeps its header and only gains children, and every
   * new suite hangs under cur with its body pending and no children.
   */
  lemma RegisteredGrownUnder(a: Arena, cur: nat, decls: seq<Decl>, n: nat)
    requires cur < |a.suites| && n <= |decls| && WellFormed(Registered(a, cur, decls, n))
    ensures GrownUnder(a, Registered(a, cur, decls, n), cur)
  {
    var r := Registered(a, cur, decls, n);
    RegisteredShape(a, cur, decls, n);
    SuitesOfFresh(cur, decls, n);
    forall k | 0 <= k < |a.suites|
      ensures r.suites[k] == a.suites[cur := r.suites[cur]][k]
    {
      assert r.suites[..|a.suites|][k] == r.suites[k];
    }
    forall k | |a.suites| <= k < |r.suites|
      ensures r.suites[k] == SuitesOf(cur, decls, n)[k - |a.suites|]
    {
      assert r.suites[|a.suites|..][k - |a.suites|] == r.suites[k];
    }
    assert Extends(a, r) by {
      forall k | 0 <= k < |a.suites| ensures KeepsAt(a, r, k) {
        assert SameHeader(r.suites[cur], a.suites[cur]);
      }
    }
  }

  /**
   * When the suites the first n registrations of b declare under cur sit in
   * r from index ns on, resolving the children those registrations add, in
   * order, ends as resolving the suites they declare does.
   */
  lemma {:induction false} RegisteredKidsOutcome(f: Child -> Outcome, b: Body, n: nat, ns: nat, nt: nat)
    requires n <= |b.decls|
    requires forall t: nat :: f(TestChild(t)) == NoError
    requires forall k | 0 <= k < |SuiteBodies(b.decls, n)| :: f(SuiteChild(ns + k)) == BodyOutcome(SuiteBodies(b.decls, n)[k])
    ensures FirstError(f, KidsOf(b.decls, n, ns, nt)) == DeclsOutcome(b, n)
  {
    if n > 0 {
      var d := b.decls[n - 1];
      SuiteBodiesLast(b.decls, n);
      RegisteredKidsOutcome(f, b, n - 1, ns, nt);
      var added := DeclKids(d, ns + SuiteCount(b.decls, n - 1), nt + TestCount(b.decls, n - 1));
      if !d.DeclareHook? {
        assert added[..0] == [];
      }
      FirstErrorAppend(f, KidsOf(b.decls, n - 1, ns, nt), added);
    }
  }

  /** The first error among the outcomes f gives the children, in order. */
  function FirstError(f: Child -> Outcome, kids: seq<Child>): Outcome {
    if kids == [] then NoError else Then(FirstError(f, kids[..|kids| - 1]), f(kids[|kids| - 1]))
  }

  lemma {:induction false} FirstErrorAppend(f: Child -> Outcome, x: seq<Child>, y: seq<Child>)
    ensures FirstError(f, x + y) == Then(FirstError(f, x), FirstError(f, y))
  {
    if y == [] {
      assert x + y == x;
    } else {
      assert (x + y)[..|x + y| - 1] == x + y[..|y| - 1];
      FirstErrorAppend(f, x, y[..|y| - 1]);
    }
  }

  /** Resolving children in order is taking the first error among their own resolutions. */
  lemma {:induction false} ChildrenFirstError(a: Arena, i: nat, kids: seq<Child>)
    requires i < |a.suites|
    ensures ChildrenOutcome(a, i, kids) == FirstError(c => KidOutcome(a, i, c), kids)
  {
    if kids != [] {
      ChildrenFirstError(a, i, kids[..|kids| - 1]);
    }
  }

  /** The suite bodies of n registrations: those of the first n - 1, then the one the last declares, if any. */
  lemma SuiteBodiesLast(decls: seq<Decl>, n: nat)
    requires 0 < n <= |decls|
    ensures var prior := SuiteBodies(decls, n - 1);
      && |prior| == SuiteCount(decls, n - 1)
      && (forall k | 0 <= k < |prior| :: SuiteBodies(decls, n)[k] == prior[k])
      && (decls[n - 1].DeclareSuite? ==> SuiteBodies(decls, n)[|prior|] == decls[n - 1].args.body)
  {
    SuiteBodiesCount(decls, n - 1);
  }

  lemma {:induction false} SuiteBodiesCount(decls: seq<Decl>, n: nat)
    requires n <= |decls|
    ensures |SuiteBodies(decls, n)| == SuiteCount(decls, n)
  {
    if n > 0 {
      SuiteBodiesCount(decls, n - 1);
    }
  }

  /** The arena with the body of suite i taken (#callback set to null). */
  function Taken(a: Arena, i: nat): (r: Arena)
    requires i < |a.suites|
    ensures |r.suites| == |a.suites| && r.tests == a.tests
  {
    a.(suites := a.suites[i := a.suites[i].(callback := None)])
  }

  /**
   * Once the body of suite i has run without error, resolving i's children
   * in order, old ones then new ones, ends as resolving i was due to end.
   */
  lemma OutcomeAfterBody(a0: Arena, i: nat)
    requires WellFormed(a0) && i < |a0.suites| && a0.suites[i].callback.Some?
    requires a0.suites[i].callback.value.outcome == NoError
    ensures var a1 := AfterBody(a0, i);
      i < |a1.suites| && ChildrenOutcome(a1, i, a1.suites[i].children) == ResolveOutcome(a0, i)
  {
    var b := a0.suites[i].callback.value;
    var t := Taken(a0, i);
    var a1 := Registered(t, i, b.decls, |b.decls|);
    assert a1 == AfterBody(a0, i);
    RegisteredLeaves(t, i, b.decls);
    RegisteredKeeps(t, i, b.decls);
    RegisteredKids(t, i, b.decls, |b.decls|);
    forall k | 0 <= k < |a0.suites| && k != i
      ensures a1.suites[k] == a0.suites[k]
    {
      assert t.suites[k] == a0.suites[k];
    }
    ResolveAfterBody(a0, a1, i, b);
  }

  /** From index ns on, a holds one leaf suite per body, in order, each with its body pending. */
  predicate LeavesAt(a: Arena, ns: nat, bodies: seq<Body>) {
    && ns + |bodies| <= |a.suites|
    && forall k | 0 <= k < |bodies| :: a.suites[ns + k].children == [] && a.suites[ns + k].callback == Some(bodies[k])
  }

  /** The suites a body declares sit, in order, after the existing ones, as leaves with their bodies pending. */
  lemma RegisteredLeaves(a: Arena, cur: nat, decls: seq<Decl>)
    requires cur < |a.suites|
    ensures LeavesAt(Registered(a, cur, decls, |decls|), |a.suites|, SuiteBodies(decls, |decls|))
  {
    var r := Registered(a, cur, decls, |decls|);
    RegisteredSuites(a, cur, decls, |decls|);
    SuitesOfFresh(cur, decls, |decls|);
    forall k | 0 <= k < |SuiteBodies(decls, |decls|)|
      ensures r.suites[|a.suites| + k].children == [] && r.suites[|a.suites| + k].callback == Some(SuiteBodies(decls, |decls|)[k])
    {
      assert r.suites[|a.suites|..][k] == r.suites[|a.suites| + k];
    }
  }

  /** Registrations against cur leave every other existing suite as it was. */
  lemma RegisteredKeeps(a: Arena, cur: nat, decls: seq<Decl>)
    requires cur < |a.suites|
    ensures var r := Registered(a, cur, decls, |decls|);
      forall k | 0 <= k < |a.suites| && k != cur :: r.suites[k] == a.suites[k]
  {
    var r := Registered(a, cur, decls, |decls|);
    RegisteredSuites(a, cur, decls, |decls|);
    forall k | 0 <= k < |a.suites| && k != cur
      ensures r.suites[k] == a.suites[k]
    {
      assert r.suites[..|a.suites|][k] == r.suites[k];
    }
  }

  /**
   * An arena a1 that keeps every suite of a0 but i, gives i the children its
   * body b declares after those it had, and holds the suites b declares as
   * leaves with their bodies pending: resolving i's children in a1 ends as
   * resolving i in a0 was due to end.
   */
  lemma ResolveAfterBody(a0: Arena, a1: Arena, i: nat, b: Body)
    requires WellFormed(a0) && i < |a0.suites| <= |a1.suites|
    requires a0.suites[i].callback == Some(b) && b.outcome == NoError
    requires a1.suites[i].children == a0.suites[i].children + KidsOf(b.decls, |b.decls|, |a0.suites|, |a0.tests|)
    requires forall k | 0 <= k < |a0.suites| && k != i :: a1.suites[k] == a0.suites[k]
    requires LeavesAt(a1, |a0.suites|, SuiteBodies(b.decls, |b.decls|))
    ensures ChildrenOutcome(a1, i, a1.suites[i].children) == ResolveOutcome(a0, i)
  {
    var kids := a0.suites[i].children;
    var added := KidsOf(b.decls, |b.decls|, |a0.suites|, |a0.tests|);
    ChildrenOutcomeAppend(a1, i, kids, added);
    NewKidsOutcome(a1, i, b, |a0.suites|, |a0.tests|);
    OldKidsOutcome(a0, a1, i);
  }

  /** The children a body declares, placed as leaves from index ns on, resolve as its declared suites do. */
  lemma NewKidsOutcome(a1: Arena, i: nat, b: Body, ns: nat, nt: nat)
    requires i < ns && i < |a1.suites| && LeavesAt(a1, ns, SuiteBodies(b.decls, |b.decls|))
    ensures ChildrenOutcome(a1, i, KidsOf(b.decls, |b.decls|, ns, nt)) == DeclsOutcome(b, |b.decls|)
  {
    var bodies := SuiteBodies(b.decls, |b.decls|);
    var f := c => KidOutcome(a1, i, c);
    forall k | 0 <= k < |bodies|
      ensures f(SuiteChild(ns + k)) == BodyOutcome(bodies[k])
    {
      var body := bodies[k];
      LeafOutcome(a1, ns + k);
    }
    RegisteredKidsOutcome(f, b, |b.decls|, ns, nt);
    ChildrenFirstError(a1, i, KidsOf(b.decls, |b.decls|, ns, nt));
  }

  /** The children i already had resolve the same way in an arena that keeps every suite but i. */
  lemma OldKidsOutcome(a0: Arena, a1: Arena, i: nat)
    requires WellFormed(a0) && i < |a0.suites| <= |a1.suites|
    requires forall k | 0 <= k < |a0.suites| && k != i :: a1.suites[k] == a0.suites[k]
    ensures ChildrenOutcome(a1, i, a0.suites[i].children) == ChildrenOutcome(a0, i, a0.suites[i].children)
  {
    var kids := a0.suites[i].children;
    forall m | 0 <= m < |kids| && kids[m].SuiteChild?
      ensures kids[m].suite < |a0.suites| && (i < kids[m].suite ==> Unchanged(a0, a1, kids[m].suite))
    {
      assert ChildOk(a0, i, kids[m]);
      UnchangedAbove(a0, a1, i, kids[m].suite);
    }
    ChildrenOutcomeSame(a0, a1, i, kids);
  }

  /**
   * a1 is a0 after registrations made against suite cur: every other existing
   * suite is as it was, cur keeps its body and memo and only gains children,
   * and every new suite hangs under cur with its body pending and no children.
   */
  ghost predicate GrownUnder(a0: Arena, a1: Arena, cur: nat) {
    && WellFormed(a1) && Extends(a0, a1) && cur < |a0.suites|
    && (forall k | 0 <= k < |a0.suites| && k != cur :: a1.suites[k] == a0.suites[k])
    && a1.suites[cur].callback == a0.suites[cur].callback
    && a1.suites[cur].resolved == a0.suites[cur].resolved
    && a0.suites[cur].children <= a1.suites[cur].children
    && (forall k | |a0.suites| <= k < |a1.suites| ::
          a1.suites[k].parent == Some(cur) && a1.suites[k].children == [] && a1.suites[k].callback.Some?)
  }

  /** Taking the body of suite i and running it touches nothing outside the subtree of i. */
  lemma BodyRan(a0: Arena, amid: Arena, a1: Arena, i: nat)
    requires WellFormed(a0) && WellFormed(amid) && i < |a0.suites| && Extends(a0, amid)
    requires amid.suites == a0.suites[i := a0.suites[i].(callback := None)] && amid.tests == a0.tests
    requires GrownUnder(amid, a1, i)
    ensures Extends(a0, a1) && FramedBy(a0, a1, i)
    ensures Pristine(a0, i) ==> AllKidsPristine(a1, i, 0)
  {
    ExtendsTrans(a0, amid, a1);
    forall k | 0 <= k < |a0.suites| && i !in SuiteChain(a0, k)
      ensures SameAt(a0, a1, k)
    {
      assert SuiteChain(a0, k)[|SuiteChain(a0, k)| - 1] == k;
    }
    if Pristine(a0, i) {
      KidsStayPristine(a0, a1, i);
    }
  }

  /** The loop invariant of Suite.tests: the first idx children of i are in its memo. */
  ghost predicate Collecting(a0: Arena, a: Arena, i: nat, kids: seq<Child>, idx: nat, bound: nat, pristine: bool) {
    && WellFormed(a0) && i < |a0.suites| && WellFormed(a) && i < |a.suites|
    && Extends(a0, a) && FramedBy(a0, a, i)
    && a.suites[i].children == kids && idx <= |kids| && a.suites[i].callback.None?
    && Pending(a.suites) < bound
    && a.suites[i].resolved == ExpandKids(a, i, idx)
    && (pristine ==> a.suites[i].resolved == FlattenKids(a, i, idx) && AllKidsPristine(a, i, idx))
  }

  // ---------------------------------------------------------------------------
  // The registry: the suite tree and the current suite
  // ---------------------------------------------------------------------------

  /** A suite body that was run, and how it ended. */
  datatype BodyRun = BodyRun(suite: nat, outcome: Outcome)

  /**
   * A resolution of suite i that started with the bodies in `before` run
   * stopped at suite c: the last body it ran is that of c, in the subtree of
   * i, and it ended with error; nothing ran after it.
   */
  ghost predicate FailedBelow(a: Arena, before: seq<BodyRun>, after: seq<BodyRun>, i: nat, c: nat, error: Outcome)
    requires WellFormed(a)
  {
    InSubtree(a, i, c) && |before| < |after| && after[|after| - 1] == BodyRun(c, error)
  }

  /** A resolution that stopped below child idx of suite i stopped below i. */
  lemma FailedInChild(pre: Arena, post: Arena, i: nat, idx: nat, before: seq<BodyRun>, after: seq<BodyRun>, c: nat, error: Outcome)
    requires WellFormed(pre) && WellFormed(post) && Extends(pre, post) && i < |pre.suites|
    requires idx < |pre.suites[i].children| && pre.suites[i].children[idx].SuiteChild?
    requires FailedBelow(post, before, after, pre.suites[i].children[idx].suite, c, error)
    ensures FailedBelow(post, before, after, i, c, error)
  {
    var j := pre.suites[i].children[idx].suite;
    assert ChildOk(pre, i, pre.suites[i].children[idx]);
    assert KeepsAt(pre, post, j);
    ChildSubtree(post, i, j, c);
  }

  /** A resolution of i that stops at i's own body stopped at i. */
  lemma FailedOwn(a: Arena, before: seq<BodyRun>, i: nat, error: Outcome)
    requires WellFormed(a) && i < |a.suites|
    ensures FailedBelow(a, before, before + [BodyRun(i, error)], i, i, error)
  {
    assert SuiteChain(a, i)[|SuiteChain(a, i)| - 1] == i;
  }

  /** A failure after the bodies of b1 ran also came after those of any prefix b0 of b1. */
  lemma FailedSince(a: Arena, b0: seq<BodyRun>, b1: seq<BodyRun>, after: seq<BodyRun>, i: nat, c: nat, error: Outcome)
    requires WellFormed(a) && b0 <= b1 && FailedBelow(a, b1, after, i, c, error)
    ensures FailedBelow(a, b0, after, i, c, error)
  {
  }

  class Registry {
    var arena: Arena
    /** The suite that describe, it and the hook registrars add to (currentSuite). */
    var current: nat
    /**
     * Every suite body run so far, in order, with its outcome. The source
     * keeps no such record; it names the suite a failed resolution leaves current.
     */
    ghost var ran: seq<BodyRun>

    ghost predicate Valid()
      reads this
    {
      WellFormed(arena) && current < |arena.suites|
    }

    /** The root suite: unnamed, without parent, with a body that registers nothing. */
    constructor()
      ensures Valid() && current == 0 && ran == []
      ensures arena == Arena([SuiteNode("", None, [], [], [], [], [], false, false, Some(Body([], NoError)), [])], [])
    {
      arena := Arena([SuiteNode("", None, [], [], [], [], [], false, false, Some(Body([], NoError)), [])], []);
      current := 0;
      ran := [];
    }

    /**
     * describe, fdescribe and xdescribe (through _createSuite): a new suite
     * under the current one, its body kept for later, focused or skipped by mode.
     */
    method Describe(args: SuiteArgs, mode: Mode) returns (id: nat)
      requires Valid()
      modifies this
      ensures Valid() && current == old(current) && ran == old(ran) && Extends(old(arena), arena)
      ensures id == |old(arena.suites)| && |arena.suites| == id + 1 && arena.tests == old(arena.tests)
      ensures arena.suites[id] ==
        SuiteNode(SuiteName(args), Some(current), [], [], [], [], [], mode == Focused, mode == Skipped, Some(args.body), [])
      ensures arena.suites[current] == old(arena.suites[current]).(children := old(arena.suites[current].children) + [SuiteChild(id)])
      ensures forall k | 0 <= k < id && k != current :: arena.suites[k] == old(arena.suites[k])
      ensures Pending(arena.suites) == old(Pending(arena.suites)) + BodySize(args.body)
      ensures arena == Declared(old(arena), current, DeclareSuite(args, mode))
    {
      id := |arena.suites|;
      var node := NewSuite(current, args, mode);
      var parent := arena.suites[current].(children := arena.suites[current].children + [SuiteChild(id)]);
      AddSuiteKeepsWellFormed(arena, current, node);
      PendingUpdate(arena.suites, current, parent);
      PendingAppend(arena.suites[current := parent], node);
      arena := arena.(suites := arena.suites[current := parent] + [node]);
    }

    /** it, fit and xit: a new test in the current suite, focused or skipped by mode. */
    method It(name: string, callback: Callback, mode: Mode) returns (id: nat)
      requires Valid()
      modifies this
      ensures Valid() && current == old(current) && ran == old(ran) && Extends(old(arena), arena)
      ensures id == |old(arena.tests)| && arena.tests == old(arena.tests) + [TestNode(name, current, callback, mode == Focused, mode == Skipped)]
      ensures |arena.suites| == |old(arena.suites)|
      ensures arena.suites[current] == old(arena.suites[current]).(children := old(arena.suites[current].children) + [TestChild(id)])
      ensures forall k | 0 <= k < |arena.suites| && k != current :: arena.suites[k] == old(arena.suites[k])
      ensures Pending(arena.suites) == old(Pending(arena.suites))
      ensures arena == Declared(old(arena), current, DeclareTest(name, callback, mode))
    {
      id := |arena.tests|;
      var test := NewTest(current, name, callback, mode);
      var parent := arena.suites[current].(children := arena.suites[current].children + [TestChild(id)]);
      AddTestKeepsWellFormed(arena, current, test);
      PendingUpdate(arena.suites, current, parent);
      arena := Arena(arena.suites[current := parent], arena.tests + [test]);
    }

    /** beforeEach, afterEach, beforeAll and afterAll: the hook joins the current suite's list. */
    method AddHook(kind: HookKind, callback: Callback)
      requires Valid()
      modifies this
      ensures Valid() && current == old(current) && ran == old(ran) && Extends(old(arena), arena)
      ensures arena.tests == old(arena.tests) && |arena.suites| == |old(arena.suites)|
      ensures arena.suites[current] == WithHook(old(arena.suites[current]), kind, callback)
      ensures forall k | 0 <= k < |arena.suites| && k != current :: arena.suites[k] == old(arena.suites[k])
      ensures Pending(arena.suites) == old(Pending(arena.suites))
      ensures arena == Declared(old(arena), current, DeclareHook(kind, callback))
    {
      var node := WithHook(arena.suites[current], kind, callback);
      SuiteFacts(arena, current);
      ReplaceKeepsWellFormed(arena, current, node);
      PendingUpdate(arena.suites, current, node);
      arena := arena.(suites := arena.suites[current := node]);
    }

    /** One registration call, made against the current suite. */
    method Declare(d: Decl)
      requires Valid()
      modifies this
      ensures Valid() && current == old(current) && ran == old(ran)
      ensures Pending(arena.suites) == old(Pending(arena.suites)) + DeclSize(d)
      ensures arena == Declared(old(arena), current, d)
    {
      match d {
        case DeclareSuite(args, mode) =>
          var _ := Describe(args, mode);
        case DeclareTest(name, callback, mode) =>
          var _ := It(name, callback, mode);
        case DeclareHook(kind, callback) =>
          AddHook(kind, callback);
      }
    }

    /**
     * Running a suite body: its registrations, in order, against the current
     * suite. Suites it declares start with their own body pending and no children.
     */
    method Register(body: Body)
      requires Valid()
      modifies this
      ensures Valid() && current == old(current) && ran == old(ran) && GrownUnder(old(arena), arena, current)
      ensures Pending(arena.suites) == old(Pending(arena.suites)) + DeclsSize(body, 0)
      ensures arena == Registered(old(arena), current, body.decls, |body.decls|)
    {
      var k := 0;
      while k < |body.decls|
        invariant Valid() && current == old(current) && ran == old(ran) && k <= |body.decls|
        invariant Pending(arena.suites) + DeclsSize(body, k) == old(Pending(arena.suites)) + DeclsSize(body, 0)
        invariant arena == Registered(old(arena), current, body.decls, k)
      {
        Declare(body.decls[k]);
        k := k + 1;
      }
      RegisteredGrownUnder(old(arena), current, body.decls, k);
    }

    /**
     * Suite.tests: on the first call, take the body, run it with this suite
     * as the current one, rethrow its error (leaving this suite current), then
     * restore the current suite and collect the tests of the children in
     * order, resolving child suites as they come. Later calls return the memo.
     */
    method Tests(i: nat) returns (r: Result<seq<nat>, Outcome>)
      requires Valid() && i < |arena.suites|
      modifies this
      decreases Pending(arena.suites), 4
      ensures Valid() && Extends(old(arena), arena) && FramedBy(old(arena), arena, i)
      ensures Pending(arena.suites) <= old(Pending(arena.suites))
      ensures arena.suites[i].callback.None?
      ensures old(arena.suites[i].callback).None? ==>
        r == Ok(old(arena.suites[i].resolved)) && arena == old(arena) && current == old(current)
      ensures old(arena.suites[i].callback).Some? && old(arena.suites[i].callback).value.outcome != NoError ==>
        && r == Err(old(arena.suites[i].callback).value.outcome) && current == i && arena.suites[i].resolved == []
        && arena == AfterBody(old(arena), i)
      ensures r.Err? ==> r.error != NoError
      ensures r.Err? <==> ResolveOutcome(old(arena), i) != NoError
      ensures r.Err? ==> r.error == ResolveOutcome(old(arena), i)
      ensures old(BodiesOk(arena, i)) ==> r.Ok?
      ensures old(arena.suites[i].callback).Some? && old(arena.suites[i].callback).value.outcome == NoError && r.Err? ==>
        exists n :: StoppedAtChild(AfterBody(old(arena), i), arena, i, n, old(Pristine(arena, i)), r.error)
      ensures r.Ok? ==> current == old(current) && r.value == arena.suites[i].resolved
      ensures r.Ok? && old(arena.suites[i].callback).Some? ==>
        r.value == ExpandKids(arena, i, |arena.suites[i].children|)
      ensures r.Ok? && old(Pristine(arena, i)) ==> r.value == Flatten(arena, i)
      ensures old(ran) <= ran
      ensures r.Err? ==> FailedBelow(arena, old(ran), ran, i, current, r.error)
    {
      if arena.suites[i].callback.None? {
        return Ok(arena.suites[i].resolved);
      }
      r := Resolve(i);
    }

    /**
     * The first call of Suite.tests: run the body with this suite as the
     * current one, rethrow its error, else restore the current suite and
     * collect the children's tests.
     */
    method Resolve(i: nat) returns (r: Result<seq<nat>, Outcome>)
      requires Valid() && i < |arena.suites| && arena.suites[i].callback.Some?
      modifies this
      decreases Pending(arena.suites), 3
      ensures Valid() && Extends(old(arena), arena) && FramedBy(old(arena), arena, i)
      ensures Pending(arena.suites) < old(Pending(arena.suites))
      ensures arena.suites[i].callback.None?
      ensures old(arena.suites[i].callback).value.outcome != NoError ==>
        && r == Err(old(arena.suites[i].callback).value.outcome) && current == i && arena.suites[i].resolved == []
        && arena == AfterBody(old(arena), i)
      ensures r.Err? ==> r.error != NoError
      ensures r.Err? <==> ResolveOutcome(old(arena), i) != NoError
      ensures r.Err? ==> r.error == ResolveOutcome(old(arena), i)
      ensures old(BodiesOk(arena, i)) ==> r.Ok?
      ensures old(arena.suites[i].callback).value.outcome == NoError && r.Err? ==>
        exists n :: StoppedAtChild(AfterBody(old(arena), i), arena, i, n, old(Pristine(arena, i)), r.error)
      ensures r.Ok? ==> current == old(current) && r.value == arena.suites[i].resolved
      ensures r.Ok? ==>
        r.value == ExpandKids(arena, i, |arena.suites[i].children|)
      ensures r.Ok? && old(Pristine(arena, i)) ==> r.value == Flatten(arena, i)
      ensures old(ran) <= ran
      ensures r.Err? ==> FailedBelow(arena, old(ran), ran, i, current, r.error)
    {
      ghost var a0 := arena;
      ghost var pristine := Pristine(arena, i);
      if BodiesOk(a0, i) {
        BodiesOkResolve(a0, i);
      }
      var previous := current;
      var outcome := RunBody(i);
      if outcome != NoError {
        FailedOwn(arena, old(ran), i, outcome);
        return Err(outcome);
      }
      current := previous;
      OutcomeAfterBody(a0, i);
      ghost var ranBody := ran;
      r := Collect(i, Pending(a0.suites), pristine, a0);
      if r.Err? {
        FailedSince(arena, old(ran), ranBody, ran, i, current, r.error);
      }
    }

    /**
     * The first half of Suite.tests: take the pending body of suite i and run
     * its registrations with i as the current suite.
     */
    method RunBody(i: nat) returns (outcome: Outcome)
      requires Valid() && i < |arena.suites| && arena.suites[i].callback.Some?
      modifies this
      ensures Valid() && Extends(old(arena), arena) && FramedBy(old(arena), arena, i)
      ensures Pending(arena.suites) < old(Pending(arena.suites))
      ensures outcome == old(arena.suites[i].callback).value.outcome && current == i
      ensures ran == old(ran) + [BodyRun(i, outcome)]
      ensures arena.suites[i].callback.None? && arena.suites[i].resolved == []
      ensures old(Pristine(arena, i)) ==> AllKidsPristine(arena, i, 0)
      ensures arena == AfterBody(old(arena), i)
    {
      ghost var a0 := arena;
      var body := arena.suites[i].callback.value;
      SuiteFacts(arena, i);
      var taken := arena.suites[i].(callback := None);
      ReplaceKeepsWellFormed(arena, i, taken);
      PendingUpdate(arena.suites, i, taken);
      arena := arena.(suites := arena.suites[i := taken]);
      ghost var amid := arena;
      current := i;
      Register(body);
      BodyRan(a0, amid, arena, i);
      outcome := body.outcome;
      ran := ran + [BodyRun(i, outcome)];
    }

    /** The loop of Suite.tests over the children, after the body has run. */
    method Collect(i: nat, ghost bound: nat, ghost pristine: bool, ghost a0: Arena) returns (r: Result<seq<nat>, Outcome>)
      requires Valid() && i < |arena.suites|
      requires arena.suites[i].resolved == []
      requires Collecting(a0, arena, i, arena.suites[i].children, 0, bound, pristine)
      modifies this
      decreases bound, 2
      ensures Valid() && Extends(a0, arena) && FramedBy(a0, arena, i)
      ensures Pending(arena.suites) < bound
      ensures arena.suites[i].callback.None?
      ensures r.Err? ==> r.error != NoError
      ensures r.Ok? ==> current == old(current) && r.value == arena.suites[i].resolved
      ensures r.Ok? ==> r.value == ExpandKids(arena, i, |arena.suites[i].children|)
      ensures r.Ok? && pristine ==> r.value == Flatten(arena, i)
      ensures r.Ok? <==> ChildrenOutcome(old(arena), i, old(arena.suites[i].children)) == NoError
      ensures r.Err? ==> r.error == ChildrenOutcome(old(arena), i, old(arena.suites[i].children))
      ensures r.Err? ==> exists n :: StoppedAtChild(old(arena), arena, i, n, pristine, r.error)
      ensures old(ran) <= ran
      ensures r.Err? ==> FailedBelow(arena, old(ran), ran, i, current, r.error)
    {
      ghost var a1 := arena;
      var kids := arena.suites[i].children;
      var idx := 0;
      while idx < |kids|
        invariant current < |arena.suites| && current == old(current) && idx <= |kids|
        invariant Collecting(a0, arena, i, kids, idx, bound, pristine)
        invariant ChildrenOutcome(a1, i, kids[..idx]) == NoError
        invariant OutcomesKept(a1, arena, i, kids, idx)
        invariant old(ran) <= ran
      {
        ghost var ranBefore := ran;
        var err := CollectOne(i, idx, bound, pristine, a0, a1);
        ChildrenOutcomeNext(a1, i, kids, idx);
        if err.Some? {
          FailedSince(arena, old(ran), ranBefore, ran, i, current, err.value);
          ChildrenOutcomeStop(a1, i, kids, idx);
          assert StoppedAtChild(a1, arena, i, idx, pristine, err.value);
          return Err(err.value);
        }
        idx := idx + 1;
      }
      assert kids[..idx] == kids;
      return Ok(arena.suites[i].resolved);
    }

    /** One turn of that loop: a test joins the memo; a suite is resolved and its tests join. */
    method CollectOne(i: nat, idx: nat, ghost bound: nat, ghost pristine: bool, ghost a0: Arena, ghost a1: Arena)
      returns (err: Option<Outcome>)
      requires current < |arena.suites| && i < |arena.suites| && idx < |arena.suites[i].children|
      requires Collecting(a0, arena, i, arena.suites[i].children, idx, bound, pristine)
      requires WellFormed(a1) && i < |a1.suites| && a1.suites[i].children == arena.suites[i].children
      requires OutcomesKept(a1, arena, i, arena.suites[i].children, idx)
      modifies this
      decreases bound, 1
      ensures current < |arena.suites| && i < |arena.suites| && arena.suites[i].children == old(arena.suites[i].children)
      ensures err.Some? ==> err.value != NoError && Collecting(a0, arena, i, old(arena.suites[i].children), idx, bound, false)
      ensures err.Some? ==> old(arena.suites[i].children[idx]).SuiteChild?
      ensures err.Some? && pristine ==> arena.suites[i].resolved == FlattenKids(arena, i, idx)
      ensures err.None? ==> current == old(current) && Collecting(a0, arena, i, old(arena.suites[i].children), idx + 1, bound, pristine)
      ensures err.None? ==> OutcomesKept(a1, arena, i, old(arena.suites[i].children), idx + 1)
      ensures KidOutcome(a1, i, old(arena.suites[i].children[idx])) == if err.Some? then err.value else NoError
      ensures old(ran) <= ran
      ensures err.Some? ==> FailedBelow(arena, old(ran), ran, i, current, err.value)
    {
      var kid := arena.suites[i].children[idx];
      assert ChildOk(arena, i, kid);
      var more: seq<nat>;
      match kid {
        case TestChild(t) =>
          more := [t];
        case SuiteChild(j) =>
          var sub := CollectSuite(i, idx, bound, pristine, a0, a1);
          if sub.Err? {
            return Some(sub.error);
          }
          more := sub.value;
      }
      Memoise(i, idx, more, bound, pristine, a0, a1);
      return None;
    }

    /** this.#tests.push(...): the tests child idx contributes join suite i's memo. */
    method Memoise(i: nat, idx: nat, more: seq<nat>, ghost bound: nat, ghost pristine: bool, ghost a0: Arena, ghost a1: Arena)
      requires WellFormed(a0) && WellFormed(arena) && i < |a0.suites| && i < |arena.suites|
      requires Extends(a0, arena) && FramedBy(a0, arena, i)
      requires idx < |arena.suites[i].children| && arena.suites[i].callback.None? && Pending(arena.suites) < bound
      requires arena.suites[i].resolved == ExpandKids(arena, i, idx)
      requires more == match arena.suites[i].children[idx]
        case TestChild(t) => [t]
        case SuiteChild(j) => arena.suites[j].resolved
      requires pristine ==> arena.suites[i].resolved == FlattenKids(arena, i, idx) && AllKidsPristine(arena, i, idx + 1)
      requires pristine && arena.suites[i].children[idx].SuiteChild? ==> more == Flatten(arena, arena.suites[i].children[idx].suite)
      requires OutcomesKept(a1, arena, i, arena.suites[i].children, idx + 1)
      modifies this
      ensures current == old(current) && ran == old(ran) && |arena.suites| == |old(arena.suites)|
      ensures Collecting(a0, arena, i, old(arena.suites[i].children), idx + 1, bound, pristine)
      ensures OutcomesKept(a1, arena, i, old(arena.suites[i].children), idx + 1)
    {
      ghost var mid := arena;
      arena := arena.(suites := arena.suites[i := arena.suites[i].(resolved := arena.suites[i].resolved + more)]);
      OwnUpdated(a0, mid, arena, i, idx, more, pristine);
      KeptAfterOwn(a1, mid, arena, i, idx + 1);
    }

    /** A child suite's turn of that loop: resolve it, leaving suite i and the children before it as they were. */
    method CollectSuite(i: nat, idx: nat, ghost bound: nat, ghost pristine: bool, ghost a0: Arena, ghost a1: Arena)
      returns (sub: Result<seq<nat>, Outcome>)
      requires current < |arena.suites| && i < |arena.suites| && idx < |arena.suites[i].children|
      requires arena.suites[i].children[idx].SuiteChild?
      requires Collecting(a0, arena, i, arena.suites[i].children, idx, bound, pristine)
      requires WellFormed(a1) && i < |a1.suites| && a1.suites[i].children == arena.suites[i].children
      requires OutcomesKept(a1, arena, i, arena.suites[i].children, idx)
      modifies this
      decreases bound, 0
      ensures WellFormed(arena) && current < |arena.suites| && i < |arena.suites|
      ensures Extends(a0, arena) && FramedBy(a0, arena, i) && arena.suites[i] == old(arena.suites[i])
      ensures Pending(arena.suites) < bound
      ensures ExpandKids(arena, i, idx) == old(ExpandKids(arena, i, idx))
      ensures FlattenKids(arena, i, idx) == old(FlattenKids(arena, i, idx))
      ensures pristine ==> AllKidsPristine(arena, i, idx + 1)
      ensures OutcomesKept(a1, arena, i, old(arena.suites[i].children), idx + 1)
      ensures KidOutcome(a1, i, old(arena.suites[i].children[idx])) == if sub.Err? then sub.error else NoError
      ensures old(ran) <= ran
      ensures sub.Err? ==> sub.error != NoError && FailedBelow(arena, old(ran), ran, i, current, sub.error)
      ensures sub.Err? ==> Collecting(a0, arena, i, old(arena.suites[i].children), idx, bound, false)
      ensures sub.Err? && pristine ==> arena.suites[i].resolved == FlattenKids(arena, i, idx)
      ensures sub.Ok? ==> current == old(current)
      ensures sub.Ok? ==> sub.value == arena.suites[old(arena.suites[i].children[idx]).suite].resolved
      ensures sub.Ok? && pristine ==> sub.value == Flatten(arena, old(arena.suites[i].children[idx]).suite)
    {
      ghost var pre := arena;
      var j := arena.suites[i].children[idx].suite;
      assert ChildOk(arena, i, arena.suites[i].children[idx]);
      assert ChildOk(a1, i, arena.suites[i].children[idx]);
      sub := Tests(j);
      ChildResolved(a0, pre, arena, i, idx, pristine);
      KeptAfterChild(a1, pre, arena, i, idx);
      if sub.Err? {
        FailedInChild(pre, arena, i, idx, old(ran), ran, current, sub.error);
      }
    }
  }
}
