/**
 * The suite/test tree of the describers package (packages/describers/src/index.ts),
 * held in an arena: suites and tests are addressed by their index, every
 * suite but the root stores the index of its parent, and every suite keeps the
 * ordered list of its children. Suites are only ever appended, so a parent
 * always has a smaller index than its children.
 */
module SuiteTree {
  import opened Wrappers

  /** The identity of a user callback: a hook or a test body. */
  type Callback = nat

  /**
   * What running a user callback ends with: the winner of the race in
   * runUserCallback between the callback, its timer and its termination handle.
   */
  datatype Outcome = NoError | Timeout | Terminated | Thrown(error: string)

  datatype HookKind = BeforeEach | AfterEach | BeforeAll | AfterAll

  /** How a suite or test is declared: describe/it, fdescribe/fit, or xdescribe/xit. */
  datatype Mode = Plain | Focused | Skipped

  /**
   * A deferred suite body: the registrations it performs while it runs, in
   * order, and how it ends (NoError, or the error the body threw or timed out with).
   */
  datatype Body = Body(decls: seq<Decl>, outcome: Outcome)

  /** One registration call made by a suite body. */
  datatype Decl =
    | DeclareSuite(args: SuiteArgs, mode: Mode)
    | DeclareTest(name: string, callback: Callback, mode: Mode)
    | DeclareHook(kind: HookKind, callback: Callback)

  /** The two call forms of describe: `describe(name, body)` and `describe(body)`. */
  datatype SuiteArgs = Named(name: string, body: Body) | Anonymous(body: Body)

  datatype Child = SuiteChild(suite: nat) | TestChild(test: nat)

  datatype SuiteNode = SuiteNode(
    name: string,
    parent: Option<nat>,
    children: seq<Child>,
    beforeEach: seq<Callback>,
    afterEach: seq<Callback>,
    beforeAll: seq<Callback>,
    afterAll: seq<Callback>,
    focused: bool,
    skipped: bool,
    callback: Option<Body>,   // the deferred body; None once it has been taken
    resolved: seq<nat>)       // the memoised list of test indices

  datatype TestNode = TestNode(name: string, suite: nat, callback: Callback, focused: bool, skipped: bool)

  datatype Arena = Arena(suites: seq<SuiteNode>, tests: seq<TestNode>)

  // ---------------------------------------------------------------------------
  // Well-formedness of the arena
  // ---------------------------------------------------------------------------

  /** Every suite but the root has an older parent that lists it as a child. */
  ghost predicate ParentOk(a: Arena, i: nat)
    requires i < |a.suites|
  {
    var p := a.suites[i].parent;
    p.Some? && p.value < i && SuiteChild(i) in a.suites[p.value].children
  }

  /** A child entry of suite i points back at i. */
  ghost predicate ChildOk(a: Arena, i: nat, c: Child) {
    match c
    case SuiteChild(j) => i < j < |a.suites| && a.suites[j].parent == Some(i)
    case TestChild(t) => t < |a.tests| && a.tests[t].suite == i
  }

  ghost predicate TestOk(a: Arena, t: nat)
    requires t < |a.tests|
  {
    var s := a.tests[t].suite;
    s < |a.suites| && TestChild(t) in a.suites[s].children
  }

  /** The memoised list is empty while the body is pending and names known tests. */
  ghost predicate ResolvedOk(a: Arena, i: nat)
    requires i < |a.suites|
  {
    (a.suites[i].callback.Some? ==> a.suites[i].resolved == [])
    && forall k | 0 <= k < |a.suites[i].resolved| :: a.suites[i].resolved[k] < |a.tests|
  }

  /** A suite never lists the same child twice. */
  ghost predicate DistinctKids(a: Arena, i: nat)
    requires i < |a.suites|
  {
    forall k1, k2 | 0 <= k1 < k2 < |a.suites[i].children| :: a.suites[i].children[k1] != a.suites[i].children[k2]
  }

  ghost predicate WellFormed(a: Arena) {
    && |a.suites| > 0
    && a.suites[0].parent == None
    && (forall i | 0 < i < |a.suites| :: a.suites[i].parent.Some? && a.suites[i].parent.value < i)
    && (forall i | 0 < i < |a.suites| :: ParentOk(a, i))
    && (forall t | 0 <= t < |a.tests| :: a.tests[t].suite < |a.suites|)
    && (forall i, k | 0 <= i < |a.suites| && 0 <= k < |a.suites[i].children| :: ChildOk(a, i, a.suites[i].children[k]))
    && (forall t | 0 <= t < |a.tests| :: TestOk(a, t))
    && (forall i | 0 <= i < |a.suites| :: ResolvedOk(a, i))
    && (forall i | 0 <= i < |a.suites| :: DistinctKids(a, i))
  }

  /** Facts about one suite that follow from well-formedness. */
  lemma SuiteFacts(a: Arena, i: nat)
    requires WellFormed(a) && i < |a.suites|
    ensures a.suites[i].parent.None? <==> i == 0
    ensures a.suites[i].parent.Some? ==> ParentOk(a, i)
    ensures ResolvedOk(a, i) && DistinctKids(a, i)
  {
    if i > 0 {
      assert ParentOk(a, i);
    }
  }

  /**
   * The growth that registration and resolution allow: no suite or test
   * disappears, and names, parents and flags of existing suites stay as they are.
   */
  ghost predicate Extends(a0: Arena, a1: Arena) {
    && |a0.suites| <= |a1.suites|
    && a0.tests <= a1.tests
    && forall k {:trigger KeepsAt(a0, a1, k)} | 0 <= k < |a0.suites| :: KeepsAt(a0, a1, k)
  }

  /** Suite k has the same parent, name and flags in a1 as in a0. */
  ghost predicate KeepsAt(a0: Arena, a1: Arena, k: nat)
    requires k < |a0.suites| <= |a1.suites|
  {
    && a1.suites[k].parent == a0.suites[k].parent
    && a1.suites[k].name == a0.suites[k].name
    && a1.suites[k].focused == a0.suites[k].focused
    && a1.suites[k].skipped == a0.suites[k].skipped
  }

  lemma ExtendsTrans(a0: Arena, a1: Arena, a2: Arena)
    requires Extends(a0, a1) && Extends(a1, a2)
    ensures Extends(a0, a2)
  {
    forall k | 0 <= k < |a0.suites| ensures KeepsAt(a0, a2, k) {
      assert KeepsAt(a0, a1, k) && KeepsAt(a1, a2, k);
    }
  }

  // ---------------------------------------------------------------------------
  // Ancestor chains
  // ---------------------------------------------------------------------------

  /**
   * The suites from the root down to suite i, following parent links; the
   * worker's suiteStack for a test in suite i is this chain.
   */
  function SuiteChain(a: Arena, i: nat): (chain: seq<nat>)
    requires WellFormed(a) && i < |a.suites|
    ensures |chain| > 0 && chain[0] == 0 && chain[|chain| - 1] == i
    ensures forall m | 0 <= m < |chain| - 1 :: chain[m] < i
    decreases i
  {
    SuiteFacts(a, i);
    match a.suites[i].parent
    case None => [i]
    case Some(p) => SuiteChain(a, p) + [i]
  }

  /** Every suite on the chain of i has as its own chain the matching prefix. */
  lemma {:induction false} ChainPrefix(a: Arena, i: nat, m: nat)
    requires WellFormed(a) && i < |a.suites|
    requires m < |SuiteChain(a, i)|
    ensures SuiteChain(a, SuiteChain(a, i)[m]) == SuiteChain(a, i)[..m + 1]
    decreases i
  {
    var chain := SuiteChain(a, i);
    SuiteFacts(a, i);
    if m < |chain| - 1 {
      var p := a.suites[i].parent.value;
      assert chain == SuiteChain(a, p) + [i];
      ChainPrefix(a, p, m);
      assert chain[..m + 1] == SuiteChain(a, p)[..m + 1];
    }
  }

  /** A suite's chain stays the same while the arena only grows. */
  lemma {:induction false} ChainStable(a0: Arena, a1: Arena, i: nat)
    requires WellFormed(a0) && WellFormed(a1) && Extends(a0, a1) && i < |a0.suites|
    ensures SuiteChain(a1, i) == SuiteChain(a0, i)
    decreases i
  {
    SuiteFacts(a0, i);
    assert KeepsAt(a0, a1, i);
    if a0.suites[i].parent.Some? {
      ChainStable(a0, a1, a0.suites[i].parent.value);
    }
  }

  /** j lies in the subtree of i (i itself included). */
  ghost predicate InSubtree(a: Arena, i: nat, j: nat)
    requires WellFormed(a)
  {
    j < |a.suites| && i in SuiteChain(a, j)
  }

  /** The subtree of a child suite lies inside the subtree of its parent. */
  lemma ChildSubtree(a: Arena, i: nat, j: nat, k: nat)
    requires WellFormed(a) && i < j < |a.suites| && a.suites[j].parent == Some(i)
    requires InSubtree(a, j, k)
    ensures InSubtree(a, i, k)
  {
    var chain := SuiteChain(a, k);
    var m :| 0 <= m < |chain| && chain[m] == j;
    ChainPrefix(a, k, m);
    assert SuiteChain(a, j) == SuiteChain(a, i) + [j];
    assert i == SuiteChain(a, j)[|SuiteChain(a, j)| - 2];
  }

  /** The subtrees of two different children of one suite do not overlap. */
  lemma SiblingsDisjoint(a: Arena, i: nat, j1: nat, j2: nat, k: nat)
    requires WellFormed(a) && i < |a.suites|
    requires j1 < |a.suites| && a.suites[j1].parent == Some(i)
    requires j2 < |a.suites| && a.suites[j2].parent == Some(i)
    requires InSubtree(a, j1, k) && InSubtree(a, j2, k)
    ensures j1 == j2
  {
    var chain := SuiteChain(a, k);
    var m1 :| 0 <= m1 < |chain| && chain[m1] == j1;
    var m2 :| 0 <= m2 < |chain| && chain[m2] == j2;
    ChainPrefix(a, k, m1);
    ChainPrefix(a, k, m2);
    assert SuiteChain(a, j1) == SuiteChain(a, i) + [j1];
    assert SuiteChain(a, j2) == SuiteChain(a, i) + [j2];
  }

  /** i sits on the chain of j, and j on the chain of k: i sits on the chain of k. */
  lemma SubtreeTrans(a: Arena, i: nat, j: nat, k: nat)
    requires WellFormed(a) && j < |a.suites| && k < |a.suites|
    requires i in SuiteChain(a, j) && j in SuiteChain(a, k)
    ensures i in SuiteChain(a, k)
  {
    var chain := SuiteChain(a, k);
    var m :| 0 <= m < |chain| && chain[m] == j;
    ChainPrefix(a, k, m);
    var l :| 0 <= l < |SuiteChain(a, j)| && SuiteChain(a, j)[l] == i;
    assert chain[l] == i;
  }

  /** Of two suites on one chain, the smaller sits on the chain of the larger. */
  lemma ChainOrdered(a: Arena, s: nat, x: nat, y: nat)
    requires WellFormed(a) && s < |a.suites|
    requires x in SuiteChain(a, s) && y in SuiteChain(a, s) && x <= y
    ensures x in SuiteChain(a, y)
  {
    var chain := SuiteChain(a, s);
    var l :| 0 <= l < |chain| && chain[l] == x;
    var m :| 0 <= m < |chain| && chain[m] == y;
    assert l <= m by {
      if m < l {
        ChainIncreasing(a, s, m, l);
      }
    }
    ChainPrefix(a, s, m);
    assert SuiteChain(a, y)[l] == x;
  }

  /** Along a chain the indices grow from the root down. */
  lemma ChainIncreasing(a: Arena, s: nat, l: nat, m: nat)
    requires WellFormed(a) && s < |a.suites| && l < m < |SuiteChain(a, s)|
    ensures SuiteChain(a, s)[l] < SuiteChain(a, s)[m]
  {
    ChainPrefix(a, s, m);
    assert SuiteChain(a, SuiteChain(a, s)[m])[l] == SuiteChain(a, s)[l];
  }

  /** The chain of a child is the chain of its parent followed by the child. */
  lemma ChainOfChild(a: Arena, i: nat, j: nat)
    requires WellFormed(a) && i < j < |a.suites| && a.suites[j].parent == Some(i)
    ensures SuiteChain(a, j) == SuiteChain(a, i) + [j]
  {
  }

  // ---------------------------------------------------------------------------
  // Frames
  // ---------------------------------------------------------------------------

  /** Suite k of a0 is still there, the same, in a1. */
  ghost predicate SameAt(a0: Arena, a1: Arena, k: nat)
    requires k < |a0.suites|
  {
    k < |a1.suites| && a1.suites[k] == a0.suites[k]
  }

  /** Every suite of a0 in the subtree of x is the same in a1. */
  ghost predicate Unchanged(a0: Arena, a1: Arena, x: nat)
    requires WellFormed(a0)
  {
    forall k {:trigger SameAt(a0, a1, k)} | 0 <= k < |a0.suites| && x in SuiteChain(a0, k) :: SameAt(a0, a1, k)
  }

  /** Every suite of a0 outside the subtree of x is the same in a1. */
  ghost predicate FramedBy(a0: Arena, a1: Arena, x: nat)
    requires WellFormed(a0)
  {
    forall k {:trigger SameAt(a0, a1, k)} | 0 <= k < |a0.suites| && x !in SuiteChain(a0, k) :: SameAt(a0, a1, k)
  }

  /** A change confined to the subtree of j leaves a sibling's subtree alone. */
  lemma SiblingUnchanged(a0: Arena, a1: Arena, i: nat, j: nat, c: nat)
    requires WellFormed(a0) && i < |a0.suites| && FramedBy(a0, a1, j)
    requires j < |a0.suites| && a0.suites[j].parent == Some(i)
    requires c < |a0.suites| && a0.suites[c].parent == Some(i) && c != j
    ensures Unchanged(a0, a1, c)
  {
    forall k | 0 <= k < |a0.suites| && c in SuiteChain(a0, k)
      ensures SameAt(a0, a1, k)
    {
      if j in SuiteChain(a0, k) {
        SiblingsDisjoint(a0, i, c, j, k);
      }
    }
  }

  /** A change confined to a child's subtree, after one confined to the parent's, is confined to the parent's. */
  lemma FramedTrans(a0: Arena, a1: Arena, a2: Arena, i: nat, j: nat)
    requires WellFormed(a0) && WellFormed(a1) && Extends(a0, a1)
    requires FramedBy(a0, a1, i) && FramedBy(a1, a2, j)
    requires j < |a1.suites| && i in SuiteChain(a1, j)
    ensures FramedBy(a0, a2, i)
  {
    forall k | 0 <= k < |a0.suites| && i !in SuiteChain(a0, k)
      ensures SameAt(a0, a2, k)
    {
      ChainStable(a0, a1, k);
      if j in SuiteChain(a1, k) {
        SubtreeTrans(a1, i, j, k);
      }
      assert SameAt(a0, a1, k);
      assert SameAt(a1, a2, k);
    }
  }
}
