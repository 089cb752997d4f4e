/**
 * The focus/skip policy of the describers package: Suite._hasFocusedDescendant
 * and Test.shouldRun (packages/describers/src/index.ts).
 */
module Focus {
  import opened Wrappers
  import opened SuiteTree

  /** The child is a focused suite or a focused test. */
  predicate ChildFocused(a: Arena, c: Child) {
    match c
    case SuiteChild(j) => j < |a.suites| && a.suites[j].focused
    case TestChild(t) => t < |a.tests| && a.tests[t].focused
  }

  /** Suite._hasFocusedDescendant: some child is focused, or is a suite with a focused descendant. */
  function HasFocusedDescendant(a: Arena, i: nat): bool
    requires WellFormed(a) && i < |a.suites|
    decreases |a.suites| - i
  {
    exists k | 0 <= k < |a.suites[i].children| ::
      || ChildFocused(a, a.suites[i].children[k])
      || (a.suites[i].children[k].SuiteChild? && HasFocusedDescendant(a, a.suites[i].children[k].suite))
  }

  /**
   * The reference meaning: a focused suite strictly below i, or a focused
   * test in i or below it, judged by the parent links alone.
   */
  ghost predicate FocusedBelow(a: Arena, i: nat)
    requires WellFormed(a) && i < |a.suites|
  {
    || (exists k | 0 <= k < |a.suites| :: k != i && a.suites[k].focused && i in SuiteChain(a, k))
    || (exists t | 0 <= t < |a.tests| :: a.tests[t].focused && TestInSubtree(a, i, t))
  }

  ghost predicate TestInSubtree(a: Arena, i: nat, t: nat)
    requires WellFormed(a) && t < |a.tests|
  {
    assert TestOk(a, t);
    i in SuiteChain(a, a.tests[t].suite)
  }

  lemma {:induction false} FocusedDescendantIsBelow(a: Arena, i: nat)
    requires WellFormed(a) && i < |a.suites| && HasFocusedDescendant(a, i)
    ensures FocusedBelow(a, i)
    decreases |a.suites| - i
  {
    var kids := a.suites[i].children;
    var k :| 0 <= k < |kids| && (ChildFocused(a, kids[k]) || (kids[k].SuiteChild? && HasFocusedDescendant(a, kids[k].suite)));
    assert ChildOk(a, i, kids[k]);
    match kids[k]
    case TestChild(t) =>
      assert TestOk(a, t);
      assert TestInSubtree(a, i, t);
    case SuiteChild(j) =>
      if !a.suites[j].focused {
        FocusedDescendantIsBelow(a, j);
      }
      BelowChild(a, i, j);
  }

  /** Focus at or below a child suite is focus strictly below its parent. */
  lemma BelowChild(a: Arena, i: nat, j: nat)
    requires WellFormed(a) && i < j < |a.suites| && a.suites[j].parent == Some(i)
    requires a.suites[j].focused || FocusedBelow(a, j)
    ensures FocusedBelow(a, i)
  {
    ChainOfChild(a, i, j);
    if a.suites[j].focused {
      assert i in SuiteChain(a, j);
    } else if x :| 0 <= x < |a.suites| && x != j && a.suites[x].focused && j in SuiteChain(a, x) {
      ChildSubtree(a, i, j, x);
      assert x != i;
    } else {
      var t :| 0 <= t < |a.tests| && a.tests[t].focused && TestInSubtree(a, j, t);
      assert TestOk(a, t);
      ChildSubtree(a, i, j, a.tests[t].suite);
      assert TestInSubtree(a, i, t);
    }
  }

  /** A suite one of whose children is focused, or has a focused descendant, has a focused descendant. */
  lemma ParentSeesChild(a: Arena, p: nat, j: nat)
    requires WellFormed(a) && p < |a.suites| && SuiteChild(j) in a.suites[p].children
    requires j < |a.suites| && (a.suites[j].focused || HasFocusedDescendant(a, j))
    ensures HasFocusedDescendant(a, p)
  {
    var k :| 0 <= k < |a.suites[p].children| && a.suites[p].children[k] == SuiteChild(j);
    assert ChildFocused(a, a.suites[p].children[k]) || HasFocusedDescendant(a, a.suites[p].children[k].suite);
  }

  /** Focus anywhere strictly below i reaches i through the chain of parents. */
  lemma {:induction false} Lift(a: Arena, i: nat, j: nat)
    requires WellFormed(a) && i < |a.suites| && j < |a.suites| && i != j && i in SuiteChain(a, j)
    requires a.suites[j].focused || HasFocusedDescendant(a, j)
    ensures HasFocusedDescendant(a, i)
    decreases j
  {
    SuiteFacts(a, j);
    var p := a.suites[j].parent.value;
    ParentSeesChild(a, p, j);
    if p != i {
      assert SuiteChain(a, j) == SuiteChain(a, p) + [j];
      Lift(a, i, p);
    }
  }

  /** _hasFocusedDescendant holds exactly when something strictly below the suite is focused. */
  lemma HasFocusedDescendantSpec(a: Arena, i: nat)
    requires WellFormed(a) && i < |a.suites|
    ensures HasFocusedDescendant(a, i) <==> FocusedBelow(a, i)
  {
    if HasFocusedDescendant(a, i) {
      FocusedDescendantIsBelow(a, i);
    }
    if FocusedBelow(a, i) {
      if k :| 0 <= k < |a.suites| && k != i && a.suites[k].focused && i in SuiteChain(a, k) {
        Lift(a, i, k);
      } else {
        var t :| 0 <= t < |a.tests| && a.tests[t].focused && TestInSubtree(a, i, t);
        assert TestOk(a, t);
        var s := a.tests[t].suite;
        var k :| 0 <= k < |a.suites[s].children| && a.suites[s].children[k] == TestChild(t);
        assert ChildFocused(a, a.suites[s].children[k]);
        assert HasFocusedDescendant(a, s);
        if s != i {
          Lift(a, i, s);
        }
      }
    }
  }

  // ---------------------------------------------------------------------------
  // Test.shouldRun
  // ---------------------------------------------------------------------------

  /** Some suite from the root down to s is skipped. */
  ghost predicate SkippedOnChain(a: Arena, s: nat)
    requires WellFormed(a) && s < |a.suites|
  {
    var chain := SuiteChain(a, s);
    exists k | 0 <= k < |chain| :: a.suites[chain[k]].skipped
  }

  lemma SkippedOnChainStep(a: Arena, s: nat)
    requires WellFormed(a) && s < |a.suites|
    ensures SkippedOnChain(a, s) <==>
      a.suites[s].skipped || (a.suites[s].parent.Some? && SkippedOnChain(a, a.suites[s].parent.value))
  {
    SuiteFacts(a, s);
    var chain := SuiteChain(a, s);
    if a.suites[s].parent.Some? {
      var p := a.suites[s].parent.value;
      var pc := SuiteChain(a, p);
      assert chain == pc + [s];
      if SkippedOnChain(a, p) {
        var k :| 0 <= k < |pc| && a.suites[pc[k]].skipped;
        assert chain[k] == pc[k];
      }
      if SkippedOnChain(a, s) && !a.suites[s].skipped {
        var k :| 0 <= k < |chain| && a.suites[chain[k]].skipped;
        assert k < |pc| && pc[k] == chain[k];
      }
    } else {
      assert chain == [s];
    }
    if a.suites[s].skipped {
      assert a.suites[chain[|chain| - 1]].skipped;
    }
  }

  /**
   * Where the second climb in shouldRun stops: the innermost focused suite
   * between s and the root, the root itself never being asked.
   */
  function FocusGroup(a: Arena, s: nat): (g: nat)
    requires WellFormed(a) && s < |a.suites|
    ensures g <= s && g in SuiteChain(a, s)
    ensures a.suites[g].parent.Some? ==> a.suites[g].focused
    ensures a.suites[g].parent.None? <==> g == 0
    ensures forall x | x in SuiteChain(a, s) && g < x :: !a.suites[x].focused
    decreases s
  {
    SuiteFacts(a, s);
    match a.suites[s].parent
    case None => s
    case Some(p) =>
      if a.suites[s].focused then s
      else
        assert SuiteChain(a, s) == SuiteChain(a, p) + [s];
        SuiteFacts(a, FocusGroup(a, p));
        FocusGroup(a, p)
  }

  /** The meaning of Test.shouldRun, rule by rule. */
  ghost predicate Runnable(a: Arena, t: nat)
    requires WellFormed(a) && t < |a.tests|
  {
    var test := a.tests[t];
    assert TestOk(a, t);
    && !test.skipped
    && (|| test.focused
        || (!SkippedOnChain(a, test.suite) && !HasFocusedDescendant(a, FocusGroup(a, test.suite))))
  }

  /** Test.shouldRun, with its two climbs along the parent links. */
  method ShouldRun(a: Arena, t: nat) returns (run: bool)
    requires WellFormed(a) && t < |a.tests|
    ensures run == Runnable(a, t)
    ensures a.tests[t].skipped ==> !run
    ensures a.tests[t].focused && !a.tests[t].skipped ==> run
    ensures !a.tests[t].focused && TestOk(a, t) && SkippedOnChain(a, a.tests[t].suite) ==> !run
  {
    var test := a.tests[t];
    if test.skipped {
      return false;
    }
    if test.focused {
      return true;
    }
    assert TestOk(a, t);
    var cursor: Option<nat> := Some(test.suite);
    while cursor.Some?
      invariant cursor.Some? ==> cursor.value < |a.suites|
      invariant SkippedOnChain(a, test.suite) <==> (cursor.Some? && SkippedOnChain(a, cursor.value))
      decreases if cursor.Some? then cursor.value + 1 else 0
    {
      var s := cursor.value;
      SkippedOnChainStep(a, s);
      if a.suites[s].skipped {
        return false;
      }
      SuiteFacts(a, s);
      cursor := a.suites[s].parent;
    }
    var suite: nat := test.suite;
    while a.suites[suite].parent.Some?
      invariant suite < |a.suites| && FocusGroup(a, suite) == FocusGroup(a, test.suite)
      decreases suite
    {
      if a.suites[suite].focused {
        break;
      }
      SuiteFacts(a, suite);
      suite := a.suites[suite].parent.value;
    }
    run := !HasFocusedDescendant(a, suite);
  }

  // ---------------------------------------------------------------------------
  // Consequences of the policy
  // ---------------------------------------------------------------------------

  ghost predicate NothingFocused(a: Arena) {
    && (forall k | 0 <= k < |a.suites| :: !a.suites[k].focused)
    && (forall t | 0 <= t < |a.tests| :: !a.tests[t].focused)
  }

  /** With nothing focused, a test runs exactly when neither it nor any suite above it is skipped. */
  lemma NoFocusRunsUnskipped(a: Arena, t: nat)
    requires WellFormed(a) && t < |a.tests| && NothingFocused(a)
    ensures Runnable(a, t) <==> !a.tests[t].skipped && !SkippedOnChain(a, a.tests[t].suite)
  {
    assert TestOk(a, t);
    HasFocusedDescendantSpec(a, FocusGroup(a, a.tests[t].suite));
  }

  /**
   * With one focused test and no focused suite, every other unfocused test is
   * left out, whichever suite it sits in.
   */
  lemma FocusedTestExcludesOthers(a: Arena, f: nat, t: nat)
    requires WellFormed(a) && f < |a.tests| && t < |a.tests|
    requires a.tests[f].focused && !a.tests[t].focused
    requires forall k | 0 <= k < |a.suites| :: !a.suites[k].focused
    ensures !Runnable(a, t)
  {
    assert TestOk(a, t);
    assert TestOk(a, f);
    var g := FocusGroup(a, a.tests[t].suite);
    assert g == 0;
    assert TestInSubtree(a, 0, f) by {
      assert SuiteChain(a, a.tests[f].suite)[0] == 0;
    }
    HasFocusedDescendantSpec(a, 0);
  }
}
