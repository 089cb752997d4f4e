/**
 * TestWorker of the describers package (packages/describers/src/index.ts):
 * running one test inside the stack of suites it has entered, the hooks that
 * go with entering and leaving suites, and shutting the worker down.
 *
 * User callbacks are not run here. An oracle says how the callback invoked
 * as the n-th callback of a worker ends; the worker's `trace` records the
 * callbacks it invoked, in order, so that n is the length of the trace at
 * the moment of the call.
 */
module Worker {
  import opened Wrappers
  import opened SuiteTree
  import opened Focus
  import opened Registration

  /** How the callback invoked as the worker's n-th call ends (runUserCallback). */
  type Oracle = (Callback, nat) -> Outcome

  /** TestRun.status, with TestRun.error carried by Fail. */
  datatype Status = Pass | Fail(error: string) | Skip

  datatype TestRun = TestRun(test: nat, status: Status)

  /** The error a failing hook leaves on the run; a terminated hook leaves an empty one. */
  function HookMessage(e: Outcome): string {
    match e
    case NoError => ""
    case Timeout => "timed out while running hook"
    case Terminated => ""
    case Thrown(m) => m
  }

  /** The error a failing test body leaves on the run. */
  function TestMessage(e: Outcome): string {
    match e
    case NoError => ""
    case Timeout => "timed out while running test"
    case Terminated => "terminated while running test"
    case Thrown(m) => m
  }

  /** What _runHook does to the run: the first failure is recorded, later ones are not. */
  function AfterHook(status: Status, e: Outcome): Status {
    if e != NoError && status == Pass then Fail(HookMessage(e)) else status
  }

  function HooksOf(a: Arena, s: nat, kind: HookKind): seq<Callback>
    requires s < |a.suites|
  {
    match kind
    case BeforeEach => a.suites[s].beforeEach
    case AfterEach => a.suites[s].afterEach
    case BeforeAll => a.suites[s].beforeAll
    case AfterAll => a.suites[s].afterAll
  }

  /** The hooks of one kind of the given suites, suite after suite. */
  function Hooks(a: Arena, suites: seq<nat>, kind: HookKind): seq<Callback> {
    if suites == [] then []
    else (if suites[0] < |a.suites| then HooksOf(a, suites[0], kind) else []) + Hooks(a, suites[1..], kind)
  }

  predicate Within(a: Arena, suites: seq<nat>) {
    forall k | 0 <= k < |suites| :: suites[k] < |a.suites|
  }

  /** Every entry of tests names a test of the arena. */
  predicate TestsWithin(a: Arena, tests: seq<nat>) {
    forall k | 0 <= k < |tests| :: tests[k] < |a.tests|
  }

  function Reverse(s: seq<nat>): (r: seq<nat>)
    ensures |r| == |s|
  {
    if s == [] then [] else [s[|s| - 1]] + Reverse(s[..|s| - 1])
  }

  lemma {:induction false} ReverseWithin(a: Arena, s: seq<nat>)
    requires Within(a, s)
    ensures Within(a, Reverse(s))
  {
    if s != [] {
      ReverseWithin(a, s[..|s| - 1]);
    }
  }

  /** Every callback invoked from position `from` of the trace on ended without error. */
  ghost predicate AllSucceeded(o: Oracle, trace: seq<Callback>, from: nat) {
    forall k | from <= k < |trace| :: o(trace[k], k) == NoError
  }

  /** Success from lo on splits at the end of any prefix of the trace. */
  lemma SucceededSplit(o: Oracle, mid: seq<Callback>, trace: seq<Callback>, lo: nat)
    requires mid <= trace && lo <= |mid|
    ensures AllSucceeded(o, trace, lo) <==> AllSucceeded(o, mid, lo) && AllSucceeded(o, trace, |mid|)
  {
    if AllSucceeded(o, mid, lo) && AllSucceeded(o, trace, |mid|) {
      forall k | lo <= k < |trace| ensures o(trace[k], k) == NoError {
        if k < |mid| { assert trace[k] == mid[k]; }
      }
    }
    if AllSucceeded(o, trace, lo) {
      forall k | lo <= k < |mid| ensures o(mid[k], k) == NoError {
        assert trace[k] == mid[k];
      }
    }
  }

  /**
   * A hook loop stopped at hooks[n]: it invoked hooks[..n + 1] after trace,
   * every hook before hooks[n] succeeded, and hooks[n] ended with r.failure.
   */
  ghost predicate StoppedAt(o: Oracle, trace: seq<Callback>, hooks: seq<Callback>, n: nat, r: Ran) {
    && n < |hooks|
    && r.trace == trace + hooks[..n + 1]
    && AllSucceeded(o, trace + hooks[..n], |trace|)
    && r.failure == o(hooks[n], |trace| + n) && r.failure != NoError
  }

  /** A hook loop after trace stopped at one of the hooks. */
  ghost predicate StoppedIn(o: Oracle, trace: seq<Callback>, hooks: seq<Callback>, r: Ran) {
    exists n :: StoppedAt(o, trace, hooks, n, r)
  }

  /** An oracle under which no callback fails. */
  ghost predicate Benign(o: Oracle) {
    forall c, n :: o(c, n) == NoError
  }

  // ---------------------------------------------------------------------------
  // The phases of TestWorker.run, as functions of the worker's state
  // ---------------------------------------------------------------------------

  /** The trace after some hooks ran, and how the last one ended. */
  datatype Ran = Ran(trace: seq<Callback>, failure: Outcome)

  /** The trace and the run's status after hooks that all run, whatever happens. */
  datatype Swept = Swept(trace: seq<Callback>, status: Status)

  /** The suite stack and trace after leaving or entering suites, and the hook failure that stopped it. */
  datatype Phase = Phase(stack: seq<nat>, trace: seq<Callback>, failure: Outcome)

  /** The worker state after a run, with the run's result. */
  datatype RunResult = RunResult(run: TestRun, stack: seq<nat>, trace: seq<Callback>)

  /**
   * beforeAll and afterAll hooks inside run: each in turn, stopping at the
   * first that fails, whose outcome is reported.
   */
  function UntilFailure(o: Oracle, trace: seq<Callback>, hooks: seq<Callback>): (r: Ran)
    decreases |hooks|
  {
    if hooks == [] then Ran(trace, NoError)
    else
      var e := o(hooks[0], |trace|);
      if e != NoError then Ran(trace + [hooks[0]], e)
      else UntilFailure(o, trace + [hooks[0]], hooks[1..])
  }

  /** Hooks that all run, whatever they end with, each outcome passed to _runHook. */
  function RunAll(o: Oracle, trace: seq<Callback>, hooks: seq<Callback>, status: Status): (r: Swept)
    ensures r.trace == trace + hooks
    decreases |hooks|
  {
    if hooks == [] then Swept(trace, status)
    else
      var r := RunAll(o, trace + [hooks[0]], hooks[1..], AfterHook(status, o(hooks[0], |trace|)));
      assert trace + [hooks[0]] + hooks[1..] == trace + hooks;
      r
  }

  /** The beforeEach or afterEach hooks of the suites, suite after suite: every one of them runs. */
  function Sweep(a: Arena, suites: seq<nat>, kind: HookKind, trace: seq<Callback>, status: Status, o: Oracle): (r: Swept)
    requires Within(a, suites)
    ensures r.trace == trace + Hooks(a, suites, kind)
    decreases |suites|
  {
    if suites == [] then Swept(trace, status)
    else
      var first := RunAll(o, trace, HooksOf(a, suites[0], kind), status);
      var r := Sweep(a, suites[1..], kind, first.trace, first.status, o);
      assert r.trace == trace + (HooksOf(a, suites[0], kind) + Hooks(a, suites[1..], kind));
      r
  }

  /**
   * Leaving suites: pop the stack down to `common` suites, running each
   * popped suite's afterAll hooks; a failing one ends the run.
   */
  function Exit(a: Arena, stack: seq<nat>, common: nat, trace: seq<Callback>, o: Oracle): (r: Phase)
    requires Within(a, stack)
    ensures |r.stack| <= |stack| && r.stack == stack[..|r.stack|]
    ensures |stack| <= common ==> r.stack == stack && r.trace == trace && r.failure == NoError
    ensures common <= |stack| ==> common <= |r.stack|
    ensures r.failure == NoError && common <= |stack| ==> |r.stack| == common
    ensures r.failure != NoError ==> |r.stack| < |stack|
    decreases |stack|
  {
    if |stack| <= common then Phase(stack, trace, NoError)
    else
      var ran := UntilFailure(o, trace, HooksOf(a, stack[|stack| - 1], AfterAll));
      if ran.failure != NoError then Phase(stack[..|stack| - 1], ran.trace, ran.failure)
      else
        var r := Exit(a, stack[..|stack| - 1], common, ran.trace, o);
        assert r.stack == stack[..|r.stack|];
        r
  }

  /**
   * Entering suites: push the target's suites after the stack one by one,
   * running each pushed suite's beforeAll hooks; a failing one ends the run,
   * with its suite left on the stack.
   */
  function Enter(a: Arena, stack: seq<nat>, target: seq<nat>, trace: seq<Callback>, o: Oracle): (r: Phase)
    requires |stack| <= |target| && Within(a, target)
    ensures |stack| <= |r.stack| <= |target| && r.stack == stack + target[|stack|..|r.stack|]
    ensures r.failure == NoError ==> |r.stack| == |target|
    ensures r.failure != NoError ==> |stack| < |r.stack|
    decreases |target| - |stack|
  {
    if |stack| == |target| then Phase(stack, trace, NoError)
    else
      var s := target[|stack|];
      var ran := UntilFailure(o, trace, HooksOf(a, s, BeforeAll));
      if ran.failure != NoError then Phase(stack + [s], ran.trace, ran.failure)
      else
        var r := Enter(a, stack + [s], target, ran.trace, o);
        assert r.stack == stack + target[|stack|..|r.stack|];
        r
  }

  /** The test body, run only while the run still passes. */
  function TestBody(a: Arena, t: nat, trace: seq<Callback>, status: Status, o: Oracle): (r: Swept)
    requires t < |a.tests|
    ensures r.trace == if status.Pass? then trace + [a.tests[t].callback] else trace
  {
    if status.Pass? then
      var e := o(a.tests[t].callback, |trace|);
      Swept(trace + [a.tests[t].callback], if e != NoError then Fail(TestMessage(e)) else Pass)
    else Swept(trace, status)
  }

  // ---------------------------------------------------------------------------
  // Which failures the phases report
  // ---------------------------------------------------------------------------

  /** The early-stopping loop reports a failure exactly when a hook it invoked failed. */
  lemma {:induction false} UntilFailureOutcome(o: Oracle, trace: seq<Callback>, hooks: seq<Callback>)
    ensures var r := UntilFailure(o, trace, hooks);
      && trace <= r.trace
      && (r.failure == NoError <==> AllSucceeded(o, r.trace, |trace|))
      && (r.failure == NoError ==> r.trace == trace + hooks)
      && (r.failure != NoError ==> StoppedIn(o, trace, hooks, r))
    decreases |hooks|
  {
    if hooks != [] {
      assert (trace + [hooks[0]])[|trace|] == hooks[0];
      if o(hooks[0], |trace|) == NoError {
        var r := UntilFailure(o, trace + [hooks[0]], hooks[1..]);
        UntilFailureOutcome(o, trace + [hooks[0]], hooks[1..]);
        SucceededSplit(o, trace + [hooks[0]], r.trace, |trace|);
        assert trace + [hooks[0]] + hooks[1..] == trace + hooks;
        if r.failure != NoError {
          var n :| StoppedAt(o, trace + [hooks[0]], hooks[1..], n, r);
          StoppedLater(o, trace, hooks, n, r);
        }
      } else {
        assert StoppedAt(o, trace, hooks, 0, UntilFailure(o, trace, hooks)) by {
          assert hooks[..0] == [] && hooks[..1] == [hooks[0]];
        }
      }
    }
  }

  /** Stopping at hooks[1..][n] after a first hook that succeeded is stopping at hooks[n + 1]. */
  lemma StoppedLater(o: Oracle, trace: seq<Callback>, hooks: seq<Callback>, n: nat, r: Ran)
    requires hooks != [] && o(hooks[0], |trace|) == NoError
    requires StoppedAt(o, trace + [hooks[0]], hooks[1..], n, r)
    ensures StoppedAt(o, trace, hooks, n + 1, r)
  {
    var head := trace + [hooks[0]];
    assert head + hooks[1..][..n + 1] == trace + hooks[..n + 2];
    assert head + hooks[1..][..n] == trace + hooks[..n + 1];
    assert hooks[1..][n] == hooks[n + 1];
    assert (trace + hooks[..n + 1])[|trace|] == hooks[0];
    SucceededSplit(o, head, trace + hooks[..n + 1], |trace|);
  }

  /** Hooks that all run leave a passing run passing exactly when each of them succeeded. */
  lemma {:induction false} RunAllStatus(o: Oracle, trace: seq<Callback>, hooks: seq<Callback>, status: Status)
    ensures var r := RunAll(o, trace, hooks, status);
      && (r.status.Pass? <==> status.Pass? && AllSucceeded(o, r.trace, |trace|))
      && (!status.Pass? ==> r.status == status)
      && (r.status.Skip? ==> status.Skip?)
    decreases |hooks|
  {
    if hooks != [] {
      var r := RunAll(o, trace + [hooks[0]], hooks[1..], AfterHook(status, o(hooks[0], |trace|)));
      RunAllStatus(o, trace + [hooks[0]], hooks[1..], AfterHook(status, o(hooks[0], |trace|)));
      assert (trace + [hooks[0]])[|trace|] == hooks[0];
      SucceededSplit(o, trace + [hooks[0]], r.trace, |trace|);
    }
  }

  /** The same for the each-hooks of a list of suites. */
  lemma {:induction false} SweepStatus(a: Arena, suites: seq<nat>, kind: HookKind, trace: seq<Callback>, status: Status, o: Oracle)
    requires Within(a, suites)
    ensures var r := Sweep(a, suites, kind, trace, status, o);
      && (r.status.Pass? <==> status.Pass? && AllSucceeded(o, r.trace, |trace|))
      && (!status.Pass? ==> r.status == status)
      && (r.status.Skip? ==> status.Skip?)
    decreases |suites|
  {
    if suites != [] {
      var first := RunAll(o, trace, HooksOf(a, suites[0], kind), status);
      RunAllStatus(o, trace, HooksOf(a, suites[0], kind), status);
      var r := Sweep(a, suites[1..], kind, first.trace, first.status, o);
      SweepStatus(a, suites[1..], kind, first.trace, first.status, o);
      SucceededSplit(o, first.trace, r.trace, |trace|);
    }
  }

  /** Leaving suites stops with a failure exactly when an afterAll hook it invoked failed. */
  lemma {:induction false} ExitOutcome(a: Arena, stack: seq<nat>, common: nat, trace: seq<Callback>, o: Oracle)
    requires Within(a, stack)
    ensures var r := Exit(a, stack, common, trace, o);
      trace <= r.trace && (r.failure == NoError <==> AllSucceeded(o, r.trace, |trace|))
    decreases |stack|
  {
    if |stack| > common {
      var ran := UntilFailure(o, trace, HooksOf(a, stack[|stack| - 1], AfterAll));
      UntilFailureOutcome(o, trace, HooksOf(a, stack[|stack| - 1], AfterAll));
      if ran.failure == NoError {
        var r := Exit(a, stack[..|stack| - 1], common, ran.trace, o);
        ExitOutcome(a, stack[..|stack| - 1], common, ran.trace, o);
        SucceededSplit(o, ran.trace, r.trace, |trace|);
      }
    }
  }

  /** Entering suites stops with a failure exactly when a beforeAll hook it invoked failed. */
  lemma {:induction false} EnterOutcome(a: Arena, stack: seq<nat>, target: seq<nat>, trace: seq<Callback>, o: Oracle)
    requires |stack| <= |target| && Within(a, target)
    ensures var r := Enter(a, stack, target, trace, o);
      trace <= r.trace && (r.failure == NoError <==> AllSucceeded(o, r.trace, |trace|))
    decreases |target| - |stack|
  {
    if |stack| < |target| {
      var s := target[|stack|];
      var ran := UntilFailure(o, trace, HooksOf(a, s, BeforeAll));
      UntilFailureOutcome(o, trace, HooksOf(a, s, BeforeAll));
      if ran.failure == NoError {
        var r := Enter(a, stack + [s], target, ran.trace, o);
        EnterOutcome(a, stack + [s], target, ran.trace, o);
        SucceededSplit(o, ran.trace, r.trace, |trace|);
      }
    }
  }

  /**
   * Entering that stops with a failure stops inside the beforeAll hooks of
   * the last suite it pushed, after every beforeAll hook of the suites
   * pushed before it.
   */
  lemma {:induction false} EnterFailure(a: Arena, stack: seq<nat>, target: seq<nat>, trace: seq<Callback>, o: Oracle)
    requires |stack| <= |target| && Within(a, target)
    ensures var r := Enter(a, stack, target, trace, o);
      r.failure != NoError ==>
        && |stack| < |r.stack|
        && StoppedIn(o, trace + Hooks(a, target[|stack|..|r.stack| - 1], BeforeAll),
                     HooksOf(a, target[|r.stack| - 1], BeforeAll), Ran(r.trace, r.failure))
    decreases |target| - |stack|
  {
    if |stack| < |target| {
      var s := target[|stack|];
      var ran := UntilFailure(o, trace, HooksOf(a, s, BeforeAll));
      UntilFailureOutcome(o, trace, HooksOf(a, s, BeforeAll));
      if ran.failure != NoError {
        assert target[|stack|..|stack|] == [];
        assert trace + Hooks(a, [], BeforeAll) == trace;
      } else {
        var r := Enter(a, stack + [s], target, ran.trace, o);
        EnterFailure(a, stack + [s], target, ran.trace, o);
        if r.failure != NoError {
          var m := |r.stack| - 1;
          var done := target[|stack|..m];
          assert done[0] == s && done[1..] == target[|stack| + 1..m];
          StoppedAfterSuite(a, o, trace, done, HooksOf(a, target[m], BeforeAll), Ran(r.trace, r.failure));
        }
      }
    }
  }

  /** A stop after one more suite's beforeAll hooks all succeeded is a stop after the longer prefix. */
  lemma StoppedAfterSuite(a: Arena, o: Oracle, trace: seq<Callback>, done: seq<nat>, hooks: seq<Callback>, r: Ran)
    requires done != [] && done[0] < |a.suites|
    requires StoppedIn(o, trace + HooksOf(a, done[0], BeforeAll) + Hooks(a, done[1..], BeforeAll), hooks, r)
    ensures StoppedIn(o, trace + Hooks(a, done, BeforeAll), hooks, r)
  {
    Associate(trace, HooksOf(a, done[0], BeforeAll), Hooks(a, done[1..], BeforeAll));
    var n :| StoppedAt(o, trace + HooksOf(a, done[0], BeforeAll) + Hooks(a, done[1..], BeforeAll), hooks, n, r);
    assert StoppedAt(o, trace + Hooks(a, done, BeforeAll), hooks, n, r);
  }

  /** The length of the longest common prefix of two stacks. */
  function CommonPrefix(s1: seq<nat>, s2: seq<nat>): (n: nat)
    ensures n <= |s1| && n <= |s2| && s1[..n] == s2[..n]
    ensures n < |s1| && n < |s2| ==> s1[n] != s2[n]
  {
    CommonFrom(s1, s2, 0)
  }

  function CommonFrom(s1: seq<nat>, s2: seq<nat>, n: nat): (m: nat)
    requires n <= |s1| && n <= |s2| && s1[..n] == s2[..n]
    ensures n <= m <= |s1| && m <= |s2| && s1[..m] == s2[..m]
    ensures m < |s1| && m < |s2| ==> s1[m] != s2[m]
    decreases |s1| - n
  {
    if n < |s1| && n < |s2| && s1[n] == s2[n] then
      assert s1[..n + 1] == s2[..n + 1];
      CommonFrom(s1, s2, n + 1)
    else n
  }

  /** The suites a worker has entered: a chain of suites from the root down. */
  ghost predicate StackOk(a: Arena, stack: seq<nat>)
    requires WellFormed(a)
  {
    stack == [] || (stack[|stack| - 1] < |a.suites| && SuiteChain(a, stack[|stack| - 1]) == stack)
  }

  /** The each-hooks and the body, once every suite of the test's chain has been entered. */
  function EachRun(a: Arena, t: nat, stack: seq<nat>, trace: seq<Callback>, o: Oracle): RunResult
    requires t < |a.tests| && Within(a, stack)
  {
    var before := Sweep(a, stack, BeforeEach, trace, Pass, o);
    var body := TestBody(a, t, before.trace, before.status, o);
    ReverseWithin(a, stack);
    var after := Sweep(a, Reverse(stack), AfterEach, body.trace, body.status, o);
    RunResult(TestRun(t, after.status), stack, after.trace)
  }

  /** TestWorker.run: the result of running test t from the worker state (stack, trace). */
  ghost function RunSpec(a: Arena, stack: seq<nat>, trace: seq<Callback>, t: nat, o: Oracle): RunResult
    requires WellFormed(a) && t < |a.tests| && StackOk(a, stack)
  {
    if !Runnable(a, t) then RunResult(TestRun(t, Skip), stack, trace)
    else
      assert TestOk(a, t);
      Engage(a, t, stack, trace, SuiteChain(a, a.tests[t].suite), o)
  }

  /** A run that goes ahead, from the stack to the target chain of suites. */
  function Engage(a: Arena, t: nat, stack: seq<nat>, trace: seq<Callback>, target: seq<nat>, o: Oracle): RunResult
    requires t < |a.tests| && Within(a, stack) && Within(a, target)
  {
    var exit := Exit(a, stack, CommonPrefix(stack, target), trace, o);
    if exit.failure != NoError then
      RunResult(TestRun(t, Fail(HookMessage(exit.failure))), exit.stack, exit.trace)
    else
      var enter := Enter(a, exit.stack, target, exit.trace, o);
      if enter.failure != NoError then
        RunResult(TestRun(t, Fail(HookMessage(enter.failure))), enter.stack, enter.trace)
      else
        assert Within(a, enter.stack);
        EachRun(a, t, enter.stack, enter.trace, o)
  }

  // ---------------------------------------------------------------------------
  // What a run does
  // ---------------------------------------------------------------------------

  /** Every prefix of a suite's chain is a stack a worker can be in. */
  lemma ChainPrefixOk(a: Arena, i: nat, m: nat)
    requires WellFormed(a) && i < |a.suites| && m <= |SuiteChain(a, i)|
    ensures StackOk(a, SuiteChain(a, i)[..m])
  {
    if m > 0 {
      var chain := SuiteChain(a, i);
      var last := chain[m - 1];
      ChainPrefix(a, i, m - 1);
      assert chain[..m][m - 1] == last && SuiteChain(a, last) == chain[..m];
    }
  }

  /**
   * A run that goes ahead ends inside a prefix of the old stack (an afterAll
   * hook failed) or of the target, and inside the whole target when it
   * passes; the trace only grows.
   */
  lemma EngageShape(a: Arena, t: nat, stack: seq<nat>, trace: seq<Callback>, target: seq<nat>, o: Oracle)
    requires t < |a.tests| && Within(a, stack) && Within(a, target)
    ensures var r := Engage(a, t, stack, trace, target, o);
      && r.run.test == t && trace <= r.trace
      && ((|r.stack| <= |stack| && r.stack == stack[..|r.stack|]) || (|r.stack| <= |target| && r.stack == target[..|r.stack|]))
      && (r.run.status.Pass? ==> r.stack == target)
  {
    var common := CommonPrefix(stack, target);
    var exit := Exit(a, stack, common, trace, o);
    ExitOutcome(a, stack, common, trace, o);
    if exit.failure == NoError {
      assert exit.stack == target[..common];
      var enter := Enter(a, exit.stack, target, exit.trace, o);
      EnterOutcome(a, exit.stack, target, exit.trace, o);
      assert enter.stack == target[..|enter.stack|];
      if enter.failure == NoError {
        assert enter.stack == target;
        EachOutcome(a, t, enter.stack, enter.trace, o);
      }
    }
  }

  /** A run that goes ahead passes exactly when every callback it invoked succeeded, and is never a skip. */
  lemma EngageOutcome(a: Arena, t: nat, stack: seq<nat>, trace: seq<Callback>, target: seq<nat>, o: Oracle)
    requires t < |a.tests| && Within(a, stack) && Within(a, target)
    ensures var r := Engage(a, t, stack, trace, target, o);
      !r.run.status.Skip? && (r.run.status.Pass? <==> AllSucceeded(o, r.trace, |trace|))
  {
    var common := CommonPrefix(stack, target);
    var exit := Exit(a, stack, common, trace, o);
    ExitOutcome(a, stack, common, trace, o);
    if exit.failure == NoError {
      var enter := Enter(a, exit.stack, target, exit.trace, o);
      EnterOutcome(a, exit.stack, target, exit.trace, o);
      SucceededSplit(o, exit.trace, enter.trace, |trace|);
      if enter.failure == NoError {
        EachOutcome(a, t, enter.stack, enter.trace, o);
        var r := EachRun(a, t, enter.stack, enter.trace, o);
        SucceededSplit(o, enter.trace, r.trace, |trace|);
      }
    }
  }

  /**
   * A beforeAll hook that fails ends the run there: the run fails with that
   * hook's message, its suite stays entered, and after leaving suites the
   * run invoked only beforeAll hooks of the suites it entered, up to the
   * failing one, so no beforeEach or afterEach hook and not the body.
   */
  lemma BeforeAllFailureStops(a: Arena, t: nat, stack: seq<nat>, trace: seq<Callback>, target: seq<nat>, o: Oracle)
    requires t < |a.tests| && Within(a, stack) && Within(a, target)
    ensures var exit := Exit(a, stack, CommonPrefix(stack, target), trace, o);
      exit.failure == NoError ==>
        var enter := Enter(a, exit.stack, target, exit.trace, o);
        var r := Engage(a, t, stack, trace, target, o);
        enter.failure != NoError ==>
          && r.run.status == Fail(HookMessage(enter.failure))
          && |exit.stack| < |r.stack| <= |target| && r.stack == target[..|r.stack|]
          && StoppedIn(o, exit.trace + Hooks(a, target[|exit.stack|..|r.stack| - 1], BeforeAll),
                       HooksOf(a, target[|r.stack| - 1], BeforeAll), Ran(r.trace, enter.failure))
  {
    var exit := Exit(a, stack, CommonPrefix(stack, target), trace, o);
    if exit.failure == NoError {
      EnterFailure(a, exit.stack, target, exit.trace, o);
    }
  }

  /**
   * After a run the worker is still inside a chain of suites, and the trace
   * has only grown; a passing run leaves it inside exactly the test's chain.
   */
  lemma RunKeepsStack(a: Arena, stack: seq<nat>, trace: seq<Callback>, t: nat, o: Oracle)
    requires WellFormed(a) && t < |a.tests| && StackOk(a, stack)
    ensures var r := RunSpec(a, stack, trace, t, o);
      && r.run.test == t && StackOk(a, r.stack) && trace <= r.trace
      && (r.run.status.Pass? ==> TestOk(a, t) && r.stack == SuiteChain(a, a.tests[t].suite))
  {
    assert TestOk(a, t);
    if Runnable(a, t) {
      var s := a.tests[t].suite;
      var target := SuiteChain(a, s);
      EngageShape(a, t, stack, trace, target, o);
      var r := Engage(a, t, stack, trace, target, o);
      if |r.stack| <= |target| && r.stack == target[..|r.stack|] {
        ChainPrefixOk(a, s, |r.stack|);
      } else {
        ChainPrefixOk(a, stack[|stack| - 1], |r.stack|);
      }
    }
  }

  /**
   * A test that should not run is skipped and nothing is invoked; a test
   * that should run passes exactly when every callback the run invoked
   * (hooks and body) ended without error, and is never reported as skipped.
   */
  lemma RunOutcome(a: Arena, stack: seq<nat>, trace: seq<Callback>, t: nat, o: Oracle)
    requires WellFormed(a) && t < |a.tests| && StackOk(a, stack)
    ensures var r := RunSpec(a, stack, trace, t, o);
      && (r.run.status.Skip? <==> !Runnable(a, t))
      && (!Runnable(a, t) ==> r.stack == stack && r.trace == trace)
      && (Runnable(a, t) ==> (r.run.status.Pass? <==> AllSucceeded(o, r.trace, |trace|)))
  {
    assert TestOk(a, t);
    if Runnable(a, t) {
      EngageOutcome(a, t, stack, trace, SuiteChain(a, a.tests[t].suite), o);
    }
  }

  /** Once every suite is entered: the run passes exactly when every each-hook and the body succeeded. */
  lemma EachOutcome(a: Arena, t: nat, stack: seq<nat>, trace: seq<Callback>, o: Oracle)
    requires t < |a.tests| && Within(a, stack)
    ensures var r := EachRun(a, t, stack, trace, o);
      trace <= r.trace && !r.run.status.Skip? && (r.run.status.Pass? <==> AllSucceeded(o, r.trace, |trace|))
  {
    var before := Sweep(a, stack, BeforeEach, trace, Pass, o);
    SweepStatus(a, stack, BeforeEach, trace, Pass, o);
    var body := TestBody(a, t, before.trace, before.status, o);
    BodyStatus(a, t, before.trace, before.status, o);
    SucceededSplit(o, before.trace, body.trace, |trace|);
    ReverseWithin(a, stack);
    var after := Sweep(a, Reverse(stack), AfterEach, body.trace, body.status, o);
    SweepStatus(a, Reverse(stack), AfterEach, body.trace, body.status, o);
    SucceededSplit(o, body.trace, after.trace, |trace|);
  }

  /** The test body runs only after passing hooks, and passes exactly when it succeeds. */
  lemma BodyStatus(a: Arena, t: nat, trace: seq<Callback>, status: Status, o: Oracle)
    requires t < |a.tests|
    ensures var r := TestBody(a, t, trace, status, o);
      && (r.status.Pass? <==> status.Pass? && AllSucceeded(o, r.trace, |trace|))
      && (r.status.Skip? ==> status.Skip?)
  {
    var r := TestBody(a, t, trace, status, o);
    if status.Pass? {
      assert r.trace[|trace|] == a.tests[t].callback;
    }
  }

  /** With a never-failing oracle the early-stopping loop runs every hook. */
  lemma BenignUntilFailure(o: Oracle, trace: seq<Callback>, hooks: seq<Callback>)
    requires Benign(o)
    ensures UntilFailure(o, trace, hooks) == Ran(trace + hooks, NoError)
  {
    UntilFailureOutcome(o, trace, hooks);
  }

  lemma Associate(x: seq<Callback>, y: seq<Callback>, z: seq<Callback>)
    ensures (x + y) + z == x + (y + z)
  {
  }

  lemma HooksCons(a: Arena, s: nat, rest: seq<nat>, kind: HookKind)
    requires s < |a.suites|
    ensures Hooks(a, [s] + rest, kind) == HooksOf(a, s, kind) + Hooks(a, rest, kind)
  {
    assert ([s] + rest)[1..] == rest;
  }

  /** With a never-failing oracle, leaving suites runs the afterAll hooks of every popped suite, innermost first. */
  lemma {:induction false} BenignExit(a: Arena, stack: seq<nat>, common: nat, trace: seq<Callback>, o: Oracle)
    requires Within(a, stack) && common <= |stack| && Benign(o)
    ensures Exit(a, stack, common, trace, o)
         == Phase(stack[..common], trace + Hooks(a, Reverse(stack[common..]), AfterAll), NoError)
    decreases |stack|
  {
    if |stack| == common {
      assert stack[..common] == stack && stack[common..] == [];
    } else {
      var n := |stack|;
      var hooks := HooksOf(a, stack[n - 1], AfterAll);
      BenignUntilFailure(o, trace, hooks);
      assert Exit(a, stack, common, trace, o) == Exit(a, stack[..n - 1], common, trace + hooks, o);
      BenignExit(a, stack[..n - 1], common, trace + hooks, o);
      var x := stack[common..];
      var rest := Reverse(stack[..n - 1][common..]);
      assert x[|x| - 1] == stack[n - 1] && x[..|x| - 1] == stack[..n - 1][common..];
      assert Reverse(x) == [stack[n - 1]] + rest;
      HooksCons(a, stack[n - 1], rest, AfterAll);
      Associate(trace, hooks, Hooks(a, rest, AfterAll));
      assert stack[..n - 1][..common] == stack[..common];
    }
  }

  /** With a never-failing oracle, entering suites runs the beforeAll hooks of every pushed suite, outermost first. */
  lemma {:induction false} BenignEnter(a: Arena, stack: seq<nat>, target: seq<nat>, trace: seq<Callback>, o: Oracle)
    requires |stack| <= |target| && Within(a, target) && stack == target[..|stack|] && Benign(o)
    ensures Enter(a, stack, target, trace, o) == Phase(target, trace + Hooks(a, target[|stack|..], BeforeAll), NoError)
    decreases |target| - |stack|
  {
    if |stack| == |target| {
      assert stack == target && target[|stack|..] == [];
    } else {
      var s := target[|stack|];
      var hooks := HooksOf(a, s, BeforeAll);
      BenignUntilFailure(o, trace, hooks);
      assert Enter(a, stack, target, trace, o) == Enter(a, stack + [s], target, trace + hooks, o);
      assert stack + [s] == target[..|stack| + 1];
      BenignEnter(a, stack + [s], target, trace + hooks, o);
      assert target[|stack|..] == [s] + target[|stack| + 1..];
      HooksCons(a, s, target[|stack| + 1..], BeforeAll);
      Associate(trace, hooks, Hooks(a, target[|stack| + 1..], BeforeAll));
    }
  }

  /** With a never-failing oracle the each-hooks and the body all run, and the run passes. */
  lemma BenignEach(a: Arena, t: nat, stack: seq<nat>, trace: seq<Callback>, o: Oracle)
    requires t < |a.tests| && Within(a, stack) && Benign(o)
    ensures Within(a, Reverse(stack))
    ensures EachRun(a, t, stack, trace, o)
         == RunResult(TestRun(t, Pass), stack,
                      trace + Hooks(a, stack, BeforeEach) + [a.tests[t].callback] + Hooks(a, Reverse(stack), AfterEach))
  {
    var before := Sweep(a, stack, BeforeEach, trace, Pass, o);
    SweepStatus(a, stack, BeforeEach, trace, Pass, o);
    assert before.status == Pass;
    var body := TestBody(a, t, before.trace, before.status, o);
    assert body.status == Pass;
    ReverseWithin(a, stack);
    SweepStatus(a, Reverse(stack), AfterEach, body.trace, body.status, o);
  }

  /** With a never-failing oracle, a run that goes ahead leaves, enters, runs everything and passes. */
  lemma BenignEngage(a: Arena, t: nat, stack: seq<nat>, trace: seq<Callback>, target: seq<nat>, o: Oracle)
    requires t < |a.tests| && Within(a, stack) && Within(a, target) && Benign(o)
    ensures Within(a, Reverse(target))
    ensures var common := CommonPrefix(stack, target);
      Engage(a, t, stack, trace, target, o)
        == RunResult(TestRun(t, Pass), target,
                     trace + Hooks(a, Reverse(stack[common..]), AfterAll) + Hooks(a, target[common..], BeforeAll)
                       + Hooks(a, target, BeforeEach) + [a.tests[t].callback] + Hooks(a, Reverse(target), AfterEach))
  {
    var common := CommonPrefix(stack, target);
    BenignExit(a, stack, common, trace, o);
    var t1 := trace + Hooks(a, Reverse(stack[common..]), AfterAll);
    BenignEnter(a, stack[..common], target, t1, o);
    var t2 := t1 + Hooks(a, target[common..], BeforeAll);
    BenignEach(a, t, target, t2, o);
  }

  /**
   * When no callback fails, a run leaves the suites of the old stack it does
   * not share with the test (afterAll hooks, innermost first), enters the
   * test's remaining suites (beforeAll hooks, outermost first), runs the
   * beforeEach hooks outermost first, the body, and the afterEach hooks
   * innermost first, and passes.
   */
  lemma BenignRun(a: Arena, stack: seq<nat>, trace: seq<Callback>, t: nat, o: Oracle)
    requires WellFormed(a) && t < |a.tests| && StackOk(a, stack) && Benign(o) && Runnable(a, t)
    ensures TestOk(a, t)
    ensures var target := SuiteChain(a, a.tests[t].suite);
      var common := CommonPrefix(stack, target);
      RunSpec(a, stack, trace, t, o)
        == RunResult(TestRun(t, Pass), target,
                     trace + Hooks(a, Reverse(stack[common..]), AfterAll) + Hooks(a, target[common..], BeforeAll)
                       + Hooks(a, target, BeforeEach) + [a.tests[t].callback] + Hooks(a, Reverse(target), AfterEach))
  {
    assert TestOk(a, t);
    BenignEngage(a, t, stack, trace, SuiteChain(a, a.tests[t].suite), o);
  }

  /**
   * A run that starts inside exactly the test's chain leaves and enters no
   * suite: no beforeAll or afterAll hook runs between two tests of one suite.
   */
  lemma RunFromOwnChain(a: Arena, trace: seq<Callback>, t: nat, o: Oracle)
    requires WellFormed(a) && t < |a.tests| && TestOk(a, t) && Runnable(a, t)
    ensures var chain := SuiteChain(a, a.tests[t].suite);
      RunSpec(a, chain, trace, t, o) == EachRun(a, t, chain, trace, o)
  {
    var chain := SuiteChain(a, a.tests[t].suite);
    assert StackOk(a, chain);
    assert CommonPrefix(chain, chain) == |chain|;
  }

  /**
   * A failed beforeAll hook is not retried: a worker inside the parent of
   * suite s that runs a test of s ends up inside s whatever its beforeAll
   * hooks do, so the next test of s runs only the each-hooks and its body.
   */
  lemma SetupNotRetried(a: Arena, stack: seq<nat>, trace: seq<Callback>, t1: nat, t2: nat, o: Oracle)
    requires WellFormed(a) && t1 < |a.tests| && t2 < |a.tests|
    requires TestOk(a, t1) && a.tests[t2].suite == a.tests[t1].suite
    requires a.tests[t1].suite != 0 && stack == SuiteChain(a, a.suites[a.tests[t1].suite].parent.value)
    requires Runnable(a, t1) && Runnable(a, t2)
    ensures var r1 := RunSpec(a, stack, trace, t1, o);
      && r1.stack == SuiteChain(a, a.tests[t1].suite)
      && RunSpec(a, r1.stack, r1.trace, t2, o) == EachRun(a, t2, r1.stack, r1.trace, o)
  {
    var s := a.tests[t1].suite;
    SuiteFacts(a, s);
    var p := a.suites[s].parent.value;
    var target := SuiteChain(a, s);
    ChainOfChild(a, p, s);
    assert target[..|stack|] == stack;
    assert StackOk(a, stack);
    var common := CommonPrefix(stack, target);
    assert common == |stack|;
    var r1 := RunSpec(a, stack, trace, t1, o);
    assert TestOk(a, t2);
    RunFromOwnChain(a, r1.trace, t2, o);
  }

  // ---------------------------------------------------------------------------
  // The worker
  // ---------------------------------------------------------------------------

  class TestWorker {
    /** #suiteStack: the suites the worker is inside, outermost first. */
    var stack: seq<nat>
    /** The callbacks the worker has invoked, in order. */
    var trace: seq<Callback>

    constructor()
      ensures stack == [] && trace == []
    {
      stack := [];
      trace := [];
    }

    /** The invoking half of _runHook (and of the body call): how the callback ended. */
    method Invoke(callback: Callback, o: Oracle) returns (e: Outcome)
      modifies this
      ensures stack == old(stack) && trace == old(trace) + [callback]
      ensures e == o(callback, |old(trace)|)
    {
      e := o(callback, |trace|);
      trace := trace + [callback];
    }

    /** The loop over a suite's beforeAll or afterAll hooks in run: it stops at the first failure. */
    method RunUntilFailure(hooks: seq<Callback>, o: Oracle) returns (failure: Outcome)
      modifies this
      ensures stack == old(stack) && Ran(trace, failure) == UntilFailure(o, old(trace), hooks)
    {
      var k := 0;
      while k < |hooks|
        invariant k <= |hooks| && stack == old(stack)
        invariant UntilFailure(o, old(trace), hooks) == UntilFailure(o, trace, hooks[k..])
      {
        assert hooks[k..][1..] == hooks[k + 1..];
        failure := Invoke(hooks[k], o);
        if failure != NoError {
          return;
        }
        k := k + 1;
      }
      return NoError;
    }

    /** The loop over a suite's beforeEach or afterEach hooks: every hook runs, the first failure is recorded. */
    method RunEach(hooks: seq<Callback>, status: Status, o: Oracle) returns (after: Status)
      modifies this
      ensures stack == old(stack) && Swept(trace, after) == RunAll(o, old(trace), hooks, status)
    {
      after := status;
      for k := 0 to |hooks|
        invariant stack == old(stack)
        invariant RunAll(o, old(trace), hooks, status) == RunAll(o, trace, hooks[k..], after)
      {
        assert hooks[k..][1..] == hooks[k + 1..];
        var e := Invoke(hooks[k], o);
        after := AfterHook(after, e);
      }
    }

    /** The each-hooks of the given suites, in the order given. */
    method RunSweep(a: Arena, suites: seq<nat>, kind: HookKind, status: Status, o: Oracle) returns (after: Status)
      requires Within(a, suites)
      modifies this
      ensures stack == old(stack) && Swept(trace, after) == Sweep(a, suites, kind, old(trace), status, o)
    {
      after := status;
      for k := 0 to |suites|
        invariant stack == old(stack)
        invariant Sweep(a, suites, kind, old(trace), status, o) == Sweep(a, suites[k..], kind, trace, after, o)
      {
        assert suites[k..][1..] == suites[k + 1..];
        after := RunEach(HooksOf(a, suites[k], kind), after, o);
      }
    }

    /** The loop of run that pops the stack down to `common` suites, running afterAll hooks. */
    method Leave(a: Arena, common: nat, o: Oracle) returns (failure: Outcome)
      requires Within(a, stack)
      modifies this
      ensures Phase(stack, trace, failure) == Exit(a, old(stack), common, old(trace), o)
    {
      while |stack| > common
        invariant Within(a, stack)
        invariant Exit(a, old(stack), common, old(trace), o) == Exit(a, stack, common, trace, o)
        decreases |stack|
      {
        var suite := stack[|stack| - 1];
        stack := stack[..|stack| - 1];
        failure := RunUntilFailure(HooksOf(a, suite, AfterAll), o);
        if failure != NoError {
          return;
        }
      }
      return NoError;
    }

    /** The loop of run that pushes the target's remaining suites, running beforeAll hooks. */
    method EnterSuites(a: Arena, target: seq<nat>, o: Oracle) returns (failure: Outcome)
      requires |stack| <= |target| && Within(a, target)
      modifies this
      ensures Phase(stack, trace, failure) == Enter(a, old(stack), target, old(trace), o)
    {
      while |stack| < |target|
        invariant |stack| <= |target|
        invariant Enter(a, old(stack), target, old(trace), o) == Enter(a, stack, target, trace, o)
        decreases |target| - |stack|
      {
        var suite := target[|stack|];
        stack := stack + [suite];
        failure := RunUntilFailure(HooksOf(a, suite, BeforeAll), o);
        if failure != NoError {
          return;
        }
      }
      return NoError;
    }

    /**
     * TestWorker.run: skip a test that should not run; otherwise collect the
     * test's chain of suites and go ahead from the suites both stacks share.
     */
    method Run(a: Arena, t: nat, o: Oracle) returns (run: TestRun)
      requires WellFormed(a) && t < |a.tests| && StackOk(a, stack)
      modifies this
      ensures RunResult(run, stack, trace) == RunSpec(a, old(stack), old(trace), t, o)
    {
      var should := ShouldRun(a, t);
      if !should {
        return TestRun(t, Skip);
      }
      assert TestOk(a, t);
      var target := ChainOf(a, a.tests[t].suite);
      var common := Shared(target);
      run := Proceed(a, t, target, common, o);
    }

    /** The loop of run that counts the suites the stack shares with the target. */
    method Shared(target: seq<nat>) returns (common: nat)
      ensures common == CommonPrefix(stack, target)
    {
      common := 0;
      while common < |target| && common < |stack| && stack[common] == target[common]
        invariant common <= |target| && common <= |stack| && stack[..common] == target[..common]
        invariant CommonFrom(stack, target, common) == CommonPrefix(stack, target)
      {
        common := common + 1;
      }
    }

    /**
     * The rest of run: leave the suites the test is not in, enter those it is
     * in, then run the beforeEach hooks, the body (while the run still
     * passes) and the afterEach hooks.
     */
    method Proceed(a: Arena, t: nat, target: seq<nat>, common: nat, o: Oracle) returns (run: TestRun)
      requires t < |a.tests| && Within(a, stack) && Within(a, target) && common == CommonPrefix(stack, target)
      modifies this
      ensures RunResult(run, stack, trace) == Engage(a, t, old(stack), old(trace), target, o)
    {
      var failure := Leave(a, common, o);
      if failure != NoError {
        return TestRun(t, Fail(HookMessage(failure)));
      }
      failure := EnterSuites(a, target, o);
      if failure != NoError {
        return TestRun(t, Fail(HookMessage(failure)));
      }
      assert Within(a, stack);
      var status := RunSweep(a, stack, BeforeEach, Pass, o);
      if status == Pass {
        var e := Invoke(a.tests[t].callback, o);
        if e != NoError {
          status := Fail(TestMessage(e));
        }
      }
      ReverseWithin(a, stack);
      status := RunSweep(a, Reverse(stack), AfterEach, status, o);
      run := TestRun(t, status);
    }

    /** The loop of runTestsSerially: the tests, in order, on this worker. */
    method RunSeries(a: Arena, tests: seq<nat>, o: Oracle) returns (results: seq<TestRun>)
      requires WellFormed(a) && StackOk(a, stack) && TestsWithin(a, tests)
      modifies this
      ensures Series(results, stack, trace) == Serial(a, old(stack), old(trace), tests, o)
    {
      results := [];
      for k := 0 to |tests|
        invariant StackOk(a, stack)
        invariant Series(results, stack, trace) == Serial(a, old(stack), old(trace), tests[..k], o)
      {
        assert tests[..k + 1][..k] == tests[..k];
        RunKeepsStack(a, stack, trace, tests[k], o);
        var run := Run(a, tests[k], o);
        results := results + [run];
      }
      assert tests[..|tests|] == tests;
    }

    /** TestWorker.shutdown: pop every suite, running all its afterAll hooks whatever they end with. */
    method Shutdown(a: Arena, o: Oracle)
      requires Within(a, stack)
      modifies this
      ensures stack == [] && trace == old(trace) + Hooks(a, Reverse(old(stack)), AfterAll)
    {
      while |stack| > 0
        invariant Within(a, stack)
        invariant old(trace) + Hooks(a, Reverse(old(stack)), AfterAll) == trace + Hooks(a, Reverse(stack), AfterAll)
        decreases |stack|
      {
        var suite := stack[|stack| - 1];
        ghost var rest := Reverse(stack[..|stack| - 1]);
        assert Reverse(stack) == [suite] + rest && ([suite] + rest)[1..] == rest;
        assert Hooks(a, Reverse(stack), AfterAll) == HooksOf(a, suite, AfterAll) + Hooks(a, rest, AfterAll);
        stack := stack[..|stack| - 1];
        InvokeAll(HooksOf(a, suite, AfterAll), o);
      }
    }

    /** The loop over a suite's afterAll hooks in shutdown: the run is null, so outcomes are dropped. */
    method InvokeAll(hooks: seq<Callback>, o: Oracle)
      modifies this
      ensures stack == old(stack) && trace == old(trace) + hooks
    {
      for k := 0 to |hooks|
        invariant stack == old(stack) && trace == old(trace) + hooks[..k]
      {
        var _ := Invoke(hooks[k], o);
        assert hooks[..k + 1] == hooks[..k] + [hooks[k]];
      }
      assert hooks[..|hooks|] == hooks;
    }
  }

  lemma Regroup(x: seq<nat>, c: nat, y: seq<nat>)
    ensures (x + [c]) + y == x + ([c] + y)
  {
  }

  /** One step up from c: the suites collected so far, reversed, continue the chain of c's parent. */
  lemma Climb(a: Arena, s: nat, c: nat, up: seq<nat>)
    requires WellFormed(a) && s < |a.suites| && c < |a.suites|
    requires SuiteChain(a, c) + Reverse(up) == SuiteChain(a, s)
    ensures a.suites[c].parent.None? ==> Reverse(up + [c]) == SuiteChain(a, s)
    ensures a.suites[c].parent.Some? ==>
      && a.suites[c].parent.value < c
      && SuiteChain(a, a.suites[c].parent.value) + Reverse(up + [c]) == SuiteChain(a, s)
  {
    SuiteFacts(a, c);
    assert (up + [c])[..|up|] == up;
    var r := Reverse(up + [c]);
    assert r == [c] + Reverse(up);
    match a.suites[c].parent
    case None =>
      assert SuiteChain(a, c) == [c];
    case Some(p) =>
      ChainOfChild(a, p, c);
      Regroup(SuiteChain(a, p), c, Reverse(up));
  }

  /** The suites from the root down to s, collected by climbing the parent links and reversing. */
  method ChainOf(a: Arena, s: nat) returns (chain: seq<nat>)
    requires WellFormed(a) && s < |a.suites|
    ensures chain == SuiteChain(a, s)
  {
    var up: seq<nat> := [];
    var cursor: Option<nat> := Some(s);
    while cursor.Some?
      invariant cursor.Some? ==> cursor.value < |a.suites| && SuiteChain(a, cursor.value) + Reverse(up) == SuiteChain(a, s)
      invariant cursor.None? ==> Reverse(up) == SuiteChain(a, s)
      decreases if cursor.Some? then cursor.value + 1 else 0
    {
      var c := cursor.value;
      Climb(a, s, c, up);
      up := up + [c];
      cursor := a.suites[c].parent;
    }
    chain := Reverse(up);
  }

  /** The suites of a stack the worker can be in all exist. */
  lemma StackWithin(a: Arena, stack: seq<nat>)
    requires WellFormed(a) && StackOk(a, stack)
    ensures Within(a, stack) && Within(a, Reverse(stack))
  {
    if stack != [] {
      assert forall k | 0 <= k < |stack| - 1 :: stack[k] < stack[|stack| - 1];
    }
    ReverseWithin(a, stack);
  }

  // ---------------------------------------------------------------------------
  // Test.runInIsolation
  // ---------------------------------------------------------------------------

  /** Test.runInIsolation: a fresh worker runs the one test, then shuts down. */
  method RunInIsolation(a: Arena, t: nat, o: Oracle) returns (run: TestRun, ran: seq<Callback>)
    requires WellFormed(a) && t < |a.tests|
    ensures var r := RunSpec(a, [], [], t, o);
      && StackOk(a, r.stack) && Within(a, Reverse(r.stack))
      && run == r.run && ran == r.trace + Hooks(a, Reverse(r.stack), AfterAll)
  {
    var worker := new TestWorker();
    run := worker.Run(a, t, o);
    RunKeepsStack(a, [], [], t, o);
    StackWithin(a, worker.stack);
    worker.Shutdown(a, o);
    ran := worker.trace;
  }

  /**
   * When no callback fails, a test run in isolation enters every suite of
   * its chain, runs the beforeAll hooks and the beforeEach hooks outermost
   * first, the body, then the afterEach hooks and, at shutdown, the afterAll
   * hooks innermost first; and it passes.
   */
  lemma IsolatedBenignRun(a: Arena, t: nat, o: Oracle)
    requires WellFormed(a) && t < |a.tests| && Benign(o) && Runnable(a, t)
    ensures TestOk(a, t)
    ensures var chain := SuiteChain(a, a.tests[t].suite);
      var r := RunSpec(a, [], [], t, o);
      && r.run.status == Pass && r.stack == chain && Within(a, Reverse(chain))
      && r.trace + Hooks(a, Reverse(r.stack), AfterAll)
         == Hooks(a, chain, BeforeAll) + Hooks(a, chain, BeforeEach) + [a.tests[t].callback]
            + Hooks(a, Reverse(chain), AfterEach) + Hooks(a, Reverse(chain), AfterAll)
  {
    assert TestOk(a, t);
    var chain := SuiteChain(a, a.tests[t].suite);
    StackWithin(a, chain);
    BenignFresh(a, t, chain, o);
  }

  /** A never-failing run from an empty stack enters every suite of the target. */
  lemma BenignFresh(a: Arena, t: nat, target: seq<nat>, o: Oracle)
    requires t < |a.tests| && Within(a, target) && Benign(o)
    ensures Within(a, Reverse(target))
    ensures Engage(a, t, [], [], target, o)
        == RunResult(TestRun(t, Pass), target,
                     Hooks(a, target, BeforeAll) + Hooks(a, target, BeforeEach) + [a.tests[t].callback]
                       + Hooks(a, Reverse(target), AfterEach))
  {
    var empty: seq<nat> := [];
    BenignEngage(a, t, empty, [], target, o);
    var common := CommonPrefix(empty, target);
    assert common == 0;
    var none: seq<Callback> := [];
    var leave := Hooks(a, Reverse(empty[common..]), AfterAll);
    var enter := Hooks(a, target[common..], BeforeAll);
    assert leave == [] by {
      assert Reverse(empty[common..]) == [];
    }
    assert enter == Hooks(a, target, BeforeAll) by {
      assert target[common..] == target;
    }
    assert none + leave + enter == Hooks(a, target, BeforeAll);
  }

  // ---------------------------------------------------------------------------
  // Suite.runTestsSerially
  // ---------------------------------------------------------------------------

  /** The arena with suite i's focused flag set to f. */
  function WithFocus(a: Arena, i: nat, f: bool): (b: Arena)
    requires i < |a.suites|
    ensures |b.suites| == |a.suites| && b.tests == a.tests
  {
    a.(suites := a.suites[i := a.suites[i].(focused := f)])
  }

  /** Changing a focused flag keeps the arena well formed and every chain as it was. */
  lemma FocusKeepsChains(a: Arena, i: nat, f: bool, k: nat)
    requires WellFormed(a) && i < |a.suites| && k < |a.suites|
    ensures WellFormed(WithFocus(a, i, f)) && SuiteChain(WithFocus(a, i, f), k) == SuiteChain(a, k)
    decreases k
  {
    SuiteFacts(a, i);
    ReplaceKeepsWellFormed(a, i, a.suites[i].(focused := f));
    SuiteFacts(a, k);
    if a.suites[k].parent.Some? {
      FocusKeepsChains(a, i, f, a.suites[k].parent.value);
    }
  }

  /** The result of running tests one after another on one worker. */
  datatype Series = Series(runs: seq<TestRun>, stack: seq<nat>, trace: seq<Callback>)

  /** One worker running the tests in order, from the worker state (stack, trace). */
  ghost function Serial(a: Arena, stack: seq<nat>, trace: seq<Callback>, tests: seq<nat>, o: Oracle): (r: Series)
    requires WellFormed(a) && StackOk(a, stack) && TestsWithin(a, tests)
    ensures StackOk(a, r.stack) && |r.runs| == |tests|
    ensures forall k | 0 <= k < |tests| :: r.runs[k].test == tests[k]
    decreases |tests|
  {
    if tests == [] then Series([], stack, trace)
    else
      var n := |tests| - 1;
      var before := Serial(a, stack, trace, tests[..n], o);
      RunKeepsStack(a, before.stack, before.trace, tests[n], o);
      var last := RunSpec(a, before.stack, before.trace, tests[n], o);
      Series(before.runs + [last.run], last.stack, last.trace)
  }

  /**
   * Suite.runTestsSerially: resolve the suite's tests (an error thrown by a
   * suite body propagates), then, with the suite marked focused, run them in
   * order on one worker; restore the flag and shut the worker down.
   */
  method RunTestsSerially(reg: Registry, i: nat, o: Oracle) returns (r: Result<seq<TestRun>, Outcome>)
    requires reg.Valid() && i < |reg.arena.suites|
    modifies reg
    ensures reg.Valid() && Extends(old(reg.arena), reg.arena) && i < |reg.arena.suites|
    ensures FramedBy(old(reg.arena), reg.arena, i)
    ensures r.Err? ==> r.error != NoError
    ensures r.Err? <==> ResolveOutcome(old(reg.arena), i) != NoError
    ensures r.Err? ==> r.error == ResolveOutcome(old(reg.arena), i)
    ensures old(BodiesOk(reg.arena, i)) ==> r.Ok?
    ensures old(reg.arena.suites[i].callback).Some? && old(reg.arena.suites[i].callback).value.outcome != NoError ==>
      && r == Err(old(reg.arena.suites[i].callback).value.outcome)
      && reg.current == i && reg.arena == AfterBody(old(reg.arena), i)
    ensures old(reg.arena.suites[i].callback).Some? && old(reg.arena.suites[i].callback).value.outcome == NoError && r.Err? ==>
      exists n :: StoppedAtChild(AfterBody(old(reg.arena), i), reg.arena, i, n, old(Pristine(reg.arena, i)), r.error)
    ensures old(reg.ran) <= reg.ran
    ensures r.Err? ==> FailedBelow(reg.arena, old(reg.ran), reg.ran, i, reg.current, r.error)
    ensures r.Ok? ==> reg.current == old(reg.current)
    ensures r.Ok? && old(Pristine(reg.arena, i)) ==> reg.arena.suites[i].resolved == Flatten(reg.arena, i)
    ensures r.Ok? ==>
      && TestsWithin(reg.arena, reg.arena.suites[i].resolved)
      && WellFormed(WithFocus(reg.arena, i, true))
      && r.value == Serial(WithFocus(reg.arena, i, true), [], [], reg.arena.suites[i].resolved, o).runs
  {
    var resolved := reg.Tests(i);
    if resolved.Err? {
      return Err(resolved.error);
    }
    SuiteFacts(reg.arena, i);
    var results := RunFocused(reg, i, resolved.value, o);
    return Ok(results);
  }

  /** The part of runTestsSerially after resolution: focus, run on one worker, restore, shut down. */
  method RunFocused(reg: Registry, i: nat, tests: seq<nat>, o: Oracle) returns (results: seq<TestRun>)
    requires reg.Valid() && i < |reg.arena.suites| && TestsWithin(reg.arena, tests)
    modifies reg
    ensures reg.arena == old(reg.arena) && reg.current == old(reg.current) && reg.ran == old(reg.ran)
    ensures WellFormed(WithFocus(reg.arena, i, true))
    ensures results == Serial(WithFocus(reg.arena, i, true), [], [], tests, o).runs
  {
    var wasFocused := reg.arena.suites[i].focused;
    FocusKeepsChains(reg.arena, i, true, 0);
    FocusRestored(reg.arena, i);
    reg.arena := WithFocus(reg.arena, i, true);
    results := RunOnOneWorker(reg.arena, tests, o);
    reg.arena := WithFocus(reg.arena, i, wasFocused);
  }

  /** A fresh worker runs the tests in order and is shut down. */
  method RunOnOneWorker(a: Arena, tests: seq<nat>, o: Oracle) returns (results: seq<TestRun>)
    requires WellFormed(a) && TestsWithin(a, tests)
    ensures results == Serial(a, [], [], tests, o).runs
  {
    var worker := new TestWorker();
    assert StackOk(a, []);
    results := worker.RunSeries(a, tests, o);
    StackWithin(a, worker.stack);
    worker.Shutdown(a, o);
  }

  /** Setting a focused flag and then setting it back gives the arena back. */
  lemma FocusRestored(a: Arena, i: nat)
    requires i < |a.suites|
    ensures WithFocus(WithFocus(a, i, true), i, a.suites[i].focused) == a
  {
    assert WithFocus(WithFocus(a, i, true), i, a.suites[i].focused).suites == a.suites;
  }

  /**
   * Marking suite i focused makes i the focus group of every suite in its
   * subtree, unless a suite strictly below i was focused already.
   */
  lemma MarkedGroup(a: Arena, i: nat, s: nat)
    requires WellFormed(a) && 0 < i < |a.suites| && s < |a.suites| && i in SuiteChain(a, s)
    ensures WellFormed(WithFocus(a, i, true))
    ensures FocusGroup(WithFocus(a, i, true), s) == i || FocusedBelow(a, i)
  {
    var b := WithFocus(a, i, true);
    FocusKeepsChains(a, i, true, s);
    var g := FocusGroup(b, s);
    SuiteFacts(a, i);
    assert b.suites[i].focused;
    if g != i {
      FocusKeepsChains(a, i, true, g);
      ChainOrdered(a, s, i, g);
    }
  }

  /** Marking suite i focused puts nothing new in focus strictly below it. */
  lemma MarkedBelow(a: Arena, i: nat)
    requires WellFormed(a) && i < |a.suites|
    ensures WellFormed(WithFocus(a, i, true))
    ensures FocusedBelow(WithFocus(a, i, true), i) ==> FocusedBelow(a, i)
  {
    var b := WithFocus(a, i, true);
    FocusKeepsChains(a, i, true, i);
    if k :| 0 <= k < |b.suites| && k != i && b.suites[k].focused && i in SuiteChain(b, k) {
      FocusKeepsChains(a, i, true, k);
      assert a.suites[k].focused && i in SuiteChain(a, k);
    } else if u :| 0 <= u < |b.tests| && b.tests[u].focused && TestInSubtree(b, i, u) {
      assert TestOk(a, u);
      FocusKeepsChains(a, i, true, a.tests[u].suite);
      assert TestInSubtree(a, i, u);
    }
  }

  /** Marking a suite focused skips no more suites. */
  lemma MarkedSkips(a: Arena, i: nat, s: nat)
    requires WellFormed(a) && i < |a.suites| && s < |a.suites|
    ensures WellFormed(WithFocus(a, i, true))
    ensures SkippedOnChain(WithFocus(a, i, true), s) == SkippedOnChain(a, s)
  {
    var b := WithFocus(a, i, true);
    FocusKeepsChains(a, i, true, s);
    var chain := SuiteChain(a, s);
    assert forall k | 0 <= k < |chain| :: b.suites[chain[k]].skipped == a.suites[chain[k]].skipped;
  }

  /**
   * runTestsSerially on a suite other than the root runs a test of that
   * suite's subtree whenever nothing below the suite is focused and nothing
   * on the test's chain is skipped, however much is focused elsewhere.
   */
  lemma SerialRunsUnfocusedTests(a: Arena, i: nat, t: nat)
    requires WellFormed(a) && 0 < i < |a.suites| && t < |a.tests| && TestOk(a, t)
    requires i in SuiteChain(a, a.tests[t].suite) && !FocusedBelow(a, i)
    requires !a.tests[t].skipped && !SkippedOnChain(a, a.tests[t].suite)
    ensures WellFormed(WithFocus(a, i, true)) && Runnable(WithFocus(a, i, true), t)
  {
    var b := WithFocus(a, i, true);
    var s := a.tests[t].suite;
    MarkedSkips(a, i, s);
    MarkedGroup(a, i, s);
    MarkedBelow(a, i);
    HasFocusedDescendantSpec(b, i);
    assert TestOk(b, t);
  }
}
