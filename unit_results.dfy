/**
 * Result reporting of the in-browser unit runner (packages/unit/src/index.ts):
 * the per-test status mapping of runTests and the tally of makeSuiteResult.
 */
module UnitResults {
  import opened SuiteNames

  /** A test result as the page reports it; message is the failure already rendered as text. */
  datatype PageResult = PageResult(status: string, message: string, name: string, fullName: string, ancestorTitles: seq<string>)

  /** Jest's assertion statuses. */
  datatype Status = Passed | Failed | Skipped | Pending | Todo | Disabled

  datatype AssertionResult = AssertionResult(
    ancestorTitles: seq<string>,
    failureMessages: seq<string>,
    fullName: string,
    numPassingAsserts: nat,
    status: Status,
    title: string)

  /** The fields of Jest's per-file result that makeSuiteResult writes. */
  datatype TestResult = TestResult(
    testFilePath: string,
    numPassingTests: nat,
    numFailingTests: nat,
    numPendingTests: nat,
    numTodoTests: nat,
    testResults: seq<AssertionResult>,
    failureMessage: string)

  // ---------------------------------------------------------------------------
  // The status mapping in runTests
  // ---------------------------------------------------------------------------

  /**
   * The map callback of runTests: 'skip' is pending, 'fail' is failed with
   * its message, anything else passed; titles and names are copied.
   */
  function ToAssertion(p: PageResult): (r: AssertionResult)
    ensures r.status == Pending <==> p.status == "skip"
    ensures r.status == Failed <==> p.status == "fail"
    ensures r.status == Passed <==> p.status != "skip" && p.status != "fail"
    ensures r.failureMessages == if p.status == "fail" then [p.message] else []
    ensures r.title == p.name && r.fullName == p.fullName && r.ancestorTitles == p.ancestorTitles
    ensures r.numPassingAsserts == 0
  {
    var initial := AssertionResult(p.ancestorTitles, [], p.fullName, 0, if p.status == "skip" then Pending else Passed, p.name);
    if p.status == "fail" then initial.(status := Failed, failureMessages := initial.failureMessages + [p.message])
    else initial
  }

  function ToAssertions(ps: seq<PageResult>): (rs: seq<AssertionResult>)
    ensures |rs| == |ps|
  {
    if ps == [] then [] else ToAssertions(ps[..|ps| - 1]) + [ToAssertion(ps[|ps| - 1])]
  }

  lemma {:induction false} ToAssertionsPointwise(ps: seq<PageResult>)
    ensures forall k | 0 <= k < |ps| :: ToAssertions(ps)[k] == ToAssertion(ps[k])
  {
    if ps != [] {
      ToAssertionsPointwise(ps[..|ps| - 1]);
    }
  }

  // ---------------------------------------------------------------------------
  // makeSuiteResult
  // ---------------------------------------------------------------------------

  /** How many results carry status s. */
  function CountStatus(rs: seq<AssertionResult>, s: Status): (n: nat)
    ensures n <= |rs|
  {
    if rs == [] then 0
    else CountStatus(rs[..|rs| - 1], s) + (if rs[|rs| - 1].status == s then 1 else 0)
  }

  /** results.flatMap(r => r.failureMessages). */
  function FlatMessages(rs: seq<AssertionResult>): seq<string> {
    if rs == [] then [] else FlatMessages(rs[..|rs| - 1]) + rs[|rs| - 1].failureMessages
  }

  function EmptyTestResult(): TestResult {
    TestResult("", 0, 0, 0, 0, [], "")
  }

  /**
   * makeSuiteResult: one counter per passed, failed, pending or todo result,
   * every result kept in order, and the failure messages joined by newlines.
   */
  method MakeSuiteResult(assertionResults: seq<AssertionResult>, testPath: string) returns (result: TestResult)
    ensures result.testFilePath == testPath && result.testResults == assertionResults
    ensures result.numPassingTests == CountStatus(assertionResults, Passed)
    ensures result.numFailingTests == CountStatus(assertionResults, Failed)
    ensures result.numPendingTests == CountStatus(assertionResults, Pending)
    ensures result.numTodoTests == CountStatus(assertionResults, Todo)
    ensures result.failureMessage == Join(FlatMessages(assertionResults), "\n")
  {
    result := EmptyTestResult();
    result := result.(testFilePath := testPath);
    var failureMessages: seq<string> := [];
    for k := 0 to |assertionResults|
      invariant result.testFilePath == testPath && result.testResults == assertionResults[..k]
      invariant result.numPassingTests == CountStatus(assertionResults[..k], Passed)
      invariant result.numFailingTests == CountStatus(assertionResults[..k], Failed)
      invariant result.numPendingTests == CountStatus(assertionResults[..k], Pending)
      invariant result.numTodoTests == CountStatus(assertionResults[..k], Todo)
      invariant failureMessages == FlatMessages(assertionResults[..k])
    {
      var assertionResult := assertionResults[k];
      assert assertionResults[..k + 1][..k] == assertionResults[..k];
      if assertionResult.status == Passed {
        result := result.(numPassingTests := result.numPassingTests + 1);
      } else if assertionResult.status == Failed {
        result := result.(numFailingTests := result.numFailingTests + 1);
      } else if assertionResult.status == Pending {
        result := result.(numPendingTests := result.numPendingTests + 1);
      } else if assertionResult.status == Todo {
        result := result.(numTodoTests := result.numTodoTests + 1);
      }
      result := result.(testResults := result.testResults + [assertionResult]);
      failureMessages := failureMessages + assertionResult.failureMessages;
    }
    assert assertionResults[..|assertionResults|] == assertionResults;
    result := result.(failureMessage := Join(FlatMessages(assertionResults), "\n"));
  }

  /** The statuses makeSuiteResult counts. */
  predicate Counted(s: Status) {
    s == Passed || s == Failed || s == Pending || s == Todo
  }

  /**
   * The four counters add up to at most the number of results, and to exactly
   * that number when every result has a counted status.
   */
  lemma {:induction false} CountersCover(rs: seq<AssertionResult>)
    ensures var sum := CountStatus(rs, Passed) + CountStatus(rs, Failed) + CountStatus(rs, Pending) + CountStatus(rs, Todo);
      && sum <= |rs|
      && (sum == |rs| <==> forall k | 0 <= k < |rs| :: Counted(rs[k].status))
  {
    if rs != [] {
      var init := rs[..|rs| - 1];
      CountersCover(init);
      if forall k | 0 <= k < |rs| :: Counted(rs[k].status) {
        assert forall k | 0 <= k < |init| :: Counted(init[k].status) by {
          forall k | 0 <= k < |init| ensures Counted(init[k].status) {
            assert init[k] == rs[k];
          }
        }
      }
      if Counted(rs[|rs| - 1].status) && !forall k | 0 <= k < |init| :: Counted(init[k].status) {
        var k :| 0 <= k < |init| && !Counted(init[k].status);
        assert rs[k] == init[k];
      }
    }
  }

  /** Only the status mapping's three outcomes occur in mapped results. */
  lemma MappedAreCounted(ps: seq<PageResult>)
    ensures forall k | 0 <= k < |ps| :: Counted(ToAssertions(ps)[k].status)
  {
    ToAssertionsPointwise(ps);
  }

  /** The messages of the failed page results, in order. */
  function FailedMessages(ps: seq<PageResult>): seq<string> {
    if ps == [] then []
    else FailedMessages(ps[..|ps| - 1]) + (if ps[|ps| - 1].status == "fail" then [ps[|ps| - 1].message] else [])
  }

  function CountRaw(ps: seq<PageResult>, status: string): (n: nat)
    ensures n <= |ps|
  {
    if ps == [] then 0
    else CountRaw(ps[..|ps| - 1], status) + (if ps[|ps| - 1].status == status then 1 else 0)
  }

  /**
   * For the results of one page: pending counts the skips, failed counts the
   * fails, passed counts the rest, todo is zero, and the failure messages are
   * those of the failed tests, one each, in order.
   */
  lemma {:induction false} TallyOfPage(ps: seq<PageResult>)
    ensures var rs := ToAssertions(ps);
      && CountStatus(rs, Pending) == CountRaw(ps, "skip")
      && CountStatus(rs, Failed) == CountRaw(ps, "fail")
      && CountStatus(rs, Passed) == |ps| - CountRaw(ps, "skip") - CountRaw(ps, "fail")
      && CountStatus(rs, Todo) == 0
      && FlatMessages(rs) == FailedMessages(ps)
      && |FailedMessages(ps)| == CountRaw(ps, "fail")
  {
    if ps != [] {
      var init := ps[..|ps| - 1];
      TallyOfPage(init);
      var rs := ToAssertions(ps);
      assert rs[..|rs| - 1] == ToAssertions(init);
    }
  }

  /**
   * A page with no failed test gives an empty failureMessage; otherwise the
   * failureMessage is the failed tests' messages joined by newlines.
   */
  lemma SuiteFailureMessage(ps: seq<PageResult>)
    ensures var message := Join(FlatMessages(ToAssertions(ps)), "\n");
      && message == Join(FailedMessages(ps), "\n")
      && (CountRaw(ps, "fail") == 0 ==> message == "")
  {
    TallyOfPage(ps);
  }
}
