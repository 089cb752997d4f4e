# playwright-runner core, modelled in Dafny

This project models three parts of the playwright-runner repository and proves properties about them.

**describers** (`packages/describers/src/index.ts`) is a Jest-like test-definition library:

- `describe`/`fdescribe`/`xdescribe` and `it`/`fit`/`xit` build a tree of suites and tests.
- A suite's body is deferred. `Suite.tests` runs it once, memoises the tests it declares, and resolves child suites in declaration order.
- `Test.shouldRun` decides the focus/skip policy.
- A `TestWorker` runs tests inside a stack of entered suites:
  - It runs the `beforeAll`/`afterAll` hooks on entering and leaving suites.
  - It runs the `beforeEach`/`afterEach` hooks around every body.
  - It pops everything at `shutdown`.
- `Suite.runTestsSerially` and `Test.runInIsolation` drive a worker.

**babel-plugin-imports** (`packages/babel-plugin-imports/src/index.ts`):

- It rewrites bare module specifiers to `https://third_party/?name=<m>&from=<file>`.
- It leaves relative, absolute and `https://` specifiers alone.
- Its three visitors replace a statement only when the path changed.

**unit** (`packages/unit/src/index.ts`):

- It maps a page's `pass`/`fail`/`skip` statuses to Jest assertion results.
- `makeSuiteResult` tallies those results into a per-file result.

## How the model is built

- **Arena.** The suite/test object graph is an arena, `SuiteTree.Arena`: a sequence of suite nodes and a sequence of test nodes, addressed by index.
  - The root suite is index 0.
  - A suite's parent always has a smaller index than the suite itself.
  - `WellFormed` states the link invariants: parents, children, tests' suites and memoised tests.
- **Registry.** `Registration.Registry` is a class whose fields are the arena and the current suite. The current suite is the source's module-level `currentSuite`.
  - The registrars and `Suite.tests` are methods that update the registry in place.
  - A suite's deferred body is a script: the registrations it makes, then how it ends.
  - A ghost field `ran` logs every body run, in order, with its outcome. The source keeps no such record. The log lets the contracts say which body failed and which suite it left current.
- **Worker.** `Worker.TestWorker` is a class whose fields are the suite stack (`#suiteStack`) and the trace of callbacks it has invoked.
  - Callbacks are not executed. An oracle `(callback, n) -> Outcome` says how the callback invoked as the worker's n-th call ends. The outcome is one of `NoError`, `Timeout`, `Terminated` or `Thrown(message)`.
  - This outcome stands for what `runUserCallback` resolves to.
- **Methods against specification functions.** Each worker method with a loop is proved equal to a specification function of the old state:
  - `UntilFailure`, `RunAll`, `Sweep`, `Exit`, `Enter` and `Engage`.
  - `RunSpec` for a whole run.
  - `Serial` for a sequence of runs.

  Lemmas then state what those functions mean.
- **Pure parts.** The name functions, `_hasFocusedDescendant`, the plugin and the status mapping are functions with lemmas.

## Model

| member | source | states |
|---|---|---|
| Registration.Registry.constructor | packages/describers/src/index.ts:520-521 | The registry starts with only the unnamed root suite, whose body registers nothing; that root is the current suite. |
| Registration.Registry.Describe | packages/describers/src/index.ts:431-465 | The new suite is appended as the last child of the current suite. Its name is the given name when a body follows it, otherwise `''`. It is focused for fdescribe and skipped for xdescribe. Its body is kept for later. No other suite changes. |
| Registration.Registry.It | packages/describers/src/index.ts:475-495 | A new test of the current suite is appended to the test list and to the suite's children. It is focused for fit and skipped for xit. Nothing else changes. |
| Registration.Registry.AddHook | packages/describers/src/index.ts:504-518 | The callback is appended to the current suite's hook list of the given kind. Nothing else changes. |
| Registration.Registry.Declare | packages/describers/src/index.ts:431-518 | One registration call against the current suite leaves the arena as `Declared` of the old arena and leaves the current suite unchanged. |
| Registration.Registry.Register | packages/describers/src/index.ts:115 | A body's registrations, made in order, leave the arena as `Registered` of the old arena and leave the current suite unchanged. Only the current suite changes among the old suites, its body and memo stay as they were, and every new suite hangs under it with its body pending. |
| Registration.DeclaredShape | packages/describers/src/index.ts:431-518 | One registration against suite cur appends the suite or test it declares after the old ones. It appends the matching child to cur's children and the hook to that kind's list. cur's name, parent, flags, body and memo are unchanged, and no other old suite changes. |
| Registration.RegisteredShape | packages/describers/src/index.ts:115 | After n registrations against suite cur, the new suites are those declared, in order, appended after the old ones. The new tests are appended likewise. cur's children are its old children followed by exactly the declared ones, in declaration order. Each hook list is the old list followed by that kind's declared hooks, in order. cur's name, parent and flags are unchanged, and no other old suite changes. |
| Registration.RegisteredGrownUnder | packages/describers/src/index.ts:115 | The registrations add suites and tests only under cur. The new suites are leaves with their bodies pending, and all other old suites stay as they were. |
| Registration.Registry.Tests | packages/describers/src/index.ts:109-134 | The first call runs the body with the suite as current and clears it, so it never runs again. A failing body returns exactly its error, leaves the suite current and memoises nothing. Otherwise the current suite is restored and the children are resolved in order. The call ends with an error exactly when `ResolveOutcome` reports one, and that is the error returned. It succeeds whenever every pending body below ends without error. An error from a child leaves the memo holding what the earlier children contributed. On success the memo is the children's tests in order, with child suites expanded through their own memo; for a never-resolved subtree that is exactly `Flatten`. A later call returns the memo unchanged. Suites outside the subtree are untouched. On an error, the current suite is the suite of the last body run during this call. That suite is in this suite's subtree, and its body ended with the returned error. |
| Registration.Registry.Resolve | packages/describers/src/index.ts:110-130 | The same contract as `Tests` for a suite whose body is still pending: the body runs and is cleared. A failing body returns its own error with this suite current. Otherwise the children are resolved, and an error leaves current the descendant whose body failed last. |
| Registration.Registry.RunBody | packages/describers/src/index.ts:110-122 | The body is taken (the callback becomes null) and its registrations are run with this suite as the current one. The arena afterwards is `AfterBody` of the old one, and the method returns the body's outcome. The run and its outcome are appended to the log. |
| Registration.Registry.Collect | packages/describers/src/index.ts:124-130 | The loop over the children ends with the first error a child suite's resolution reports, or with none. If there is an error, it is returned with the memo holding exactly what the earlier children contributed. Otherwise the memo is the children's tests in order, each child suite resolved first, and the current suite is as before. On an error, the current suite is the suite of the last body run during the loop: a descendant of this suite whose body ended with that error. |
| Registration.Registry.CollectOne | packages/describers/src/index.ts:125-129 | One turn of that loop: a test joins the memo. A suite is resolved and its tests join the memo, or its error is returned. The error is the one `ResolveOutcome` predicts for that child. On an error, the current suite is the failing descendant of that child, whose body run is the last one logged. |
| Registration.Registry.CollectSuite | packages/describers/src/index.ts:125-128 | A child suite is resolved. Its outcome is the one `KidOutcome` predicts. On success the current suite is unchanged and the result is the child's memo, `Flatten` of the child for a never-resolved subtree. On an error the current suite is the descendant whose body failed last. |
| Registration.Registry.Memoise | packages/describers/src/index.ts:126-128 | Appending one child's tests to the memo extends the collected prefix by that child. The current suite, the log and the number of suites stay the same. |
| Registration.OutcomeAfterBody | packages/describers/src/index.ts:110-130 | Once a suite's body has run without error, resolving its children in order (old children first, then the declared ones) ends as `ResolveOutcome` predicted for the suite before its body ran. |
| Registration.BodiesOkResolve | packages/describers/src/index.ts:109-134 | When every pending body below a suite ends without error, resolving the suite reports no error. |
| Registration.BodyOkOutcome | packages/describers/src/index.ts:109-134 | A deferred body resolves without error exactly when it ends without error and so does every suite body it declares, however deep. |
| Registration.ResolveStable | packages/describers/src/index.ts:109-134 | How resolving a suite ends depends only on that suite's subtree. |
| Registration.FlattenMembers | packages/describers/src/index.ts:124-130 | The fully resolved list of suite i holds exactly the tests whose suite lies in the subtree of i. |
| SuiteNames.Trim | packages/describers/src/index.ts:73 | The result of trim has no whitespace at either end and is no longer than the input. |
| SuiteNames.TrimSlices | packages/describers/src/index.ts:73 | What trim keeps is one contiguous slice of the input, with only whitespace before and after it. |
| SuiteNames.FullName | packages/describers/src/index.ts:71-75 | The full name of a suite with a parent has no outer whitespace. |
| SuiteNames.AncestorTitles | packages/describers/src/index.ts:77-91 | ancestorTitles never contains an empty name. |
| SuiteNames.AncestorTitlesAreNamedChain | packages/describers/src/index.ts:77-91 | ancestorTitles is exactly the non-empty names on the chain from the root to the suite, root first. |
| SuiteNames.FullNameJoinsTitles | packages/describers/src/index.ts:71-91 | When names carry no outer whitespace, fullName is ancestorTitles joined by single spaces, and the titles are clean. |
| SuiteNames.TestAncestorTitles | packages/describers/src/index.ts:196-198 | A test's titles end with the test's own name, and every title before it is non-empty. |
| SuiteNames.TestFullName | packages/describers/src/index.ts:200-202 | A test's full name has no outer whitespace. |
| SuiteNames.TestFullNameJoinsTitles | packages/describers/src/index.ts:196-202 | For a clean, non-empty test name, the test's fullName is its ancestorTitles joined by single spaces. |
| Focus.HasFocusedDescendantSpec | packages/describers/src/index.ts:136-143 | _hasFocusedDescendant holds exactly when a focused suite lies strictly below the suite, or a focused test lies in it or below it. |
| Focus.FocusGroup | packages/describers/src/index.ts:179-187 | The second climb of shouldRun stops at a suite on the test's chain. That suite is focused unless it is the root, and no suite between it and the test's suite is focused. |
| Focus.ShouldRun | packages/describers/src/index.ts:160-194 | shouldRun, with its two loops along the parent links, returns exactly the policy `Runnable`: not skipped, and either focused, or neither skipped on the chain nor outshone by a focused descendant of its focus group. In particular a skipped test never runs, a focused unskipped test runs even under a skipped suite, and an unfocused test under a skipped suite never runs. |
| Focus.NoFocusRunsUnskipped | packages/describers/src/index.ts:160-194 | With nothing focused, a test runs exactly when neither it nor any suite above it is skipped. |
| Focus.FocusedTestExcludesOthers | packages/describers/src/index.ts:179-193 | With a focused test and no focused suite, no unfocused test runs. |
| Worker.UntilFailureOutcome | packages/describers/src/index.ts:254-258 | The beforeAll/afterAll loop of run invokes a prefix of the hooks. It reports no failure exactly when every invoked hook succeeded, and then it has invoked them all. Otherwise it stopped at hook n: hooks 0 to n ran, the ones before n succeeded, n failed with the reported error, and no later hook ran. |
| Worker.RunAllStatus | packages/describers/src/index.ts:276-278 | An each-hook loop invokes every hook. The run still passes exactly when it passed before and every hook succeeded. A failed run keeps its first error. |
| Worker.SweepStatus | packages/describers/src/index.ts:275-279 | The same holds for the each-hooks of a sequence of suites, suite after suite. |
| Worker.Exit | packages/describers/src/index.ts:251-259 | Leaving only pops, down to the shared suites: with no failure exactly those remain. A failing afterAll hook stops it with its suite already popped, and nothing is popped when the stack is no longer than the shared part. |
| Worker.ExitOutcome | packages/describers/src/index.ts:251-259 | Leaving only appends to the trace. It stops with a failure exactly when an afterAll hook it invoked failed. |
| Worker.Enter | packages/describers/src/index.ts:261-270 | Entering pushes the target's next suites in order. With no failure the stack is the whole target. A suite is pushed before its beforeAll hooks run, so a failing one leaves it entered. |
| Worker.EnterOutcome | packages/describers/src/index.ts:261-270 | Entering only appends to the trace. It stops with a failure exactly when a beforeAll hook it invoked failed. |
| Worker.EnterFailure | packages/describers/src/index.ts:261-270 | When entering fails, it stopped inside the beforeAll hooks of the last suite it pushed. The trace holds the beforeAll hooks of the suites entered before it, then that suite's hooks up to the failing one. |
| Worker.TestWorker.Invoke | packages/describers/src/index.ts:324-325 | A callback invocation is appended to the trace, and its outcome is the oracle's for that position. |
| Worker.TestWorker.RunUntilFailure | packages/describers/src/index.ts:254-258 | The hook loop equals `UntilFailure` of the old trace. |
| Worker.TestWorker.RunEach | packages/describers/src/index.ts:276-278 | The each-hook loop equals `RunAll` of the old trace and status. |
| Worker.TestWorker.RunSweep | packages/describers/src/index.ts:275-279 | The loop over suites and their each-hooks equals `Sweep`. |
| Worker.TestWorker.Leave | packages/describers/src/index.ts:251-259 | The popping loop equals `Exit` of the old stack and trace. |
| Worker.TestWorker.EnterSuites | packages/describers/src/index.ts:261-270 | The pushing loop equals `Enter` of the old stack and trace. |
| Worker.TestWorker.Shared | packages/describers/src/index.ts:242-249 | The `common` loop returns the length of the longest common prefix of the worker's stack and the target. |
| Worker.ChainOf | packages/describers/src/index.ts:230-240 | Collecting parents from the test's suite and reversing gives the chain of suites from the root down to it. |
| Worker.TestWorker.Proceed | packages/describers/src/index.ts:251-306 | Leaving, entering, the beforeEach hooks, the body (only while the run passes) and the afterEach hooks together equal `Engage`. |
| Worker.TestWorker.Run | packages/describers/src/index.ts:220-307 | TestWorker.run gives the run, new stack and new trace of `RunSpec` from the old stack and trace. |
| Worker.RunOutcome | packages/describers/src/index.ts:220-307 | A run is skipped exactly when shouldRun is false, and then it changes nothing. A run that goes ahead passes exactly when every callback it invoked succeeded. |
| Worker.RunKeepsStack | packages/describers/src/index.ts:220-270 | A run reports its own test. It keeps the stack a root-first chain and only appends to the trace. After a passing run the stack is the test's chain. |
| Worker.BeforeAllFailureStops | packages/describers/src/index.ts:261-275 | When a beforeAll hook fails while entering, the run fails with that hook's message. After the afterAll hooks of leaving, the trace holds only beforeAll hooks, up to the failing one. No beforeEach hook, body or afterEach hook runs, and the stack is the target chain cut just after the suite whose hook failed. |
| Worker.BenignRun | packages/describers/src/index.ts:220-307 | When no callback fails, a run invokes, in this order: the afterAll hooks of the suites it leaves (innermost first), the beforeAll hooks of the suites it enters (outermost first), every beforeEach hook (outermost first), the body, and the afterEach hooks (innermost first). Then it passes. |
| Worker.RunFromOwnChain | packages/describers/src/index.ts:242-270 | Between two tests of the same suite, no beforeAll or afterAll hook runs. |
| Worker.SetupNotRetried | packages/describers/src/index.ts:261-270 | After a test of suite s is run from the parent of s, the worker is inside s even if a beforeAll hook of s failed. The next test of s runs only the each-hooks and its body, so the failed setup is not retried. |
| Worker.TestWorker.Shutdown | packages/describers/src/index.ts:309-317 | shutdown empties the stack. It invokes every afterAll hook of the suites it pops, innermost first, whatever they end with. |
| Worker.TestWorker.InvokeAll | packages/describers/src/index.ts:313-315 | With a null run, every hook of the list is invoked in order, and none stops the loop. |
| Worker.RunInIsolation | packages/describers/src/index.ts:204-209 | runInIsolation gives `RunSpec` from a fresh worker. The callbacks it invokes are that run's, then the afterAll hooks of the stack it ends with, innermost first. |
| Worker.IsolatedBenignRun | packages/describers/src/index.ts:204-209 | When no callback fails, a test run in isolation passes. It invokes all beforeAll hooks of its chain, all beforeEach hooks, the body, all afterEach hooks and, at shutdown, all afterAll hooks, in that order. |
| Worker.RunTestsSerially | packages/describers/src/index.ts:93-107 | Resolving the suite's tests ends with an error exactly when `ResolveOutcome` reports one. That error propagates: it is the body's own error when the body fails, and otherwise the error of the child suite where resolution stopped. When every pending body below ends without error, the result is Ok. The results are those of running the resolved tests in order on one worker with the suite marked focused; for a never-resolved subtree the resolved tests are exactly `Flatten`. Only the suite's subtree changes. On success the current suite is as before. When the suite's own body fails, the current suite is that suite and the arena is `AfterBody` of the old one. When a descendant's body fails, the current suite is that descendant, whose run is the last one logged. The registry is left as resolution left it, with the suite's focused flag restored. |
| Worker.RunFocused | packages/describers/src/index.ts:95-106 | The suite is marked focused for the runs and its flag is restored afterwards. The registry is left exactly as it was. |
| Worker.TestWorker.RunSeries | packages/describers/src/index.ts:100-102 | The for loop of runTestsSerially equals `Serial`: each test run from the state the previous one left. |
| Worker.SerialRunsUnfocusedTests | packages/describers/src/index.ts:93-107 | Inside runTestsSerially on a non-root suite, a test of the suite's subtree runs under two conditions: nothing below the suite is focused, and nothing on the test's chain is skipped. Focus elsewhere in the tree does not matter. |
| ImportRewrite.TransformModulePath | packages/babel-plugin-imports/src/index.ts:4-14 | The result is either the input or an `https://` URL. |
| ImportRewrite.UnchangedIffLeftAlone | packages/babel-plugin-imports/src/index.ts:5-11 | A specifier is returned unchanged exactly when it starts with `.`, `/` or `https://`. |
| ImportRewrite.RewrittenForm | packages/babel-plugin-imports/src/index.ts:13 | Any other specifier becomes the third-party prefix, then the specifier verbatim, then `&from=` and the file name. |
| ImportRewrite.Idempotent | packages/babel-plugin-imports/src/index.ts:4-14 | Rewriting a rewritten specifier changes nothing, whatever file name the second pass uses. |
| ImportRewrite.RewriteInjective | packages/babel-plugin-imports/src/index.ts:13 | Two different rewritten specifiers of one file get different URLs. |
| ImportRewrite.ExampleBare | packages/babel-plugin-imports/src/__tests__/transform.spec.ts:35-40 | `something` imported from `/fakepath` becomes `https://third_party/?name=something&from=/fakepath`. |
| ImportRewrite.ExampleRelative | packages/babel-plugin-imports/src/__tests__/transform.spec.ts:20-33 | `./something`, `./something.ts` and `./something.js` are kept. |
| ImportRewrite.ExampleNoFile | packages/babel-plugin-imports/src/index.ts:4 | Without a file name, the `from` parameter is empty. |
| ImportRewrite.SourceOf | packages/babel-plugin-imports/src/index.ts:36-39 | Only a non-plugin statement, or a named export without a source, has no specifier to rewrite. |
| ImportRewrite.WithSource | packages/babel-plugin-imports/src/index.ts:30-33 | The replacement statement carries the new specifier. |
| ImportRewrite.VisitReplacesOnlyChanged | packages/babel-plugin-imports/src/index.ts:19-73 | A visitor replaces a statement exactly when it has a specifier that is not relative, absolute or https. The replacement has the same kind, specifiers and declaration, with the rewritten specifier. |
| ImportRewrite.ReplacementIsFixpoint | packages/babel-plugin-imports/src/index.ts:26-28 | Visiting a replacement node again leaves it in place, so each statement is replaced at most once. |
| ImportRewrite.RewriteProgramPointwise | packages/babel-plugin-imports/src/index.ts:16-76 | The plugin rewrites each statement on its own. Nothing is added, dropped or reordered. |
| ImportRewrite.RewriteProgramIdempotent | packages/babel-plugin-imports/src/index.ts:16-76 | Running the plugin over its own output changes nothing. |
| UnitResults.ToAssertion | packages/unit/src/index.ts:60-92 | `skip` maps to pending and `fail` to failed. Any other status maps to passed. There is exactly one failure message for a failure and none otherwise. Names and titles are copied. |
| UnitResults.MappedAreCounted | packages/unit/src/index.ts:68-73 | Every mapped result is passed, failed or pending. |
| UnitResults.MakeSuiteResult | packages/unit/src/index.ts:104-131 | The result records the path and keeps every result, in order. Each counter is the number of results with its status. failureMessage is all failure messages, in order, joined by newlines. |
| UnitResults.CountersCover | packages/unit/src/index.ts:112-121 | The four counters add up to at most the number of results. They add up to exactly that number if and only if every status is passed, failed, pending or todo. |
| UnitResults.TallyOfPage | packages/unit/src/index.ts:60-121 | For one page's results: pending counts the skips, failed counts the fails, passed counts the rest and todo is zero. The failure messages are those of the failed tests, one each, in order. |
| UnitResults.SuiteFailureMessage | packages/unit/src/index.ts:127-129 | failureMessage is the failed tests' messages joined by newlines, and it is empty when nothing failed. |

## Left out

- **Timers, timeouts and Promise.race in runUserCallback.** The oracle gives each callback's outcome, including `Timeout` and `Terminated`. `timeout` and `hookTimeout` are therefore not parameters of the model. This covers `shutdown` running its hooks without the caller's timeout.
- **Environment class.** It composes asynchronous setup around untyped state objects and is not part of this model.
- **Worker state.** The `state` object passed to hooks and bodies is not modelled, because callbacks are not executed.
- **Default runner.** The runner that `setImmediate` starts on the root suite, and the `useDefaultRunner` flag, are not part of this model. The same goes for `createSuite` and `createTest`, which only add that flag or return the node.
- **Runner output.** `packages/describers/src/runner.ts` prints progress and is not part of this model.
- **Registration order in time.** Registrations are modelled against an explicit current suite instead of the module-level `currentSuite`. A registration made after a suite was resolved is added to its children but not to its memo. The model keeps this, and states nothing further about it.
- **Suites without a body.** `describe(name)` with no body gives a suite whose deferred body is a non-function. The source would fail when calling it. Only named-with-body and body-only suites are modelled.
- **Registration.Registry.Tests.** Error values are modelled as the `Outcome` of the body, not as JavaScript values. A rethrown error is `Err(outcome)`.
- **Babel itself.** AST construction and `nodePath.replaceWith` are modelled only as a statement value whose specifier is replaced. Other statement fields and Babel's traversal are not part of this model.
- **Unit runner I/O.** The browser launch, page scripting, the JSON reviver and `formatExecError` are not modelled, nor is `packages/unit/src/transform.ts`. A page result carries its failure message already rendered as text.
- **TestResult fields.** `makeSuiteResult` also returns the other fields of `createEmptyTestResult`, which it leaves at their defaults. Only the fields it writes are modelled.
