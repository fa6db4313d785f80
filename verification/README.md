# testboy, modelled in Dafny

testboy is a small in-page unit-test engine. It keeps two versions side by side, and both are modelled here:

- The older engine (`src/testboy.js`) is modelled by the `Legacy*` modules:
  - test cases are name-to-function maps with `setUp`, `tearDown`, `runBefore` and `runAfter` hooks;
  - `TestResult` is an aggregate counter with separate `failures` (AssertionErrors) and `errors` (anything else);
  - the `Runner` runs each test in its own try/catch and visits nested suites depth first;
  - the `asserts` library throws `AssertionError`s that carry a call signature built by `debug.getSignature`;
  - the `testboy.alias` front end is modelled too.
- The newer engine (`trunk/src/testboy.js`) is modelled by the `Trunk*` modules:
  - test cases register tests with `addTest`, which checks for duplicate names and generates names from a shared counter;
  - a case with no registered tests falls back to scanning its own `test*` properties;
  - the `ResultCollector` is an event sink that keeps one `TestResult` per test and a `failures` count;
  - the `assert` library renders values with `Type.describe`;
  - the `testboy` front end offers `createTestCase`, `test` and `run`.

Shared modules:

- `JsValues`: the JavaScript values the engines handle, with `typeof`, ToBoolean, `===`, `String(v)`, and decimal text with its read-back.
- `JsObjects`: objects as insertion-ordered entry lists.
- `Outcomes`: what a call into user code does (returns, or throws an AssertionError or another value), and how a `try` block of calls runs.
- `Suites`: the `TestSuite` composite and its depth-first flattening.

User code (test bodies, hooks, callbacks) is not modelled. A *host* function decides how each call into it completes. The host is indexed by the call's position in the run, so any sequence of outcomes can be described. Every method that runs tests is proved to change its objects exactly as a pure function of the old state and the host says. The promised properties are proved as lemmas about those functions:

- visit order;
- one count or one result per test;
- failure classification;
- hook bracketing;
- that a throwing test never stops the loop;
- the verdict strings.

Behaviour of the code worth knowing:

- **Tear-down after a throw.** In both engines `tearDown`/`teardown` is skipped when the set-up or the body threw (`LegacyEngine.TearDownOnlyAfterCleanSteps`, `TrunkEngine.RecordTestClassifies`).
- **Verdict strings.** The newer engine's success verdict is spelled "SUITE SUCCESSFULL". The older engine writes "TEST SUCCESSFUL"/"TEST FAILED", and its verdict looks only at `errorCount`, so assertion failures alone still give "TEST SUCCESSFUL".
- **State kept between runs.** The newer engine's `run` never calls `resetState`, so results and failures build up across runs. The older engine's `reset` keeps `failures`.
- **Duplicate names in the older engine.** `TestCase.test` there overwrites a test of the same name instead of refusing it. Only the newer `addTest` refuses duplicates.
- **Arguments of the throw assertions.** The newer `throwsError`/`throwsNoError` call `fn()` with no arguments and no receiver. Only the older `assertError`/`assertNoError` take an argument list and a `this`.
- **`hasProperty` on `null` or `undefined`.** It throws a TypeError there rather than reporting an assertion failure.

## Model

| member | source | states |
|---|---|---|
| JsValues.AddZero | src/testboy.js:51-57 | the number itself comes back exactly when its text already has at least `c` characters; otherwise a string comes back |
| JsValues.AddZeroPadsToWidth | src/testboy.js:51-57 | a non-negative number one or two characters short is padded to exactly `c` digits that still denote the number |
| JsValues.AddZeroPastTable | src/testboy.js:51-57 | three or more characters short, the table lookup misses and the text starts with "undefined" |
| JsObjects.PutGet | src/testboy.js:437-439 | after `tests[name] = fn` the name reads `fn` and every other name reads what it read before |
| Outcomes.RunStepsStopsAtFirstThrow | src/testboy.js:678-686 | a try block runs a prefix of its steps, all but the last returning; it returns iff every step ran and returned, and otherwise completes as its last step did |
| Suites.TestSuite.constructor | src/testboy.js:486-501 | a new suite has the given name and no items |
| Suites.TestSuite.Add | src/testboy.js:510-513 | appends the item last, with no precondition; no other suite's items change, whether or not the suite is already nested somewhere |
| Suites.Appended | src/testboy.js:510-513 | appending to an acyclic suite an item that does not lead back to it keeps it acyclic, and its cases grow by exactly the item's cases, at the end |
| Suites.CaseAddedBelow | src/testboy.js:510-513 | adding a case to any suite, even one nested long ago, keeps every acyclic suite above it runnable |
| Suites.LateAddition | src/testboy.js:710-723 | a case added to a suite after that suite was nested is reached when the outer suite runs |
| Suites.TestSuite.GetSize | src/testboy.js:529-531 | the number of direct items |
| Suites.TestSuite.IsEmpty | trunk/src/testboy.js:257-259 | true iff there are no items |
| Suites.EmptyReachesNothing | trunk/src/testboy.js:257-259 | a suite with no items is acyclic and reaches no case |
| Suites.VisitOrder | src/testboy.js:710-723 | a suite [A, [B], C] reaches A, then B, then C |
| LegacyText.ReadTypeOfRendering | src/testboy.js:1048-1062 | the `typeof` written in braces can always be read back from a rendering |
| LegacyText.PrimitiveRenderingIsInjective | src/testboy.js:1048-1062 | two non-object, non-function values render alike only if they are the same value (so 5 and "5" differ) |
| LegacyText.OpaqueRenderings | src/testboy.js:1048-1062 | `null` and every object render as "{object}[object]", every function as "{function}[function]" |
| LegacyText.StringRendering | src/testboy.js:1048-1062 | a string renders as "{string}" followed by its text in double quotes |
| LegacyText.GetSignature | src/testboy.js:1024-1041 | the index loop yields `name(` + the renderings joined by ", " + `)` |
| LegacyText.SignatureOfNoArguments | src/testboy.js:1024-1041 | with no argument the signature still shows one `undefined` |
| LegacyText.SignatureOneMore | src/testboy.js:1024-1041 | one more argument adds exactly ", " and its rendering before the ")" |
| LegacyText.StringBuilder.constructor | src/testboy.js:256-264 | the text is the given first line, or empty |
| LegacyText.StringBuilder.AppendLine | src/testboy.js:280-293 | the text grows by exactly one line break, the indentation and the new string; nothing else changes |
| LegacyAsserts.AssertionError.ToString | src/testboy.js:836-839 | the text starts with the error's name and ends with the failing call; without a message it is name, cause and call |
| LegacyAsserts.AssertTrue | src/testboy.js:1104-1109 | returns iff the value is the boolean `true`; otherwise throws the AssertionError with its signature, message and cause |
| LegacyAsserts.AssertFalse | src/testboy.js:1118-1123 | returns iff the value is the boolean `false`; otherwise throws the AssertionError |
| LegacyAsserts.AssertEquals | src/testboy.js:1133-1140 | returns iff `actual === expected`; otherwise throws an AssertionError whose cause shows both renderings |
| LegacyAsserts.AssertNotUndefined | src/testboy.js:1149-1154 | throws iff the value is `undefined` |
| LegacyAsserts.AssertUndefined | src/testboy.js:1163-1168 | returns iff the value is `undefined` |
| LegacyAsserts.AssertNull | src/testboy.js:1177-1182 | returns iff the value is `null` |
| LegacyAsserts.AssertNotNull | src/testboy.js:1191-1196 | throws iff the value is `null`; `undefined` passes |
| LegacyAsserts.AssertError | src/testboy.js:1211-1223 | returns iff applying the function throws; the inner exception never escapes |
| LegacyAsserts.AssertNoError | src/testboy.js:1238-1250 | returns iff applying the function returns; the inner exception never escapes |
| LegacyAsserts.AssertInstanceOf | src/testboy.js:1252-1257 | a `ctor` that is not a function makes `instanceof` throw a TypeError, not an AssertionError; otherwise it returns iff the value is an object or function the host calls an instance, so a primitive always fails |
| LegacyAsserts.AssertEqualsDoesNotCoerce | src/testboy.js:1133-1140 | a number and its own text are not equal, and the error carries the caller's message |
| LegacyAsserts.AssertionsThrowOnlyAssertionErrors | src/testboy.js:1104-1257 | every assertion either returns or throws an AssertionError, never anything else; for assertInstanceOf this holds when `ctor` is a function |
| LegacyAsserts.ErrorAssertionsAreComplementary | src/testboy.js:1211-1250 | for any call, exactly one of assertError and assertNoError passes |
| LegacyEngine.TestSteps | src/testboy.js:678-685 | the try block always holds the test body; a tear-down, when present, is the last step; it starts with the set-up or the body |
| LegacyEngine.TryBlockSteps | src/testboy.js:678-686 | a throwing step ends the try block; the body runs only after a returning set-up; the tear-down only after a returning body |
| LegacyEngine.TryBlockWithSetUp | src/testboy.js:679-682 | with a truthy set-up, it is the first call and the body follows only if it returned |
| LegacyEngine.FromBodyRuns | src/testboy.js:682-685 | from the body on, the tear-down runs exactly when the body returned |
| LegacyEngine.AsWrittenPreamble | src/testboy.js:744-752 | as written, the preamble fails exactly for an unsupported browser; otherwise it is the intended one |
| LegacyEngine.RecordTestClassifies | src/testboy.js:677-697 | each test counts once; an AssertionError goes to `failures` with `errorCount` unchanged; any other throw goes to `errors` and adds exactly one to `errorCount` |
| LegacyEngine.TearDownOnlyAfterCleanSteps | src/testboy.js:679-685 | a test's tear-down is called iff its set-up and its body both returned |
| LegacyEngine.RunTestsCountsEveryTest | src/testboy.js:677-698 | the loop adds exactly the number of tests to `testCount` |
| LegacyEngine.RunTestsExtends | src/testboy.js:677-698 | the loop only appends to the calls, the log, `errors` and `failures` |
| LegacyEngine.EveryTestIsAttempted | src/testboy.js:677-698 | a throwing test never stops the loop: every test makes its first call among the calls this loop adds, whatever ran before |
| LegacyEngine.RunTestsKeepsConsistent | src/testboy.js:589-606 | `errorCount` keeps counting the `errors` list across the loop |
| LegacyEngine.RecordTestWithOnlyFailures | src/testboy.js:687-694 | a test that can only throw AssertionErrors leaves `errorCount` alone |
| LegacyEngine.RunTestsWithOnlyFailures | src/testboy.js:677-698 | a loop with only AssertionErrors leaves `errorCount` alone |
| LegacyEngine.RunBeforeThrowEscapes | src/testboy.js:674-676 | a throwing `runBefore` escapes the case before any test runs |
| LegacyEngine.CaseUnfolds | src/testboy.js:662-702 | a case that completes ran its tests between its two hooks |
| LegacyEngine.CaseBracketing | src/testboy.js:674-701 | a completed case's calls start with `runBefore` and end with `runAfter` when those are truthy |
| LegacyEngine.RunCaseWithOnlyFailures | src/testboy.js:662-702 | a case with only AssertionErrors leaves `errorCount` alone |
| LegacyEngine.RunCasesAppend | src/testboy.js:710-723 | running `xs + ys` runs `xs`, then `ys` from where `xs` stopped, unless something escaped |
| LegacyEngine.EscapeStopsRun | src/testboy.js:710-723 | once a case lets an exception out, no later case runs |
| LegacyEngine.CaseLogExtends | src/testboy.js:672 | a case only appends to the log, starting with its banner |
| LegacyEngine.RunTestsLogExtends | src/testboy.js:677-698 | the test loop only appends to the log |
| LegacyEngine.RunCasesLogExtends | src/testboy.js:710-723 | running cases only appends to the log |
| LegacyEngine.RunCasesWithOnlyFailures | src/testboy.js:710-723 | runs with only AssertionErrors leave `errorCount` alone |
| LegacyEngine.OnlyFailuresStillSucceed | src/testboy.js:756-762 | a completed run whose only problems are AssertionErrors ends with "TEST SUCCESSFUL" |
| LegacyEngine.ResetKeepsFailures | src/testboy.js:578-582 | reset zeroes `testCount` and `errorCount` and empties `errors`, but keeps `failures` |
| LegacyEngine.VerdictIsErrorCount | src/testboy.js:613-624 | `isSuccessful` is exactly `errorCount == 0`, `isFailed` is its negation, and the summary ends with the matching verdict |
| LegacyEngine.UnsupportedBrowserStopsRun | src/testboy.js:738-748 | as written, an unsupported browser resets the result, then a TypeError escapes with nothing logged and no test run; as intended, a warning is logged |
| LegacyRunner.TestResult.constructor | src/testboy.js:542-570 | all counters zero and both lists empty |
| LegacyRunner.TestResult.Reset | src/testboy.js:578-582 | the counters and `errors` are reset and `failures` is kept; the count invariant holds afterwards |
| LegacyRunner.TestResult.AddError | src/testboy.js:589-593 | appends the error and adds one to `errorCount`, keeping the count invariant |
| LegacyRunner.TestResult.AddFailure | src/testboy.js:595-598 | appends the failure; no counter moves |
| LegacyRunner.TestResult.IncrementTestCount | src/testboy.js:604-606 | adds one to `testCount` |
| LegacyRunner.TestResult.IsSuccessful | src/testboy.js:622-624 | true iff no error was counted, and then the summary says "TEST SUCCESSFUL" |
| LegacyRunner.TestResult.IsFailed | src/testboy.js:613-615 | the negation of isSuccessful |
| LegacyRunner.TestCase.constructor | src/testboy.js:405-426 | a named case with no tests and the prototype's empty hooks |
| LegacyRunner.TestCase.Test | src/testboy.js:437-451 | stores the function under the name (replacing one of the same name) and marks the case as having tests |
| LegacyRunner.Logger.Log | src/testboy.js:957-977 | one line reaches the targets when logging is enabled, none otherwise |
| LegacyRunner.Runner.constructor | src/testboy.js:635-652 | a fresh result and an empty master suite |
| LegacyRunner.Runner.TryTest | src/testboy.js:678-686 | makes exactly the calls of the try block, stopping at the first throw |
| LegacyRunner.Runner.RunOneTest | src/testboy.js:677-697 | changes the runner exactly as one classified, counted test does, keeping the count invariant |
| LegacyRunner.Runner.RunHookCall | src/testboy.js:674-676 | calls a truthy hook outside any try and lets its throw escape |
| LegacyRunner.Runner.RunTestCase | src/testboy.js:662-702 | changes the runner exactly as the case's banner, hooks and test loop do |
| LegacyRunner.Runner.RunTestLoop | src/testboy.js:677-698 | runs every test of the case in enumeration order, changing the runner exactly as the test loop does, and keeps `errorCount` equal to the number of errors |
| LegacyRunner.Runner.RunSuite | src/testboy.js:710-723 | runs the cases the suite reaches through its items as they are when it runs, in depth-first insertion order, stopping at an escape; needs only that no suite below it contains itself |
| LegacyRunner.Runner.RunItem | src/testboy.js:715-721 | a nested suite runs in full before the next item |
| LegacyRunner.Runner.Add | src/testboy.js:730-732 | appends the item to the master suite; no other suite changes |
| LegacyRunner.Runner.GetSize | src/testboy.js:770-772 | the number of items added |
| LegacyRunner.Runner.IsEmpty | src/testboy.js:779-781 | true iff nothing was added to the master suite |
| LegacyRunner.Runner.LogPreamble | src/testboy.js:744-752 | logs where it runs, the page mode and "Started"; for an unsupported browser it logs the warning as intended (Findings row 1), where the code as written throws a TypeError |
| LegacyRunner.Runner.Run | src/testboy.js:738-763 | reset, preamble, every case the master suite reaches at run time in visit order (items added to nested suites after nesting included), then the summary; the count invariant holds afterwards. For an unsupported browser it runs as intended (Findings row 1) |
| LegacyAlias.Register | src/testboy.js:1346-1371 | `test` changes only the tests; the hook setters change only their hook |
| LegacyAlias.LastTestRegistrationWins | src/testboy.js:1346-1351 | the last registration under a name is the test that runs under it |
| LegacyAlias.LastSetUpWins | src/testboy.js:1365-1367 | the last `setUp` decides the hook; without one the hook is kept |
| LegacyAlias.Alias.constructor | src/testboy.js:1262-1268 | the standard runner is empty and the standard case is "default" with no test |
| LegacyAlias.Alias.Test | src/testboy.js:1346-1351 | adds the test to the current standard case |
| LegacyAlias.Alias.SetUp | src/testboy.js:1365-1367 | sets the standard case's set-up |
| LegacyAlias.Alias.TearDown | src/testboy.js:1369-1371 | sets the standard case's tear-down |
| LegacyAlias.Alias.RunBefore | src/testboy.js:1360-1362 | sets the standard case's `runBefore` |
| LegacyAlias.Alias.Perform | src/testboy.js:1346-1371 | one registration from a callback, applied to the standard case |
| LegacyAlias.Alias.TestCase | src/testboy.js:1330-1336 | a new standard case holding exactly the callback's registrations, appended to the runner |
| LegacyAlias.Alias.AddStandardIfEmpty | src/testboy.js:1374-1376 | adds the standard case exactly when nothing was added and it has tests; the master suite stays acyclic and then reaches the cases start runs, the same before and after |
| LegacyAlias.Alias.Start | src/testboy.js:1373-1378 | runs the standard case alone when nothing was added and it has tests, otherwise every case reached at run time; the standard case stays added, so a later start runs the same cases (unsupported browser as intended, Findings row 1) |
| LegacyAlias.NothingToRun | src/testboy.js:1373-1378 | with nothing to run, start only resets, logs, and reports a successful run of zero tests (unsupported browser as intended, Findings row 1) |
| TrunkAsserts.DescribeEmptyValues | trunk/src/testboy.js:125-127 | `null` and `undefined` describe as their bare type, and `null` looks like an empty object |
| TrunkAsserts.DescribeTellsTypesApart | trunk/src/testboy.js:125-127 | values of different types never describe alike |
| TrunkAsserts.AssertionError.ToString | trunk/src/testboy.js:845-848 | starts with the error's name and ends with the failing function |
| TrunkAsserts.NewError | trunk/src/testboy.js:831-835 | keeps message and cause; an empty function name becomes "[anonymous]()" |
| TrunkAsserts.HasProperty | trunk/src/testboy.js:864-869 | fails iff the property reads `undefined`; a `null` or `undefined` object throws a TypeError |
| TrunkAsserts.Is | trunk/src/testboy.js:871-876 | returns iff `actual === expected`, else throws its AssertionError |
| TrunkAsserts.IsTrue | trunk/src/testboy.js:878-883 | returns iff the value is the boolean `true` |
| TrunkAsserts.IsFalse | trunk/src/testboy.js:885-890 | returns iff the value is the boolean `false` |
| TrunkAsserts.IsSomething | trunk/src/testboy.js:895-900 | throws exactly for `null` and `undefined` |
| TrunkAsserts.IsNotUndefined | trunk/src/testboy.js:905-910 | throws exactly for `undefined` |
| TrunkAsserts.IsUndefined | trunk/src/testboy.js:912-917 | returns exactly for `undefined` |
| TrunkAsserts.IsNull | trunk/src/testboy.js:919-924 | returns exactly for `null` |
| TrunkAsserts.IsNotNull | trunk/src/testboy.js:926-931 | throws exactly for `null` |
| TrunkAsserts.IsTypeOf | trunk/src/testboy.js:933-938 | returns iff the type name is the value's `typeof` |
| TrunkAsserts.IsInstanceOfAsWritten | trunk/src/testboy.js:940-945 | as written it returns for every function constructor and never throws an AssertionError |
| TrunkAsserts.IsInstanceOf | trunk/src/testboy.js:940-945 | as intended: returns iff the value is an object or function the host calls an instance |
| TrunkAsserts.ThrowsNoError | trunk/src/testboy.js:947-960 | returns iff `fn()` returns; the inner exception is shown in the cause, never rethrown |
| TrunkAsserts.ThrowsError | trunk/src/testboy.js:962-973 | returns iff `fn()` throws |
| TrunkAsserts.IsInstanceOfNeverReports | trunk/src/testboy.js:941 | the check as written never reports a failure, even for `isInstanceOf(5, Object)` |
| TrunkAsserts.IsDoesNotCoerce | trunk/src/testboy.js:871-876 | 5 is not `"5"`, and the two describe differently |
| TrunkAsserts.ThrowAssertionsAreComplementary | trunk/src/testboy.js:947-973 | exactly one of throwsError and throwsNoError passes |
| TrunkAsserts.AssertionsThrowOnlyAssertionErrors | trunk/src/testboy.js:871-973 | the value and throw assertions either return or throw an AssertionError |
| TrunkEngine.NewResult | trunk/src/testboy.js:469-506 | `isFailed` is `!isPassed`; the error is kept only when it is truthy, else it is `null` |
| TrunkEngine.OutcomeEventsKeepCount | trunk/src/testboy.js:667-688 | onTestPassed/onTestFailed each append one result for the current case; only onTestFailed adds a failure; `failures` keeps counting the failed results |
| TrunkEngine.SummaryVerdict | trunk/src/testboy.js:606-615 | the summary starts with "SUITE SUCCESSFULL" iff no result failed, and with "SUITE FAILED" iff one did |
| TrunkEngine.CountFailedPositive | trunk/src/testboy.js:632-634 | the failure count is positive iff some result failed |
| TrunkEngine.ResetForgetsResults | trunk/src/testboy.js:639-644 | after resetState nothing has failed and the summary reports 0 tests and 0 failures |
| TrunkEngine.TestsToRun | trunk/src/testboy.js:735-769 | the registered tests when `length` is non-zero, else exactly the own properties whose name starts with "test" |
| TrunkEngine.TryBlockSteps | trunk/src/testboy.js:744-751 | the try block calls set-up, then the body only if set-up returned, then tear-down only if both returned |
| TrunkEngine.RunTestsSnoc | trunk/src/testboy.js:756-768 | one more test name is one more test after the others |
| TrunkEngine.RunCasesAppend | trunk/src/testboy.js:777-791 | running `xs + ys` runs `xs`, then `ys` from where `xs` left off |
| TrunkEngine.RecordTestGrows | trunk/src/testboy.js:744-751 | one test appends exactly one result, for that test and the current case, and only appends calls and log lines |
| TrunkEngine.RecordTestClassifies | trunk/src/testboy.js:759-766 | a test passes iff set-up, body and tear-down all returned; on a throw the result carries what was thrown, one failure is added, and the tear-down is skipped |
| TrunkEngine.RunTestsGrows | trunk/src/testboy.js:756-768 | the loop appends one result per name, in order, each for the current case |
| TrunkEngine.RunTestsCounts | trunk/src/testboy.js:756-768 | `failures` keeps counting the failed results across the loop |
| TrunkEngine.RunCaseRecordsEveryTest | trunk/src/testboy.js:725-770 | a throwing test never aborts: a case appends exactly one result per test to run, in order |
| TrunkEngine.RunCasesRecordsEveryTest | trunk/src/testboy.js:777-791 | the cases together append exactly one result per test, and keep `failures` counting the failed results |
| TrunkEngine.RunAccumulates | trunk/src/testboy.js:812-817 | a run never resets: earlier results stay in front, one result is added per test, and the log shows "Started", the summary, then "Done" |
| TrunkEngine.LegacyScan | trunk/src/testboy.js:735-769 | with `length` 0 only own "test*" properties run; otherwise only the registered tests |
| TrunkRunner.CaseName | trunk/src/testboy.js:138-144 | a truthy name is used as the case name; otherwise the prototype's "Unnamed Test Case" |
| TrunkRunner.AutoNamesDiffer | trunk/src/testboy.js:151-158 | different counter values give different generated names |
| TrunkRunner.FirstAutoName | trunk/src/testboy.js:189 | the pre-incremented counter makes the first generated name "Test #1" |
| TrunkRunner.AutoNamedTestIsAppended | trunk/src/testboy.js:187-189 | `addTest(fn)` skips the duplicate check, appends under the next generated name, moves the counter by one, and keeps later generated names free |
| TrunkRunner.DuplicateCheckDiffers | trunk/src/testboy.js:191 | the check as written differs from the intended one exactly on unregistered names inherited from `Object.prototype` |
| TrunkRunner.PutGrowsByAtMostOne | trunk/src/testboy.js:195 | storing a test adds at most one entry |
| TrunkRunner.AddTestStores | trunk/src/testboy.js:186-197 | a refused name leaves tests and `length` unchanged; an accepted test is stored under its name with `length` + 1, and every other name keeps its test |
| TrunkRunner.SecondRegistrationRefused | trunk/src/testboy.js:190-193 | registering a name a second time, with a defined function, is refused when the test registered first under it is truthy |
| TrunkRunner.TestNameCounter.constructor | trunk/src/testboy.js:158 | the shared counter starts at 0 |
| TrunkRunner.TestCase.constructor | trunk/src/testboy.js:138-144 | a case with the name from CaseName, no tests and `length` 0 |
| TrunkRunner.TestCase.AddTest | trunk/src/testboy.js:186-197 | changes tests, `length` and the shared counter as addTest does with the duplicate check as intended (Findings row 3), keeps the case well formed, and reports a refused duplicate |
| TrunkRunner.TestCase.Define | trunk/src/testboy.js:739-743 | assigns an own property that the scan can find, leaving the tests alone |
| TrunkRunner.ScanOnlyWithoutRegisteredTests | trunk/src/testboy.js:735-769 | in a well-formed case `length` 0 means no registered test, and then exactly the "test*" properties run |
| TrunkRunner.ResultCollector.constructor | trunk/src/testboy.js:515-520 | a collector with no results and no failures |
| TrunkRunner.ResultCollector.Log | trunk/src/testboy.js:566-586 | one line when logging is enabled, none otherwise |
| TrunkRunner.ResultCollector.AddResult | trunk/src/testboy.js:622-626 | appends the result and logs it |
| TrunkRunner.ResultCollector.IsFailed | trunk/src/testboy.js:632-634 | true iff some result failed |
| TrunkRunner.ResultCollector.ResetState | trunk/src/testboy.js:639-644 | forgets every result and failure; the count invariant holds |
| TrunkRunner.ResultCollector.OnStart | trunk/src/testboy.js:649-652 | records the start time and logs "Started", keeping every result |
| TrunkRunner.ResultCollector.OnFinish | trunk/src/testboy.js:657-661 | records the end time, then logs the summary and "Done" |
| TrunkRunner.ResultCollector.OnTestCaseStarted | trunk/src/testboy.js:667-670 | later results are attributed to this case, and the case is logged |
| TrunkRunner.ResultCollector.OnTestPassed | trunk/src/testboy.js:676-678 | one passed result for the current case |
| TrunkRunner.ResultCollector.OnTestFailed | trunk/src/testboy.js:685-688 | one failed result for the current case and one more failure |
| TrunkRunner.Runner.constructor | trunk/src/testboy.js:700-703 | an empty "master suite" and a fresh collector |
| TrunkRunner.Runner.TryTest | trunk/src/testboy.js:744-747 | makes exactly the calls of the try block, stopping at the first throw |
| TrunkRunner.Runner.RunOneTest | trunk/src/testboy.js:744-751 | changes the runner exactly as one test and its report do |
| TrunkRunner.Runner.RunTestCase | trunk/src/testboy.js:725-770 | onTestCaseStarted, then the registered tests, or the scanned ones when `length` is 0 |
| TrunkRunner.Runner.RunScanned | trunk/src/testboy.js:739-754 | runs every own "test*" property in enumeration order |
| TrunkRunner.Runner.RunRegistered | trunk/src/testboy.js:756-768 | runs every registered test in insertion order |
| TrunkRunner.Runner.RunSuite | trunk/src/testboy.js:777-791 | runs the cases the suite reaches through its items as they are when it runs, in depth-first insertion order; needs only that no suite below it contains itself |
| TrunkRunner.Runner.RunItem | trunk/src/testboy.js:777-791 | a nested suite runs in full before the next item |
| TrunkRunner.Runner.Add | trunk/src/testboy.js:805-807 | appends the case or suite to the master suite; no other suite changes |
| TrunkRunner.Runner.Run | trunk/src/testboy.js:812-817 | onStart, every case the master suite reaches at run time in visit order, onFinish, with no reset; the count invariant holds |
| TrunkRunner.Testboy.constructor | trunk/src/testboy.js:1022-1037 | the default runner is empty, there is no standard case yet, and the counter is 0 |
| TrunkRunner.Testboy.CreateTestCase | trunk/src/testboy.js:1022-1026 | a fresh named case, appended to the default runner |
| TrunkRunner.Testboy.Test | trunk/src/testboy.js:1032-1037 | creates and adds "Standard Test Case" on first use, then adds the test to it as addTest does with the duplicate check as intended (Findings row 3) |
| TrunkRunner.Testboy.Run | trunk/src/testboy.js:1028-1030 | runs the default runner over every case its master suite reaches at run time |

## Left out

- User code is not modelled: test bodies, hooks, alias callbacks and the values passed to `throwsError` and similar. How each call completes comes from a host function. The host also decides calls of non-function values, which would throw a TypeError.
- The alias `testCase` callback is modelled only by the registrations it makes on the alias. Its other effects are user code.
- LegacyAlias.Alias.TestCase: a callback that throws is not modelled. In the code the standard case has then already been replaced by the new one, which is never added to the runner.
- LegacyAsserts.AssertError, LegacyAsserts.AssertNoError: every non-function `fun` is taken to throw when applied. An object that carries its own callable `apply` property is not modelled.
- Clock values are parameters or are dropped: `getCurrentTime`, `startTime`/`endTime`, `TestResult.timeStamp` and the date prefix of log lines.
- The DOM and console output are left out as I/O: `OutputTarget`, `HtmlConsole`, `browserConsole`, `parseHTML`/`writeHTML`, the CSS injection and `Mocks`. Logging is modelled as appending `(kind, text)` lines, gated by the enabled flag.
- `testboy.globalize` and `browser._init` are browser-bound and left out. The browser's name, version, support and mode are a parameter.
- `_extractFuncitonName`, `debug.printObject`, `HtmlConsole.dir` and `_getSortedObjectPropertyNameArray` are left out. They depend on `Function.prototype.toString` or only present data.
- `instanceof` is decided by the host.
- NaN and non-integer numbers are not modelled, so `===` on numbers is integer equality.
- Objects enumerate in insertion order. Integer-like keys and `__proto__` as a key are not modelled.
- A suite that contains itself, directly or further down, is not modelled: the run methods require the suites below the master suite to form no cycle, where the source would recurse without end. Adding items has no such requirement.
- Errors that are not AssertionErrors (a TypeError, a thrown string) are opaque values. Only their truthiness and their text matter to the engines.
- Non-string test and case names are converted to text, as a property key would be.
- Test code that mutates cases or suites while a run is in progress is not modelled. The runner reads every case and suite as it is when the run starts, including items added to a suite after it was nested.
- The older `test = _addTest` self-replacement is modelled by the `hasTests` flag, not by rebinding a method.
- The older alias `test`'s "No test case defined." error is not modelled. The standard case always exists, so it cannot happen.
- `getMasterSuite` is not modelled as a method. The master suite is a public constant field of the runner.
- The newer engine's `setup`/`teardown` are called on every test. Whether they are functions, and what they do, is up to the host.
- TrunkRunner.TestCase.Define: assigns only properties other than the engine's own `name`, `_tests`, `fixture` and `length`, and other than `hasOwnProperty`. Overwriting those through a plain assignment is not modelled. The scan calls `testCase.hasOwnProperty(testName)` outside the try (trunk/src/testboy.js:739-740), so an own `hasOwnProperty` that is not a function makes `run()` throw a TypeError before `onFinish`, and an own function there decides which properties run.
- TrunkRunner.Runner.RunRegistered: a test registered under the name `hasOwnProperty` is not modelled. The intended duplicate check accepts `addTest("hasOwnProperty", fn)`; the stored test then shadows `tests.hasOwnProperty`, which the loop calls outside the try (trunk/src/testboy.js:757). The model runs every registered key as usual.
- TrunkEngine.RunAccumulates and TrunkRunner.Runner.Run: the promise that `failures` keeps counting the failed results is stated for collectors that already kept it. Nothing else can reach a collector.

## Findings

| source | as written | input that shows it | evidently intended | confidence | as-written member | corrected member |
|---|---|---|---|---|---|---|
| src/testboy.js:748 | `logger.warning("Unsupported browser.")` calls a method the logger does not have (it has `warn`) | `run()` in a browser with `isSupported` false: a TypeError escapes after the reset, and no test runs | log a warning and run the tests | not executed | LegacyEngine.AsWrittenRun, LegacyEngine.UnsupportedBrowserStopsRun | LegacyEngine.RunSpec, LegacyRunner.Runner.LogPreamble, LegacyRunner.Runner.Run, LegacyAlias.Alias.Start, LegacyAlias.NothingToRun |
| trunk/src/testboy.js:941 | `if (!value instanceof ctor)` tests `(!value) instanceof ctor`, which is always false for a function `ctor` | `isInstanceOf(5, Object)` returns although 5 is no instance | `if (!(value instanceof ctor))` | not executed | TrunkAsserts.IsInstanceOfAsWritten, TrunkAsserts.IsInstanceOfNeverReports | TrunkAsserts.IsInstanceOf |
| trunk/src/testboy.js:191 | `if (this._tests[name])` also finds members `_tests` inherits from `Object.prototype` | `addTest("toString", fn)` on a fresh case throws "Test case already contains a test with the given name" | refuse only names registered in the case | not executed | TrunkRunner.DuplicateAsWritten, TrunkRunner.DuplicateCheckDiffers | TrunkRunner.Duplicate, TrunkRunner.TestCase.AddTest, TrunkRunner.Testboy.Test |
