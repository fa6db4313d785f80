/** What a run of the older engine does, as functions of the state before it: the counters of
    `TestResult`, the trace of calls into user code and the log. The classes in LegacyRunner are
    proved to follow these functions step by step. */
module LegacyEngine {
  import opened JsValues
  import opened JsObjects
  import opened Outcomes
  import opened LegacyAsserts

  /** How each call into user code completes, by call number. */
  type Host = nat -> Outcome<AssertionError>

  /** The four fields of a TestResult. */
  datatype Tally = Tally(testCount: int, errorCount: int, errors: seq<Value>, failures: seq<AssertionError>)

  /** A fresh TestResult. */
  const NewTally := Tally(0, 0, [], [])

  /** reset(): zeroes both counters and empties `errors`; `failures` is kept. */
  function Reset(t: Tally): Tally {
    t.(testCount := 0, errorCount := 0, errors := [])
  }

  /** addError(err): one more error. */
  function AddError(t: Tally, err: Value): Tally {
    t.(errors := t.errors + [err], errorCount := t.errorCount + 1)
  }

  /** addFailure(failure): one more failure; no counter moves. */
  function AddFailure(t: Tally, failure: AssertionError): Tally {
    t.(failures := t.failures + [failure])
  }

  /** incrementTestCount(). */
  function Counted(t: Tally): Tally {
    t.(testCount := t.testCount + 1)
  }

  /** isSuccessful(): no error counted (`!!!errorCount`); failures do not enter into it. */
  predicate IsSuccessful(t: Tally) {
    t.errorCount == 0
  }

  /** isFailed(): `!!errorCount`. */
  predicate IsFailed(t: Tally) {
    t.errorCount != 0
  }

  /** The invariant every TestResult keeps: `errorCount` counts the `errors` list. */
  predicate Consistent(t: Tally) {
    t.errorCount == |t.errors|
  }

  /** Everything a run changes: the counters, the calls made into user code, the log. */
  datatype EngineState = EngineState(tally: Tally, calls: seq<Call>, log: seq<LogEntry>)

  /** A test case as the runner reads it: its name, its tests in enumeration order and its four
      hooks (each any value; the runner calls a hook when it is truthy). */
  datatype CaseView = CaseView(name: string, tests: Entries, setUp: Value, tearDown: Value,
                               runBefore: Value, runAfter: Value)

  /** What a run has done so far, and the exception that escaped it, if one did. */
  datatype Progress = Progress(state: EngineState, escaped: Option<Thrown<AssertionError>>)

  /** The line `logger.log(kind, text)` hands to its targets when logging is enabled. */
  function Logged(enabled: bool, kind: string, text: string): seq<LogEntry> {
    if enabled then [LogEntry(kind, text)] else []
  }

  /** The try block of one test: set-up (when truthy), the test itself, tear-down (when truthy). */
  function TestSteps(c: CaseView, testName: string): (steps: seq<Call>)
    ensures Body(c.name, testName) in steps
    ensures TearDown(c.name, testName) in steps ==> steps[|steps| - 1] == TearDown(c.name, testName)
    ensures |steps| >= 1 && (steps[0] == SetUp(c.name, testName) || steps[0] == Body(c.name, testName))
  {
    (if Truthy(c.setUp) then [SetUp(c.name, testName)] else [])
    + [Body(c.name, testName)]
    + (if Truthy(c.tearDown) then [TearDown(c.name, testName)] else [])
  }

  /** The try block of one test, step by step: a throwing set-up stops it; otherwise the body runs,
      and the tear-down runs only after a body that returned. */
  lemma TryBlockSteps(c: CaseView, testName: string, host: Host, k: nat)
    ensures var a := RunSteps(TestSteps(c, testName), host, k);
      var s := if Truthy(c.setUp) then [SetUp(c.name, testName)] else [];
      var kb := k + |s|;
      if Truthy(c.setUp) && host(k).Throws? then a == Attempt(s, host(k))
      else if host(kb).Throws? || !Truthy(c.tearDown) then a == Attempt(s + [Body(c.name, testName)], host(kb))
      else a == Attempt(s + [Body(c.name, testName), TearDown(c.name, testName)], host(kb + 1))
  {
    if Truthy(c.setUp) {
      TryBlockWithSetUp(c, testName, host, k);
    } else {
      assert TestSteps(c, testName) == [Body(c.name, testName)] + TearDownStep(c, testName);
      FromBodyRuns(c, testName, host, k);
    }
  }

  lemma TryBlockWithSetUp(c: CaseView, testName: string, host: Host, k: nat)
    requires Truthy(c.setUp)
    ensures var a := RunSteps(TestSteps(c, testName), host, k);
      var s := [SetUp(c.name, testName)];
      if host(k).Throws? then a == Attempt(s, host(k))
      else if host(k + 1).Throws? || !Truthy(c.tearDown) then a == Attempt(s + [Body(c.name, testName)], host(k + 1))
      else a == Attempt(s + [Body(c.name, testName), TearDown(c.name, testName)], host(k + 2))
  {
    var s := [SetUp(c.name, testName)];
    var rest := [Body(c.name, testName)] + TearDownStep(c, testName);
    assert TestSteps(c, testName) == s + rest;
    RunStepsCons(SetUp(c.name, testName), rest, host, k);
    FromBodyRuns(c, testName, host, k + 1);
  }

  /** The tear-down step of a test, present when the hook is truthy. */
  function TearDownStep(c: CaseView, testName: string): seq<Call> {
    if Truthy(c.tearDown) then [TearDown(c.name, testName)] else []
  }

  /** The try block from the body on, with the body as call number `kb`. */
  lemma FromBodyRuns(c: CaseView, testName: string, host: Host, kb: nat)
    ensures var a := RunSteps([Body(c.name, testName)] + TearDownStep(c, testName), host, kb);
      if host(kb).Throws? || !Truthy(c.tearDown) then a == Attempt([Body(c.name, testName)], host(kb))
      else a == Attempt([Body(c.name, testName), TearDown(c.name, testName)], host(kb + 1))
  {
    var body := Body(c.name, testName);
    var tail := TearDownStep(c, testName);
    RunStepsCons(body, tail, host, kb);
    if Truthy(c.tearDown) && host(kb).Returns? {
      RunStepsCons(TearDown(c.name, testName), [], host, kb + 1);
      assert [TearDown(c.name, testName)] + [] == tail;
      if host(kb + 1).Returns? {
        assert host(kb + 1) == Returns;
      }
    } else if host(kb).Returns? {
      assert host(kb) == Returns;
    }
  }

  /** The text `[...].join("")` gives a thrown value in the log: an AssertionError's toString(),
      any other value as `join` renders it. */
  function ThrownText(t: Thrown<AssertionError>): string {
    match t
    case ThrownAssertion(e) => e.ToString()
    case ThrownValue(v) => JoinText(v)
  }

  /** The tally after a test with outcome `o` has been classified and counted. */
  function Classified(t: Tally, o: Outcome<AssertionError>): Tally {
    match o
    case Returns => Counted(t)
    case Throws(ThrownAssertion(e)) => Counted(AddFailure(t, e))
    case Throws(ThrownValue(v)) => Counted(AddError(t, v))
  }

  /** The log line for a test with outcome `o`. */
  function Reported(testName: string, o: Outcome<AssertionError>, enabled: bool): seq<LogEntry> {
    match o
    case Returns => Logged(enabled, "fine", "Test \"" + testName + "\" passed.")
    case Throws(ThrownAssertion(_)) =>
      Logged(enabled, "error", "Test \"" + testName + "\" failed.\n" + ThrownText(o.thrown))
    case Throws(ThrownValue(_)) =>
      Logged(enabled, "error", "Error during test \"" + testName + "\"\n" + ThrownText(o.thrown))
  }

  /** One turn of `_runTestCase`'s for-in loop: the try block, its catch, and the count. */
  function RecordTest(c: CaseView, testName: string, st: EngineState, host: Host, enabled: bool): EngineState {
    var a := RunSteps(TestSteps(c, testName), host, |st.calls|);
    EngineState(Classified(st.tally, a.outcome), st.calls + a.executed,
                st.log + Reported(testName, a.outcome, enabled))
  }

  /** The for-in loop of `_runTestCase` over the names `names`. */
  function RunTests(c: CaseView, names: seq<string>, st: EngineState, host: Host, enabled: bool): EngineState
    decreases |names|
  {
    if names == [] then st
    else RecordTest(c, names[|names| - 1], RunTests(c, names[..|names| - 1], st, host, enabled), host, enabled)
  }

  /** A case-level hook call outside any try: when the hook is truthy it is called, and a throw
      escapes. */
  function RunHook(hook: Value, call: Call, st: EngineState, host: Host): Progress {
    if !Truthy(hook) then Progress(st, None)
    else
      var o := host(|st.calls|);
      Progress(st.(calls := st.calls + [call]), if o.Throws? then Some(o.thrown) else None)
  }

  /** The line `_runTestCase` logs first. */
  function CaseBanner(name: string): string {
    "Running test case \"" + name + "\"."
  }

  /** `_runTestCase(tc)`: banner, runBefore, every test, runAfter. */
  function RunCase(c: CaseView, st: EngineState, host: Host, enabled: bool): Progress {
    var st1 := st.(log := st.log + Logged(enabled, "info", CaseBanner(c.name)));
    var before := RunHook(c.runBefore, RunBefore(c.name), st1, host);
    if before.escaped.Some? then before
    else
      var st2 := RunTests(c, Keys(c.tests), before.state, host, enabled);
      RunHook(c.runAfter, RunAfter(c.name), st2, host)
  }

  /** The cases run one after another; an exception escaping a case ends the run there. */
  function RunCases(cs: seq<CaseView>, st: EngineState, host: Host, enabled: bool): Progress
    decreases |cs|
  {
    if cs == [] then Progress(st, None)
    else
      var p := RunCases(cs[..|cs| - 1], st, host, enabled);
      if p.escaped.Some? then p else RunCase(cs[|cs| - 1], p.state, host, enabled)
  }

  /** What `testboy.browser` reports. */
  datatype Browser = Browser(isSupported: bool, name: string, version: string, isInStrictMode: bool)

  /** The log lines `run` writes before the tests: where it runs, the page mode, "Started". An
      unsupported browser gets a warning. */
  function Preamble(b: Browser, enabled: bool): seq<LogEntry> {
    (if b.isSupported
     then Logged(enabled, "info", "Running in brwoser: " + b.name) + Logged(enabled, "info", "Browser version: " + b.version)
     else Logged(enabled, "warn", "Unsupported browser."))
    + Logged(enabled, "info", "The page is processed in " + (if b.isInStrictMode then "the strict mode" else "the quirks mode"))
    + Logged(enabled, "info", "Started")
  }

  /** The preamble as the source writes it: the unsupported branch calls `logger.warning`, which
      the logger does not define, so that call throws a TypeError before any line is written. */
  function AsWrittenPreamble(b: Browser, enabled: bool): (r: Option<seq<LogEntry>>)
    ensures r.None? <==> !b.isSupported
    ensures r.Some? ==> r.value == Preamble(b, enabled)
  {
    if b.isSupported then Some(Preamble(b, enabled)) else None
  }

  /** The last line of a run: the counts, then the verdict. */
  function Summary(t: Tally): string {
    "Done\nTests run: " + IntToString(t.testCount) + "; Failures: " + IntToString(|t.failures|)
    + "; Errors: " + IntToString(t.errorCount) + "; \n"
    + (if IsSuccessful(t) then "TEST SUCCESSFUL" else "TEST FAILED")
  }

  /** `Runner.run()` with the unsupported-browser warning logged as intended: reset, preamble,
      the cases in visit order, and the summary when nothing escaped. */
  function RunSpec(cs: seq<CaseView>, b: Browser, st: EngineState, host: Host, enabled: bool): Progress {
    var st1 := EngineState(Reset(st.tally), st.calls, st.log + Preamble(b, enabled));
    var p := RunCases(cs, st1, host, enabled);
    if p.escaped.Some? then p
    else Progress(p.state.(log := p.state.log + Logged(enabled, "info", Summary(p.state.tally))), None)
  }

  /** `Runner.run()` as written: for an unsupported browser the TypeError of `logger.warning`
      escapes right after the reset, before any line is logged or any test runs. */
  function AsWrittenRun(cs: seq<CaseView>, b: Browser, st: EngineState, host: Host, enabled: bool): Progress {
    match AsWrittenPreamble(b, enabled)
    case None => Progress(EngineState(Reset(st.tally), st.calls, st.log), Some(ThrownValue(TypeError)))
    case Some(_) => RunSpec(cs, b, st, host, enabled)
  }

  // ----- properties of a single test -----

  /** Counting and classification: every test is counted exactly once; an AssertionError is
      appended to `failures` and leaves the errors alone; any other thrown value is appended to
      `errors` and counted in `errorCount`; a passing test changes nothing else. */
  lemma RecordTestClassifies(c: CaseView, testName: string, st: EngineState, host: Host, enabled: bool)
    ensures var r := RecordTest(c, testName, st, host, enabled);
      var o := RunSteps(TestSteps(c, testName), host, |st.calls|).outcome;
      && r.tally.testCount == st.tally.testCount + 1
      && (o.Returns? ==> r.tally == st.tally.(testCount := st.tally.testCount + 1))
      && (o.Throws? && o.thrown.ThrownAssertion? ==>
            && r.tally.failures == st.tally.failures + [o.thrown.error]
            && r.tally.errors == st.tally.errors && r.tally.errorCount == st.tally.errorCount)
      && (o.Throws? && o.thrown.ThrownValue? ==>
            && r.tally.errors == st.tally.errors + [o.thrown.value]
            && r.tally.errorCount == st.tally.errorCount + 1 && r.tally.failures == st.tally.failures)
  {
  }

  /** Bracketing: a test's tear-down runs only when its set-up and its body both returned. */
  lemma TearDownOnlyAfterCleanSteps(c: CaseView, testName: string, st: EngineState, host: Host, enabled: bool)
    requires Truthy(c.tearDown)
    ensures var k := |st.calls|; var n := |TestSteps(c, testName)| - 1;
      TearDown(c.name, testName) in RecordTest(c, testName, st, host, enabled).calls[k..]
      <==> forall j :: k <= j < k + n ==> host(j).Returns?
  {
    var steps := TestSteps(c, testName);
    var k := |st.calls|;
    var i := |steps| - 1;
    assert steps[i] == TearDown(c.name, testName);
    StepRunsOnlyAfterReturns(steps, host, k, i);
    var r := RecordTest(c, testName, st, host, enabled);
    assert r.calls[k..] == RunSteps(steps, host, k).executed;
  }

  // ----- properties of a case's loop -----

  /** One count per test: the loop adds exactly the number of tests to `testCount`. */
  lemma {:induction false} RunTestsCountsEveryTest(c: CaseView, names: seq<string>, st: EngineState, host: Host, enabled: bool)
    ensures RunTests(c, names, st, host, enabled).tally.testCount == st.tally.testCount + |names|
    decreases |names|
  {
    if names != [] {
      RunTestsCountsEveryTest(c, names[..|names| - 1], st, host, enabled);
    }
  }

  /** The loop only appends: earlier calls, log lines, errors and failures stay as they were. */
  lemma {:induction false} RunTestsExtends(c: CaseView, names: seq<string>, st: EngineState, host: Host, enabled: bool)
    ensures var r := RunTests(c, names, st, host, enabled);
      && |st.calls| <= |r.calls| && r.calls[..|st.calls|] == st.calls
      && |st.tally.failures| <= |r.tally.failures| && r.tally.failures[..|st.tally.failures|] == st.tally.failures
      && |st.tally.errors| <= |r.tally.errors| && r.tally.errors[..|st.tally.errors|] == st.tally.errors
    decreases |names|
  {
    if names != [] {
      RunTestsExtends(c, names[..|names| - 1], st, host, enabled);
    }
  }

  /** One turn of the loop keeps the calls made so far and makes the test's first call next. */
  lemma RecordTestStartsTest(c: CaseView, testName: string, st: EngineState, host: Host, enabled: bool)
    ensures var r := RecordTest(c, testName, st, host, enabled);
      && |st.calls| < |r.calls| && r.calls[..|st.calls|] == st.calls
      && r.calls[|st.calls|] == TestSteps(c, testName)[0]
  {
    var a := RunSteps(TestSteps(c, testName), host, |st.calls|);
    assert a.executed[0] == TestSteps(c, testName)[0];
  }

  /** A throwing test never stops the loop: every test of the case makes its first call, among
      the calls this loop makes (whatever ran before it). */
  lemma {:induction false} EveryTestIsAttempted(c: CaseView, names: seq<string>, st: EngineState, host: Host, enabled: bool)
    ensures var r := RunTests(c, names, st, host, enabled);
      && |st.calls| <= |r.calls|
      && forall i :: 0 <= i < |names| ==> TestSteps(c, names[i])[0] in r.calls[|st.calls|..]
    decreases |names|
  {
    if names != [] {
      var init := names[..|names| - 1];
      var last := names[|names| - 1];
      EveryTestIsAttempted(c, init, st, host, enabled);
      var mid := RunTests(c, init, st, host, enabled);
      var r := RunTests(c, names, st, host, enabled);
      assert r == RecordTest(c, last, mid, host, enabled);
      RecordTestStartsTest(c, last, mid, host, enabled);
      // what the earlier tests called is still there, and the last test's first call follows it
      assert mid.calls[|st.calls|..] == r.calls[|st.calls|..|mid.calls|];
      assert r.calls[|st.calls|..][|mid.calls| - |st.calls|] == TestSteps(c, last)[0];
      forall i | 0 <= i < |names|
        ensures TestSteps(c, names[i])[0] in r.calls[|st.calls|..]
      {
        if i < |names| - 1 {
          assert names[i] == init[i];
        }
      }
    }
  }

  /** `errorCount == errors.length` survives the loop. */
  lemma {:induction false} RunTestsKeepsConsistent(c: CaseView, names: seq<string>, st: EngineState, host: Host, enabled: bool)
    requires Consistent(st.tally)
    ensures Consistent(RunTests(c, names, st, host, enabled).tally)
    decreases |names|
  {
    if names != [] {
      RunTestsKeepsConsistent(c, names[..|names| - 1], st, host, enabled);
    }
  }

  /** Whether the host never throws anything but AssertionErrors. */
  ghost predicate OnlyAssertionsThrown(host: Host) {
    forall j :: host(j).Throws? ==> host(j).thrown.ThrownAssertion?
  }

  /** A test that can only throw AssertionErrors leaves `errorCount` alone. */
  lemma RecordTestWithOnlyFailures(c: CaseView, testName: string, st: EngineState, host: Host, enabled: bool)
    requires OnlyAssertionsThrown(host)
    ensures RecordTest(c, testName, st, host, enabled).tally.errorCount == st.tally.errorCount
  {
    var a := RunSteps(TestSteps(c, testName), host, |st.calls|);
    RunStepsStopsAtFirstThrow(TestSteps(c, testName), host, |st.calls|);
    if a.outcome.Throws? {
      var j := |st.calls| + |a.executed| - 1;
      assert a.outcome == host(j);
    }
  }

  /** Assertion failures alone never move `errorCount`. */
  lemma {:induction false} RunTestsWithOnlyFailures(c: CaseView, names: seq<string>, st: EngineState, host: Host, enabled: bool)
    requires OnlyAssertionsThrown(host)
    ensures RunTests(c, names, st, host, enabled).tally.errorCount == st.tally.errorCount
    decreases |names|
  {
    if names != [] {
      var mid := RunTests(c, names[..|names| - 1], st, host, enabled);
      RunTestsWithOnlyFailures(c, names[..|names| - 1], st, host, enabled);
      RecordTestWithOnlyFailures(c, names[|names| - 1], mid, host, enabled);
    }
  }

  // ----- properties of a case and of the run -----

  /** A throw from runBefore escapes the case before any test runs. */
  lemma RunBeforeThrowEscapes(c: CaseView, st: EngineState, host: Host, enabled: bool)
    requires Truthy(c.runBefore) && host(|st.calls|).Throws?
    ensures var p := RunCase(c, st, host, enabled);
      p.escaped == Some(host(|st.calls|).thrown) && p.state.tally == st.tally
      && p.state.calls == st.calls + [RunBefore(c.name)]
  {
  }

  /** The state after a case's banner and its runBefore hook. */
  function BeforeTests(c: CaseView, st: EngineState, host: Host, enabled: bool): Progress {
    RunHook(c.runBefore, RunBefore(c.name), st.(log := st.log + Logged(enabled, "info", CaseBanner(c.name))), host)
  }

  /** A case that completes ran its tests between its two hooks. */
  lemma CaseUnfolds(c: CaseView, st: EngineState, host: Host, enabled: bool)
    requires RunCase(c, st, host, enabled).escaped.None?
    ensures BeforeTests(c, st, host, enabled).escaped.None?
    ensures RunCase(c, st, host, enabled)
         == RunHook(c.runAfter, RunAfter(c.name), RunTests(c, Keys(c.tests), BeforeTests(c, st, host, enabled).state, host, enabled), host)
  {
  }

  /** Hook bracketing: when a case completes, its calls start with runBefore (when truthy), end
      with runAfter (when truthy), and every test of the case is counted in between. */
  lemma CaseBracketing(c: CaseView, st: EngineState, host: Host, enabled: bool)
    requires RunCase(c, st, host, enabled).escaped.None?
    ensures var calls := RunCase(c, st, host, enabled).state.calls;
      && |st.calls| <= |calls| && calls[..|st.calls|] == st.calls
      && (Truthy(c.runBefore) ==> |st.calls| < |calls| && calls[|st.calls|] == RunBefore(c.name))
      && (Truthy(c.runAfter) ==> calls[|calls| - 1] == RunAfter(c.name))
      && RunCase(c, st, host, enabled).state.tally.testCount == st.tally.testCount + |c.tests|
  {
    CaseUnfolds(c, st, host, enabled);
    var before := BeforeTests(c, st, host, enabled).state;
    RunTestsExtends(c, Keys(c.tests), before, host, enabled);
    RunTestsCountsEveryTest(c, Keys(c.tests), before, host, enabled);
    var st2 := RunTests(c, Keys(c.tests), before, host, enabled);
    assert before.calls[..|st.calls|] == st.calls;
    assert st2.calls[..|st.calls|] == st.calls;
    if Truthy(c.runBefore) {
      assert st2.calls[|st.calls|] == before.calls[|st.calls|];
    }
  }

  /** A case in which only AssertionErrors are thrown leaves `errorCount` alone. */
  lemma RunCaseWithOnlyFailures(c: CaseView, st: EngineState, host: Host, enabled: bool)
    requires OnlyAssertionsThrown(host)
    ensures RunCase(c, st, host, enabled).state.tally.errorCount == st.tally.errorCount
  {
    var before := BeforeTests(c, st, host, enabled);
    if before.escaped.None? {
      RunTestsWithOnlyFailures(c, Keys(c.tests), before.state, host, enabled);
    }
  }

  /** Running `xs + ys` is running `xs`, then, unless something escaped, `ys` from where `xs`
      left off: the cases of a nested suite run as one block in their parent's order. */
  lemma {:induction false} RunCasesAppend(xs: seq<CaseView>, ys: seq<CaseView>, st: EngineState, host: Host, enabled: bool)
    ensures var p := RunCases(xs, st, host, enabled);
      RunCases(xs + ys, st, host, enabled) == if p.escaped.Some? then p else RunCases(ys, p.state, host, enabled)
    decreases |ys|
  {
    if ys == [] {
      assert xs + ys == xs;
    } else {
      var init := ys[..|ys| - 1];
      assert (xs + ys)[..|xs + ys| - 1] == xs + init;
      RunCasesAppend(xs, init, st, host, enabled);
    }
  }

  /** An escape is final: once a case lets an exception out, no later case runs. */
  lemma {:induction false} EscapeStopsRun(cs: seq<CaseView>, st: EngineState, host: Host, enabled: bool, i: nat)
    requires i < |cs| && RunCases(cs[..i + 1], st, host, enabled).escaped.Some?
    ensures RunCases(cs, st, host, enabled) == RunCases(cs[..i + 1], st, host, enabled)
    decreases |cs|
  {
    if |cs| > i + 1 {
      var init := cs[..|cs| - 1];
      assert init[..i + 1] == cs[..i + 1];
      EscapeStopsRun(init, st, host, enabled, i);
    } else {
      assert cs[..i + 1] == cs;
    }
  }

  /** A case only appends to the log, starting with its banner. */
  lemma CaseLogExtends(c: CaseView, st: EngineState, host: Host)
    ensures var log := RunCase(c, st, host, true).state.log;
      |st.log| < |log| && log[..|st.log|] == st.log && log[|st.log|] == LogEntry("info", CaseBanner(c.name))
  {
    var st1 := st.(log := st.log + [LogEntry("info", CaseBanner(c.name))]);
    assert st1.log[..|st.log|] == st.log;
    var before := RunHook(c.runBefore, RunBefore(c.name), st1, host);
    assert before.state.log == st1.log;
    if before.escaped.None? {
      var st2 := RunTests(c, Keys(c.tests), before.state, host, true);
      RunTestsLogExtends(c, Keys(c.tests), before.state, host);
      PrefixOfPrefix(st2.log, st1.log, st.log);
    }
  }

  /** A prefix of a prefix is a prefix, and the element after it is kept. */
  lemma PrefixOfPrefix<T>(a: seq<T>, b: seq<T>, c: seq<T>)
    requires |b| <= |a| && a[..|b|] == b
    requires |c| < |b| && b[..|c|] == c
    ensures a[..|c|] == c && a[|c|] == b[|c|]
  {
    assert a[..|c|] == a[..|b|][..|c|];
  }

  lemma {:induction false} RunTestsLogExtends(c: CaseView, names: seq<string>, st: EngineState, host: Host)
    ensures var log := RunTests(c, names, st, host, true).log; |st.log| <= |log| && log[..|st.log|] == st.log
    decreases |names|
  {
    if names != [] {
      RunTestsLogExtends(c, names[..|names| - 1], st, host);
    }
  }

  lemma {:induction false} RunCasesLogExtends(cs: seq<CaseView>, st: EngineState, host: Host)
    ensures var log := RunCases(cs, st, host, true).state.log; |st.log| <= |log| && log[..|st.log|] == st.log
    decreases |cs|
  {
    if cs != [] {
      RunCasesLogExtends(cs[..|cs| - 1], st, host);
      var p := RunCases(cs[..|cs| - 1], st, host, true);
      if p.escaped.None? {
        CaseLogExtends(cs[|cs| - 1], p.state, host);
      }
    }
  }

  /** Runs in which nothing but AssertionErrors is thrown keep `errorCount` where it was. */
  lemma {:induction false} RunCasesWithOnlyFailures(cs: seq<CaseView>, st: EngineState, host: Host, enabled: bool)
    requires OnlyAssertionsThrown(host)
    ensures RunCases(cs, st, host, enabled).state.tally.errorCount == st.tally.errorCount
    decreases |cs|
  {
    if cs != [] {
      RunCasesWithOnlyFailures(cs[..|cs| - 1], st, host, enabled);
      var p := RunCases(cs[..|cs| - 1], st, host, enabled);
      if p.escaped.None? {
        RunCaseWithOnlyFailures(cs[|cs| - 1], p.state, host, enabled);
      }
    }
  }

  /** Verdict: a completed run whose only problems are AssertionErrors ends with
      "TEST SUCCESSFUL", however many tests failed. */
  lemma OnlyFailuresStillSucceed(cs: seq<CaseView>, b: Browser, st: EngineState, host: Host, enabled: bool)
    requires OnlyAssertionsThrown(host)
    requires RunSpec(cs, b, st, host, enabled).escaped.None?
    ensures var p := RunSpec(cs, b, st, host, enabled);
      IsSuccessful(p.state.tally) && EndsWith(Summary(p.state.tally), "TEST SUCCESSFUL")
      && (enabled ==> p.state.log[|p.state.log| - 1] == LogEntry("info", Summary(p.state.tally)))
  {
    var st1 := EngineState(Reset(st.tally), st.calls, st.log + Preamble(b, enabled));
    RunCasesWithOnlyFailures(cs, st1, host, enabled);
    VerdictIsErrorCount(RunSpec(cs, b, st, host, enabled).state.tally);
  }

  /** Reset: the counters and errors go, but failures collected by earlier runs stay. */
  lemma ResetKeepsFailures(t: Tally)
    ensures var r := Reset(t); r.testCount == 0 && r.errorCount == 0 && r.errors == [] && r.failures == t.failures
    ensures Consistent(Reset(t))
  {
  }

  /** The verdict is exactly `errorCount == 0`, and isFailed is its negation. */
  lemma VerdictIsErrorCount(t: Tally)
    ensures IsSuccessful(t) <==> t.errorCount == 0
    ensures IsFailed(t) <==> !IsSuccessful(t)
    ensures t.errorCount == 0 ==> EndsWith(Summary(t), "TEST SUCCESSFUL")
    ensures t.errorCount != 0 ==> EndsWith(Summary(t), "TEST FAILED")
  {
    var head := "Done\nTests run: " + IntToString(t.testCount) + "; Failures: " + IntToString(|t.failures|)
      + "; Errors: " + IntToString(t.errorCount) + "; \n";
    var verdict := if IsSuccessful(t) then "TEST SUCCESSFUL" else "TEST FAILED";
    assert Summary(t) == head + verdict;
    assert (head + verdict)[|head|..] == verdict;
  }

  /** `s` ends with `suffix`. */
  predicate EndsWith(s: string, suffix: string) {
    |suffix| <= |s| && s[|s| - |suffix|..] == suffix
  }

  /** As written, an unsupported browser stops the run after the reset: no test is counted and
      no call is made. As intended, it logs a warning and runs every test. */
  lemma UnsupportedBrowserStopsRun(cs: seq<CaseView>, b: Browser, st: EngineState, host: Host, enabled: bool)
    requires !b.isSupported
    ensures AsWrittenRun(cs, b, st, host, enabled)
      == Progress(EngineState(Reset(st.tally), st.calls, st.log), Some(ThrownValue(TypeError)))
    ensures enabled ==> LogEntry("warn", "Unsupported browser.") in RunSpec(cs, b, st, host, enabled).state.log
  {
    if enabled {
      var st1 := EngineState(Reset(st.tally), st.calls, st.log + Preamble(b, enabled));
      RunCasesLogExtends(cs, st1, host);
      var p := RunCases(cs, st1, host, enabled);
      assert st1.log[|st.log|] == LogEntry("warn", "Unsupported browser.");
      assert p.state.log[|st.log|] == st1.log[|st.log|];
    }
  }
}
