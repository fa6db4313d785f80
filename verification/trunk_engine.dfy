/** What a run of the newer engine does, as functions of the state before it: the
    ResultCollector's fields, the trace of calls into user code, and the log. The classes in
    TrunkRunner are proved to follow these functions step by step. */
module TrunkEngine {
  import opened JsValues
  import opened JsObjects
  import opened Outcomes
  import opened TrunkAsserts

  /** How each call into user code completes, by call number. */
  type Host = nat -> Outcome<AssertionError>

  /** One test's record: the case it ran in, its name, whether it passed, and the error it failed
      with (`null`, here None, when none was given or the thrown value was falsy). */
  datatype TestResult = TestResult(testCaseName: string, testName: string, isPassed: bool,
                                   isFailed: bool, error: Option<Thrown<AssertionError>>)

  /** `new TestResult(testCaseName, testName, passed, errorObject)`, without its clock field. */
  function NewResult(testCaseName: string, testName: string, passed: bool, err: Option<Thrown<AssertionError>>): (r: TestResult)
    ensures r.testCaseName == testCaseName && r.testName == testName
    ensures r.isPassed == passed && r.isFailed == !passed
    ensures r.error.Some? <==> err.Some? && ThrownTruthy(err.value)
    ensures r.error.Some? ==> r.error == err
  {
    TestResult(testCaseName, testName, passed, !passed,
               if err.Some? && ThrownTruthy(err.value) then err else None)
  }

  /** The fields of a ResultCollector, and the lines it has logged. */
  datatype Collector = Collector(startTime: int, endTime: int, results: seq<TestResult>,
                                 failures: int, currentCase: string, logging: bool, log: seq<LogEntry>)

  /** `new ResultCollector()`: no result, no failure, logging on. */
  const NewCollector := Collector(0, 0, [], 0, "", true, [])

  /** `_log(type, message)`: one line when logging is enabled (the clock prefix is not modelled). */
  function Logged(c: Collector, kind: string, text: string): Collector {
    if c.logging then c.(log := c.log + [LogEntry(kind, text)]) else c
  }

  /** How `[..., error].join('')` renders a result's error: `null` as nothing. */
  function ErrorShown(e: Option<Thrown<AssertionError>>): string {
    if e.None? then "" else ErrorText(e.value)
  }

  /** `_addResult(r)`: appends the result and logs it. */
  function AddResult(c: Collector, r: TestResult): Collector {
    var withResult := c.(results := c.results + [r]);
    if r.isPassed then Logged(withResult, "fine", "Test \"" + r.testName + "\" passed.")
    else Logged(withResult, "error", "Test \"" + r.testName + "\" failed.\n" + ErrorShown(r.error))
  }

  /** isFailed(): some test failed. */
  predicate IsFailed(c: Collector) {
    c.failures > 0
  }

  /** The verdict line `_logSummary` logs. */
  function Summary(c: Collector): string {
    (if !IsFailed(c) then "SUITE SUCCESSFULL" else "SUITE FAILED") + Counters(c)
  }

  /** The counters line of the summary. */
  function Counters(c: Collector): string {
    "\nTests run: " + IntToString(|c.results|) + ", failed: " + IntToString(c.failures)
  }

  /** resetState(): forgets every result and failure and both times. */
  function ResetState(c: Collector): Collector {
    c.(startTime := 0, endTime := 0, results := [], failures := 0)
  }

  /** onStart() at time `now`. */
  function OnStart(c: Collector, now: int): Collector {
    Logged(c.(startTime := now), "info", "Started")
  }

  /** onFinish() at time `now`: the summary, then "Done". */
  function OnFinish(c: Collector, now: int): Collector {
    var c1 := c.(endTime := now);
    Logged(Logged(c1, "info", Summary(c1)), "info", "Done")
  }

  /** onTestCaseStarted(name). */
  function OnTestCaseStarted(c: Collector, name: string): Collector {
    Logged(c.(currentCase := name), "info", "Running test case \"" + name + "\"")
  }

  /** onTestPassed(testName). */
  function OnTestPassed(c: Collector, testName: string): Collector {
    AddResult(c, NewResult(c.currentCase, testName, true, None))
  }

  /** onTestFailed(testName, err): the result, then one more failure. */
  function OnTestFailed(c: Collector, testName: string, err: Thrown<AssertionError>): Collector {
    var c1 := AddResult(c, NewResult(c.currentCase, testName, false, Some(err)));
    c1.(failures := c1.failures + 1)
  }

  /** The number of failed results. */
  function CountFailed(rs: seq<TestResult>): nat {
    if rs == [] then 0 else CountFailed(rs[..|rs| - 1]) + (if rs[|rs| - 1].isFailed then 1 else 0)
  }

  /** The invariant every collector keeps: `failures` counts the failed results. */
  predicate Counts(c: Collector) {
    c.failures == CountFailed(c.results)
  }

  lemma CountFailedSnoc(rs: seq<TestResult>, r: TestResult)
    ensures CountFailed(rs + [r]) == CountFailed(rs) + (if r.isFailed then 1 else 0)
  {
    assert (rs + [r])[..|rs|] == rs;
  }

  /** Collector bookkeeping: each of onTestPassed and onTestFailed appends exactly one result,
      attributed to the current case; only onTestFailed counts a failure; both keep `failures`
      equal to the number of failed results. */
  lemma OutcomeEventsKeepCount(c: Collector, testName: string, err: Thrown<AssertionError>)
    requires Counts(c)
    ensures var p := OnTestPassed(c, testName);
      && p.results == c.results + [NewResult(c.currentCase, testName, true, None)]
      && p.failures == c.failures && Counts(p)
    ensures var f := OnTestFailed(c, testName, err);
      && f.results == c.results + [NewResult(c.currentCase, testName, false, Some(err))]
      && f.failures == c.failures + 1 && Counts(f)
  {
    CountFailedSnoc(c.results, NewResult(c.currentCase, testName, true, None));
    CountFailedSnoc(c.results, NewResult(c.currentCase, testName, false, Some(err)));
  }

  /** The verdict: in a collector that keeps its count, the summary starts with
      "SUITE SUCCESSFULL" exactly when no result failed, and with "SUITE FAILED" exactly when
      one did. */
  lemma SummaryVerdict(c: Collector)
    requires Counts(c)
    ensures HasPrefix(Summary(c), "SUITE SUCCESSFULL") <==> forall i :: 0 <= i < |c.results| ==> !c.results[i].isFailed
    ensures HasPrefix(Summary(c), "SUITE FAILED") <==> exists i :: 0 <= i < |c.results| && c.results[i].isFailed
  {
    CountFailedPositive(c.results);
    var s := Summary(c);
    if IsFailed(c) {
      assert s == "SUITE FAILED" + Counters(c);
      assert s[..12] == "SUITE FAILED";
      assert s[6] == 'F' && "SUITE SUCCESSFULL"[6] == 'S';
    } else {
      assert s == "SUITE SUCCESSFULL" + Counters(c);
      assert s[..17] == "SUITE SUCCESSFULL";
      assert s[6] == 'S' && "SUITE FAILED"[6] == 'F';
    }
  }

  /** Some result failed exactly when the count of failed results is positive. */
  lemma {:induction false} CountFailedPositive(rs: seq<TestResult>)
    ensures CountFailed(rs) > 0 <==> exists i :: 0 <= i < |rs| && rs[i].isFailed
    decreases |rs|
  {
    if rs != [] {
      var init := rs[..|rs| - 1];
      CountFailedPositive(init);
      if exists i :: 0 <= i < |init| && init[i].isFailed {
        var i :| 0 <= i < |init| && init[i].isFailed;
        assert rs[i] == init[i];
      }
      if exists i :: 0 <= i < |rs| && rs[i].isFailed {
        var i :| 0 <= i < |rs| && rs[i].isFailed;
        if i < |init| {
          assert init[i] == rs[i];
        }
      }
    }
  }

  /** resetState() leaves a collector with nothing to report. */
  lemma ResetForgetsResults(c: Collector)
    ensures var r := ResetState(c); Counts(r) && !IsFailed(r) && r.results == []
    ensures Summary(ResetState(c)) == "SUITE SUCCESSFULL\nTests run: 0, failed: 0"
  {
  }

  /** Everything a run changes: the collector and the calls made into user code. */
  datatype EngineState = EngineState(rc: Collector, calls: seq<Call>)

  /** A test case as the runner reads it: its name, its registered tests, its `length`, and the
      other own properties code assigned to it (in insertion order). */
  datatype CaseView = CaseView(name: string, tests: Entries, length: int, props: Entries)

  /** The tests `_runTestCase` runs: the registered ones, or when `length` is 0, the case's own
      properties whose name starts with "test". */
  function TestsToRun(c: CaseView): (ts: Entries)
    ensures c.length != 0 ==> ts == c.tests
    ensures c.length == 0 ==> forall x :: x in ts <==> x in c.props && HasPrefix(x.0, "test")
  {
    if c.length == 0 then WithPrefix(c.props, "test") else c.tests
  }

  /** The try block of one test: set-up, the test, tear-down, always all three. */
  function TestSteps(c: CaseView, testName: string): seq<Call> {
    [SetUp(c.name, testName), Body(c.name, testName), TearDown(c.name, testName)]
  }

  /** The try block step by step: the tear-down runs only after a set-up and a body that both
      returned; the block returns only if all three did. */
  lemma TryBlockSteps(c: CaseView, testName: string, host: Host, k: nat)
    ensures var a := RunSteps(TestSteps(c, testName), host, k);
      if host(k).Throws? then a == Attempt([SetUp(c.name, testName)], host(k))
      else if host(k + 1).Throws? then a == Attempt([SetUp(c.name, testName), Body(c.name, testName)], host(k + 1))
      else a == Attempt(TestSteps(c, testName), host(k + 2))
  {
    var s := SetUp(c.name, testName);
    var b := Body(c.name, testName);
    var t := TearDown(c.name, testName);
    var last := RunSteps([t], host, k + 2);
    assert last == Attempt([t], host(k + 2)) by {
      RunStepsCons(t, [], host, k + 2);
      assert [t] + [] == [t];
    }
    var tail := RunSteps([b, t], host, k + 1);
    assert tail == if host(k + 1).Throws? then Attempt([b], host(k + 1)) else Attempt([b, t], host(k + 2)) by {
      RunStepsCons(b, [t], host, k + 1);
      assert [b] + [t] == [b, t];
    }
    assert RunSteps([s, b, t], host, k) == if host(k).Throws? then Attempt([s], host(k)) else Attempt([s] + tail.executed, tail.outcome) by {
      RunStepsCons(s, [b, t], host, k);
      assert [s] + [b, t] == [s, b, t];
    }
  }

  /** One turn of a test loop in `_runTestCase`: the try block, then onTestPassed, or
      onTestFailed with what was thrown. */
  function RecordTest(c: CaseView, testName: string, st: EngineState, host: Host): EngineState {
    var a := RunSteps(TestSteps(c, testName), host, |st.calls|);
    var rc := if a.outcome.Returns? then OnTestPassed(st.rc, testName)
              else OnTestFailed(st.rc, testName, a.outcome.thrown);
    EngineState(rc, st.calls + a.executed)
  }

  /** The test loop over the names `names`. */
  function RunTests(c: CaseView, names: seq<string>, st: EngineState, host: Host): EngineState
    decreases |names|
  {
    if names == [] then st
    else RecordTest(c, names[|names| - 1], RunTests(c, names[..|names| - 1], st, host), host)
  }

  /** One more name in the test loop is one more test after the others. */
  lemma RunTestsSnoc(c: CaseView, names: seq<string>, n: string, st: EngineState, host: Host)
    ensures RunTests(c, names + [n], st, host) == RecordTest(c, n, RunTests(c, names, st, host), host)
  {
    assert (names + [n])[..|names|] == names;
  }

  /** `_runTestCase(tc)`: onTestCaseStarted, then every test to run. */
  function RunCase(c: CaseView, st: EngineState, host: Host): EngineState {
    RunTests(c, Keys(TestsToRun(c)), st.(rc := OnTestCaseStarted(st.rc, c.name)), host)
  }

  /** `_run` over the cases in visit order. */
  function RunCases(cs: seq<CaseView>, st: EngineState, host: Host): EngineState
    decreases |cs|
  {
    if cs == [] then st else RunCase(cs[|cs| - 1], RunCases(cs[..|cs| - 1], st, host), host)
  }

  /** Running `xs + ys` is running `xs`, then `ys` from where `xs` left off. */
  lemma {:induction false} RunCasesAppend(xs: seq<CaseView>, ys: seq<CaseView>, st: EngineState, host: Host)
    ensures RunCases(xs + ys, st, host) == RunCases(ys, RunCases(xs, st, host), host)
    decreases |ys|
  {
    if ys == [] {
      assert xs + ys == xs;
    } else {
      var init := ys[..|ys| - 1];
      assert (xs + ys)[..|xs + ys| - 1] == xs + init;
      assert (xs + ys)[|xs + ys| - 1] == ys[|ys| - 1];
      RunCasesAppend(xs, init, st, host);
    }
  }

  /** `Runner.run()`: onStart, every case in visit order, onFinish; nothing is reset. */
  function RunSpec(cs: seq<CaseView>, st: EngineState, host: Host, startNow: int, endNow: int): EngineState {
    var ran := RunCases(cs, st.(rc := OnStart(st.rc, startNow)), host);
    ran.(rc := OnFinish(ran.rc, endNow))
  }

  // ----- what a stretch of running keeps -----

  /** `a` is the start of `b`. */
  predicate Prefix<T(==)>(a: seq<T>, b: seq<T>) {
    |a| <= |b| && b[..|a|] == a
  }

  lemma PrefixTrans<T>(a: seq<T>, b: seq<T>, c: seq<T>)
    requires Prefix(a, b) && Prefix(b, c)
    ensures Prefix(a, c)
  {
    assert c[..|a|] == c[..|b|][..|a|];
  }

  /** From `st` to `s` results, calls and log lines were only appended, and logging and the
      times were left alone. */
  predicate Grows(st: EngineState, s: EngineState) {
    && s.rc.logging == st.rc.logging && s.rc.startTime == st.rc.startTime && s.rc.endTime == st.rc.endTime
    && Prefix(st.rc.results, s.rc.results) && Prefix(st.calls, s.calls) && Prefix(st.rc.log, s.rc.log)
  }

  lemma GrowsTrans(a: EngineState, b: EngineState, c: EngineState)
    requires Grows(a, b) && Grows(b, c)
    ensures Grows(a, c)
  {
    PrefixTrans(a.rc.results, b.rc.results, c.rc.results);
    PrefixTrans(a.calls, b.calls, c.calls);
    PrefixTrans(a.rc.log, b.rc.log, c.rc.log);
  }

  // ----- properties of a single test -----

  /** One test appends exactly one result, named after the test and attributed to the current
      case, and only appends otherwise. */
  lemma RecordTestGrows(c: CaseView, testName: string, st: EngineState, host: Host)
    ensures var s := RecordTest(c, testName, st, host);
      && Grows(st, s) && s.rc.currentCase == st.rc.currentCase
      && |s.rc.results| == |st.rc.results| + 1
      && s.rc.results[|st.rc.results|].testCaseName == st.rc.currentCase
      && s.rc.results[|st.rc.results|].testName == testName
  {
    var s := RecordTest(c, testName, st, host);
    assert s.rc.results[..|st.rc.results|] == st.rc.results;
    assert s.calls[..|st.calls|] == st.calls;
    assert s.rc.log[..|st.rc.log|] == st.rc.log;
  }

  /** Per-test outcome: the result passed exactly when set-up, body and tear-down all returned,
      and otherwise carries what was thrown; only a failure is counted, so `failures` stays the
      number of failed results; the tear-down is called only after a set-up and a body that
      returned. */
  lemma RecordTestClassifies(c: CaseView, testName: string, st: EngineState, host: Host)
    requires Counts(st.rc)
    ensures var k := |st.calls|; var s := RecordTest(c, testName, st, host);
      var passed := host(k).Returns? && host(k + 1).Returns? && host(k + 2).Returns?;
      && |s.rc.results| == |st.rc.results| + 1
      && s.rc.results[|st.rc.results|].isPassed == passed
      && (!passed ==> s.rc.results[|st.rc.results|] == NewResult(st.rc.currentCase, testName, false,
            Some(RunSteps(TestSteps(c, testName), host, k).outcome.thrown)))
      && s.rc.failures == st.rc.failures + (if passed then 0 else 1)
      && Counts(s.rc)
      && (TearDown(c.name, testName) in s.calls[k..] <==> host(k).Returns? && host(k + 1).Returns?)
  {
    var k := |st.calls|;
    var a := RunSteps(TestSteps(c, testName), host, k);
    var s := RecordTest(c, testName, st, host);
    assert s.calls[k..] == a.executed;
    TearDownAfterReturns(c, testName, host, k);
    assert a.outcome.Returns? <==> host(k).Returns? && host(k + 1).Returns? && host(k + 2).Returns? by {
      TryBlockSteps(c, testName, host, k);
    }
    if a.outcome.Returns? {
      OutcomeEventsKeepCount(st.rc, testName, ThrownValue(Undefined));
    } else {
      OutcomeEventsKeepCount(st.rc, testName, a.outcome.thrown);
    }
  }

  /** The try block reaches the tear-down exactly when the set-up and the body returned. */
  lemma TearDownAfterReturns(c: CaseView, testName: string, host: Host, k: nat)
    ensures TearDown(c.name, testName) in RunSteps(TestSteps(c, testName), host, k).executed
        <==> host(k).Returns? && host(k + 1).Returns?
  {
    TryBlockSteps(c, testName, host, k);
  }

  // ----- properties of the test loop, a case and a run -----

  /** `rs` holds, from position `from` on, one result per name of `names`, in order, each
      attributed to the case `caseName`. */
  predicate Attributed(rs: seq<TestResult>, from: nat, caseName: string, names: seq<string>) {
    |rs| == from + |names|
    && forall i :: 0 <= i < |names| ==> rs[from + i].testCaseName == caseName && rs[from + i].testName == names[i]
  }

  lemma AttributedSnoc(rs: seq<TestResult>, from: nat, caseName: string, names: seq<string>, rs': seq<TestResult>, name: string)
    requires Attributed(rs, from, caseName, names) && Prefix(rs, rs') && |rs'| == |rs| + 1
    requires rs'[|rs|].testCaseName == caseName && rs'[|rs|].testName == name
    ensures Attributed(rs', from, caseName, names + [name])
  {
    forall j | 0 <= j < |rs|
      ensures rs'[j] == rs[j]
    {
      assert rs'[..|rs|][j] == rs'[j];
    }
  }

  /** The test loop appends one result per name, in order, each attributed to the current case. */
  lemma {:induction false} RunTestsGrows(c: CaseView, names: seq<string>, st: EngineState, host: Host)
    ensures var s := RunTests(c, names, st, host);
      && Grows(st, s) && s.rc.currentCase == st.rc.currentCase
      && Attributed(s.rc.results, |st.rc.results|, st.rc.currentCase, names)
    decreases |names|
  {
    if names != [] {
      var init := names[..|names| - 1];
      RunTestsGrows(c, init, st, host);
      var mid := RunTests(c, init, st, host);
      RecordTestGrows(c, names[|names| - 1], mid, host);
      var s := RunTests(c, names, st, host);
      GrowsTrans(st, mid, s);
      AttributedSnoc(mid.rc.results, |st.rc.results|, st.rc.currentCase, init, s.rc.results, names[|names| - 1]);
      assert init + [names[|names| - 1]] == names;
    }
  }

  /** The test loop keeps `failures` equal to the number of failed results. */
  lemma {:induction false} RunTestsCounts(c: CaseView, names: seq<string>, st: EngineState, host: Host)
    requires Counts(st.rc)
    ensures Counts(RunTests(c, names, st, host).rc)
    decreases |names|
  {
    if names != [] {
      RunTestsCounts(c, names[..|names| - 1], st, host);
      RecordTestClassifies(c, names[|names| - 1], RunTests(c, names[..|names| - 1], st, host), host);
    }
  }

  /** A throwing test never aborts the run: a case appends exactly one result per test to run,
      in enumeration order, each attributed to that case, and keeps `failures` equal to the
      number of failed results. */
  lemma RunCaseRecordsEveryTest(c: CaseView, st: EngineState, host: Host)
    requires Counts(st.rc)
    ensures var s := RunCase(c, st, host); var names := Keys(TestsToRun(c));
      && Grows(st, s) && Counts(s.rc) && s.rc.currentCase == c.name
      && Attributed(s.rc.results, |st.rc.results|, c.name, names)
  {
    var st1 := st.(rc := OnTestCaseStarted(st.rc, c.name));
    assert Grows(st, st1) by {
      assert st1.rc.log[..|st.rc.log|] == st.rc.log;
    }
    RunTestsGrows(c, Keys(TestsToRun(c)), st1, host);
    RunTestsCounts(c, Keys(TestsToRun(c)), st1, host);
    GrowsTrans(st, st1, RunCase(c, st, host));
  }

  /** The number of tests the cases `cs` run. */
  function TestTotal(cs: seq<CaseView>): nat {
    if cs == [] then 0 else TestTotal(cs[..|cs| - 1]) + |TestsToRun(cs[|cs| - 1])|
  }

  /** Every case runs all its tests: the cases together append one result per test to run,
      after the results already there, and keep the count of failures right. */
  lemma {:induction false} RunCasesRecordsEveryTest(cs: seq<CaseView>, st: EngineState, host: Host)
    requires Counts(st.rc)
    ensures var s := RunCases(cs, st, host);
      && Grows(st, s) && Counts(s.rc) && |s.rc.results| == |st.rc.results| + TestTotal(cs)
    decreases |cs|
  {
    if cs != [] {
      var init := cs[..|cs| - 1];
      RunCasesRecordsEveryTest(init, st, host);
      var mid := RunCases(init, st, host);
      RunCaseRecordsEveryTest(cs[|cs| - 1], mid, host);
      GrowsTrans(st, mid, RunCases(cs, st, host));
    }
  }

  /** Run lifecycle: a run never resets, so the results of earlier runs stay in front; it adds
      one result per test; when logging, it starts with "Started" and ends with the summary of
      everything collected so far, then "Done". */
  lemma RunAccumulates(cs: seq<CaseView>, st: EngineState, host: Host, startNow: int, endNow: int)
    requires Counts(st.rc)
    ensures var s := RunSpec(cs, st, host, startNow, endNow);
      && Counts(s.rc) && s.rc.startTime == startNow && s.rc.endTime == endNow
      && |s.rc.results| == |st.rc.results| + TestTotal(cs)
      && Prefix(st.rc.results, s.rc.results) && Prefix(st.calls, s.calls)
      && (st.rc.logging ==>
            && |s.rc.log| >= |st.rc.log| + 3
            && s.rc.log[|st.rc.log|] == LogEntry("info", "Started")
            && s.rc.log[|s.rc.log| - 2..] == [LogEntry("info", Summary(s.rc)), LogEntry("info", "Done")])
  {
    var st1 := st.(rc := OnStart(st.rc, startNow));
    RunCasesRecordsEveryTest(cs, st1, host);
    var ran := RunCases(cs, st1, host);
    var s := RunSpec(cs, st, host, startNow, endNow);
    assert Summary(s.rc) == Summary(ran.rc.(endTime := endNow));
    if st.rc.logging {
      LogBracketing(st.rc.log, LogEntry("info", "Started"), ran.rc.log,
                    LogEntry("info", Summary(s.rc)), LogEntry("info", "Done"));
    }
  }

  /** A log that went from `before` to `before + [first]`, grew, and then took `last1, last2`
      starts its new part with `first` and ends with `last1, last2`. */
  lemma LogBracketing<T>(before: seq<T>, first: T, grown: seq<T>, last1: T, last2: T)
    requires Prefix(before + [first], grown)
    ensures var l := grown + [last1] + [last2];
      |l| >= |before| + 3 && l[|before|] == first && l[|l| - 2..] == [last1, last2]
  {
    var l := grown + [last1] + [last2];
    assert l[|before|] == grown[..|before| + 1][|before|];
  }

  /** Legacy scan: a case with `length` 0 runs only its own properties whose name starts with
      "test", in their order; a case with registered tests runs exactly those, never the scan. */
  lemma LegacyScan(c: CaseView)
    ensures c.length == 0 ==> forall n :: n in Keys(TestsToRun(c)) ==> HasPrefix(n, "test") && n in Keys(c.props)
    ensures c.length != 0 ==> Keys(TestsToRun(c)) == Keys(c.tests)
  {
    if c.length == 0 {
      forall n | n in Keys(TestsToRun(c))
        ensures HasPrefix(n, "test") && n in Keys(c.props)
      {
        var ts := TestsToRun(c);
        var i :| 0 <= i < |ts| && Keys(ts)[i] == n;
        assert ts[i] in c.props;
        var j :| 0 <= j < |c.props| && c.props[j] == ts[i];
        assert Keys(c.props)[j] == n;
      }
    }
  }
}
