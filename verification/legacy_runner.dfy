/** The older engine's objects: TestResult, TestCase, the logger, the Runner and the `alias`
    front end. Each method is proved to change its object exactly as the functions of
    LegacyEngine say. */
module LegacyRunner {
  import opened JsValues
  import opened JsObjects
  import opened Outcomes
  import opened Suites
  import opened LegacyAsserts
  import opened LegacyEngine

  /** The prototype's empty hook `function () {}`; every case starts with it in all four hooks. */
  const NoOp: Value := Fn(0, "function () {}")

  /** The aggregate counters of a run. */
  class TestResult {
    var testCount: int
    var errorCount: int
    var errors: seq<Value>
    var failures: seq<AssertionError>

    function Tally(): Tally
      reads this
    {
      LegacyEngine.Tally(testCount, errorCount, errors, failures)
    }

    constructor ()
      ensures Tally() == NewTally
    {
      testCount := 0;
      errorCount := 0;
      errors := [];
      failures := [];
    }

    /** reset(): zeroes the counters and empties `errors`; `failures` is kept. */
    method Reset()
      modifies this
      ensures Tally() == LegacyEngine.Reset(old(Tally()))
      ensures failures == old(failures) && Consistent(Tally())
    {
      testCount := 0;
      errorCount := 0;
      errors := [];
    }

    /** addError(err). */
    method AddError(err: Value)
      modifies this
      ensures Tally() == LegacyEngine.AddError(old(Tally()), err)
      ensures old(Consistent(Tally())) ==> Consistent(Tally())
    {
      errors := errors + [err];
      errorCount := errorCount + 1;
    }

    /** addFailure(failure). */
    method AddFailure(failure: AssertionError)
      modifies this
      ensures Tally() == LegacyEngine.AddFailure(old(Tally()), failure)
      ensures old(Consistent(Tally())) ==> Consistent(Tally())
    {
      failures := failures + [failure];
    }

    /** incrementTestCount(). */
    method IncrementTestCount()
      modifies this
      ensures Tally() == Counted(old(Tally()))
      ensures old(Consistent(Tally())) ==> Consistent(Tally())
    {
      testCount := testCount + 1;
    }

    /** isSuccessful(): no error was counted; failures are not looked at. */
    function IsSuccessful(): (r: bool)
      reads this
      ensures r <==> LegacyEngine.IsSuccessful(Tally())
      ensures r ==> EndsWith(Summary(Tally()), "TEST SUCCESSFUL")
    {
      VerdictIsErrorCount(Tally());
      errorCount == 0
    }

    /** isFailed(): the negation of isSuccessful(). */
    function IsFailed(): (r: bool)
      reads this
      ensures r <==> !IsSuccessful()
    {
      errorCount != 0
    }
  }

  /** A named map of test functions with four hooks. */
  class TestCase {
    var name: string
    var tests: Entries
    /** Set by the first test(); stands for `test` rebinding itself to `_addTest`. */
    var hasTests: bool
    var setUp: Value
    var tearDown: Value
    var runBefore: Value
    var runAfter: Value

    /** The case as the runner reads it. */
    function View(): CaseView
      reads this
    {
      CaseView(name, tests, setUp, tearDown, runBefore, runAfter)
    }

    /** `new TestCase(name)`: no test, the prototype's empty hooks. */
    constructor (name: string)
      ensures View() == CaseView(name, [], NoOp, NoOp, NoOp, NoOp) && !hasTests
    {
      this.name := name;
      tests := [];
      hasTests := false;
      setUp := NoOp;
      tearDown := NoOp;
      runBefore := NoOp;
      runAfter := NoOp;
    }

    /** test(name, fn): stores `fn` under `name` (a later test of the same name replaces the
        earlier one in its place) and marks the case as having tests. */
    method Test(testName: string, fn: Value)
      modifies this
      ensures hasTests && tests == Put(old(tests), testName, fn)
      ensures Get(tests, testName) == fn
      ensures View() == old(View()).(tests := tests)
    {
      PutGet(tests, testName, fn);
      hasTests := true;
      tests := Put(tests, testName, fn);
    }
  }

  /** The cases as the runner reads them. */
  ghost function Views(cs: seq<TestCase>): (vs: seq<CaseView>)
    reads cs
    ensures |vs| == |cs| && forall i :: 0 <= i < |cs| ==> vs[i] == cs[i].View()
  {
    seq(|cs|, i requires 0 <= i < |cs| reads cs => cs[i].View())
  }

  /** The logger: forwards `(kind, text)` lines to its targets while enabled. */
  class Logger {
    var enabled: bool
    /** Every line handed to the targets, in order. */
    var entries: seq<LogEntry>

    constructor ()
      ensures enabled && entries == []
    {
      enabled := true;
      entries := [];
    }

    /** log(kind, text): one line when enabled, nothing otherwise. */
    method Log(kind: string, text: string)
      modifies this
      ensures enabled == old(enabled) && entries == old(entries) + Logged(enabled, kind, text)
    {
      if enabled {
        entries := entries + [LogEntry(kind, text)];
      }
    }
  }

  /** Runs the tree of suites and cases, counting into one TestResult. */
  class Runner {
    const results: TestResult
    const masterSuite: TestSuite<TestCase>
    const logger: Logger
    /** Every call made into user code, in order. */
    var calls: seq<Call>

    /** The state the functions of LegacyEngine describe. */
    function State(): EngineState
      reads this, results, logger
    {
      EngineState(results.Tally(), calls, logger.entries)
    }

    /** `new Runner()`: a fresh TestResult and an empty master suite. */
    constructor (logger: Logger)
      ensures fresh(results) && fresh(masterSuite) && this.logger == logger
      ensures results.Tally() == NewTally && masterSuite.items == [] && calls == []
    {
      results := new TestResult();
      masterSuite := new TestSuite("");
      this.logger := logger;
      calls := [];
    }

    /** One call into user code; the host decides how it completes. */
    method Invoke(call: Call, host: Host) returns (o: Outcome<AssertionError>)
      modifies this
      ensures calls == old(calls) + [call] && o == host(|old(calls)|)
    {
      o := host(|calls|);
      calls := calls + [call];
    }

    /** The try block of one test: set-up when truthy, the test, tear-down when truthy, each
        only if everything before it returned. */
    method TryTest(v: CaseView, testName: string, host: Host) returns (o: Outcome<AssertionError>)
      modifies this
      ensures var a := RunSteps(TestSteps(v, testName), host, |old(calls)|);
        o == a.outcome && calls == old(calls) + a.executed
    {
      ghost var k := |calls|;
      ghost var done: seq<Call> := [];
      o := Returns;
      if Truthy(v.setUp) {
        o := Invoke(SetUp(v.name, testName), host);
        done := [SetUp(v.name, testName)];
      }
      if o.Returns? {
        o := Invoke(Body(v.name, testName), host);
        done := done + [Body(v.name, testName)];
        if o.Returns? && Truthy(v.tearDown) {
          o := Invoke(TearDown(v.name, testName), host);
          done := done + [TearDown(v.name, testName)];
        }
      }
      assert calls == old(calls) + done;
      assert RunSteps(TestSteps(v, testName), host, k) == Attempt(done, o) by {
        TryBlockSteps(v, testName, host, k);
      }
    }

    /** One turn of `_runTestCase`'s loop: the try block, the catch that classifies what was
        thrown, and the count. */
    method RunOneTest(v: CaseView, testName: string, host: Host)
      modifies this, results, logger
      ensures State() == RecordTest(v, testName, old(State()), host, old(logger.enabled))
      ensures logger.enabled == old(logger.enabled)
      ensures old(Consistent(results.Tally())) ==> Consistent(results.Tally())
    {
      var o := TryTest(v, testName, host);
      match o {
        case Returns =>
          logger.Log("fine", "Test \"" + testName + "\" passed.");
        case Throws(ThrownAssertion(e)) =>
          results.AddFailure(e);
          logger.Log("error", "Test \"" + testName + "\" failed.\n" + ThrownText(o.thrown));
        case Throws(ThrownValue(err)) =>
          results.AddError(err);
          logger.Log("error", "Error during test \"" + testName + "\"\n" + ThrownText(o.thrown));
      }
      results.IncrementTestCount();
    }

    /** A case-level hook, called outside any try when it is truthy. */
    method RunHookCall(hook: Value, call: Call, host: Host) returns (escaped: Option<Thrown<AssertionError>>)
      modifies this
      ensures Progress(State(), escaped) == RunHook(hook, call, old(State()), host)
    {
      escaped := None;
      if Truthy(hook) {
        var o := Invoke(call, host);
        if o.Throws? {
          escaped := Some(o.thrown);
        }
      }
    }

    /** `_runTestCase(tc)`: the banner, runBefore, each test in enumeration order, runAfter. A
        throw from a hook escapes; a throw from a test never does. */
    method RunTestCase(tc: TestCase, host: Host) returns (escaped: Option<Thrown<AssertionError>>)
      modifies this, results, logger
      ensures Progress(State(), escaped) == RunCase(old(tc.View()), old(State()), host, old(logger.enabled))
      ensures logger.enabled == old(logger.enabled)
      ensures old(Consistent(results.Tally())) ==> Consistent(results.Tally())
    {
      var v := tc.View();
      ghost var enabled := logger.enabled;
      ghost var st0 := State();
      logger.Log("info", CaseBanner(tc.name));
      escaped := RunHookCall(v.runBefore, RunBefore(v.name), host);
      if escaped.Some? {
        return;
      }
      ghost var st1 := State();
      assert st1 == BeforeTests(v, st0, host, enabled).state;
      RunTestLoop(v, host);
      escaped := RunHookCall(v.runAfter, RunAfter(v.name), host);
    }

    /** The loop of `_runTestCase` over the case's tests, in enumeration order. */
    method RunTestLoop(v: CaseView, host: Host)
      modifies this, results, logger
      ensures State() == RunTests(v, Keys(v.tests), old(State()), host, old(logger.enabled))
      ensures logger.enabled == old(logger.enabled)
      ensures old(Consistent(results.Tally())) ==> Consistent(results.Tally())
    {
      ghost var enabled := logger.enabled;
      ghost var st1 := State();
      var tests := v.tests;
      var i := 0;
      while i < |tests|
        invariant 0 <= i <= |tests| && logger.enabled == enabled
        invariant State() == RunTests(v, Keys(tests)[..i], st1, host, enabled)
        invariant old(Consistent(results.Tally())) ==> Consistent(results.Tally())
      {
        var testName := tests[i].0;
        assert Keys(tests)[..i + 1] == Keys(tests)[..i] + [testName];
        RunOneTest(v, testName, host);
        i := i + 1;
      }
      assert Keys(tests)[..i] == Keys(tests);
    }

    /** `_run(ts)`: the items by index, as they are when the run reaches `ts`; a suite is run
        in full before the next item. `g` records what the suites of `U` hold. */
    method RunSuite(ts: TestSuite<TestCase>, host: Host, ghost g: map<TestSuite<TestCase>, seq<Item<TestCase>>>, ghost U: set<TestSuite<TestCase>>)
      returns (escaped: Option<Thrown<AssertionError>>)
      requires AcyclicIn(g, ts, U) && Current(g, U)
      modifies this, results, logger
      ensures Progress(State(), escaped) == RunCases(old(Views(CasesIn(g, ts, U))), old(State()), host, old(logger.enabled))
      ensures logger.enabled == old(logger.enabled)
      ensures old(Consistent(results.Tally())) ==> Consistent(results.Tally())
      decreases U, 0
    {
      ghost var enabled := logger.enabled;
      ghost var st0 := State();
      var items := ts.items;
      ghost var V := U - {ts};
      assert items == g[ts] && CasesIn(g, ts, U) == CasesOf(g, items, V);
      // what each item's cases look like, fixed before anything runs
      ghost var parts := CasesByItem(g, items, V);
      ghost var views := ViewsByItem(parts);
      assert Views(CasesIn(g, ts, U)) == Flatten(views);
      var i := 0;
      escaped := None;
      while i < |items|
        invariant 0 <= i <= |items| && logger.enabled == enabled && escaped.None?
        invariant |views| == |items| && Current(g, V)
        invariant Progress(State(), None) == RunCases(Flatten(views[..i]), st0, host, enabled)
        invariant old(Consistent(results.Tally())) ==> Consistent(results.Tally())
      {
        var item := items[i];
        ghost var mid := State();
        assert (item.SuiteItem? ==> AcyclicIn(g, item.suite, V)) && views[i] == Views(ItemCases(g, item, V));
        escaped := RunItem(item, host, g, V);
        SuiteLoopStep(views, i, st0, host, enabled, mid, Progress(State(), escaped));
        if escaped.Some? {
          return;
        }
        i := i + 1;
      }
      assert views[..i] == views;
    }

    /** One item of `_run`: a nested suite is run recursively, anything else as a case. */
    method RunItem(item: Item<TestCase>, host: Host, ghost g: map<TestSuite<TestCase>, seq<Item<TestCase>>>, ghost U: set<TestSuite<TestCase>>)
      returns (escaped: Option<Thrown<AssertionError>>)
      requires (item.SuiteItem? ==> AcyclicIn(g, item.suite, U)) && Current(g, U)
      modifies this, results, logger
      ensures Progress(State(), escaped) == RunCases(old(Views(ItemCases(g, item, U))), old(State()), host, old(logger.enabled))
      ensures logger.enabled == old(logger.enabled)
      ensures old(Consistent(results.Tally())) ==> Consistent(results.Tally())
      decreases U, 1
    {
      match item {
        case SuiteItem(s) =>
          escaped := RunSuite(s, host, g, U);
        case CaseItem(c) =>
          ghost var mid := State();
          escaped := RunTestCase(c, host);
          assert Views(ItemCases(g, item, U)) == [c.View()];
          assert [c.View()][..0] == [];
      }
    }

    /** add(item): appends a case or a suite to the master suite; no other suite changes. */
    method Add(it: Item<TestCase>)
      modifies masterSuite
      ensures masterSuite.items == old(masterSuite.items) + [it]
      ensures forall U: set<TestSuite<TestCase>> | old(allocated(U)) && masterSuite in U ::
        ItemsOf(U) == old(ItemsOf(U))[masterSuite := masterSuite.items]
    {
      masterSuite.Add(it);
    }

    /** getSize(): the number of items added. */
    function GetSize(): (n: nat)
      reads this, masterSuite
      ensures n == |masterSuite.items|
    {
      masterSuite.GetSize()
    }

    /** isEmpty(): nothing added yet (then there is no case to run either, by
        `EmptyReachesNothing`). */
    function IsEmpty(): (r: bool)
      reads this, masterSuite
      ensures r <==> masterSuite.items == []
    {
      masterSuite.GetSize() == 0
    }

    /** The lines run() logs before the tests; an unsupported browser gets a warning. */
    method LogPreamble(browser: Browser)
      modifies logger
      ensures logger.enabled == old(logger.enabled)
      ensures logger.entries == old(logger.entries) + Preamble(browser, logger.enabled)
    {
      ghost var e0 := logger.entries;
      if browser.isSupported {
        logger.Log("info", "Running in brwoser: " + browser.name);
        logger.Log("info", "Browser version: " + browser.version);
      } else {
        logger.Log("warn", "Unsupported browser.");
      }
      ghost var e1 := logger.entries;
      logger.Log("info", "The page is processed in " + (if browser.isInStrictMode then "the strict mode" else "the quirks mode"));
      logger.Log("info", "Started");
      assert logger.entries == e0 + (e1[|e0|..] + logger.entries[|e1|..]);
    }

    /** run(): reset, the preamble (an unsupported browser logs a warning), every case in
        visit order, and the summary when no hook let an exception out. The suites are read as
        they are now, however late their items were added; `U` holds every suite the master
        suite reaches, and the tree has no cycle. */
    method Run(browser: Browser, host: Host, ghost U: set<TestSuite<TestCase>>) returns (escaped: Option<Thrown<AssertionError>>)
      requires Acyclic(masterSuite, U)
      modifies this, results, logger
      ensures Progress(State(), escaped) == RunSpec(old(Views(Reached(masterSuite, U))), browser, old(State()), host, old(logger.enabled))
      ensures logger.enabled == old(logger.enabled) && Consistent(results.Tally())
    {
      ghost var enabled := logger.enabled;
      ghost var st0 := State();
      ghost var g := ItemsOf(U);
      ghost var cs := Views(CasesIn(g, masterSuite, U));
      results.Reset();
      LogPreamble(browser);
      assert State() == EngineState(Reset(st0.tally), st0.calls, st0.log + Preamble(browser, enabled));
      assert Views(CasesIn(g, masterSuite, U)) == cs;
      escaped := RunSuite(masterSuite, host, g, U);
      if escaped.None? {
        logger.Log("info", Summary(results.Tally()));
      }
    }
  }

  /** Flattening a sequence of cases distributes over concatenation. */
  lemma ViewsAppend(xs: seq<TestCase>, ys: seq<TestCase>)
    ensures Views(xs + ys) == Views(xs) + Views(ys)
  {
  }

  /** What each part's cases look like; together they are what the flattening looks like. */
  lemma ViewsByItem(parts: seq<seq<TestCase>>) returns (views: seq<seq<CaseView>>)
    ensures |views| == |parts| && Flatten(views) == Views(Flatten(parts))
    ensures forall k :: 0 <= k < |parts| ==> views[k] == Views(parts[k])
  {
    views := [];
    while |views| < |parts|
      invariant |views| <= |parts| && Flatten(views) == Views(Flatten(parts[..|views|]))
      invariant forall k :: 0 <= k < |views| ==> views[k] == Views(parts[k])
    {
      var n := |views|;
      assert parts[..n + 1][..n] == parts[..n];
      ViewsAppend(Flatten(parts[..n]), parts[n]);
      assert (views + [Views(parts[n])])[..n] == views;
      views := views + [Views(parts[n])];
    }
    assert parts[..|parts|] == parts;
  }

  /** One turn of `_run`'s loop: when the first `i` items ran to `mid` without an escape and
      item `i` then gives `r`, the first `i + 1` items give `r`; and when `r` lets an exception
      out, so does the whole run, with nothing after item `i` run. */
  lemma SuiteLoopStep(views: seq<seq<CaseView>>, i: nat, st: EngineState, host: Host, enabled: bool, mid: EngineState, r: Progress)
    requires i < |views|
    requires Progress(mid, None) == RunCases(Flatten(views[..i]), st, host, enabled)
    requires r == RunCases(views[i], mid, host, enabled)
    ensures r == RunCases(Flatten(views[..i + 1]), st, host, enabled)
    ensures r.escaped.Some? ==> r == RunCases(Flatten(views), st, host, enabled)
  {
    assert r == RunCases(Flatten(views[..i + 1]), st, host, enabled) by {
      assert views[..i + 1][..i] == views[..i];
      RunCasesAppend(Flatten(views[..i]), views[i], st, host, enabled);
    }
    if r.escaped.Some? {
      EscapeSkipsRest(views, i, st, host, enabled);
    }
  }

  /** When the first `i + 1` parts let an exception out, the parts after them do not run. */
  lemma EscapeSkipsRest(views: seq<seq<CaseView>>, i: nat, st: EngineState, host: Host, enabled: bool)
    requires i < |views|
    requires RunCases(Flatten(views[..i + 1]), st, host, enabled).escaped.Some?
    ensures RunCases(Flatten(views), st, host, enabled) == RunCases(Flatten(views[..i + 1]), st, host, enabled)
  {
    var rest := views[i + 1..];
    assert views == views[..i + 1] + rest;
    FlattenAppend(views[..i + 1], rest);
    RunCasesAppend(Flatten(views[..i + 1]), Flatten(rest), st, host, enabled);
  }
}
