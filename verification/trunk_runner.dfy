/** The newer engine's objects: test cases with registered tests, the result collector, the
    runner and the `testboy` front end (`createTestCase`, `test`, `run`). Each method is proved to
    change its object exactly as the functions of TrunkEngine, or of this module, say. */
module TrunkRunner {
  import opened JsValues
  import opened JsObjects
  import opened Outcomes
  import opened Suites
  import opened TrunkAsserts
  import opened TrunkEngine

  /** `TestCase.DEFAULT_TEST_NAME`. */
  const DefaultTestName := "Test #"

  /** The prototype's name, kept by a case created without a (truthy) name. */
  const UnnamedTestCase := "Unnamed Test Case"

  /** The name `testboy.test` gives the case it creates on first use. */
  const StandardTestCase := "Standard Test Case"

  /** The name a case created with `new TestCase(name)` has. */
  function CaseName(name: Value): (n: string)
    ensures Truthy(name) ==> n == ToText(name)
    ensures !Truthy(name) ==> n == UnnamedTestCase
  {
    if Truthy(name) then ToText(name) else UnnamedTestCase
  }

  /** The name of the test registered by the counter's `n`-th increment. */
  function AutoName(n: nat): string {
    DefaultTestName + NatToString(n)
  }

  /** Generated names never repeat: different counter values give different names. */
  lemma AutoNamesDiffer(m: nat, n: nat)
    requires m != n
    ensures AutoName(m) != AutoName(n)
  {
    if AutoName(m) == AutoName(n) {
      assert AutoName(m)[6..] == NatToString(m);
      assert AutoName(n)[6..] == NatToString(n);
      NatToStringInjective(m, n);
    }
  }

  // ----- addTest -----

  /** The members every object inherits from `Object.prototype`; all of them are truthy. */
  const ObjectPrototypeMembers: set<string> := {
    "constructor", "hasOwnProperty", "isPrototypeOf", "propertyIsEnumerable", "toLocaleString",
    "toString", "valueOf", "__defineGetter__", "__defineSetter__", "__lookupGetter__",
    "__lookupSetter__", "__proto__"}

  /** The duplicate check as written, `if (this._tests[name])`: the lookup also finds what the
      map inherits, so a name such as "toString" counts as taken in an empty map. */
  predicate DuplicateAsWritten(tests: Entries, key: string) {
    if key in Keys(tests) then Truthy(Get(tests, key)) else key in ObjectPrototypeMembers
  }

  /** The duplicate check as intended: a test with a truthy value is registered under `key`. */
  predicate Duplicate(tests: Entries, key: string) {
    Truthy(Get(tests, key))
  }

  /** The two checks differ only on names inherited from `Object.prototype` that the case has
      not registered: there the check as written refuses a test the case has never seen. */
  lemma DuplicateCheckDiffers(tests: Entries, key: string)
    ensures DuplicateAsWritten(tests, key) != Duplicate(tests, key)
      <==> key !in Keys(tests) && key in ObjectPrototypeMembers
    ensures DuplicateAsWritten([], "toString") && !Duplicate([], "toString")
  {
    assert "toString" in ObjectPrototypeMembers;
  }

  /** What addTest leaves behind: the registered tests, `length`, the shared counter, and
      whether it threw "Test case already contains a test with the given name". */
  datatype Added = Added(tests: Entries, length: int, count: nat, duplicate: bool)

  /** `addTest(name, fn)`: without `fn` the test is `name` itself under the next generated name,
      with no duplicate check; otherwise a name already holding a truthy test is refused and
      nothing changes. */
  function AddTestEffect(tests: Entries, length: int, count: nat, name: Value, fn: Value): Added {
    if fn.Undefined? then Added(Put(tests, AutoName(count + 1), name), length + 1, count + 1, false)
    else if Duplicate(tests, ToText(name)) then Added(tests, length, count, true)
    else Added(Put(tests, ToText(name), fn), length + 1, count, false)
  }

  /** A case is well formed when no test name occurs twice and `length` counts at least the
      registered tests; so a case whose `length` is 0 has none. */
  predicate WellFormed(tests: Entries, length: int) {
    UniqueKeys(tests) && |tests| <= length
  }

  /** Storing a key adds at most one entry. */
  lemma PutGrowsByAtMostOne(e: Entries, k: string, v: Value)
    ensures |e| <= |Put(e, k, v)| <= |e| + 1
  {
    if k in Keys(e) {
      PutPresentKey(e, k, v);
    } else {
      PutNewKey(e, k, v);
    }
  }

  /** addTest keeps a case well formed; an accepted test is the one stored under its name and
      every other name keeps its test; a refused one leaves the case as it was, and is refused
      only when its name already holds a truthy test. */
  lemma AddTestStores(tests: Entries, length: int, count: nat, name: Value, fn: Value)
    requires WellFormed(tests, length)
    ensures var r := AddTestEffect(tests, length, count, name, fn);
      var key := if fn.Undefined? then AutoName(count + 1) else ToText(name);
      && WellFormed(r.tests, r.length)
      && (r.duplicate <==> !fn.Undefined? && Truthy(Get(tests, key)))
      && (r.duplicate ==> r.tests == tests && r.length == length && r.count == count)
      && (!r.duplicate ==>
            (&& r.length == length + 1
             && Get(r.tests, key) == (if fn.Undefined? then name else fn)
             && forall k :: k != key ==> Get(r.tests, k) == Get(tests, k)))
  {
    var key := if fn.Undefined? then AutoName(count + 1) else ToText(name);
    var v := if fn.Undefined? then name else fn;
    PutGrowsByAtMostOne(tests, key, v);
    PutKeepsKeysUnique(tests, key, v);
    PutGet(tests, key, v);
  }

  /** The counter is pre-incremented from 0, so the first generated name is "Test #1". */
  lemma FirstAutoName()
    ensures AutoName(1) == "Test #1"
  {
    assert NatToString(1) == "1";
  }

  /** Auto-names: while no name a later counter value generates is taken, `addTest(fn)` appends
      `fn` under "Test #" and the incremented counter, skips the duplicate check, and keeps every
      later generated name free. */
  lemma AutoNamedTestIsAppended(tests: Entries, length: int, count: nat, fn: Value)
    requires forall n: nat :: n > count ==> AutoName(n) !in Keys(tests)
    ensures var r := AddTestEffect(tests, length, count, fn, Undefined);
      && r.count == count + 1 && !r.duplicate && r.length == length + 1
      && r.tests == tests + [(AutoName(count + 1), fn)]
      && forall n: nat :: n > r.count ==> AutoName(n) !in Keys(r.tests)
  {
    var key := AutoName(count + 1);
    PutNewKey(tests, key, fn);
    assert Keys(tests + [(key, fn)]) == Keys(tests) + [key];
    forall n: nat | n > count + 1
      ensures AutoName(n) !in Keys(tests) + [key]
    {
      AutoNamesDiffer(n, count + 1);
    }
  }

  /** Registering the same name twice with a truthy test: the second call is refused. */
  lemma SecondRegistrationRefused(tests: Entries, length: int, count: nat, name: Value, f: Value, g: Value)
    requires WellFormed(tests, length) && Truthy(f) && !g.Undefined?
    ensures var r := AddTestEffect(tests, length, count, name, f);
      !r.duplicate ==> AddTestEffect(r.tests, r.length, r.count, name, g).duplicate
  {
    AddTestStores(tests, length, count, name, f);
  }

  /** `TestCase._testNameCounter`: one counter shared by every case. */
  class TestNameCounter {
    var count: nat

    constructor ()
      ensures count == 0
    {
      count := 0;
    }
  }

  /** A test case: its name, the map of registered tests, `length`, and the own properties code
      assigned to it, which are scanned for tests while `length` is 0. */
  class TestCase {
    var name: string
    var tests: Entries
    var length: int
    /** Own properties other than the engine's (`name`, `_tests`, `fixture`, `length`), in
        insertion order. */
    var props: Entries
    const counter: TestNameCounter

    /** The case as the runner reads it. */
    function View(): CaseView
      reads this
    {
      CaseView(name, tests, length, props)
    }

    ghost predicate Valid()
      reads this
    {
      WellFormed(tests, length) && UniqueKeys(props)
    }

    /** `new TestCase(name)`: a falsy name leaves the prototype's. */
    constructor (name: Value, counter: TestNameCounter)
      ensures Valid() && this.counter == counter
      ensures View() == CaseView(CaseName(name), [], 0, [])
    {
      this.name := CaseName(name);
      tests := [];
      length := 0;
      props := [];
      this.counter := counter;
    }

    /** addTest(name, fn); `duplicate` is whether it threw because the name is taken. */
    method AddTest(name: Value, fn: Value) returns (duplicate: bool)
      requires Valid()
      modifies this, counter
      ensures Valid()
      ensures Added(tests, length, counter.count, duplicate)
        == AddTestEffect(old(tests), old(length), old(counter.count), name, fn)
      ensures this.name == old(this.name) && props == old(props)
    {
      duplicate := false;
      var key: string;
      var test: Value;
      if fn.Undefined? {
        counter.count := counter.count + 1;
        key := AutoName(counter.count);
        test := name;
      } else {
        key := ToText(name);
        test := fn;
        if Truthy(Get(tests, key)) {
          duplicate := true;
          return;
        }
      }
      PutGrowsByAtMostOne(tests, key, test);
      PutKeepsKeysUnique(tests, key, test);
      tests := Put(tests, key, test);
      length := length + 1;
    }

    /** `testCase[key] = v` for a property that is not one the engine reads or calls. */
    method Define(key: string, v: Value)
      requires Valid()
      requires key != "name" && key != "_tests" && key != "fixture" && key != "length" && key != "hasOwnProperty"
      modifies this
      ensures Valid()
      ensures props == Put(old(props), key, v) && Get(props, key) == v
      ensures name == old(name) && tests == old(tests) && length == old(length)
    {
      PutKeepsKeysUnique(props, key, v);
      PutGet(props, key, v);
      props := Put(props, key, v);
    }
  }

  /** A well-formed case without registered tests is scanned: `length` 0 means no test was
      registered, and the tests run are then exactly its own properties named "test...". */
  lemma ScanOnlyWithoutRegisteredTests(tests: Entries, length: int, name: string, props: Entries)
    requires WellFormed(tests, length)
    ensures length == 0 ==> tests == [] && TestsToRun(CaseView(name, tests, length, props)) == WithPrefix(props, "test")
    ensures length != 0 ==> TestsToRun(CaseView(name, tests, length, props)) == tests
  {
  }

  /** The cases as the runner reads them. */
  ghost function Views(cs: seq<TestCase>): (vs: seq<CaseView>)
    reads cs
    ensures |vs| == |cs| && forall i :: 0 <= i < |cs| ==> vs[i] == cs[i].View()
  {
    seq(|cs|, i requires 0 <= i < |cs| reads cs => cs[i].View())
  }

  /** Collects and logs results. */
  class ResultCollector {
    var startTime: int
    var endTime: int
    var results: seq<TestResult>
    var failures: int
    var currentCase: string
    /** `enableLogging`. */
    var logging: bool
    /** What was handed to the console, in order. */
    var log: seq<LogEntry>

    /** The state the functions of TrunkEngine describe. */
    function State(): Collector
      reads this
    {
      Collector(startTime, endTime, results, failures, currentCase, logging, log)
    }

    /** `new ResultCollector()`. */
    constructor ()
      ensures State() == NewCollector && Counts(State())
    {
      startTime, endTime, results, failures := 0, 0, [], 0;
      currentCase, logging, log := "", true, [];
    }

    /** `_log(type, message)`: nothing when logging is off. */
    method Log(kind: string, text: string)
      modifies this
      ensures State() == Logged(old(State()), kind, text)
    {
      if logging {
        log := log + [LogEntry(kind, text)];
      }
    }

    /** `_addResult(r)`: appends the result and logs it. */
    method AddResult(r: TestResult)
      modifies this
      ensures State() == TrunkEngine.AddResult(old(State()), r)
    {
      results := results + [r];
      if r.isPassed {
        Log("fine", "Test \"" + r.testName + "\" passed.");
      } else {
        Log("error", "Test \"" + r.testName + "\" failed.\n" + ErrorShown(r.error));
      }
    }

    /** isFailed(): in a collector that keeps its count, whether some result failed. */
    function IsFailed(): (r: bool)
      reads this
      ensures Counts(State()) ==> (r <==> exists i :: 0 <= i < |results| && results[i].isFailed)
    {
      CountFailedPositive(results);
      failures > 0
    }

    /** resetState(): every result and failure is forgotten. */
    method ResetState()
      modifies this
      ensures State() == TrunkEngine.ResetState(old(State()))
      ensures Counts(State()) && results == []
    {
      startTime, endTime, results, failures := 0, 0, [], 0;
    }

    /** onStart() at time `now`. */
    method OnStart(now: int)
      modifies this
      ensures State() == TrunkEngine.OnStart(old(State()), now)
      ensures old(Counts(State())) ==> Counts(State())
    {
      startTime := now;
      Log("info", "Started");
    }

    /** onFinish() at time `now`: the summary, then "Done". */
    method OnFinish(now: int)
      modifies this
      ensures State() == TrunkEngine.OnFinish(old(State()), now)
      ensures old(Counts(State())) ==> Counts(State())
    {
      endTime := now;
      var verdict := if !IsFailed() then "SUITE SUCCESSFULL" else "SUITE FAILED";
      var counters := "\nTests run: " + IntToString(|results|) + ", failed: " + IntToString(failures);
      Log("info", verdict + counters);
      Log("info", "Done");
    }

    /** onTestCaseStarted(name). */
    method OnTestCaseStarted(name: string)
      modifies this
      ensures State() == TrunkEngine.OnTestCaseStarted(old(State()), name)
      ensures old(Counts(State())) ==> Counts(State())
    {
      currentCase := name;
      Log("info", "Running test case \"" + name + "\"");
    }

    /** onTestPassed(testName): one passed result for the current case. */
    method OnTestPassed(testName: string)
      modifies this
      ensures State() == TrunkEngine.OnTestPassed(old(State()), testName)
      ensures old(Counts(State())) ==> Counts(State())
    {
      AddResult(NewResult(currentCase, testName, true, None));
      CountFailedSnoc(old(results), NewResult(old(currentCase), testName, true, None));
    }

    /** onTestFailed(testName, err): one failed result for the current case, one more failure. */
    method OnTestFailed(testName: string, err: Thrown<AssertionError>)
      modifies this
      ensures State() == TrunkEngine.OnTestFailed(old(State()), testName, err)
      ensures old(Counts(State())) ==> Counts(State())
    {
      AddResult(NewResult(currentCase, testName, false, Some(err)));
      failures := failures + 1;
      CountFailedSnoc(old(results), NewResult(old(currentCase), testName, false, Some(err)));
    }
  }

  /** Runs the cases of its master suite and reports to its result collector. */
  class Runner {
    const masterSuite: TestSuite<TestCase>
    const resultCollector: ResultCollector
    /** Every call made into user code, in order. */
    var calls: seq<Call>

    /** The state the functions of TrunkEngine describe. */
    function State(): EngineState
      reads this, resultCollector
    {
      EngineState(resultCollector.State(), calls)
    }

    /** `new Runner()`: the master suite and a fresh collector. */
    constructor ()
      ensures fresh(resultCollector) && fresh(masterSuite)
      ensures masterSuite.name == "master suite" && masterSuite.items == []
      ensures resultCollector.State() == NewCollector && calls == []
    {
      masterSuite := new TestSuite("master suite");
      resultCollector := new ResultCollector();
      calls := [];
    }

    /** One call into user code; the host decides how it completes. */
    method Invoke(call: Call, host: Host) returns (o: Outcome<AssertionError>)
      modifies this
      ensures calls == old(calls) + [call] && o == host(|old(calls)|)
    {
      o := host(|calls|);
      calls := calls + [call];
    }

    /** The try block of one test: set-up, the test, tear-down, each only if everything before
        it returned. */
    method TryTest(v: CaseView, testName: string, host: Host) returns (o: Outcome<AssertionError>)
      modifies this
      ensures var a := RunSteps(TestSteps(v, testName), host, |old(calls)|);
        o == a.outcome && calls == old(calls) + a.executed
    {
      TryBlockSteps(v, testName, host, |calls|);
      o := Invoke(SetUp(v.name, testName), host);
      if o.Returns? {
        o := Invoke(Body(v.name, testName), host);
        if o.Returns? {
          o := Invoke(TearDown(v.name, testName), host);
        }
      }
    }

    /** One turn of a test loop of `_runTestCase`: the try block, then the collector learns
        whether the test passed or what it threw. */
    method RunOneTest(v: CaseView, testName: string, host: Host)
      modifies this, resultCollector
      ensures State() == RecordTest(v, testName, old(State()), host)
    {
      var o := TryTest(v, testName, host);
      if o.Returns? {
        resultCollector.OnTestPassed(testName);
      } else {
        resultCollector.OnTestFailed(testName, o.thrown);
      }
    }

    /** `_runTestCase(tc)`: onTestCaseStarted, then the registered tests, or, when `length` is
        0, the case's own properties named "test...", in enumeration order. */
    method RunTestCase(tc: TestCase, host: Host)
      modifies this, resultCollector
      ensures State() == RunCase(old(tc.View()), old(State()), host)
    {
      var v := tc.View();
      resultCollector.OnTestCaseStarted(tc.name);
      if tc.length == 0 {
        RunScanned(v, host);
      } else {
        RunRegistered(v, host);
      }
    }

    /** The scan of `_runTestCase`: every own property whose name starts with "test". */
    method RunScanned(v: CaseView, host: Host)
      modifies this, resultCollector
      ensures State() == RunTests(v, Keys(WithPrefix(v.props, "test")), old(State()), host)
    {
      ghost var st1 := State();
      var props := v.props;
      var i := 0;
      while i < |props|
        invariant 0 <= i <= |props|
        invariant State() == RunTests(v, Keys(WithPrefix(props[..i], "test")), st1, host)
      {
        var testName := props[i].0;
        ScanStep(props, i, "test");
        if HasPrefix(testName, "test") {
          RunOneTest(v, testName, host);
          RunTestsSnoc(v, Keys(WithPrefix(props[..i], "test")), testName, st1, host);
        }
        i := i + 1;
      }
      assert props[..i] == props;
    }

    /** The registered tests of `_runTestCase`, in enumeration order. */
    method RunRegistered(v: CaseView, host: Host)
      modifies this, resultCollector
      ensures State() == RunTests(v, Keys(v.tests), old(State()), host)
    {
      ghost var st1 := State();
      var tests := v.tests;
      var i := 0;
      while i < |tests|
        invariant 0 <= i <= |tests|
        invariant State() == RunTests(v, Keys(tests)[..i], st1, host)
      {
        var testName := tests[i].0;
        assert Keys(tests)[..i + 1] == Keys(tests)[..i] + [testName];
        RunOneTest(v, testName, host);
        i := i + 1;
      }
      assert Keys(tests)[..i] == Keys(tests);
    }

    /** `_run(suite)`: the items by index, as they are when the run reaches the suite; a nested
        suite is run in full before the next item. `g` records what the suites of `U` hold. */
    method RunSuite(ts: TestSuite<TestCase>, host: Host, ghost g: map<TestSuite<TestCase>, seq<Item<TestCase>>>, ghost U: set<TestSuite<TestCase>>)
      requires AcyclicIn(g, ts, U) && Current(g, U)
      modifies this, resultCollector
      ensures State() == RunCases(old(Views(CasesIn(g, ts, U))), old(State()), host)
      decreases U, 0
    {
      ghost var st0 := State();
      var items := ts.items;
      ghost var V := U - {ts};
      assert items == g[ts] && CasesIn(g, ts, U) == CasesOf(g, items, V);
      // what each item's cases look like, fixed before anything runs
      ghost var parts := CasesByItem(g, items, V);
      ghost var views := ViewsByItem(parts);
      assert Views(CasesIn(g, ts, U)) == Flatten(views);
      var i := 0;
      while i < |items|
        invariant 0 <= i <= |items| && |views| == |items| && Current(g, V)
        invariant State() == RunCases(Flatten(views[..i]), st0, host)
      {
        var item := items[i];
        assert (item.SuiteItem? ==> AcyclicIn(g, item.suite, V)) && views[i] == Views(ItemCases(g, item, V));
        RunItem(item, host, g, V);
        assert views[..i + 1][..i] == views[..i];
        RunCasesAppend(Flatten(views[..i]), views[i], st0, host);
        i := i + 1;
      }
      assert views[..i] == views;
    }

    /** One item of `_run`: a case is run, anything else is run as a suite. */
    method RunItem(item: Item<TestCase>, host: Host, ghost g: map<TestSuite<TestCase>, seq<Item<TestCase>>>, ghost U: set<TestSuite<TestCase>>)
      requires (item.SuiteItem? ==> AcyclicIn(g, item.suite, U)) && Current(g, U)
      modifies this, resultCollector
      ensures State() == RunCases(old(Views(ItemCases(g, item, U))), old(State()), host)
      decreases U, 1
    {
      match item {
        case SuiteItem(s) =>
          RunSuite(s, host, g, U);
        case CaseItem(c) =>
          RunTestCase(c, host);
          assert Views(ItemCases(g, item, U)) == [c.View()];
          assert [c.View()][..0] == [];
      }
    }

    /** add(caseOrSuite): appends it to the master suite; no other suite changes. */
    method Add(it: Item<TestCase>)
      modifies masterSuite
      ensures masterSuite.items == old(masterSuite.items) + [it]
      ensures forall U: set<TestSuite<TestCase>> | old(allocated(U)) && masterSuite in U ::
        ItemsOf(U) == old(ItemsOf(U))[masterSuite := masterSuite.items]
    {
      masterSuite.Add(it);
    }

    /** run(): onStart, every case in visit order, onFinish. Results of earlier runs are kept.
        The suites are read as they are now, however late their items were added; `U` holds
        every suite the master suite reaches, and the tree has no cycle. */
    method Run(host: Host, startNow: int, endNow: int, ghost U: set<TestSuite<TestCase>>)
      requires Acyclic(masterSuite, U)
      modifies this, resultCollector
      ensures State() == RunSpec(old(Views(Reached(masterSuite, U))), old(State()), host, startNow, endNow)
      ensures old(Counts(resultCollector.State())) ==> Counts(resultCollector.State())
    {
      ghost var st0 := State();
      ghost var g := ItemsOf(U);
      ghost var cs := Views(CasesIn(g, masterSuite, U));
      resultCollector.OnStart(startNow);
      assert State() == st0.(rc := OnStart(st0.rc, startNow));
      assert Views(CasesIn(g, masterSuite, U)) == cs;
      RunSuite(masterSuite, host, g, U);
      ghost var ran := State();
      assert ran == RunCases(cs, st0.(rc := OnStart(st0.rc, startNow)), host);
      resultCollector.OnFinish(endNow);
      assert State() == ran.(rc := OnFinish(ran.rc, endNow));
      if Counts(st0.rc) {
        RunAccumulates(cs, st0, host, startNow, endNow);
      }
    }
  }

  /** The `testboy` front end: the default runner, the shared name counter, and the standard
      case `test` creates on first use. */
  class Testboy {
    const runner: Runner
    const counter: TestNameCounter
    var standardTestCase: TestCase?

    ghost predicate Valid()
      reads this, standardTestCase
    {
      standardTestCase != null ==> standardTestCase.counter == counter && standardTestCase.Valid()
    }

    constructor ()
      ensures Valid() && standardTestCase == null && fresh(runner) && fresh(counter)
      ensures runner.masterSuite.items == [] && runner.resultCollector.State() == NewCollector
      ensures counter.count == 0
    {
      runner := new Runner();
      counter := new TestNameCounter();
      standardTestCase := null;
    }

    /** createTestCase(name): a new case, added to the default runner. */
    method CreateTestCase(name: Value) returns (tc: TestCase)
      requires Valid()
      modifies runner.masterSuite
      ensures Valid() && fresh(tc) && tc.Valid() && tc.counter == counter
      ensures tc.View() == CaseView(CaseName(name), [], 0, [])
      ensures runner.masterSuite.items == old(runner.masterSuite.items) + [CaseItem(tc)]
    {
      tc := new TestCase(name, counter);
      runner.Add(CaseItem(tc));
    }

    /** test(name, fn): adds a test to the standard case, creating and adding that case first
        when there is none yet. */
    method Test(name: Value, fn: Value) returns (duplicate: bool)
      requires Valid()
      modifies this, runner.masterSuite, standardTestCase, counter
      ensures Valid() && standardTestCase != null
      ensures old(standardTestCase) != null ==>
        (standardTestCase == old(standardTestCase) && runner.masterSuite.items == old(runner.masterSuite.items))
      ensures old(standardTestCase) == null ==>
        (fresh(standardTestCase) && runner.masterSuite.items == old(runner.masterSuite.items) + [CaseItem(standardTestCase)])
      ensures var before := if old(standardTestCase) == null then CaseView(StandardTestCase, [], 0, [])
                            else old(standardTestCase.View());
        && Added(standardTestCase.tests, standardTestCase.length, counter.count, duplicate)
          == AddTestEffect(before.tests, before.length, old(counter.count), name, fn)
        && standardTestCase.name == before.name && standardTestCase.props == before.props
    {
      if standardTestCase == null {
        standardTestCase := CreateTestCase(Str(StandardTestCase));
      }
      duplicate := standardTestCase.AddTest(name, fn);
    }

    /** run(): runs the default runner. */
    method Run(host: Host, startNow: int, endNow: int, ghost U: set<TestSuite<TestCase>>)
      requires Acyclic(runner.masterSuite, U)
      modifies runner, runner.resultCollector
      ensures runner.State() == RunSpec(old(Views(Reached(runner.masterSuite, U))), old(runner.State()), host, startNow, endNow)
    {
      runner.Run(host, startNow, endNow, U);
    }
  }

  /** One more property scanned: its name joins the scanned names when it has the prefix. */
  lemma ScanStep(props: Entries, i: nat, p: string)
    requires i < |props|
    ensures HasPrefix(props[i].0, p) ==> Keys(WithPrefix(props[..i + 1], p)) == Keys(WithPrefix(props[..i], p)) + [props[i].0]
    ensures !HasPrefix(props[i].0, p) ==> Keys(WithPrefix(props[..i + 1], p)) == Keys(WithPrefix(props[..i], p))
  {
    assert props[..i + 1][..i] == props[..i];
    assert props[..i + 1][i] == props[i];
  }

  /** What each part's cases look like; together they are what the flattening looks like. */
  lemma ViewsByItem(parts: seq<seq<TestCase>>) returns (views: seq<seq<CaseView>>)
    ensures |views| == |parts| && Flatten(views) == Views(Flatten(parts))
    ensures forall k :: 0 <= k < |parts| ==> views[k] == Views(parts[k])
  {
    views := [];
    while |views| < |parts|
      invariant |views| <= |parts| && Flatten(views) == Views(Flatten(parts[..|views|]))
      invariant forall k :: 0 <= k < |views| ==> views[k] == Views(parts[k])
    {
      var n := |views|;
      assert parts[..n + 1][..n] == parts[..n];
      assert Views(Flatten(parts[..n]) + parts[n]) == Views(Flatten(parts[..n])) + Views(parts[n]);
      assert (views + [Views(parts[n])])[..n] == views;
      views := views + [Views(parts[n])];
    }
    assert parts[..|parts|] == parts;
  }
}
