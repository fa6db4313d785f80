/** The older engine's `testboy.alias` front end: a current "standard" test case that `test`,
    `setUp`, `tearDown` and `runBefore` write to, `testCase` to start a new one, and `start` to
    run the standard runner. */
module LegacyAlias {
  import opened JsValues
  import opened JsObjects
  import opened Outcomes
  import opened Suites
  import opened LegacyAsserts
  import opened LegacyEngine
  import opened LegacyRunner

  /** One call the callback of `testCase(name, fn)` makes on the alias. */
  datatype Registration =
    | TestReg(testName: string, fn: Value)
    | SetUpReg(fn: Value)
    | TearDownReg(fn: Value)
    | RunBeforeReg(fn: Value)

  /** What one registration does to the standard case. */
  function Register(v: CaseView, r: Registration): (w: CaseView)
    ensures w.name == v.name && w.runAfter == v.runAfter
    ensures r.TestReg? ==> w == v.(tests := Put(v.tests, r.testName, r.fn))
    ensures !r.TestReg? ==> w.tests == v.tests
  {
    match r
    case TestReg(n, f) => v.(tests := Put(v.tests, n, f))
    case SetUpReg(f) => v.(setUp := f)
    case TearDownReg(f) => v.(tearDown := f)
    case RunBeforeReg(f) => v.(runBefore := f)
  }

  /** The registrations applied in order. */
  function RegisterAll(v: CaseView, regs: seq<Registration>): CaseView
    decreases |regs|
  {
    if regs == [] then v else Register(RegisterAll(v, regs[..|regs| - 1]), regs[|regs| - 1])
  }

  /** Whether any registration adds a test. */
  predicate RegistersTest(regs: seq<Registration>) {
    exists j :: 0 <= j < |regs| && regs[j].TestReg?
  }

  /** A test registered under a name that no later registration reuses is the one the case runs
      under that name. */
  lemma {:induction false} LastTestRegistrationWins(v: CaseView, regs: seq<Registration>, j: nat)
    requires j < |regs| && regs[j].TestReg?
    requires forall k :: j < k < |regs| ==> !(regs[k].TestReg? && regs[k].testName == regs[j].testName)
    ensures Get(RegisterAll(v, regs).tests, regs[j].testName) == regs[j].fn
    decreases |regs|
  {
    var init := regs[..|regs| - 1];
    var last := regs[|regs| - 1];
    var prev := RegisterAll(v, init);
    assert RegisterAll(v, regs) == Register(prev, last);
    if last.TestReg? {
      PutGet(prev.tests, last.testName, last.fn);
    }
    if j < |regs| - 1 {
      assert init[j] == regs[j];
      assert forall k :: j < k < |init| ==> init[k] == regs[k];
      LastTestRegistrationWins(v, init, j);
    }
  }

  /** The last hook registration of each kind decides that hook; without one the hook is kept. */
  lemma {:induction false} LastSetUpWins(v: CaseView, regs: seq<Registration>)
    ensures (forall k :: 0 <= k < |regs| ==> !regs[k].SetUpReg?) ==> RegisterAll(v, regs).setUp == v.setUp
    ensures |regs| > 0 && regs[|regs| - 1].SetUpReg? ==> RegisterAll(v, regs).setUp == regs[|regs| - 1].fn
    decreases |regs|
  {
    if regs != [] {
      var init := regs[..|regs| - 1];
      LastSetUpWins(v, init);
      if forall k :: 0 <= k < |regs| ==> !regs[k].SetUpReg? {
        assert forall k :: 0 <= k < |init| ==> init[k] == regs[k];
      }
    }
  }

  /** The alias state: the standard runner and the current standard case. */
  class Alias {
    const runner: Runner
    var standardTestCase: TestCase

    /** The cases `start()` runs: the standard case alone when nothing was added and it has
        tests, otherwise whatever the added cases and suites reach. */
    ghost function CasesToRun(U: set<TestSuite<TestCase>>): seq<TestCase>
      requires Acyclic(runner.masterSuite, U)
      reads this, runner, runner.masterSuite, U, standardTestCase
    {
      if runner.masterSuite.items == [] && standardTestCase.hasTests then [standardTestCase]
      else Reached(runner.masterSuite, U)
    }

    /** The standard runner and the case named "default". */
    constructor (logger: Logger)
      ensures fresh(runner) && fresh(standardTestCase)
      ensures runner.masterSuite.items == [] && runner.logger == logger && runner.results.Tally() == NewTally
      ensures standardTestCase.View() == CaseView("default", [], NoOp, NoOp, NoOp, NoOp)
      ensures !standardTestCase.hasTests
    {
      runner := new Runner(logger);
      standardTestCase := new TestCase("default");
    }

    /** test(name, fn): adds a test to the standard case. (The source's "No test case defined."
        error needs a missing standard case, which never happens.) */
    method Test(testName: string, fn: Value)
      modifies standardTestCase
      ensures standardTestCase.hasTests
      ensures standardTestCase.View() == Register(old(standardTestCase.View()), TestReg(testName, fn))
    {
      standardTestCase.Test(testName, fn);
    }

    /** setUp(fn). */
    method SetUp(fn: Value)
      modifies standardTestCase
      ensures standardTestCase.hasTests == old(standardTestCase.hasTests)
      ensures standardTestCase.View() == Register(old(standardTestCase.View()), SetUpReg(fn))
    {
      standardTestCase.setUp := fn;
    }

    /** tearDown(fn). */
    method TearDown(fn: Value)
      modifies standardTestCase
      ensures standardTestCase.hasTests == old(standardTestCase.hasTests)
      ensures standardTestCase.View() == Register(old(standardTestCase.View()), TearDownReg(fn))
    {
      standardTestCase.tearDown := fn;
    }

    /** runBefore(fn). */
    method RunBefore(fn: Value)
      modifies standardTestCase
      ensures standardTestCase.hasTests == old(standardTestCase.hasTests)
      ensures standardTestCase.View() == Register(old(standardTestCase.View()), RunBeforeReg(fn))
    {
      standardTestCase.runBefore := fn;
    }

    /** One registration made by a callback. */
    method Perform(r: Registration)
      modifies standardTestCase
      ensures standardTestCase.hasTests == (old(standardTestCase.hasTests) || r.TestReg?)
      ensures standardTestCase.View() == Register(old(standardTestCase.View()), r)
    {
      match r
      case TestReg(n, f) => Test(n, f);
      case SetUpReg(f) => SetUp(f);
      case TearDownReg(f) => TearDown(f);
      case RunBeforeReg(f) => RunBefore(f);
    }

    /** testCase(name, fn): a new standard case, filled by the callback's registrations (none
        when there is no callback), then added to the runner. */
    method TestCase(name: string, regs: seq<Registration>)
      modifies this, runner.masterSuite
      ensures fresh(standardTestCase)
      ensures standardTestCase.View() == RegisterAll(CaseView(name, [], NoOp, NoOp, NoOp, NoOp), regs)
      ensures standardTestCase.hasTests <==> RegistersTest(regs)
      ensures runner.masterSuite.items == old(runner.masterSuite.items) + [CaseItem(standardTestCase)]
    {
      var tc := new LegacyRunner.TestCase(name);
      standardTestCase := tc;
      var i := 0;
      while i < |regs|
        invariant 0 <= i <= |regs| && standardTestCase == tc
        invariant tc.View() == RegisterAll(CaseView(name, [], NoOp, NoOp, NoOp, NoOp), regs[..i])
        invariant tc.hasTests <==> RegistersTest(regs[..i])
        invariant runner.masterSuite.items == old(runner.masterSuite.items)
      {
        assert regs[..i + 1][..i] == regs[..i];
        assert regs[..i + 1][i] == regs[i];
        Perform(regs[i]);
        i := i + 1;
      }
      assert regs[..i] == regs;
      runner.Add(CaseItem(tc));
    }

    /** The first half of start(): the standard case joins the runner when nothing was added and
        it has tests. Afterwards the master suite reaches exactly the cases start() runs. */
    method AddStandardIfEmpty(ghost U: set<TestSuite<TestCase>>)
      requires Acyclic(runner.masterSuite, U)
      modifies runner.masterSuite
      ensures runner.masterSuite.items == old(runner.masterSuite.items)
        + (if old(runner.masterSuite.items) == [] && standardTestCase.hasTests then [CaseItem(standardTestCase)] else [])
      ensures Acyclic(runner.masterSuite, U) && Reached(runner.masterSuite, U) == CasesToRun(U) == old(CasesToRun(U))
    {
      ghost var g := ItemsOf(U);
      if runner.IsEmpty() && standardTestCase.hasTests {
        EmptyReachesNothing(runner.masterSuite, U);
        runner.Add(CaseItem(standardTestCase));
        Appended(g, runner.masterSuite, CaseItem(standardTestCase), U);
        assert ItemsOf(U) == g[runner.masterSuite := g[runner.masterSuite] + [CaseItem(standardTestCase)]];
      }
    }

    /** start(): adds the standard case when nothing was added and it has tests, then runs. The
        standard case stays added, so a later start() runs the same cases again. `U` holds every
        suite the master suite reaches. */
    method Start(browser: Browser, host: Host, ghost U: set<TestSuite<TestCase>>) returns (escaped: Option<Thrown<AssertionError>>)
      requires Acyclic(runner.masterSuite, U)
      modifies runner, runner.results, runner.logger, runner.masterSuite
      ensures Progress(runner.State(), escaped)
        == RunSpec(old(Views(CasesToRun(U))), browser, old(runner.State()), host, old(runner.logger.enabled))
      ensures runner.masterSuite.items == old(runner.masterSuite.items)
        + (if old(runner.masterSuite.items) == [] && standardTestCase.hasTests then [CaseItem(standardTestCase)] else [])
      ensures Acyclic(runner.masterSuite, U) && Reached(runner.masterSuite, U) == CasesToRun(U) == old(CasesToRun(U))
    {
      AddStandardIfEmpty(U);
      ghost var cs := Views(Reached(runner.masterSuite, U));
      assert cs == old(Views(CasesToRun(U)));
      escaped := runner.Run(browser, host, U);
    }
  }

  /** With nothing added and no test in the standard case, start() runs no test: it only resets,
      logs the preamble and reports a successful run of zero tests. */
  lemma NothingToRun(b: Browser, st: EngineState, host: Host, enabled: bool)
    ensures var p := RunSpec([], b, st, host, enabled);
      && p.escaped.None? && p.state.calls == st.calls
      && p.state.tally == LegacyEngine.Reset(st.tally) && LegacyEngine.IsSuccessful(p.state.tally)
      && p.state.log == st.log + Preamble(b, enabled) + Logged(enabled, "info", Summary(p.state.tally))
  {
  }
}
