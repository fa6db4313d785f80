/** What a call into user code can do, and the trace of such calls the runner makes. */
module Outcomes {
  import opened JsValues

  /** A thrown value: an assertion error of the engine's own kind, or any other value. */
  datatype Thrown<E> = ThrownAssertion(error: E) | ThrownValue(value: Value)

  /** How a call completes: it returns, or it throws. */
  datatype Outcome<E> = Returns | Throws(thrown: Thrown<E>)

  /** ToBoolean of a thrown value; an assertion error is an object, hence truthy. */
  predicate ThrownTruthy<E>(t: Thrown<E>) {
    t.ThrownAssertion? || Truthy(t.value)
  }

  /** One call the runner makes into user code: a case-level hook or one step of one test. */
  datatype Call =
    | RunBefore(caseName: string)
    | SetUp(caseName: string, testName: string)
    | Body(caseName: string, testName: string)
    | TearDown(caseName: string, testName: string)
    | RunAfter(caseName: string)

  /** A line handed to the log: its kind ("info", "fine", "warn", "error") and its text. */
  datatype LogEntry = LogEntry(kind: string, text: string)

  /** The calls a try block made, and how the block completed. */
  datatype Attempt<E> = Attempt(executed: seq<Call>, outcome: Outcome<E>)

  /** The body of a `try` block made of the calls `steps`: they run in order until one throws.
      `host(j)` is how the runner's `j`-th call into user code completes; the first step is
      call number `k`. */
  function RunSteps<E>(steps: seq<Call>, host: nat -> Outcome<E>, k: nat): Attempt<E>
    decreases |steps|
  {
    if steps == [] then Attempt([], Returns)
    else if host(k).Throws? then Attempt([steps[0]], host(k))
    else
      var rest := RunSteps(steps[1..], host, k + 1);
      Attempt([steps[0]] + rest.executed, rest.outcome)
  }

  /** A try block runs a prefix of its steps, every one but the last having returned; it
      returns exactly when all its steps ran and returned, and otherwise completes as its last
      executed step did. */
  lemma {:induction false} RunStepsStopsAtFirstThrow<E>(steps: seq<Call>, host: nat -> Outcome<E>, k: nat)
    ensures var r := RunSteps(steps, host, k);
      && |r.executed| <= |steps| && r.executed == steps[..|r.executed|]
      && (steps != [] ==> r.executed != [])
      && (forall j :: k <= j < k + |r.executed| - 1 ==> host(j).Returns?)
      && (r.outcome.Returns? <==> r.executed == steps && forall j :: k <= j < k + |steps| ==> host(j).Returns?)
      && (r.outcome.Throws? ==> r.outcome == host(k + |r.executed| - 1))
    decreases |steps|
  {
    if steps != [] && host(k).Returns? {
      RunStepsStopsAtFirstThrow(steps[1..], host, k + 1);
      var rest := RunSteps(steps[1..], host, k + 1);
      assert steps == [steps[0]] + steps[1..];
      assert ([steps[0]] + rest.executed)[1..] == rest.executed;
    }
  }

  /** The first step of a try block runs; the rest run only if it returned. */
  lemma RunStepsCons<E>(c: Call, rest: seq<Call>, host: nat -> Outcome<E>, k: nat)
    ensures var r := RunSteps(rest, host, k + 1);
      RunSteps([c] + rest, host, k)
        == if host(k).Throws? then Attempt([c], host(k)) else Attempt([c] + r.executed, r.outcome)
  {
    assert ([c] + rest)[1..] == rest;
  }

  /** A step runs only if every step before it returned: in particular a tear-down placed last is
      skipped as soon as the set-up or the body throws. */
  lemma {:induction false} StepRunsOnlyAfterReturns<E>(steps: seq<Call>, host: nat -> Outcome<E>, k: nat, i: nat)
    requires i < |steps|
    requires (forall j :: 0 <= j < i ==> steps[j] != steps[i])
    ensures steps[i] in RunSteps(steps, host, k).executed <==> forall j :: k <= j < k + i ==> host(j).Returns?
    decreases |steps|
  {
    var r := RunSteps(steps, host, k);
    if i > 0 && host(k).Returns? {
      StepRunsOnlyAfterReturns(steps[1..], host, k + 1, i - 1);
      var rest := RunSteps(steps[1..], host, k + 1);
      assert r.executed == [steps[0]] + rest.executed;
    } else if i > 0 {
      assert r.executed == [steps[0]];
    }
  }
}
