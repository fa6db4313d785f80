/** The older engine's `AssertionError` and its `asserts` library. Every assertion receives its
    `arguments` as a sequence, records its own signature in the error, and either returns or
    throws an AssertionError. */
module LegacyAsserts {
  import opened JsValues
  import opened Outcomes
  import opened LegacyText

  /** An assertion failure: the signature of the failing call, the caller's message (any value,
      `undefined` when omitted) and the cause. */
  datatype AssertionError = AssertionError(src: string, message: Value, cause: string)
  {
    /** toString(): the type name, the message, the cause and the failing call, joined so that a
        `null` or `undefined` message shows as nothing. */
    function ToString(): (s: string)
      ensures |s| >= |ErrorName| + 2 && s[..|ErrorName| + 2] == ErrorName + ": "
      ensures var tail := "\nat " + src; |s| >= |tail| && s[|s| - |tail|..] == tail
      ensures message.Undefined? || message.Null? ==> s == ErrorName + ": \n" + cause + "\nat " + src
    {
      ErrorName + ": " + JoinText(message) + "\n" + cause + "\nat " + src
    }
  }

  /** AssertionError.prototype.name. */
  const ErrorName := "testboy.AssertionError"

  /** `arguments[i]`, `undefined` past the end. */
  function Arg(args: seq<Value>, i: nat): Value {
    if i < |args| then args[i] else Undefined
  }

  /** The outcome of an assertion that holds when `ok`: otherwise it throws the error made of the
      signature of `name` over `args`, the message at `messageIndex` and `cause`. */
  function Check(ok: bool, args: seq<Value>, name: string, messageIndex: nat, cause: string): (r: Outcome<AssertionError>)
    ensures r.Returns? <==> ok
    ensures r.Throws? ==> r.thrown == ThrownAssertion(AssertionError(Signature(args, name), Arg(args, messageIndex), cause))
  {
    if ok then Returns else Throws(ThrownAssertion(AssertionError(Signature(args, name), Arg(args, messageIndex), cause)))
  }

  /** The error an assertion raises, for stating contracts. */
  function Raised(args: seq<Value>, name: string, messageIndex: nat, cause: string): Outcome<AssertionError> {
    Throws(ThrownAssertion(AssertionError(Signature(args, name), Arg(args, messageIndex), cause)))
  }

  /** assertTrue(val, message): passes only for the boolean `true` itself. */
  function AssertTrue(args: seq<Value>): (r: Outcome<AssertionError>)
    ensures r.Returns? <==> Arg(args, 0) == Bool(true)
    ensures r.Throws? ==> r == Raised(args, "assertTrue", 1, "Argument is other than {boolean}true")
  {
    assert "Argument is other than " + ValueToString(Bool(true)) == "Argument is other than {boolean}true";
    Check(StrictEquals(Arg(args, 0), Bool(true)), args, "assertTrue", 1, "Argument is other than " + ValueToString(Bool(true)))
  }

  /** assertFalse(val, message): passes only for the boolean `false` itself. */
  function AssertFalse(args: seq<Value>): (r: Outcome<AssertionError>)
    ensures r.Returns? <==> Arg(args, 0) == Bool(false)
    ensures r.Throws? ==> r == Raised(args, "assertFalse", 1, "Argument is other than {boolean}false")
  {
    assert "Argument is other than " + ValueToString(Bool(false)) == "Argument is other than {boolean}false";
    Check(StrictEquals(Arg(args, 0), Bool(false)), args, "assertFalse", 1, "Argument is other than " + ValueToString(Bool(false)))
  }

  /** assertEquals(expected, actual, message): passes iff `actual === expected`; the cause shows
      both values with their types. */
  function AssertEquals(args: seq<Value>): (r: Outcome<AssertionError>)
    ensures r.Returns? <==> StrictEquals(Arg(args, 1), Arg(args, 0))
    ensures r.Throws? ==> r == Raised(args, "assertEquals", 2,
      "Expected " + ValueToString(Arg(args, 0)) + " instead of " + ValueToString(Arg(args, 1)) + ".")
  {
    var expected := Arg(args, 0);
    var actual := Arg(args, 1);
    // the source joins string pieces with "", which is their concatenation
    Check(StrictEquals(actual, expected), args, "assertEquals", 2,
      "Expected " + ValueToString(expected) + " instead of " + ValueToString(actual) + ".")
  }

  /** assertNotUndefined(val, message): fails exactly for `undefined`. */
  function AssertNotUndefined(args: seq<Value>): (r: Outcome<AssertionError>)
    ensures r.Throws? <==> Arg(args, 0) == Undefined
    ensures r.Throws? ==> r == Raised(args, "assertNotUndefined", 1, "Argument is undefined")
  {
    Check(!StrictEquals(Arg(args, 0), Undefined), args, "assertNotUndefined", 1, "Argument is undefined")
  }

  /** assertUndefined(val, message): passes exactly for `undefined`. */
  function AssertUndefined(args: seq<Value>): (r: Outcome<AssertionError>)
    ensures r.Returns? <==> Arg(args, 0) == Undefined
    ensures r.Throws? ==> r == Raised(args, "assertUndefined", 1, "Argument is other than undefined")
  {
    Check(StrictEquals(Arg(args, 0), Undefined), args, "assertUndefined", 1, "Argument is other than undefined")
  }

  /** assertNull(val, message): passes exactly for `null`. */
  function AssertNull(args: seq<Value>): (r: Outcome<AssertionError>)
    ensures r.Returns? <==> Arg(args, 0) == Null
    ensures r.Throws? ==> r == Raised(args, "assertNull", 1, "Argument is not null")
  {
    Check(StrictEquals(Arg(args, 0), Null), args, "assertNull", 1, "Argument is not null")
  }

  /** assertNotNull(val, message): fails exactly for `null`; `undefined` passes. */
  function AssertNotNull(args: seq<Value>): (r: Outcome<AssertionError>)
    ensures r.Throws? <==> Arg(args, 0) == Null
    ensures r.Throws? ==> r == Raised(args, "assertNotNull", 1, "Argument is null")
  {
    Check(!StrictEquals(Arg(args, 0), Null), args, "assertNotNull", 1, "Argument is null")
  }

  /** Whether `fun.apply(thisArg, args)` throws: a value without `apply` (anything but a
      function) throws a TypeError; a function throws as the host says. */
  predicate ApplyThrows(fun: Value, hostThrows: bool) {
    !fun.Fn? || hostThrows
  }

  /** assertError(fun, args, thisArg, message): passes iff the call throws; whatever the call
      throws is swallowed, so only an AssertionError can leave it. */
  function AssertError(args: seq<Value>, hostThrows: bool): (r: Outcome<AssertionError>)
    ensures r.Returns? <==> ApplyThrows(Arg(args, 0), hostThrows)
    ensures r.Throws? ==> r == Raised(args, "assertError", 3, "Error is not thrown when it is expected")
  {
    var thrown := ApplyThrows(Arg(args, 0), hostThrows);
    Check(thrown, args, "assertError", 3, "Error is not thrown when it is expected")
  }

  /** assertNoError(fun, args, thisArg, message): passes iff the call returns; the call's own
      exception never escapes. */
  function AssertNoError(args: seq<Value>, hostThrows: bool): (r: Outcome<AssertionError>)
    ensures r.Returns? <==> !ApplyThrows(Arg(args, 0), hostThrows)
    ensures r.Throws? ==> r == Raised(args, "assertNoError", 3, "Error is thrown when it is not expected")
  {
    var thrown := ApplyThrows(Arg(args, 0), hostThrows);
    Check(!thrown, args, "assertNoError", 3, "Error is thrown when it is not expected")
  }

  /** assertInstanceOf(obj, ctor, message): `instanceof` with a `ctor` that is not a function
      throws a TypeError; otherwise a primitive is never an instance, and for an object or a
      function the host's prototype-chain answer decides. */
  function AssertInstanceOf(args: seq<Value>, hostIsInstance: bool): (r: Outcome<AssertionError>)
    ensures !Arg(args, 1).Fn? ==> r == Throws(ThrownValue(TypeError))
    ensures Arg(args, 1).Fn? ==> (r.Returns? <==> (Arg(args, 0).Obj? || Arg(args, 0).Fn?) && hostIsInstance)
    ensures Arg(args, 1).Fn? && r.Throws? ==>
      r == Raised(args, "assertInstanceOf", 2, "Object is not instance of the specified constructor")
  {
    var obj := Arg(args, 0);
    if !Arg(args, 1).Fn? then Throws(ThrownValue(TypeError))
    else Check((obj.Obj? || obj.Fn?) && hostIsInstance, args, "assertInstanceOf", 2,
      "Object is not instance of the specified constructor")
  }

  /** assertEquals compares without coercion: a number and its own text differ (5 and "5"), and
      the two renderings the cause shows differ too. */
  lemma AssertEqualsDoesNotCoerce(n: int, message: Value)
    ensures var r := AssertEquals([Str(IntToString(n)), Int(n), message]);
      r.Throws? && r.thrown.ThrownAssertion? && r.thrown.error.message == message
    ensures ValueToString(Str(IntToString(n))) != ValueToString(Int(n))
  {
    var args := [Str(IntToString(n)), Int(n), message];
    assert Arg(args, 2) == message;
    if ValueToString(Str(IntToString(n))) == ValueToString(Int(n)) {
      PrimitiveRenderingIsInjective(Str(IntToString(n)), Int(n));
    }
  }

  /** Every assertion a test can call either returns or throws an AssertionError, never anything
      else, whatever its arguments; assertInstanceOf does so once its `ctor` is a function (with
      any other `ctor` it throws a TypeError, which the runner counts as an error). */
  lemma AssertionsThrowOnlyAssertionErrors(args: seq<Value>, hostThrows: bool, hostIsInstance: bool)
    ensures Reports(AssertTrue(args)) && Reports(AssertFalse(args)) && Reports(AssertEquals(args))
    ensures Reports(AssertNotUndefined(args)) && Reports(AssertUndefined(args))
    ensures Reports(AssertNull(args)) && Reports(AssertNotNull(args))
    ensures Reports(AssertError(args, hostThrows)) && Reports(AssertNoError(args, hostThrows))
    ensures Arg(args, 1).Fn? ==> Reports(AssertInstanceOf(args, hostIsInstance))
  {
    ValueChecksReport(args);
    EmptinessChecksReport(args);
    CallChecksReport(args, hostThrows, hostIsInstance);
  }

  /** An outcome an assertion may have: it returns, or it throws an AssertionError. */
  predicate Reports(r: Outcome<AssertionError>) {
    r.Returns? || r.thrown.ThrownAssertion?
  }

  lemma ValueChecksReport(args: seq<Value>)
    ensures Reports(AssertTrue(args)) && Reports(AssertFalse(args)) && Reports(AssertEquals(args))
  {
  }

  lemma EmptinessChecksReport(args: seq<Value>)
    ensures Reports(AssertNotUndefined(args)) && Reports(AssertUndefined(args))
    ensures Reports(AssertNull(args)) && Reports(AssertNotNull(args))
  {
  }

  lemma CallChecksReport(args: seq<Value>, hostThrows: bool, hostIsInstance: bool)
    ensures Reports(AssertError(args, hostThrows)) && Reports(AssertNoError(args, hostThrows))
    ensures Arg(args, 1).Fn? ==> Reports(AssertInstanceOf(args, hostIsInstance))
  {
  }

  /** For any two values exactly one of assertError and assertNoError passes. */
  lemma ErrorAssertionsAreComplementary(args: seq<Value>, hostThrows: bool)
    ensures AssertError(args, hostThrows).Returns? != AssertNoError(args, hostThrows).Returns?
  {
  }
}
