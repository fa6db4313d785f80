/** The newer engine's `Type.describe`, its `AssertionError` and its `assert` library. Every
    assertion takes its arguments by name (a missing one is `undefined`) and either returns or
    throws. */
module TrunkAsserts {
  import opened JsValues
  import opened Outcomes

  /** Type.describe(v): the `typeof` in braces, a space, then the value as `Array.join` renders
      it, so `null` and `undefined` show as nothing after the type. */
  function Describe(v: Value): string {
    "{" + TypeOf(v) + "} " + JoinText(v)
  }

  /** `null` and `undefined` describe as their bare type, and `null` cannot be told apart from an
      object whose text is empty. */
  lemma DescribeEmptyValues(id: nat)
    ensures Describe(Null) == "{object} " && Describe(Undefined) == "{undefined} "
    ensures Describe(Null) == Describe(Obj(id, ""))
  {
  }

  /** Values of different types never describe alike: the first letter of the type follows the
      opening brace, and the six type names start with six different letters. */
  lemma DescribeTellsTypesApart(a: Value, b: Value)
    requires TypeOf(a) != TypeOf(b)
    ensures Describe(a) != Describe(b)
  {
    assert Describe(a)[1] == TypeOf(a)[0];
    assert Describe(b)[1] == TypeOf(b)[0];
  }

  /** An assertion failure: the caller's message (any value), the cause, and the name of the
      failing assertion. */
  datatype AssertionError = AssertionError(message: Value, cause: string, funcName: string)
  {
    /** toString(): the type name, the message, the cause and the failing function, joined so
        that a `null` or `undefined` message shows as nothing. */
    function ToString(): (s: string)
      ensures |s| >= |ErrorName| + 2 && s[..|ErrorName| + 2] == ErrorName + ": "
      ensures var tail := "\nat " + funcName; |s| >= |tail| && s[|s| - |tail|..] == tail
      ensures message.Undefined? || message.Null? ==> s == ErrorName + ": \n" + cause + "\nat " + funcName
    {
      ErrorName + ": " + JoinText(message) + "\n" + cause + "\nat " + funcName
    }
  }

  /** AssertionError.prototype.name. */
  const ErrorName := "testboy.AssertionError"

  /** `new AssertionError(message, cause, srcFn)`: an empty `srcFn` is replaced by
      "[anonymous]()". */
  function NewError(message: Value, cause: string, srcFn: string): (e: AssertionError)
    ensures e.message == message && e.cause == cause
    ensures e.funcName == (if srcFn == "" then "[anonymous]()" else srcFn)
  {
    AssertionError(message, cause, if srcFn == "" then "[anonymous]()" else srcFn)
  }

  /** `String(ex)` for a thrown value: an AssertionError's toString(), any other value's text. */
  function ErrorText(t: Thrown<AssertionError>): string {
    match t
    case ThrownAssertion(e) => e.ToString()
    case ThrownValue(v) => ToText(v)
  }

  /** `fn()`: a function completes as the host says; anything else throws a TypeError. */
  function CallNoArgs(fn: Value, hostOutcome: Outcome<AssertionError>): (o: Outcome<AssertionError>)
    ensures fn.Fn? ==> o == hostOutcome
    ensures !fn.Fn? ==> o == Throws(ThrownValue(TypeError))
  {
    if fn.Fn? then hostOutcome else Throws(ThrownValue(TypeError))
  }

  /** The outcome of an assertion that holds when `ok`: otherwise it throws the error built from
      `message`, `cause` and `srcFn`. */
  function Check(ok: bool, message: Value, cause: string, srcFn: string): (r: Outcome<AssertionError>)
    ensures r.Returns? <==> ok
    ensures r.Throws? ==> r.thrown == ThrownAssertion(NewError(message, cause, srcFn))
  {
    if ok then Returns else Throws(ThrownAssertion(NewError(message, cause, srcFn)))
  }

  /** The error an assertion raises, for stating contracts. */
  function Raised(message: Value, cause: string, srcFn: string): Outcome<AssertionError> {
    Throws(ThrownAssertion(AssertionError(message, cause, srcFn)))
  }

  /** hasProperty(obj, propertyName, message): `found` is what `obj[propertyName]` reads. Reading
      a property of `null` or `undefined` throws a TypeError; otherwise it fails exactly when the
      property reads `undefined`. */
  function HasProperty(obj: Value, propertyName: Value, message: Value, found: Value): (r: Outcome<AssertionError>)
    ensures (obj.Undefined? || obj.Null?) ==> r == Throws(ThrownValue(TypeError))
    ensures !(obj.Undefined? || obj.Null?) ==> (r.Returns? <==> found != Undefined)
    ensures !(obj.Undefined? || obj.Null?) && r.Throws? ==> r == Raised(message,
      "Object doesn't have '" + ToText(propertyName) + "' method or property", "testboy.assert.hasProperty()")
  {
    if obj.Undefined? || obj.Null? then Throws(ThrownValue(TypeError))
    else Check(!StrictEquals(found, Undefined), message,
      "Object doesn't have '" + ToText(propertyName) + "' method or property", "testboy.assert.hasProperty()")
  }

  /** is(actual, expected, message): passes iff `actual === expected`. */
  function Is(actual: Value, expected: Value, message: Value): (r: Outcome<AssertionError>)
    ensures r.Returns? <==> StrictEquals(actual, expected)
    ensures r.Throws? ==> r == Raised(message,
      "Expected value " + Describe(expected) + " instead of " + Describe(actual), "testboy.assert.is()")
  {
    Check(StrictEquals(actual, expected), message,
      "Expected value " + Describe(expected) + " instead of " + Describe(actual), "testboy.assert.is()")
  }

  /** isTrue(value, message): passes only for the boolean `true`. */
  function IsTrue(value: Value, message: Value): (r: Outcome<AssertionError>)
    ensures r.Returns? <==> value == Bool(true)
    ensures r.Throws? ==> r == Raised(message, "Passed value is not {boolean} true", "testboy.assert.isTrue()")
  {
    assert "Passed value is not " + Describe(Bool(true)) == "Passed value is not {boolean} true";
    Check(StrictEquals(value, Bool(true)), message, "Passed value is not " + Describe(Bool(true)), "testboy.assert.isTrue()")
  }

  /** isFalse(value, message): passes only for the boolean `false`. */
  function IsFalse(value: Value, message: Value): (r: Outcome<AssertionError>)
    ensures r.Returns? <==> value == Bool(false)
    ensures r.Throws? ==> r == Raised(message, "Passed value is not {boolean} false", "testboy.assert.isFalse()")
  {
    assert "Passed value is not " + Describe(Bool(false)) == "Passed value is not {boolean} false";
    Check(StrictEquals(value, Bool(false)), message, "Passed value is not " + Describe(Bool(false)), "testboy.assert.isFalse()")
  }

  /** isSomething(value, message): fails exactly for `null` and `undefined`. */
  function IsSomething(value: Value, message: Value): (r: Outcome<AssertionError>)
    ensures r.Throws? <==> value.Undefined? || value.Null?
    ensures r.Throws? ==> r == Raised(message, "Passed value is " + Describe(value), "testboy.assert.isSomething()")
  {
    Check(!(StrictEquals(value, Undefined) || StrictEquals(value, Null)), message,
      "Passed value is " + Describe(value), "testboy.assert.isSomething()")
  }

  /** isNotUndefined(value, message): fails exactly for `undefined`. */
  function IsNotUndefined(value: Value, message: Value): (r: Outcome<AssertionError>)
    ensures r.Throws? <==> value.Undefined?
    ensures r.Throws? ==> r == Raised(message, "Passed value is {undefined} ", "testboy.assert.isNotUndefined()")
  {
    assert value.Undefined? ==> "Passed value is " + Describe(value) == "Passed value is {undefined} ";
    Check(!StrictEquals(value, Undefined), message, "Passed value is " + Describe(value), "testboy.assert.isNotUndefined()")
  }

  /** isUndefined(value, message): passes exactly for `undefined`. */
  function IsUndefined(value: Value, message: Value): (r: Outcome<AssertionError>)
    ensures r.Returns? <==> value.Undefined?
    ensures r.Throws? ==> r == Raised(message, "Passed value is other than {undefined} ", "testboy.assert.isUndefined()")
  {
    assert "Passed value is other than " + Describe(Undefined) == "Passed value is other than {undefined} ";
    Check(StrictEquals(value, Undefined), message, "Passed value is other than " + Describe(Undefined), "testboy.assert.isUndefined()")
  }

  /** isNull(value, message): passes exactly for `null`. */
  function IsNull(value: Value, message: Value): (r: Outcome<AssertionError>)
    ensures r.Returns? <==> value.Null?
    ensures r.Throws? ==> r == Raised(message, "Passed value is other than {object} ", "testboy.assert.isNull()")
  {
    assert "Passed value is other than " + Describe(Null) == "Passed value is other than {object} ";
    Check(StrictEquals(value, Null), message, "Passed value is other than " + Describe(Null), "testboy.assert.isNull()")
  }

  /** isNotNull(value, message): fails exactly for `null`. */
  function IsNotNull(value: Value, message: Value): (r: Outcome<AssertionError>)
    ensures r.Throws? <==> value.Null?
    ensures r.Throws? ==> r == Raised(message, "Passed value is {object} ", "testboy.assert.isNotNull()")
  {
    assert value.Null? ==> "Passed value is " + Describe(value) == "Passed value is {object} ";
    Check(!StrictEquals(value, Null), message, "Passed value is " + Describe(value), "testboy.assert.isNotNull()")
  }

  /** isTypeOf(value, typeName, message): passes iff `typeof value === typeName`. */
  function IsTypeOf(value: Value, typeName: Value, message: Value): (r: Outcome<AssertionError>)
    ensures r.Returns? <==> typeName == Str(TypeOf(value))
    ensures r.Throws? ==> r == Raised(message, "Passed value is not of " + ToText(typeName) + "type", "testboy.assert.isTypeOf()")
  {
    Check(StrictEquals(Str(TypeOf(value)), typeName), message,
      "Passed value is not of " + ToText(typeName) + "type", "testboy.assert.isTypeOf()")
  }

  /** isInstanceOf(value, ctor, message) as written: the test reads `(!value) instanceof ctor`,
      a boolean primitive, which is never an instance, so nothing is ever reported; only a
      non-callable `ctor` makes it throw (a TypeError). */
  function IsInstanceOfAsWritten(value: Value, ctor: Value, message: Value): (r: Outcome<AssertionError>)
    ensures r.Returns? <==> ctor.Fn?
    ensures r.Throws? ==> r == Throws(ThrownValue(TypeError))
  {
    var negated := Bool(!Truthy(value));
    var isInstance := if !ctor.Fn? then None else Some(negated.Obj? || negated.Fn?);
    if isInstance.None? then Throws(ThrownValue(TypeError))
    else Check(!isInstance.value, message,
      "Passed value is not an instance of the specified constructor", "testboy.assert.isInstanceOf()")
  }

  /** isInstanceOf(value, ctor, message) as intended, `!(value instanceof ctor)`: a primitive is
      never an instance; for an object or a function the host's prototype-chain answer decides. */
  function IsInstanceOf(value: Value, ctor: Value, message: Value, hostIsInstance: bool): (r: Outcome<AssertionError>)
    ensures !ctor.Fn? ==> r == Throws(ThrownValue(TypeError))
    ensures ctor.Fn? ==> (r.Returns? <==> (value.Obj? || value.Fn?) && hostIsInstance)
    ensures ctor.Fn? && r.Throws? ==> r == Raised(message,
      "Passed value is not an instance of the specified constructor", "testboy.assert.isInstanceOf()")
  {
    if !ctor.Fn? then Throws(ThrownValue(TypeError))
    else Check((value.Obj? || value.Fn?) && hostIsInstance, message,
      "Passed value is not an instance of the specified constructor", "testboy.assert.isInstanceOf()")
  }

  /** throwsNoError(fn, message): calls `fn()`; fails iff the call throws, and shows what it
      threw. The call's own exception never escapes. */
  function ThrowsNoError(fn: Value, message: Value, hostOutcome: Outcome<AssertionError>): (r: Outcome<AssertionError>)
    ensures r.Returns? <==> CallNoArgs(fn, hostOutcome).Returns?
    ensures r.Throws? ==> r == Raised(message,
      "Function threw an error\n" + ErrorText(CallNoArgs(fn, hostOutcome).thrown), "testboy.assert.throwsNoError()")
  {
    var call := CallNoArgs(fn, hostOutcome);
    if call.Returns? then Returns
    else Check(false, message, "Function threw an error\n" + ErrorText(call.thrown), "testboy.assert.throwsNoError()")
  }

  /** throwsError(fn, message): calls `fn()`; fails iff the call returns. */
  function ThrowsError(fn: Value, message: Value, hostOutcome: Outcome<AssertionError>): (r: Outcome<AssertionError>)
    ensures r.Returns? <==> CallNoArgs(fn, hostOutcome).Throws?
    ensures r.Throws? ==> r == Raised(message,
      "Function didn't throw an error when it was expected", "testboy.assert.throwsError()")
  {
    Check(CallNoArgs(fn, hostOutcome).Throws?, message,
      "Function didn't throw an error when it was expected", "testboy.assert.throwsError()")
  }

  /** The precedence slip: `isInstanceOf(5, Object)` passes as written although 5 is no
      instance; the intended check reports it. */
  lemma IsInstanceOfNeverReports(value: Value, ctor: Value, message: Value, hostIsInstance: bool)
    ensures IsInstanceOfAsWritten(value, ctor, message).Throws? ==> !IsInstanceOfAsWritten(value, ctor, message).thrown.ThrownAssertion?
    ensures ctor.Fn? && value.Int? ==>
      (IsInstanceOfAsWritten(value, ctor, message).Returns?
       && IsInstanceOf(value, ctor, message, hostIsInstance).Throws?
       && IsInstanceOf(value, ctor, message, hostIsInstance).thrown.ThrownAssertion?)
  {
    var w := IsInstanceOfAsWritten(value, ctor, message);
    assert w.Throws? ==> w.thrown == ThrownValue(TypeError);
    if ctor.Fn? && value.Int? {
      var r := IsInstanceOf(value, ctor, message, hostIsInstance);
      assert r.Throws? && r.thrown.ThrownAssertion?;
    }
  }

  /** `is` compares without coercion: a number and its own text differ (5 and "5"), and the
      cause shows two different descriptions. */
  lemma IsDoesNotCoerce(n: int, message: Value)
    ensures var r := Is(Int(n), Str(IntToString(n)), message);
      r.Throws? && r.thrown.ThrownAssertion? && r.thrown.error.message == message
    ensures Describe(Int(n)) != Describe(Str(IntToString(n)))
  {
    DescribeTellsTypesApart(Int(n), Str(IntToString(n)));
  }

  /** For any function and any outcome of calling it, exactly one of throwsError and
      throwsNoError passes. */
  lemma ThrowAssertionsAreComplementary(fn: Value, hostOutcome: Outcome<AssertionError>)
    ensures ThrowsError(fn, Undefined, hostOutcome).Returns? != ThrowsNoError(fn, Undefined, hostOutcome).Returns?
  {
  }

  /** An outcome an assertion may have: it returns, or it throws an AssertionError. */
  predicate Reports(r: Outcome<AssertionError>) {
    r.Returns? || r.thrown.ThrownAssertion?
  }

  /** The value assertions and the two throw assertions either return or throw an
      AssertionError, never anything else, whatever they are given. */
  lemma AssertionsThrowOnlyAssertionErrors(a: Value, b: Value, m: Value, hostOutcome: Outcome<AssertionError>)
    ensures Reports(Is(a, b, m)) && Reports(IsTrue(a, m)) && Reports(IsFalse(a, m))
    ensures Reports(IsSomething(a, m)) && Reports(IsNotUndefined(a, m)) && Reports(IsUndefined(a, m))
    ensures Reports(IsNull(a, m)) && Reports(IsNotNull(a, m)) && Reports(IsTypeOf(a, b, m))
    ensures Reports(ThrowsError(a, m, hostOutcome)) && Reports(ThrowsNoError(a, m, hostOutcome))
  {
    ComparisonsReport(a, b, m);
    BooleanChecksReport(a, m);
    EmptinessChecksReport(a, m);
    ThrowChecksReport(a, m, hostOutcome);
  }

  lemma ComparisonsReport(a: Value, b: Value, m: Value)
    ensures Reports(Is(a, b, m)) && Reports(IsTypeOf(a, b, m))
  {
  }

  lemma BooleanChecksReport(a: Value, m: Value)
    ensures Reports(IsTrue(a, m)) && Reports(IsFalse(a, m))
  {
  }

  lemma EmptinessChecksReport(a: Value, m: Value)
    ensures Reports(IsSomething(a, m)) && Reports(IsNotUndefined(a, m)) && Reports(IsUndefined(a, m))
    ensures Reports(IsNull(a, m)) && Reports(IsNotNull(a, m))
  {
  }

  lemma ThrowChecksReport(a: Value, m: Value, hostOutcome: Outcome<AssertionError>)
    ensures Reports(ThrowsError(a, m, hostOutcome)) && Reports(ThrowsNoError(a, m, hostOutcome))
  {
  }
}
