/** The repository's test scenarios, replayed against the model. The class
    under test has two methods: `bar` returns -1, and `foo` (which throws
    in the tests) is represented by a marker value its base returns. */
module Scenarios {
  import opened Outcomes
  import opened JsValues
  import opened Matching
  import opened Expectations
  import opened Interception
  import opened Handles
  import opened Stubs

  const FooReached: Value := Str("foo base called")

  /** The original implementation of the class under test. */
  function ObjectToStubBase(name: string, args: Args): Value
  {
    if name == "bar" then Num(-1) else FooReached
  }

  method NewObjectToStub() returns (stub: Stub)
    ensures fresh(stub) && fresh(stub.substitute) && stub.Valid()
    ensures stub.substitute.methods == {"foo", "bar"}
    ensures stub.substitute.base == ObjectToStubBase
    ensures stub.substitute.expectations == map[]
  {
    stub := new Stub({"foo", "bar"}, ObjectToStubBase);
  }

  /** A class is accepted and a non-function is refused. */
  method OnlyAcceptsFunctions() returns (accepted: bool, refused: bool)
    ensures accepted && refused
  {
    var good := Stub.Create(Constructor({"foo", "bar"}, ObjectToStubBase));
    var bad := Stub.Create(NotAFunction);
    accepted := good.Success?;
    refused := bad.Failure? && bad.error == NotAFunctionMessage;
  }

  /** An unstubbed call reaches the original implementation. */
  method CallsBaseByDefault() returns (bar: Value, foo: Value)
    ensures bar == Num(-1)
    ensures foo == FooReached
  {
    var stub := NewObjectToStub();
    bar := stub.substitute.Invoke("bar", []);
    foo := stub.substitute.Invoke("foo", []);
  }

  /** A stubbed method no longer reaches the original implementation. */
  method StubsInterceptsCalls() returns (configured: bool, foo: Value)
    ensures configured
    ensures foo == Undefined
  {
    var stub := NewObjectToStub();
    var state := stub.Stubs(Calls("foo", []));
    configured := state.Success?;
    foo := stub.substitute.Invoke("foo", []);
  }

  /** `andReturns` fixes the answer to the stubbed call. */
  method AndReturnsSetsReturnValue() returns (bar: Value)
    ensures bar == Num(123)
  {
    var stub := NewObjectToStub();
    var state := stub.Stubs(Calls("bar", []));
    state.value.AndReturns(Num(123));
    bar := stub.substitute.Invoke("bar", []);
  }

  /** `withCallback` computes the answer to the stubbed call. */
  method UsesCallback() returns (bar: Value)
    ensures bar == Num(123)
  {
    var stub := NewObjectToStub();
    var state := stub.Stubs(Calls("bar", []));
    state.value.WithCallback(_ => Num(123));
    bar := stub.substitute.Invoke("bar", []);
  }

  /** A callback takes precedence over a fixed return value. */
  method CallbackTakesPrecedence() returns (bar: Value)
    ensures bar == Num(7)
  {
    var stub := NewObjectToStub();
    var state := stub.Stubs(Calls("bar", []));
    state.value.WithCallback(_ => Num(7));
    state.value.AndReturns(Num(123));
    bar := stub.substitute.Invoke("bar", []);
  }

  /** The stubbed answer is given only while exactly one recorded call
      matches: a second identical call reaches the original. */
  method OnlyFirstIdenticalCallIsStubbed() returns (first: Value, second: Value)
    ensures first == Num(123)
    ensures second == Num(-1)
  {
    var stub := NewObjectToStub();
    var state := stub.Stubs(Calls("bar", []));
    var e := state.value.expectation;
    assert stub.substitute.expectations == map["bar" := e];
    state.value.AndReturns(Num(123));
    first := stub.substitute.Invoke("bar", []);
    assert e.recordedCalls == [] + [[]];
    CountMatchesAppend([], [], []);
    assert e.MatchStubbedArguments();
    second := stub.substitute.Invoke("bar", []);
    assert e.recordedCalls == [[]] + [[]];
    CountMatchesAppend([[]], [], []);
    assert !e.MatchStubbedArguments();
  }

  /** A call whose arguments differ from the stubbed ones reaches the
      original, and the stubbed call is still answered afterwards. */
  method OtherArgumentsReachBase() returns (other: Value, stubbed: Value)
    ensures other == Num(-1)
    ensures stubbed == Num(123)
  {
    var one, two := [Num(1)], [Num(2)];
    assert !StrictEquals(one[0], two[0]);
    CountMatchesAppend([], two, one);
    CountMatchesAppend([two], one, one);
    assert [two] + [one] == [two, one];
    var stub := NewObjectToStub();
    var state := stub.Stubs(Calls("bar", one));
    var e := state.value.expectation;
    state.value.AndReturns(Num(123));
    other := stub.substitute.Invoke("bar", two);
    assert e.recordedCalls == [two];
    assert !e.MatchStubbedArguments();
    stubbed := stub.substitute.Invoke("bar", one);
    assert e.recordedCalls == [two, one];
    assert e.MatchStubbedArguments();
  }

  /** A method stubbed with a NaN argument is never answered by the stub,
      because NaN is not strictly equal to itself. */
  method NaNArgumentNeverStubbed() returns (bar: Value)
    ensures bar == Num(-1)
  {
    var stub := NewObjectToStub();
    var state := stub.Stubs(Calls("bar", [NaN]));
    state.value.AndReturns(Num(123));
    bar := stub.substitute.Invoke("bar", [NaN]);
    assert [NaN][0].NaN?;
    NaNMatchesNothing(stub.substitute.expectations["bar"].recordedCalls, [NaN]);
  }

  /** Five calls give the five-times verdict and no other exact count. */
  method FiveCallsVerdicts() returns (five: bool, four: bool, any: bool)
    ensures five && !four && any
  {
    var stub := NewObjectToStub();
    var r1 := stub.substitute.Invoke("bar", []);
    var e := stub.substitute.expectations["bar"];
    assert stub.substitute.expectations == map["bar" := e];
    assert e.recordedCalls == [[]];
    var r2 := stub.substitute.Invoke("bar", []);
    assert e.recordedCalls == [[], []];
    var r3 := stub.substitute.Invoke("bar", []);
    assert e.recordedCalls == [[], [], []];
    var r4 := stub.substitute.Invoke("bar", []);
    assert e.recordedCalls == [[], [], [], []];
    var r5 := stub.substitute.Invoke("bar", []);
    assert e.recordedCalls == seq(5, _ => []);
    CountRepeatedCalls([], 5);
    var verdict := stub.AssertsThat(Calls("bar", []));
    five := verdict.value.WasCalledFiveTimes();
    four := verdict.value.WasCalledXTimes(4);
    any := verdict.value.WasCalledAnyNumberOfTimes();
  }

  /** Asserting about a method that was never touched answers false, even
      for zero calls. */
  method NeverCalledAnswersFalse() returns (once: bool, zero: bool)
    ensures !once && !zero
  {
    var stub := NewObjectToStub();
    var verdict := stub.AssertsThat(Calls("bar", []));
    once := verdict.value.WasCalled();
    zero := verdict.value.WasCalledXTimes(0);
  }

  /** `usingCallback` looks at every recorded call, whatever the queried
      arguments. */
  method UsingCallbackSeesEveryCall() returns (seen: bool, unseen: bool)
    ensures seen && !unseen
  {
    var stub := NewObjectToStub();
    var r1 := stub.substitute.Invoke("bar", [Num(1)]);
    var r2 := stub.substitute.Invoke("bar", [Num(2)]);
    var e := stub.substitute.expectations["bar"];
    assert e.recordedCalls[1] == [Num(2)];
    var verdict := stub.AssertsThat(Calls("bar", [Num(1)]));
    seen := verdict.value.UsingCallback(a => a == [Num(2)]);
    unseen := verdict.value.UsingCallback(a => a == [Num(3)]);
  }

  /** Clearing the history keeps the stubbed behaviour. */
  method ClearRecordedKeepsStub() returns (before: Value, after: Value)
    ensures before == Num(123) && after == Num(123)
  {
    var stub := NewObjectToStub();
    var state := stub.Stubs(Calls("bar", []));
    state.value.AndReturns(Num(123));
    before := stub.substitute.Invoke("bar", []);
    stub.ClearRecordedMethods();
    after := stub.substitute.Invoke("bar", []);
  }

  /** Clearing the stubbed methods drops the history as well, and calls
      reach the original again. */
  method ClearStubbedDropsEverything() returns (wasCalled: bool, bar: Value)
    ensures !wasCalled
    ensures bar == Num(-1)
  {
    var stub := NewObjectToStub();
    var state := stub.Stubs(Calls("bar", []));
    state.value.AndReturns(Num(123));
    var _ := stub.substitute.Invoke("bar", []);
    stub.ClearStubbedMethods();
    var verdict := stub.AssertsThat(Calls("bar", []));
    wasCalled := verdict.value.WasCalled();
    bar := stub.substitute.Invoke("bar", []);
  }

  /** A closure that throws still leaves both flags down, and a later call
      behaves as stubbed. */
  method ThrowingClosureResetsFlag() returns (failed: bool, bar: Value)
    ensures failed
    ensures bar == Undefined
  {
    var stub := NewObjectToStub();
    var state := stub.Stubs(CallsThenThrows("bar", [], Str("boom")));
    failed := state.Failure?;
    bar := stub.substitute.Invoke("bar", []);
  }
}
