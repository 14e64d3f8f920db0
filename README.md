# TeddyMocks recording and stubbing engine, in Dafny

TeddyMocks builds a substitute ("stub") object for a TypeScript class. Every
method of the class is replaced by an interceptor that does one of three
things, depending on two mode flags of the substitute object:

- **stub-configure** (`isStubbing`): the call installs a fresh
  `Expectation` for that method, capturing the call's arguments, and makes
  it the "last expectation";
- **assert** (`isAsserting`): the call looks up the method's expectation,
  stores in it how many recorded calls match the queried arguments, and
  makes it the last expectation; nothing is recorded;
- **passthrough** (neither flag): the call is appended to the method's
  recorded calls (creating the expectation on first use) and is answered
  with the stubbed value or callback result when exactly one recorded call
  matches the stubbed arguments, and by the original method otherwise.

The `Stub` facade raises a flag, runs the test's closure once and lowers
the flag again on every exit, then hands back a `State2` handle (to set a
return value or callback) or a `State3` handle (to turn the match count
into verdicts). It also clears the recorded history or the whole table.

The model keeps the source's object structure: `Expectation`,
`DynamicObject`, `Stub`, `State2` and `State3` are classes whose methods
update fields in place, so a handle and the substitute object share one
expectation just as they do in the source. The matching rule and the
history queries are pure functions (module `Matching`) with lemmas: the
count of matching calls equals the size of the set of matching positions,
never exceeds the history, grows by one exactly when a matching call is
appended, and is zero for arguments holding NaN. Module `Scenarios`
replays the repository's tests against the model's contracts.

Modules and files: `Outcomes`, `JsValues` (values.dfy); `Matching`
(matching.dfy); `Expectations` (expectation.dfy); `Interception`
(dynamic_object.dfy); `Handles` (handles.dfy); `Stubs` (stub.dfy);
`Scenarios` (scenarios.dfy). The source's `Stub.object` field is called
`substitute`, because `object` is a Dafny keyword.

Notable behaviour of the code as written, each proved:

- The stubbed answer is given only while exactly ONE recorded call matches
  the stubbed arguments (`=== 1` at TeddyMocks/TeddyMocks.ts:209). For any
  history and any NaN-free arguments, one more identical call makes two
  matches, so it reaches the original method
  (`Matching.SecondIdenticalCallNotStubbed`; on the tests' class,
  `Scenarios.OnlyFirstIdenticalCallIsStubbed`). After the history is
  cleared, the first call with the stubbed arguments is again the one
  matching call, for any NaN-free arguments
  (`Matching.FirstCallAfterClearMatchesOnce`; on the tests' class,
  `Scenarios.ClearRecordedKeepsStub`).
- Matching uses `===`, so a method stubbed with a NaN argument is never
  answered by the stub (`Matching.NaNMatchesNothing`,
  `Scenarios.NaNArgumentNeverStubbed`).
- Every count verdict is false for a method with no expectation, including
  "called zero times" (`Handles.NoExpectationNoVerdict`,
  `Scenarios.NeverCalledAnswersFalse`).
- `clearStubbedMethods` replaces the expectation table with an empty
  one (TeddyMocks/TeddyMocks.ts:69-72), so the recorded history is lost
  too (`Scenarios.ClearStubbedDropsEverything`).

I/O and oracles: the original method bodies are a total function
`base: (string, Args) -> Value` given to the substitute object. The class's
method names are a given set. A test closure is a value of type `Closure`:
one call then return, one call then throw, or throw before any call.
Callbacks and predicates are total functions over argument lists.

## Model

| member | source | states |
|---|---|---|
| Matching.CountMatches | TeddyMocks/TeddyMocks.ts:226-243 | the number of matching recorded calls never exceeds the number of recorded calls |
| Matching.CountMatchesIsCardinality | TeddyMocks/TeddyMocks.ts:226-243 | the count equals the number of positions whose call has the queried length and is strictly equal at every position |
| Matching.CountMatchesAppend | TeddyMocks/TeddyMocks.ts:216-218 | recording one more call raises the count by one exactly when that call matches, and by nothing otherwise |
| Matching.ArgsMatchSelf | TeddyMocks/TeddyMocks.ts:230-234 | an argument list matches itself exactly when none of its arguments is NaN |
| Matching.SecondIdenticalCallNotStubbed | TeddyMocks/TeddyMocks.ts:208-210 | when exactly one recorded call matches NaN-free arguments, recording them once more makes two matches, so the stubbed answer is not given |
| Matching.FirstCallAfterClearMatchesOnce | TeddyMocks/TeddyMocks.ts:74-80 | after the history is emptied, one call with the stubbed arguments is exactly one match iff they hold no NaN |
| Matching.CountRepeatedCalls | TeddyMocks/TeddyMocks.ts:226-243 | k identical calls without NaN give a count of k for their own arguments |
| Matching.NaNMatchesNothing | TeddyMocks/TeddyMocks.ts:233 | queried arguments that hold NaN match no recorded call, whatever the history |
| Matching.AnySatisfies | TeddyMocks/TeddyMocks.ts:129 | `some` over the history is true iff some recorded call satisfies the predicate |
| Expectations.Expectation.constructor | TeddyMocks/TeddyMocks.ts:204-206 | a new expectation holds the given stubbed arguments, an empty history, no callback, an undefined return value and no match count |
| Expectations.Expectation.MatchStubbedArguments | TeddyMocks/TeddyMocks.ts:208-210 | true iff the method was stubbed and exactly one recorded call matches the stubbed arguments |
| Expectations.Expectation.Match | TeddyMocks/TeddyMocks.ts:212-214 | stores the count of recorded calls matching the query and changes nothing else |
| Expectations.Expectation.Record | TeddyMocks/TeddyMocks.ts:216-218 | appends the call to the history, keeping earlier entries and every other field |
| Expectations.Expectation.GetReturnValue | TeddyMocks/TeddyMocks.ts:220-224 | the callback's result on the call's arguments when a callback is set, the fixed return value otherwise |
| Expectations.Expectation.CountMatchedMethods | TeddyMocks/TeddyMocks.ts:226-243 | the nested counting loop returns the number of matching recorded calls |
| Interception.DynamicObject.constructor | TeddyMocks/TeddyMocks.ts:139-146 | a new substitute object has both flags down, an empty table and no last expectation |
| Interception.DynamicObject.Invoke | TeddyMocks/TeddyMocks.ts:162-190 | configure mode replaces the method's entry by a fresh expectation of the call's arguments and makes it the last one; assert mode only sets the entry's match count and makes the entry (or null) the last one; passthrough records the call, creating the entry lazily, and answers with the stubbed value iff exactly one recorded call matches the stubbed arguments, else with the base method's result; in every mode each other method keeps its entry with all its fields, and the flags are kept |
| Handles.State2.constructor | TeddyMocks/TeddyMocks.ts:84-85 | the handle wraps the given expectation |
| Handles.State2.AndReturns | TeddyMocks/TeddyMocks.ts:87-89 | sets the return value and leaves callback, history and match count alone |
| Handles.State2.WithCallback | TeddyMocks/TeddyMocks.ts:91-93 | sets the callback and leaves return value, history and match count alone |
| Handles.State3.constructor | TeddyMocks/TeddyMocks.ts:97-98 | the handle wraps the given expectation, possibly null |
| Handles.State3.WasCalledInternal | TeddyMocks/TeddyMocks.ts:132-136 | an exact count for a non-negative argument, "at least once" for -1, false below -1, and false whenever there is no expectation or no stored count |
| Handles.State3.WasCalled | TeddyMocks/TeddyMocks.ts:100-102 | true iff the stored count is one |
| Handles.State3.WasCalledTwoTimes | TeddyMocks/TeddyMocks.ts:104-106 | true iff the stored count is two |
| Handles.State3.WasCalledThreeTimes | TeddyMocks/TeddyMocks.ts:108-110 | true iff the stored count is three |
| Handles.State3.WasCalledFourTimes | TeddyMocks/TeddyMocks.ts:112-114 | true iff the stored count is four |
| Handles.State3.WasCalledFiveTimes | TeddyMocks/TeddyMocks.ts:116-118 | true iff the stored count is five |
| Handles.State3.WasCalledAnyNumberOfTimes | TeddyMocks/TeddyMocks.ts:120-122 | true iff the stored count is positive, that is iff some exact verdict for a positive count holds |
| Handles.State3.WasCalledXTimes | TeddyMocks/TeddyMocks.ts:124-126 | true iff the stored count is x; for x = -1 the same answer as "any number of times"; false for x below -1 |
| Handles.State3.UsingCallback | TeddyMocks/TeddyMocks.ts:128-130 | true iff some recorded call, whatever the queried arguments, satisfies the predicate |
| Handles.ExactVerdictsExclusive | TeddyMocks/TeddyMocks.ts:132-136 | at most one exact-count verdict holds for a handle |
| Handles.NoExpectationNoVerdict | TeddyMocks/TeddyMocks.ts:132-136 | with no expectation every count verdict is false, zero times included |
| Stubs.Stub.constructor | TeddyMocks/TeddyMocks.ts:29-37 | the stub owns a fresh substitute object for the given methods and base behaviour |
| Stubs.Stub.Create | TeddyMocks/TeddyMocks.ts:29-37 | fails with the source's message exactly when given a non-function, and otherwise yields a fresh stub with an empty table |
| Stubs.Stub.Stubs | TeddyMocks/TeddyMocks.ts:39-52 | both flags are down on every exit; a throw propagates; the closure's call installs a fresh expectation of its arguments for that method only; the handle wraps exactly that expectation |
| Stubs.Stub.AssertsThat | TeddyMocks/TeddyMocks.ts:54-67 | both flags are down on every exit; no table entry, history, return value or callback changes; only the queried entry's match count may change (none when the closure throws first), and it becomes the count of matching calls; the handle's exact verdict for n holds iff the entry exists and n calls match |
| Stubs.Stub.ClearStubbedMethods | TeddyMocks/TeddyMocks.ts:69-72 | the table is empty afterwards and the last expectation is kept |
| Stubs.Stub.ClearRecordedMethods | TeddyMocks/TeddyMocks.ts:74-80 | every entry's history is empty afterwards, with the same keys, return values, callbacks and match counts |
| Scenarios.NewObjectToStub | TeddyMocks/TeddyMocksTests.ts:5-19 | builds a stub for the tests' two-method class |
| Scenarios.OnlyAcceptsFunctions | TeddyMocks/TeddyMocksTests.ts:21-34 | a class is accepted and a non-function refused |
| Scenarios.CallsBaseByDefault | TeddyMocks/TeddyMocksTests.ts:36-54 | unstubbed calls reach the original methods |
| Scenarios.StubsInterceptsCalls | TeddyMocks/TeddyMocksTests.ts:56-66 | a stubbed method is answered without reaching the original |
| Scenarios.AndReturnsSetsReturnValue | TeddyMocks/TeddyMocksTests.ts:68-76 | the stubbed call returns the value given to andReturns |
| Scenarios.UsesCallback | TeddyMocks/TeddyMocksTests.ts:89-96 | the stubbed call returns the callback's result |
| Scenarios.CallbackTakesPrecedence | TeddyMocks/TeddyMocks.ts:220-224 | with both a callback and a return value set, the callback answers |
| Scenarios.OnlyFirstIdenticalCallIsStubbed | TeddyMocks/TeddyMocks.ts:208-210 | the first identical call gets the stubbed value, the second reaches the original |
| Scenarios.OtherArgumentsReachBase | TeddyMocks/TeddyMocks.ts:179-186 | a call with other arguments reaches the original, and the stubbed call is still answered afterwards |
| Scenarios.NaNArgumentNeverStubbed | TeddyMocks/TeddyMocks.ts:233 | a call stubbed with NaN always reaches the original |
| Scenarios.FiveCallsVerdicts | TeddyMocks/TeddyMocks.ts:100-126 | after five identical calls the five-times and any-number verdicts hold and the four-times verdict does not |
| Scenarios.NeverCalledAnswersFalse | TeddyMocks/TeddyMocks.ts:169-176 | asserting about an untouched method answers false for once and for zero times |
| Scenarios.UsingCallbackSeesEveryCall | TeddyMocks/TeddyMocks.ts:128-130 | the predicate is tried on every recorded call, not just those matching the query |
| Scenarios.ClearRecordedKeepsStub | TeddyMocks/TeddyMocks.ts:74-80 | after clearing the history the stub still answers |
| Scenarios.ClearStubbedDropsEverything | TeddyMocks/TeddyMocks.ts:69-72 | after clearing the table the method is no longer reported as called and calls reach the original |
| Scenarios.ThrowingClosureResetsFlag | TeddyMocks/TeddyMocks.ts:39-52 | a closure that throws after its call propagates the throw, leaves the flag down and the stub installed |

## Left out

- Method discovery: the enumeration of the prototype's function-valued properties (TeddyMocks/TeddyMocks.ts:148-160) is JavaScript reflection; the method names are a given set.
- Base behaviour: the base constructor call (TeddyMocks/TeddyMocks.ts:193) and the original method bodies are foreign code; they are one total function of the method name and arguments, with no side effects on the substitute object and no exceptions.
- Closures: a test closure makes at most one call on the substitute object; closures that make several calls, none at all without throwing, or call other stub operations, are not modelled. Callbacks and predicates are total and side-effect free.
- Interface type check: the `typeof type !== "function"` test is a choice between two constructors of `TypeArg`, not a runtime type test.
- Numbers are integers plus NaN; fractional numbers, infinities and `-0` are not distinguished (none changes the outcome of `===` on the values modelled). A fractional or NaN argument to wasCalledXTimes is not modelled.
- Method names that coincide with members inherited from `Object.prototype` (such as `toString`) make the table lookup in the source find an inherited function; the model treats the table as a plain map.
- Handles.State3.UsingCallback: requires an expectation to be present, where the source dereferences a null expectation and throws.
- The `clear()` operation that the tests call (TeddyMocks/TeddyMocksTests.ts:84) does not exist in the source and is not part of this model.
- The global-namespace override scope, the argument-validation switch and the global stub adapter do not appear in TeddyMocks/TeddyMocks.ts and are not part of this model.
- The extra index and array arguments that `Array.prototype.some` passes to the predicate are not modelled.
