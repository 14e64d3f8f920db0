/** The facade a test uses: it owns the substitute object and toggles its
    mode flags around one run of a configuring or asserting closure. */
module Stubs {
  import opened Outcomes
  import opened JsValues
  import opened Matching
  import opened Expectations
  import opened Interception
  import opened Handles

  /** What the Stub constructor is given: a class, described by its method
      names and their original implementations, or a non-function value. */
  datatype TypeArg =
    | Constructor(methods: set<string>, base: (string, Args) -> Value)
    | NotAFunction

  /** A test's closure `s => s.name(args...)` as run against the substitute
      object: it makes its one call and returns, makes its call and then
      throws, or throws before making any call. */
  datatype Closure =
    | Calls(name: string, args: Args)
    | CallsThenThrows(name: string, args: Args, error: Value)
    | Throws(error: Value)

  /** The message the Stub constructor throws for a non-function. */
  const NotAFunctionMessage: string := "type must be an function"

  class Stub {
    const substitute: DynamicObject

    /** Between operations both mode flags are down. */
    ghost predicate Valid()
      reads this, substitute
    {
      substitute.Valid() && !substitute.isStubbing && !substitute.isAsserting
    }

    constructor (methods: set<string>, base: (string, Args) -> Value)
      ensures Valid() && fresh(substitute)
      ensures substitute.methods == methods && substitute.base == base
      ensures substitute.expectations == map[] && substitute.lastExpectation == null
    {
      substitute := new DynamicObject(methods, base);
    }

    /** `new Stub(type)`: refuses anything that is not a function. */
    static method Create(t: TypeArg) returns (r: Result<Stub, string>)
      ensures r.Failure? <==> t.NotAFunction?
      ensures r.Failure? ==> r.error == NotAFunctionMessage
      ensures r.Success? ==>
        && fresh(r.value) && fresh(r.value.substitute) && r.value.Valid()
        && r.value.substitute.methods == t.methods && r.value.substitute.base == t.base
        && r.value.substitute.expectations == map[] && r.value.substitute.lastExpectation == null
    {
      match t
      case NotAFunction =>
        r := Failure(NotAFunctionMessage);
      case Constructor(methods, base) =>
        var s := new Stub(methods, base);
        r := Success(s);
    }

    /** Runs `closure` once in stub-configure mode. The flag is lowered on
        every exit; a throw propagates, otherwise the handle wraps the
        expectation the closure's call created. */
    method Stubs(closure: Closure) returns (r: Result<State2, Value>)
      requires Valid()
      requires !closure.Throws? ==> closure.name in substitute.methods
      modifies substitute
      ensures Valid()
      ensures closure.Throws? ==>
        && r == Failure(closure.error)
        && substitute.expectations == old(substitute.expectations)
        && substitute.lastExpectation == old(substitute.lastExpectation)
      ensures !closure.Throws? ==>
        && substitute.lastExpectation != null
        && fresh(substitute.lastExpectation)
        && substitute.lastExpectation.Initial(Some(closure.args))
        && substitute.expectations == old(substitute.expectations)[closure.name := substitute.lastExpectation]
      ensures closure.CallsThenThrows? ==> r == Failure(closure.error)
      ensures closure.Calls? ==>
        r.Success? && fresh(r.value) && r.value.expectation == substitute.lastExpectation
    {
      substitute.isStubbing := true;
      match closure {
        case Throws(error) =>
          r := Failure(error);
        case CallsThenThrows(name, args, error) =>
          var _ := substitute.Invoke(name, args);
          r := Failure(error);
        case Calls(name, args) =>
          var _ := substitute.Invoke(name, args);
          var handle := new State2(substitute.lastExpectation);
          r := Success(handle);
      }
      // the finally block
      substitute.isStubbing := false;
    }

    /** Runs `closure` once in assert mode. The flag is lowered on every
        exit; nothing is recorded; a throw propagates, otherwise the handle
        wraps the queried method's entry, or null when it has none. */
    method AssertsThat(closure: Closure) returns (r: Result<State3, Value>)
      requires Valid()
      requires !closure.Throws? ==> closure.name in substitute.methods
      modifies substitute,
        if !closure.Throws? && closure.name in substitute.expectations
        then {substitute.expectations[closure.name]} else {}
      ensures Valid()
      ensures substitute.expectations == old(substitute.expectations)
      ensures forall m :: m in substitute.expectations &&
                          (closure.Throws? || m != closure.name) ==>
        substitute.expectations[m].matchCount == old(substitute.expectations[m].matchCount)
      ensures forall m :: m in substitute.expectations ==>
        && substitute.expectations[m].recordedCalls == old(substitute.expectations[m].recordedCalls)
        && substitute.expectations[m].returnValue == old(substitute.expectations[m].returnValue)
        && substitute.expectations[m].callback == old(substitute.expectations[m].callback)
      ensures closure.Throws? ==>
        && r == Failure(closure.error)
        && substitute.lastExpectation == old(substitute.lastExpectation)
      ensures !closure.Throws? ==>
        var name := closure.name;
        && substitute.lastExpectation == (if name in substitute.expectations then substitute.expectations[name] else null)
        && (name in substitute.expectations ==>
              substitute.expectations[name].matchCount ==
                Some(CountMatches(substitute.expectations[name].recordedCalls, closure.args)))
      ensures closure.CallsThenThrows? ==> r == Failure(closure.error)
      ensures closure.Calls? ==>
        && r.Success? && fresh(r.value)
        && r.value.lastExpectation == substitute.lastExpectation
        && (forall n: nat :: r.value.WasCalledXTimes(n) <==>
              closure.name in substitute.expectations &&
              n == CountMatches(substitute.expectations[closure.name].recordedCalls, closure.args))
    {
      substitute.isAsserting := true;
      match closure {
        case Throws(error) =>
          r := Failure(error);
        case CallsThenThrows(name, args, error) =>
          var _ := substitute.Invoke(name, args);
          r := Failure(error);
        case Calls(name, args) =>
          var _ := substitute.Invoke(name, args);
          var handle := new State3(substitute.lastExpectation);
          r := Success(handle);
      }
      // the finally block
      substitute.isAsserting := false;
    }

    /** Drops the whole expectation table, stubbed behaviour and recorded
        history alike. */
    method ClearStubbedMethods()
      requires Valid()
      modifies substitute
      ensures Valid()
      ensures substitute.expectations == map[]
      ensures substitute.lastExpectation == old(substitute.lastExpectation)
    {
      substitute.expectations := map[];
    }

    /** Empties the history of every entry and keeps everything else. */
    method ClearRecordedMethods()
      requires Valid()
      modifies substitute.expectations.Values
      ensures Valid()
      ensures substitute.expectations == old(substitute.expectations)
      ensures forall m :: m in substitute.expectations ==>
        && substitute.expectations[m].recordedCalls == []
        && substitute.expectations[m].returnValue == old(substitute.expectations[m].returnValue)
        && substitute.expectations[m].callback == old(substitute.expectations[m].callback)
        && substitute.expectations[m].matchCount == old(substitute.expectations[m].matchCount)
    {
      var pending := substitute.expectations.Keys;
      while pending != {}
        invariant pending <= substitute.expectations.Keys
        invariant forall m :: m in substitute.expectations && m !in pending ==>
          substitute.expectations[m].recordedCalls == []
        invariant forall m :: m in substitute.expectations ==>
          && substitute.expectations[m].returnValue == old(substitute.expectations[m].returnValue)
          && substitute.expectations[m].callback == old(substitute.expectations[m].callback)
          && substitute.expectations[m].matchCount == old(substitute.expectations[m].matchCount)
        decreases pending
      {
        var name :| name in pending;
        substitute.expectations[name].recordedCalls := [];
        pending := pending - {name};
      }
    }
  }
}
