/** The substitute object: every method of the stubbed type is replaced by
    an interceptor that configures a stub, answers an assertion query or
    records the call, depending on the object's two mode flags. */
module Interception {
  import opened Outcomes
  import opened JsValues
  import opened Matching
  import opened Expectations

  class DynamicObject {
    /** The names of the stubbed type's methods. */
    const methods: set<string>
    /** The original implementation of each method. */
    const base: (string, Args) -> Value
    var isStubbing: bool
    var isAsserting: bool
    /** From method name to that method's expectation, created lazily. */
    var expectations: map<string, Expectation>
    /** The expectation the most recent configuring or asserting call
        touched; null when none was. */
    var lastExpectation: Expectation?

    /** Only methods of the type have entries, and no two methods share
        one expectation object. */
    ghost predicate Valid()
      reads this
    {
      && expectations.Keys <= methods
      && forall m, n :: m in expectations && n in expectations && m != n ==>
           expectations[m] != expectations[n]
    }

    constructor (methods: set<string>, base: (string, Args) -> Value)
      ensures Valid()
      ensures this.methods == methods && this.base == base
      ensures !isStubbing && !isAsserting
      ensures expectations == map[] && lastExpectation == null
    {
      this.methods := methods;
      this.base := base;
      isStubbing := false;
      isAsserting := false;
      expectations := map[];
      lastExpectation := null;
    }

    /** The interceptor installed for method `name`, invoked with `args`.
        It never touches an expectation other than that of `name`, and in
        stub-configure mode not even that one. */
    method Invoke(name: string, args: Args) returns (result: Value)
      requires Valid()
      requires name in methods
      modifies this, if !isStubbing && name in expectations then {expectations[name]} else {}
      ensures Valid()
      ensures isStubbing == old(isStubbing) && isAsserting == old(isAsserting)
      // In every mode the other methods keep their entries, untouched.
      ensures forall m :: m in old(expectations) && m != name ==>
        && m in expectations
        && expectations[m] == old(expectations[m])
        && unchanged(old(expectations[m]))
      // Stub-configure mode: a fresh expectation replaces the method's entry.
      ensures old(isStubbing) ==>
        && lastExpectation != null
        && fresh(lastExpectation)
        && lastExpectation.Initial(Some(args))
        && expectations == old(expectations)[name := lastExpectation]
        && result == Undefined
      // Assert mode: only the queried entry's match count changes.
      ensures !old(isStubbing) && old(isAsserting) ==>
        && expectations == old(expectations)
        && lastExpectation == (if name in expectations then expectations[name] else null)
        && result == Undefined
        && (name in expectations ==>
              var e := expectations[name];
              && e.recordedCalls == old(e.recordedCalls)
              && e.returnValue == old(e.returnValue)
              && e.callback == old(e.callback)
              && e.matchCount == Some(CountMatches(e.recordedCalls, args)))
      // Passthrough mode: the call is recorded, then answered.
      ensures !old(isStubbing) && !old(isAsserting) ==>
        && lastExpectation == old(lastExpectation)
        && name in expectations
        && (var e := expectations[name];
            && (if name in old(expectations) then
                  && expectations == old(expectations)
                  && e.recordedCalls == old(e.recordedCalls) + [args]
                  && e.returnValue == old(e.returnValue)
                  && e.callback == old(e.callback)
                  && e.matchCount == old(e.matchCount)
                else
                  && fresh(e)
                  && expectations == old(expectations)[name := e]
                  && e.expectedArguments.None?
                  && e.recordedCalls == [args]
                  && e.returnValue == Undefined && e.callback.None? && e.matchCount.None?)
            && result == (if e.MatchStubbedArguments() then e.GetReturnValue(args) else base(name, args)))
    {
      if isStubbing {
        var e := new Expectation(Some(args));
        lastExpectation := e;
        expectations := expectations[name := e];
        result := Undefined;
      } else {
        var expectation: Expectation? := if name in expectations then expectations[name] else null;
        if isAsserting {
          lastExpectation := expectation;
          if lastExpectation != null {
            lastExpectation.Match(args);
          }
          result := Undefined;
        } else {
          if expectation == null {
            expectation := new Expectation(None);
            expectations := expectations[name := expectation];
          }
          expectation.Record(args);
          result := if expectation.MatchStubbedArguments()
                    then expectation.GetReturnValue(args)
                    else base(name, args);
        }
      }
    }
  }
}
