/** The fluent handles that `stubs` and `assertsThat` hand back. Each wraps
    an expectation by reference, so it sees and makes changes that the
    substitute object shares. */
module Handles {
  import opened Outcomes
  import opened JsValues
  import opened Matching
  import opened Expectations

  /** Binds the behaviour of a stubbed call. */
  class State2 {
    const expectation: Expectation

    constructor (expectation: Expectation)
      ensures this.expectation == expectation
    {
      this.expectation := expectation;
    }

    /** Sets the fixed return value and nothing else. */
    method AndReturns(u: Value)
      modifies expectation
      ensures expectation.returnValue == u
      ensures expectation.callback == old(expectation.callback)
      ensures expectation.recordedCalls == old(expectation.recordedCalls)
      ensures expectation.matchCount == old(expectation.matchCount)
    {
      expectation.returnValue := u;
    }

    /** Sets the callback that computes the answer, and nothing else. */
    method WithCallback(callback: Args -> Value)
      modifies expectation
      ensures expectation.callback == Some(callback)
      ensures expectation.returnValue == old(expectation.returnValue)
      ensures expectation.recordedCalls == old(expectation.recordedCalls)
      ensures expectation.matchCount == old(expectation.matchCount)
    {
      expectation.callback := Some(callback);
    }
  }

  /** Turns the match count of an assertion query into verdicts. The
      expectation is null when the queried method had no entry. */
  class State3 {
    const lastExpectation: Expectation?

    constructor (lastExpectation: Expectation?)
      ensures this.lastExpectation == lastExpectation
    {
      this.lastExpectation := lastExpectation;
    }

    /** The match count the last query stored, if any. */
    ghost function Count(): Option<nat>
      reads lastExpectation
    {
      if lastExpectation == null then None else lastExpectation.matchCount
    }

    /** The shared verdict: `times` is an exact count, or -1 for "at least
        once"; false when there was no expectation or no query. */
    function WasCalledInternal(times: int): (r: bool)
      reads lastExpectation
      ensures r ==> Count().Some?
      ensures times >= 0 ==> (r <==> Count() == Some(times))
      ensures times == -1 ==> (r <==> Count().Some? && Count().value > 0)
      ensures times < -1 ==> !r
    {
      if lastExpectation == null then false
      else match lastExpectation.matchCount
        case None => false
        case Some(count) => if times == -1 then count > 0 else count == times
    }

    function WasCalled(): (r: bool)
      reads lastExpectation
      ensures r <==> Count() == Some(1)
    {
      WasCalledInternal(1)
    }

    function WasCalledTwoTimes(): (r: bool)
      reads lastExpectation
      ensures r <==> Count() == Some(2)
    {
      WasCalledInternal(2)
    }

    function WasCalledThreeTimes(): (r: bool)
      reads lastExpectation
      ensures r <==> Count() == Some(3)
    {
      WasCalledInternal(3)
    }

    function WasCalledFourTimes(): (r: bool)
      reads lastExpectation
      ensures r <==> Count() == Some(4)
    {
      WasCalledInternal(4)
    }

    function WasCalledFiveTimes(): (r: bool)
      reads lastExpectation
      ensures r <==> Count() == Some(5)
    {
      WasCalledInternal(5)
    }

    function WasCalledAnyNumberOfTimes(): (r: bool)
      reads lastExpectation
      ensures r <==> Count().Some? && Count().value > 0
      ensures r <==> exists n: nat :: n > 0 && WasCalledXTimes(n)
    {
      var r := WasCalledInternal(-1);
      assert r ==> WasCalledXTimes(Count().value);
      r
    }

    /** An exact count `x`, or -1 for "any number of times". */
    function WasCalledXTimes(x: int): (r: bool)
      reads lastExpectation
      ensures x >= 0 ==> (r <==> Count() == Some(x))
      ensures x == -1 ==> (r <==> Count().Some? && Count().value > 0)
      ensures x < -1 ==> !r
    {
      WasCalledInternal(x)
    }

    /** Whether some recorded call, whatever its arguments, satisfies `p`. */
    function UsingCallback(p: Args -> bool): (r: bool)
      requires lastExpectation != null
      reads lastExpectation
      ensures r <==> exists i :: 0 <= i < |lastExpectation.recordedCalls| &&
                                 p(lastExpectation.recordedCalls[i])
    {
      AnySatisfies(lastExpectation.recordedCalls, p)
    }
  }

  /** At most one exact-count verdict holds for a handle. */
  lemma ExactVerdictsExclusive(s: State3, m: nat, n: nat)
    requires s.WasCalledXTimes(m) && s.WasCalledXTimes(n)
    ensures m == n
  {
  }

  /** "Called zero times" is not the answer for a method with no entry:
      every verdict is false then. */
  lemma NoExpectationNoVerdict(s: State3, x: int)
    requires s.lastExpectation == null
    ensures !s.WasCalledXTimes(x) && !s.WasCalledAnyNumberOfTimes()
  {
  }
}
