/** The per-method record of an intercepted method: how it was stubbed and
    every call it has received. */
module Expectations {
  import opened Outcomes
  import opened JsValues
  import opened Matching

  class Expectation {
    /** The arguments captured when the method was stubbed; None for an
        expectation created only to record calls. */
    const expectedArguments: Option<Args>
    var returnValue: Value
    var callback: Option<Args -> Value>
    /** Every call received outside assertion mode, oldest first. */
    var recordedCalls: seq<Args>
    /** The result of the last assertion query; None until one is made. */
    var matchCount: Option<nat>

    /** The state of a newly constructed expectation. */
    ghost predicate Initial(expected: Option<Args>)
      reads this
    {
      && expectedArguments == expected
      && returnValue == Undefined
      && callback.None?
      && recordedCalls == []
      && matchCount.None?
    }

    constructor (expected: Option<Args>)
      ensures Initial(expected)
    {
      expectedArguments := expected;
      returnValue := Undefined;
      callback := None;
      recordedCalls := [];
      matchCount := None;
    }

    /** Whether a call should be answered with the stubbed behaviour: the
        method was stubbed and exactly one recorded call matches the
        arguments it was stubbed with. */
    function MatchStubbedArguments(): (r: bool)
      reads this
      ensures r <==>
        expectedArguments.Some? &&
        |MatchingIndices(recordedCalls, expectedArguments.value)| == 1
    {
      match expectedArguments
      case None => false
      case Some(expected) =>
        CountMatchesIsCardinality(recordedCalls, expected);
        CountMatches(recordedCalls, expected) == 1
    }

    /** Stores the number of recorded calls matching `args`. */
    method Match(args: Args)
      modifies this
      ensures matchCount == Some(CountMatches(recordedCalls, args))
      ensures recordedCalls == old(recordedCalls)
      ensures returnValue == old(returnValue) && callback == old(callback)
    {
      var count := CountMatchedMethods(args);
      matchCount := Some(count);
    }

    /** Appends one call to the history. */
    method Record(args: Args)
      modifies this
      ensures recordedCalls == old(recordedCalls) + [args]
      ensures returnValue == old(returnValue) && callback == old(callback)
      ensures matchCount == old(matchCount)
    {
      recordedCalls := recordedCalls + [args];
    }

    /** The stubbed answer to a call: the callback's result when a callback
        is set, the fixed return value otherwise. */
    function GetReturnValue(args: Args): (r: Value)
      reads this
      ensures callback.Some? ==> r == callback.value(args)
      ensures callback.None? ==> r == returnValue
    {
      match callback
      case Some(f) => f(args)
      case None => returnValue
    }

    /** Counts the recorded calls with the same length as `expected` and
        strictly equal arguments at every position. */
    method CountMatchedMethods(expected: Args) returns (count: nat)
      ensures count == CountMatches(recordedCalls, expected)
      ensures count == |MatchingIndices(recordedCalls, expected)|
    {
      count := 0;
      var j := 0;
      while j < |recordedCalls|
        invariant 0 <= j <= |recordedCalls|
        invariant count == CountMatches(recordedCalls[..j], expected)
      {
        var actual := recordedCalls[j];
        ghost var matched := false;
        if |expected| == |actual| {
          var argumentsMatch := true;
          var i := 0;
          while i < |expected| && argumentsMatch
            invariant 0 <= i <= |expected|
            invariant argumentsMatch <==>
              forall k :: 0 <= k < i ==> StrictEquals(expected[k], actual[k])
          {
            argumentsMatch := StrictEquals(expected[i], actual[i]);
            i := i + 1;
          }
          if argumentsMatch {
            count := count + 1;
            matched := true;
          }
        }
        assert matched == ArgsMatch(expected, actual);
        assert recordedCalls[..j + 1] == recordedCalls[..j] + [actual];
        CountMatchesAppend(recordedCalls[..j], actual, expected);
        j := j + 1;
      }
      assert recordedCalls[..j] == recordedCalls;
      CountMatchesIsCardinality(recordedCalls, expected);
    }
  }
}
