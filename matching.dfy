/** The argument-matching rule of an expectation, and the queries a test
    can make over a method's recorded call history. */
module Matching {
  import opened JsValues

  /** Two argument lists match when they have the same length and are
      strictly equal position by position. */
  predicate ArgsMatch(expected: Args, actual: Args)
  {
    |expected| == |actual| &&
    forall i :: 0 <= i < |expected| ==> StrictEquals(expected[i], actual[i])
  }

  /** The number of recorded calls that match `expected`, counting the
      history from its oldest entry to its newest. */
  function CountMatches(calls: seq<Args>, expected: Args): (r: nat)
    ensures r <= |calls|
  {
    if calls == [] then 0
    else
      CountMatches(calls[..|calls| - 1], expected) +
      (if ArgsMatch(expected, calls[|calls| - 1]) then 1 else 0)
  }

  /** Reference definition: the positions of the history whose call matches
      `expected`. */
  ghost function MatchingIndices(calls: seq<Args>, expected: Args): set<nat>
  {
    set i: nat | i < |calls| && ArgsMatch(expected, calls[i])
  }

  /** The count is exactly the number of matching recorded calls. */
  lemma {:induction false} CountMatchesIsCardinality(calls: seq<Args>, expected: Args)
    ensures CountMatches(calls, expected) == |MatchingIndices(calls, expected)|
  {
    if calls != [] {
      var n := |calls| - 1;
      var front := calls[..n];
      CountMatchesIsCardinality(front, expected);
      var before := MatchingIndices(front, expected);
      assert forall i: nat :: i < n ==> front[i] == calls[i];
      if ArgsMatch(expected, calls[n]) {
        assert MatchingIndices(calls, expected) == before + {n};
      } else {
        assert MatchingIndices(calls, expected) == before;
      }
    }
  }

  /** Appending one call to the history raises the count by one exactly
      when that call matches. */
  lemma CountMatchesAppend(calls: seq<Args>, call: Args, expected: Args)
    ensures CountMatches(calls + [call], expected) ==
            CountMatches(calls, expected) + (if ArgsMatch(expected, call) then 1 else 0)
  {
    assert (calls + [call])[..|calls|] == calls;
  }

  /** A list matches itself exactly when it holds no NaN. */
  lemma ArgsMatchSelf(a: Args)
    ensures ArgsMatch(a, a) <==> !HasNaN(a)
  {
  }

  /** Once exactly one recorded call matches `call`, recording `call` once
      more makes two matches, so the stubbed answer is no longer given. */
  lemma SecondIdenticalCallNotStubbed(calls: seq<Args>, call: Args)
    requires !HasNaN(call)
    requires CountMatches(calls, call) == 1
    ensures CountMatches(calls + [call], call) == 2
  {
    CountMatchesAppend(calls, call, call);
    ArgsMatchSelf(call);
  }

  /** After the history is emptied, the first call with the stubbed
      arguments is again the one matching call, unless they hold NaN. */
  lemma FirstCallAfterClearMatchesOnce(call: Args)
    ensures CountMatches([call], call) == 1 <==> !HasNaN(call)
  {
    CountMatchesAppend([], call, call);
    ArgsMatchSelf(call);
    assert [] + [call] == [call];
  }

  /** `k` identical calls without NaN all match their own argument list. */
  lemma {:induction false} CountRepeatedCalls(call: Args, k: nat)
    requires !HasNaN(call)
    ensures CountMatches(seq(k, _ => call), call) == k
  {
    if k > 0 {
      assert seq(k, _ => call)[..k - 1] == seq(k - 1, _ => call);
      CountRepeatedCalls(call, k - 1);
    }
  }

  /** An argument list holding NaN matches no recorded call at all. */
  lemma {:induction false} NaNMatchesNothing(calls: seq<Args>, expected: Args)
    requires HasNaN(expected)
    ensures CountMatches(calls, expected) == 0
  {
    if calls != [] {
      NaNMatchesNothing(calls[..|calls| - 1], expected);
    }
  }

  /** `Array.prototype.some` over the history: does any recorded call
      satisfy `p`? Calls are tried from the oldest. */
  function AnySatisfies(calls: seq<Args>, p: Args -> bool): (r: bool)
    ensures r <==> exists i :: 0 <= i < |calls| && p(calls[i])
  {
    if calls == [] then false
    else p(calls[0]) || AnySatisfies(calls[1..], p)
  }
}
