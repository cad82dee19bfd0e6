/**
 * `fetch_weather_batch`: fetch the locations one after another, keep the
 * readings, and apply the error policy to wrapped service errors only.
 *
 * The per-location fetch is the parameter `fetch`; it receives the call
 * number as well as the location, so the same location may fare differently
 * on different calls, as it can against a live service.
 */
module Batch {
  import opened WeatherService

  /** The policy under which the batch re-raises a service error. */
  const RaisePolicy: string := "raise"

  /** The policy the batch uses when the caller names none. */
  const SkipPolicy: string := "skip"

  /** The outcomes of the first `n` fetches, in call order. */
  function Attempts(locations: seq<Location>, fetch: (nat, Location) -> Outcome<Reading>, n: nat)
    : seq<Outcome<Reading>>
    requires n <= |locations|
  {
    seq(n, i requires 0 <= i < n => fetch(i, locations[i]))
  }

  /** The readings of the successful outcomes, in order. */
  function Successes(os: seq<Outcome<Reading>>): seq<Reading>
  {
    if |os| == 0 then []
    else Successes(os[..|os| - 1]) + (if os[|os| - 1].Ok? then [os[|os| - 1].value] else [])
  }

  /** An outcome after which the batch carries on under policy `onError`. */
  predicate Tolerated(o: Outcome<Reading>, onError: string)
  {
    o.Ok? || (o.ServiceError? && onError != RaisePolicy)
  }

  /** Every reading kept came from some successful outcome, and no more readings than outcomes are kept. */
  lemma {:induction false} SuccessesFromOutcomes(os: seq<Outcome<Reading>>)
    ensures |Successes(os)| <= |os|
    ensures forall r :: r in Successes(os) ==> Ok(r) in os
    decreases |os|
  {
    if |os| > 0 {
      var init := os[..|os| - 1];
      SuccessesFromOutcomes(init);
      forall r | r in Successes(os)
        ensures Ok(r) in os
      {
        if r in Successes(init) {
          assert Ok(r) in init;
          var i :| 0 <= i < |init| && init[i] == Ok(r);
          assert os[i] == Ok(r);
        } else {
          assert os[|os| - 1] == Ok(r);
        }
      }
    }
  }

  /** When every fetch succeeds, every location contributes its reading, in order. */
  lemma {:induction false} AllSucceed(os: seq<Outcome<Reading>>)
    requires forall i :: 0 <= i < |os| ==> os[i].Ok?
    ensures |Successes(os)| == |os|
    ensures forall i :: 0 <= i < |os| ==> Successes(os)[i] == os[i].value
    decreases |os|
  {
    if |os| > 0 {
      AllSucceed(os[..|os| - 1]);
    }
  }

  /**
   * Runs the batch. `calls` is how many times `fetch` was invoked. The batch
   * returns the readings only if no outcome stopped it; otherwise it returns
   * the error of the last call, which is the first one the policy does not
   * tolerate. Partial readings are never returned with an error.
   */
  method FetchWeatherBatch(
    locations: seq<Location>,
    onError: string := SkipPolicy,
    fetch: (nat, Location) -> Outcome<Reading>)
    returns (result: Outcome<seq<Reading>>, calls: nat)
    ensures calls <= |locations|
    ensures |locations| == 0 ==> result == Ok([]) && calls == 0
    ensures result.Ok? <==> forall i :: 0 <= i < |locations| ==> Tolerated(fetch(i, locations[i]), onError)
    ensures result.Ok? ==>
      && calls == |locations|
      && result.value == Successes(Attempts(locations, fetch, |locations|))
      && |result.value| <= |locations|
    ensures !result.Ok? ==>
      && 0 < calls
      && (forall i :: 0 <= i < calls - 1 ==> Tolerated(fetch(i, locations[i]), onError))
      && !Tolerated(fetch(calls - 1, locations[calls - 1]), onError)
      && (result.ServiceError? ==> fetch(calls - 1, locations[calls - 1]) == ServiceError(result.message))
      && (result.OtherError? ==> fetch(calls - 1, locations[calls - 1]) == OtherError(result.fault))
    ensures result.ServiceError? ==> onError == RaisePolicy
  {
    var readings: seq<Reading> := [];
    var i := 0;
    while i < |locations|
      invariant 0 <= i <= |locations|
      invariant forall j :: 0 <= j < i ==> Tolerated(fetch(j, locations[j]), onError)
      invariant readings == Successes(Attempts(locations, fetch, i))
    {
      var outcome := fetch(i, locations[i]);
      assert Attempts(locations, fetch, i + 1)[..i] == Attempts(locations, fetch, i);
      match outcome {
        case Ok(reading) =>
          readings := readings + [reading];
        case ServiceError(message) =>
          if onError == RaisePolicy {
            return ServiceError(message), i + 1;
          }
        case OtherError(fault) =>
          return OtherError(fault), i + 1;
      }
      i := i + 1;
    }
    SuccessesFromOutcomes(Attempts(locations, fetch, |locations|));
    return Ok(readings), |locations|;
  }

  /** When every fetch succeeds, the kept readings are one per location, in input order, under any policy. */
  lemma AllOkKeepsEveryReading(locations: seq<Location>, fetch: (nat, Location) -> Outcome<Reading>)
    requires forall i :: 0 <= i < |locations| ==> fetch(i, locations[i]).Ok?
    ensures |Successes(Attempts(locations, fetch, |locations|))| == |locations|
    ensures forall i :: 0 <= i < |locations| ==>
      Successes(Attempts(locations, fetch, |locations|))[i] == fetch(i, locations[i]).value
  {
    AllSucceed(Attempts(locations, fetch, |locations|));
  }
}
