/** Model fallback in Chat and ChatStream (relay/client.go): the request's model, then each fallback model. */
module Fallback {
  import opened Options

  datatype Outcome<R, E> = Ok(value: R) | Failed(error: E)

  /** The fallback configuration: further models, and which errors allow another try (all when absent). */
  datatype Config<!E> = Config(models: seq<string>, retryOn: Option<E -> bool>)

  function Candidates<E>(model: string, fallback: Option<Config<E>>): (ms: seq<string>)
    ensures |ms| > 0 && ms[0] == model && ms[1..] == if fallback.Some? then fallback.value.models else []
  {
    [model] + match fallback case Some(c) => c.models case None => []
  }

  predicate MayRetry<E>(fallback: Option<Config<E>>, e: E) {
    fallback.Some? && fallback.value.retryOn.Some? ==> fallback.value.retryOn.value(e)
  }

  /**
    What the attempts give: the number of the attempt counts, since a model that is listed
    twice may answer differently the second time.
  */
  type Attempts<!R, !E> = (nat, string) -> Outcome<R, E>

  /** Every attempt before the k-th failed with an error that allows another try. */
  predicate FailedBefore<R, E>(models: seq<string>, fallback: Option<Config<E>>, once: Attempts<R, E>, k: nat)
    requires k <= |models|
  {
    forall i: nat :: i < k ==> once(i, models[i]).Failed? && MayRetry(fallback, once(i, models[i]).error)
  }

  /**
    The models tried are a prefix of the candidates. Every one but the last failed with an
    error that allows another try; the last succeeded, or stopped the run for want of either.
  */
  method TryModels<R, E>(model: string, fallback: Option<Config<E>>, once: Attempts<R, E>)
    returns (result: Outcome<R, E>, tried: seq<string>)
    ensures tried != [] && tried <= Candidates(model, fallback)
    ensures result == once(|tried| - 1, tried[|tried| - 1])
    ensures FailedBefore(tried, fallback, once, |tried| - 1)
    ensures result.Failed? ==> tried == Candidates(model, fallback) || !MayRetry(fallback, result.error)
  {
    var models := Candidates(model, fallback);
    tried := [];
    var last: Option<Outcome<R, E>> := None;
    for i := 0 to |models|
      invariant tried == models[..i]
      invariant last == if i == 0 then None else Some(once(i - 1, models[i - 1]))
      invariant FailedBefore(models, fallback, once, i)
    {
      var outcome := once(i, models[i]);
      tried := tried + [models[i]];
      if outcome.Ok? {
        return outcome, tried;
      }
      last := Some(outcome);
      if !MayRetry(fallback, outcome.error) {
        break;
      }
    }
    result := last.value;
  }

  /** The k-th attempt succeeds, and every one before it fails with an error that allows another try. */
  predicate Reaches<R, E>(models: seq<string>, fallback: Option<Config<E>>, once: Attempts<R, E>, k: nat) {
    k < |models| && once(k, models[k]).Ok? && FailedBefore(models, fallback, once, k)
  }

  /**
    The k-th attempt is reached with the request's model first and then the configured ones in order, past
    failures only: any failure when no filter is configured, and otherwise those that the filter lets pass.
  */
  lemma {:induction false} ReachesIff<R, E>(model: string, fallback: Option<Config<E>>, once: Attempts<R, E>, k: nat)
    ensures Reaches(Candidates(model, fallback), fallback, once, k) <==>
            var ms := [model] + if fallback.Some? then fallback.value.models else [];
            && k < |ms| && once(k, ms[k]).Ok?
            && forall i: nat :: i < k ==>
                 && once(i, ms[i]).Failed?
                 && (fallback == None || fallback.value.retryOn == None
                     || fallback.value.retryOn.value(once(i, ms[i]).error))
  {
    var ms := [model] + if fallback.Some? then fallback.value.models else [];
    assert Candidates(model, fallback) == ms;
  }

  /** A request succeeds exactly when some attempt is reached, and then with its value. */
  method Request<R, E>(model: string, fallback: Option<Config<E>>, once: Attempts<R, E>) returns (result: Outcome<R, E>)
    ensures result.Ok? <==> exists k: nat :: Reaches(Candidates(model, fallback), fallback, once, k)
    ensures forall k: nat :: Reaches(Candidates(model, fallback), fallback, once, k) ==>
              result == once(k, Candidates(model, fallback)[k])
  {
    var models := Candidates(model, fallback);
    var tried;
    result, tried := TryModels(model, fallback, once);
    var last := |tried| - 1;
    assert forall i :: 0 <= i < |tried| ==> tried[i] == models[i];
    if result.Ok? {
      assert Reaches(models, fallback, once, last);
    }
  }
}
