/** One Bot API call: post, and post again while the failure may pass. */
module TelegramCall {
  import opened Models

  const TOO_MANY_REQUESTS := 429
  const MAX_RETRY_AFTER := 60.0

  /** `retryAfter` is the number the server asks to wait, if it gave one. */
  datatype Response<T> = NetworkError | Http(status: int, ok: bool, result: T, retryAfter: Option<real>)

  datatype Reply<T> = Result(value: T) | Rejected(response: Response<T>) | Exhausted(last: Option<Response<T>>)

  predicate Success<T>(r: Response<T>) {
    r.Http? && r.status == 200 && r.ok
  }

  /** Failures that may pass: no answer, too many requests, or trouble on the server's side. */
  predicate Transient<T>(r: Response<T>) {
    r.NetworkError? || r.status == TOO_MANY_REQUESTS || r.status >= 500
  }

  function Pause<T>(backoff: real, k: nat, r: Response<T>): real {
    if r.Http? && r.status == TOO_MANY_REQUESTS && r.retryAfter.Some?
    then if r.retryAfter.value < MAX_RETRY_AFTER then r.retryAfter.value else MAX_RETRY_AFTER
    else backoff * Pow2(k) as real
  }

  /** `posts` responses were used: all before the last are transient, and the last decides. */
  predicate Concluded<T(==)>(script: seq<Response<T>>, attempts: nat, posts: nat, reply: Reply<T>)
    requires |script| >= attempts
  {
    && posts <= attempts
    && (forall i :: 0 <= i < posts - 1 ==> Transient(script[i]))
    && (match reply
        case Result(value) => posts > 0 && Success(script[posts - 1]) && value == script[posts - 1].result
        case Rejected(r) => posts > 0 && r == script[posts - 1] && !Success(r) && !Transient(r)
        case Exhausted(last) =>
          && posts == attempts && (posts > 0 ==> Transient(script[posts - 1]))
          && last == if posts > 0 then Some(script[posts - 1]) else None)
  }

  /** The responses leave no choice: only one number of posts and one reply fit. */
  lemma ConclusionIsUnique<T>(script: seq<Response<T>>, attempts: nat, p: nat, q: nat,
                              a: Reply<T>, b: Reply<T>)
    requires |script| >= attempts && Concluded(script, attempts, p, a) && Concluded(script, attempts, q, b)
    ensures p == q && a == b
  {
    assert p < q ==> Transient(script[p - 1]) || p == 0;
    assert q < p ==> Transient(script[q - 1]) || q == 0;
  }

  /** `script` holds what the server would answer to each post. */
  method Call<T(==)>(script: seq<Response<T>>, attempts: nat, backoff: real)
    returns (reply: Reply<T>, posts: nat, sleeps: seq<real>)
    requires |script| >= attempts
    ensures Concluded(script, attempts, posts, reply)
    ensures |sleeps| == if posts == 0 then 0 else posts - 1
    ensures reply.Result? ==>
              posts > 0 && script[posts - 1].Http? && script[posts - 1].status == 200 && script[posts - 1].ok &&
              reply.value == script[posts - 1].result
    ensures reply.Exhausted? ==>
              && posts == attempts && reply.last == (if posts == 0 then None else Some(script[posts - 1]))
              && forall i :: 0 <= i < attempts ==>
                   script[i].NetworkError? || script[i].status == 429 || script[i].status >= 500
    ensures reply.Rejected? ==>
              var r := script[posts - 1];
              r.Http? && r.status < 500 && r.status != 429 && !(r.status == 200 && r.ok)
    ensures forall i :: 0 <= i < posts - 1 ==>
              script[i].NetworkError? || script[i].status == 429 || script[i].status >= 500
    ensures forall i :: 0 <= i < |sleeps| ==>
              sleeps[i] == if script[i].Http? && script[i].status == 429 && script[i].retryAfter.Some?
                           then (if script[i].retryAfter.value <= 60.0 then script[i].retryAfter.value else 60.0)
                           else backoff * Pow2(i) as real
    ensures forall i :: 0 <= i < |sleeps| ==> sleeps[i] == Pause(backoff, i, script[i])
  {
    posts, sleeps := 0, [];
    var last := None;
    for attempt := 1 to attempts + 1
      invariant posts == attempt - 1
      invariant forall i :: 0 <= i < posts ==> Transient(script[i])
      invariant last == if posts > 0 then Some(script[posts - 1]) else None
      invariant |sleeps| == if posts < attempts then posts else if posts == 0 then 0 else posts - 1
      invariant forall i :: 0 <= i < |sleeps| ==> sleeps[i] == Pause(backoff, i, script[i])
    {
      var delay := backoff * Pow2(attempt - 1) as real;
      var response := script[attempt - 1];
      posts := posts + 1;
      last := Some(response);
      if response.Http? {
        if response.status == 200 && response.ok {
          return Result(response.result), posts, sleeps;
        }
        if response.status == TOO_MANY_REQUESTS {
          if response.retryAfter.Some? {
            delay := if response.retryAfter.value < MAX_RETRY_AFTER then response.retryAfter.value else MAX_RETRY_AFTER;
          }
        } else if response.status < 500 {
          return Rejected(response), posts, sleeps;
        }
      }
      assert delay == Pause(backoff, attempt - 1, response);
      if attempt < attempts {
        sleeps := sleeps + [delay];
      }
    }
    reply := Exhausted(last);
  }

  function Sum(xs: seq<real>): real {
    if xs == [] then 0.0 else Sum(xs[..|xs|-1]) + xs[|xs|-1]
  }

  /** Unless the server named its own delays, `n` pauses add up to `backoff * (2^n - 1)`. */
  lemma {:induction false} PausesAddUp<T>(script: seq<Response<T>>, backoff: real, sleeps: seq<real>)
    requires |sleeps| <= |script|
    requires forall i :: 0 <= i < |sleeps| ==> sleeps[i] == Pause(backoff, i, script[i])
    requires forall i :: 0 <= i < |sleeps| ==> script[i].NetworkError? || script[i].status != TOO_MANY_REQUESTS
    ensures Sum(sleeps) == backoff * (Pow2(|sleeps|) - 1) as real
  {
    if sleeps == [] {
    } else {
      var n := |sleeps| - 1;
      PausesAddUp(script, backoff, sleeps[..n]);
      SharesAddUp(backoff, n);
    }
  }

  lemma PauseIsBounded<T>(backoff: real, k: nat, r: Response<T>)
    requires backoff >= 0.0
    ensures Pause(backoff, k, r) <= backoff * Pow2(k) as real + MAX_RETRY_AFTER
  {
    assert backoff * Pow2(k) as real >= 0.0;
  }

  lemma SharesAddUp(backoff: real, n: nat)
    ensures backoff * (Pow2(n + 1) - 1) as real == backoff * (Pow2(n) - 1) as real + backoff * Pow2(n) as real
  {
    assert (Pow2(n + 1) - 1) as real == (Pow2(n) - 1) as real + Pow2(n) as real;
  }

  /** In any case the pauses are bounded: each by its share of the doubling or by the cap. */
  lemma {:induction false} PausesAreBounded<T>(script: seq<Response<T>>, backoff: real, sleeps: seq<real>)
    requires |sleeps| <= |script| && backoff >= 0.0
    requires forall i :: 0 <= i < |sleeps| ==> sleeps[i] == Pause(backoff, i, script[i])
    ensures Sum(sleeps) <= backoff * (Pow2(|sleeps|) - 1) as real + MAX_RETRY_AFTER * |sleeps| as real
  {
    if sleeps == [] {
    } else {
      var n := |sleeps| - 1;
      PausesAreBounded(script, backoff, sleeps[..n]);
      PauseIsBounded(backoff, n, script[n]);
      SharesAddUp(backoff, n);
    }
  }
}
