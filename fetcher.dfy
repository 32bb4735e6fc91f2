/** The retry and throttle policy of `get_page`. The network is replaced by
    `respond`, the outcome of each 0-based attempt (a page, or None for a
    request exception), and `time.sleep` by the list of waits it would make,
    in half-second units. */
module Fetcher {
  import opened Text

  /** Throttle after a success at attempt `i`: 1 + 0.5 * i seconds. */
  function ThrottleHalfSeconds(i: nat): nat { 2 + i }

  /** Back-off after a failed attempt `i` that is not the last: 2 * (i + 1) seconds. */
  function BackoffHalfSeconds(i: nat): nat { 4 * (i + 1) }

  /** The back-offs after failed attempts 0 .. n-1. */
  function Backoffs(n: nat): (r: seq<nat>)
    ensures |r| == n
    ensures forall i :: 0 <= i < n ==> r[i] == BackoffHalfSeconds(i)
  {
    seq(n, i requires 0 <= i < n => BackoffHalfSeconds(i))
  }

  function SumOf(s: seq<nat>): nat
    decreases |s|
  {
    if |s| == 0 then 0 else SumOf(s[..|s| - 1]) + s[|s| - 1]
  }

  /** `get_page(url, retry_count)`: at most `retryCount` attempts; the first
      success is returned after its throttle; each failure but the last is
      followed by its back-off; when every attempt fails the result is None. */
  method GetPage<T>(respond: nat -> Option<T>, retryCount: int)
      returns (page: Option<T>, attempts: nat, sleeps: seq<nat>)
    ensures retryCount <= 0 ==> page.None? && attempts == 0 && sleeps == []
    ensures retryCount > 0 ==> 1 <= attempts <= retryCount
    ensures page.Some? <==> exists j :: 0 <= j < retryCount && respond(j).Some?
    ensures forall k :: 0 <= k < attempts - 1 ==> respond(k).None?
    ensures page.Some? ==> page == respond(attempts - 1)
    ensures page.Some? ==> sleeps == Backoffs(attempts - 1) + [ThrottleHalfSeconds(attempts - 1)]
    ensures page.None? && retryCount > 0 ==>
              attempts == retryCount && respond(attempts - 1).None? && sleeps == Backoffs(attempts - 1)
  {
    page, attempts, sleeps := None, 0, [];
    var attempt := 0;
    while attempt < retryCount
      invariant attempt == 0 || attempt < retryCount
      invariant attempts == attempt
      invariant forall k :: 0 <= k < attempt ==> respond(k).None?
      invariant sleeps == Backoffs(attempt)
    {
      var response := respond(attempt);
      attempts := attempts + 1;
      if response.Some? {
        sleeps := sleeps + [ThrottleHalfSeconds(attempt)];
        page := response;
        return;
      }
      if attempt == retryCount - 1 {
        return;
      }
      sleeps := sleeps + [BackoffHalfSeconds(attempt)];
      attempt := attempt + 1;
    }
  }

  /** The waits grow linearly: n back-offs (n failed attempts, each
      followed by another attempt) wait 2 * n * (n + 1) half-seconds, i.e.
      n * (n + 1) seconds; a failed last attempt adds none. */
  lemma {:induction false} BackoffTotal(n: nat)
    ensures SumOf(Backoffs(n)) == 2 * n * (n + 1)
    decreases n
  {
    if n > 0 {
      BackoffTotal(n - 1);
      assert Backoffs(n)[..n - 1] == Backoffs(n - 1);
    }
  }

  /** With the default three attempts and no success, the caller waits
      6 seconds in all and makes no wait after the third failure. */
  lemma DefaultRetryAllFail()
    ensures Backoffs(3 - 1) == [4, 8] && SumOf(Backoffs(2)) == 12
  {
    BackoffTotal(2);
  }
}
