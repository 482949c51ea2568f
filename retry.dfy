/** The retry-with-backoff policy of `fetchWithRetry`
    (client/src/pages/Main/index.js:27-70) as a recursive reference definition
    over an injected sequence of server replies. The page's loop in MainPage is
    proved to follow it; the lemmas here say what the policy guarantees. */
module Retry {
  import opened Optional
  import opened Books

  /** Retry budget and first backoff delay: the default parameters of fetchWithRetry. */
  const InitialRetries: nat := 3
  const InitialDelay: nat := 1000

  /** HTTP 429 Too Many Requests (section 4 of RFC 6585). */
  const TooManyRequests: int := 429

  /** What one `api.get` call yields.
      `Received`: a 2xx answer, with `data.totalItems` and `data.items` as sent.
      `HttpError`: an error response with its status and its `Retry-After` header in
      delay-seconds form (section 10.2.3 of RFC 9110), if any.
      `NoResponse`: a failure with no response attached (network error). */
  datatype Outcome =
    | Received(totalItems: Option<int>, items: Option<seq<Item>>)
    | HttpError(status: int, retryAfter: Option<nat>)
    | NoResponse

  /** How one call of the fetch ends, as far as page state is concerned. */
  datatype Ending =
    | Found(books: seq<Book>)   // results shown and cached
    | NoBooks                   // "No books found" notice
    | Failed                    // generic error notice

  /** What a whole fetch did: how many requests it sent, the waits it asked for
      between them (ms), and how it ended. */
  datatype Trace = Trace(attempts: nat, waits: seq<nat>, ending: Ending)

  /** `!response.data.totalItems` is false: the count is present and not zero. */
  predicate HasMatches(totalItems: Option<int>) {
    totalItems.Some? && totalItems.value != 0
  }

  /** The condition `error.response.status === 429` of the catch block. */
  predicate RateLimited(o: Outcome) {
    o.HttpError? && o.status == TooManyRequests
  }

  /** `retryAfter ? parseInt(retryAfter, 10) * 1000 : delayTime`. */
  function WaitTime(retryAfter: Option<nat>, delayTime: nat): (w: nat)
    ensures retryAfter.None? ==> w == delayTime
    ensures retryAfter.Some? ==> w == 1000 * retryAfter.value
  {
    match retryAfter
    case Some(seconds) => seconds * 1000
    case None => delayTime
  }

  /** How a reply that is not retried ends the fetch. A zero or absent count is
      "no books"; a count with no `items` array makes `items.map` throw, which the
      catch block reports as a generic error; otherwise the items are shown. Every
      failure is a generic error. */
  function Settle(o: Outcome): (e: Ending)
    ensures e.Found? <==> o.Received? && HasMatches(o.totalItems) && o.items.Some?
    ensures e.NoBooks? <==> o.Received? && !HasMatches(o.totalItems)
    ensures e.Found? ==> e.books == NormalizeAll(o.items.value)
  {
    match o
    case Received(totalItems, items) =>
      if !HasMatches(totalItems) then NoBooks
      else if items.None? then Failed
      else Found(NormalizeAll(items.value))
    case HttpError(_, _) => Failed
    case NoResponse => Failed
  }

  /** `fetchWithRetry(retries, delayTime)` answered by replies[i], replies[i+1], ...
      A 429 with budget left waits, then tries again with one retry fewer and twice
      the wait as the next delay; every other reply ends the fetch. */
  function Fetch(replies: seq<Outcome>, i: nat, retries: nat, delayTime: nat): (t: Trace)
    requires i + retries < |replies|
    ensures 1 <= t.attempts <= retries + 1
    ensures |t.waits| == t.attempts - 1
    decreases retries
  {
    var o := replies[i];
    if RateLimited(o) && retries > 0 then
      var w := WaitTime(o.retryAfter, delayTime);
      var rest := Fetch(replies, i + 1, retries - 1, 2 * w);
      Trace(rest.attempts + 1, [w] + rest.waits, rest.ending)
    else
      Trace(1, [], Settle(o))
  }

  /** The search the page starts: budget 3, first delay 1000 ms. */
  function FetchBooksTrace(replies: seq<Outcome>): (t: Trace)
    requires InitialRetries < |replies|
    ensures 1 <= t.attempts <= 4
  {
    Fetch(replies, 0, InitialRetries, InitialDelay)
  }

  /** Which replies a fetch consumes and why it stops: every reply before the last
      one it reads is a 429; the last one decides the ending; and the fetch stops
      on a 429 only when the budget is spent. Together these fix `attempts`: it is
      one more than the number of leading 429s, capped at budget + 1. */
  lemma {:induction false} FetchStops(replies: seq<Outcome>, i: nat, retries: nat, delayTime: nat)
    requires i + retries < |replies|
    ensures var t := Fetch(replies, i, retries, delayTime);
      && (forall k :: i <= k < i + t.attempts - 1 ==> RateLimited(replies[k]))
      && t.ending == Settle(replies[i + t.attempts - 1])
      && (RateLimited(replies[i + t.attempts - 1]) ==> t.attempts == retries + 1)
    decreases retries
  {
    if RateLimited(replies[i]) && retries > 0 {
      var w := WaitTime(replies[i].retryAfter, delayTime);
      FetchStops(replies, i + 1, retries - 1, 2 * w);
    }
  }

  /** The `Retry-After` header of a reply, if it is an error response that has one. */
  function Header(o: Outcome): Option<nat> {
    if o.HttpError? then o.retryAfter else None
  }

  /** `waits` is the schedule that replies[i], replies[i+1], ... call for when the
      first delay is `delayTime`: each wait answers a 429, and is that reply's
      header in ms when present, otherwise the current delay, which is `delayTime`
      at first and afterwards twice the previous wait. */
  ghost predicate Backoff(replies: seq<Outcome>, i: nat, delayTime: nat, waits: seq<nat>) {
    forall k {:trigger waits[k]} :: 0 <= k < |waits| ==>
      i + k < |replies| && RateLimited(replies[i + k]) &&
      waits[k] == WaitTime(Header(replies[i + k]), if k == 0 then delayTime else 2 * waits[k - 1])
  }

  /** The backoff schedule: the k-th wait is the k-th reply's `Retry-After` in ms
      when it has one, otherwise the current delay, which is `delayTime` at first
      and afterwards twice the previous wait actually used. */
  lemma {:induction false} FetchWaits(replies: seq<Outcome>, i: nat, retries: nat, delayTime: nat)
    requires i + retries < |replies|
    ensures Backoff(replies, i, delayTime, Fetch(replies, i, retries, delayTime).waits)
    decreases retries
  {
    if RateLimited(replies[i]) && retries > 0 {
      var w := WaitTime(replies[i].retryAfter, delayTime);
      FetchWaits(replies, i + 1, retries - 1, 2 * w);
      FetchStops(replies, i + 1, retries - 1, 2 * w);
    }
  }

  function Pow2(k: nat): (p: nat)
    ensures p >= 1
  {
    if k == 0 then 1 else 2 * Pow2(k - 1)
  }

  /** With no `Retry-After` headers the delays double each time and a 429 that
      arrives when the budget is spent ends in the generic error. */
  lemma {:induction false} NoHeaderBackoff(replies: seq<Outcome>, i: nat, retries: nat, delayTime: nat)
    requires i + retries < |replies|
    requires forall k :: i <= k <= i + retries ==> replies[k] == HttpError(TooManyRequests, None)
    ensures var t := Fetch(replies, i, retries, delayTime);
      && t.attempts == retries + 1
      && t.ending == Failed
      && forall k :: 0 <= k < retries ==> t.waits[k] == delayTime * Pow2(k)
    decreases retries
  {
    if retries > 0 {
      NoHeaderBackoff(replies, i + 1, retries - 1, 2 * delayTime);
      var t := Fetch(replies, i, retries, delayTime);
      var t' := Fetch(replies, i + 1, retries - 1, 2 * delayTime);
      assert t.waits == [delayTime] + t'.waits;
      forall k | 0 < k < retries
        ensures t.waits[k] == delayTime * Pow2(k)
      {
        assert t.waits[k] == t'.waits[k - 1] == 2 * delayTime * Pow2(k - 1);
      }
    }
  }

  /** Four 429s without headers: waits of exactly 1000, 2000 and 4000 ms before the
      second, third and fourth request, and then the generic error. */
  lemma DefaultBackoff(replies: seq<Outcome>)
    requires |replies| >= 4
    requires forall k :: 0 <= k < 4 ==> replies[k] == HttpError(TooManyRequests, None)
    ensures FetchBooksTrace(replies) == Trace(4, [1000, 2000, 4000], Failed)
  {
  }

  /** A 429 carrying `Retry-After: 2` and then a success: one wait of 2000 ms and
      the second reply's items are shown. */
  lemma RetryAfterThenSuccess(replies: seq<Outcome>, total: int, items: seq<Item>)
    requires |replies| >= 4
    requires replies[0] == HttpError(TooManyRequests, Some(2))
    requires replies[1] == Received(Some(total), Some(items)) && total != 0
    ensures FetchBooksTrace(replies) == Trace(2, [2000], Found(NormalizeAll(items)))
  {
  }

  /** A header seeds the doubling: after `Retry-After: s` the next delay without a
      header is 2 * s * 1000 ms. */
  lemma HeaderSeedsBackoff(replies: seq<Outcome>, seconds: nat)
    requires |replies| >= 4
    requires replies[0] == HttpError(TooManyRequests, Some(seconds))
    requires replies[1] == HttpError(TooManyRequests, None)
    requires replies[2].Received? && !HasMatches(replies[2].totalItems)
    ensures FetchBooksTrace(replies) == Trace(3, [1000 * seconds, 2000 * seconds], NoBooks)
  {
  }

  /** Only rate limiting is retried: a first reply that is not a 429 — results,
      zero results, another error status or no response — is the only request. */
  lemma OnlyRateLimitRetries(replies: seq<Outcome>, i: nat, retries: nat, delayTime: nat)
    requires i + retries < |replies|
    requires !RateLimited(replies[i])
    ensures Fetch(replies, i, retries, delayTime) == Trace(1, [], Settle(replies[i]))
  {
  }
}
