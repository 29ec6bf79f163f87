/**
 * The fixed-window rate limiter: per client key, a request count and the
 * instant (in milliseconds) at which the current 15-minute window ends. A
 * request is refused with 429 once the count within one window passes 100.
 * The current time is a parameter.
 */
module Security {
  import opened Wrappers

  const WINDOW_MS: int := 15 * 60 * 1000
  const MAX_REQUESTS: int := 100

  const TOO_MANY_ERROR: string := "请求过于频繁"
  const TOO_MANY_MESSAGE: string := "您的请求过于频繁，请稍后再试"

  /** What the limiter remembers about one client. */
  datatype Entry = Entry(count: int, resetTime: int)

  /** What the middleware does with one request. */
  datatype Decision =
    | PassFirst
      // the client's first request: `next()` with no X-RateLimit headers
    | Pass(limit: int, remaining: int, resetTime: int)
      // X-RateLimit-Limit, -Remaining and -Reset set, then `next()`
    | Limited(error: string, message: string, retryAfter: int)
      // 429 with retryAfter in seconds; `next()` is not called
  {
    predicate CallsNext()
    {
      !Limited?
    }

    /**
     * The status the middleware itself sends. A request that is let through
     * gets its status from the handler behind `next()`, so only a refusal
     * has one here.
     */
    function Status(): int
      requires Limited?
    {
      429
    }
  }

  /** `Math.ceil(a / b)` for a positive integer divisor. */
  function CeilDiv(a: int, b: int): (q: int)
    requires b > 0
    ensures (q - 1) * b < a <= q * b
  {
    -((-a) / b)
  }

  /** The client's entry, when the map has one. */
  function Lookup(counts: map<string, Entry>, key: string): (e: Option<Entry>)
    ensures e.Some? <==> key in counts
    ensures e.Some? ==> e.value == counts[key]
  {
    if key in counts then Some(counts[key]) else None
  }

  /** The entry after one request and the decision on it. */
  datatype Outcome = Outcome(entry: Entry, decision: Decision)

  /** One request at time `now` from a client whose entry was `prior`. */
  function Step(prior: Option<Entry>, now: int): (o: Outcome)
    ensures (prior.Some? ==> prior.value.count >= 1) ==> o.entry.count >= 1
    ensures prior.None? ==> o.decision == PassFirst
    ensures o.decision.Limited? ==> prior.Some? && o.entry.resetTime == prior.value.resetTime
  {
    match prior
    case None => Outcome(Entry(1, now + WINDOW_MS), PassFirst)
    case Some(e) =>
      var next :=
        if now > e.resetTime then Entry(1, now + WINDOW_MS)
        else e.(count := e.count + 1);
      var decision :=
        if next.count > MAX_REQUESTS
        then Limited(TOO_MANY_ERROR, TOO_MANY_MESSAGE, CeilDiv(next.resetTime - now, 1000))
        else Pass(MAX_REQUESTS, MAX_REQUESTS - next.count, next.resetTime);
      Outcome(next, decision)
  }

  // ---------------------------------------------------------------------
  // Properties of one step

  /**
   * A first request opens a window of 900000 ms with count 1 and passes
   * without headers; a later request opens a fresh window when the old one
   * has ended, and otherwise adds exactly one to the count, whether or not
   * the request is then refused.
   */
  lemma StepCounts(prior: Option<Entry>, now: int)
    ensures prior.None? ==>
      Step(prior, now) == Outcome(Entry(1, now + 900000), PassFirst)
    ensures prior.Some? && now > prior.value.resetTime ==>
      Step(prior, now).entry == Entry(1, now + 900000) && Step(prior, now).decision.Pass?
    ensures prior.Some? && now <= prior.value.resetTime ==>
      Step(prior, now).entry == Entry(prior.value.count + 1, prior.value.resetTime)
  {
  }

  /** A request is refused exactly when the updated count exceeds 100. */
  lemma LimitedIffOverMax(prior: Option<Entry>, now: int)
    ensures Step(prior, now).decision.Limited? <==> Step(prior, now).entry.count > MAX_REQUESTS
    ensures Step(prior, now).decision.CallsNext() <==> !Step(prior, now).decision.Limited?
  {
  }

  /**
   * A refusal only happens inside a window that has not ended, so its
   * retryAfter is the non-negative number of whole seconds, rounded up,
   * until the window ends.
   */
  lemma RetryAfterBounds(prior: Option<Entry>, now: int)
    requires Step(prior, now).decision.Limited?
    ensures prior.Some? && now <= prior.value.resetTime
    ensures var o := Step(prior, now);
      && o.entry.resetTime == prior.value.resetTime
      && o.decision.retryAfter >= 0
      && (o.decision.retryAfter - 1) * 1000 < o.entry.resetTime - now <= o.decision.retryAfter * 1000
      && o.decision.Status() == 429
  {
  }

  /**
   * On a passed request after the first, X-RateLimit-Remaining is
   * 100 minus the new count, which lies between 0 and 99.
   */
  lemma RemainingInRange(prior: Option<Entry>, now: int)
    requires prior.Some? ==> prior.value.count >= 1
    requires Step(prior, now).decision.Pass?
    ensures var o := Step(prior, now);
      && o.decision.limit == MAX_REQUESTS
      && o.decision.remaining == MAX_REQUESTS - o.entry.count
      && 0 <= o.decision.remaining <= MAX_REQUESTS - 1
      && o.decision.resetTime == o.entry.resetTime
  {
  }

  // ---------------------------------------------------------------------
  // Many requests from one client

  /**
   * The client's entry after requests at the given instants, in order,
   * starting from the entry `start` (None for a client not seen before).
   */
  function ReplayFrom(start: Option<Entry>, times: seq<int>): (e: Option<Entry>)
    ensures times != [] ==> e.Some?
    ensures times == [] ==> e == start
  {
    if times == [] then start
    else Some(Step(ReplayFrom(start, times[..|times| - 1]), times[|times| - 1]).entry)
  }

  /** The decision on the last of the given requests. */
  function LastDecision(start: Option<Entry>, times: seq<int>): (d: Decision)
    requires times != []
    ensures d.Limited? ==> |times| > 1 || start.Some?
  {
    Step(ReplayFrom(start, times[..|times| - 1]), times[|times| - 1]).decision
  }

  /**
   * The first request opens a window, because the client is new or its
   * previous window has ended, and no later request comes after that
   * window ends.
   */
  ghost predicate OneWindow(start: Option<Entry>, times: seq<int>)
  {
    && times != []
    && (start.None? || times[0] > start.value.resetTime)
    && forall i :: 0 < i < |times| ==> times[i] <= times[0] + WINDOW_MS
  }

  /** Within one window the entry counts every request, refused ones included. */
  lemma {:induction false} OneWindowCounts(start: Option<Entry>, times: seq<int>)
    requires OneWindow(start, times)
    ensures ReplayFrom(start, times) == Some(Entry(|times|, times[0] + WINDOW_MS))
  {
    if |times| > 1 {
      var init := times[..|times| - 1];
      assert init[0] == times[0];
      assert OneWindow(start, init);
      OneWindowCounts(start, init);
    }
  }

  /**
   * Within one window the first 100 requests pass and every later one is
   * refused: the 100th passes, the 101st is turned away. A new client's
   * first request passes without headers.
   */
  lemma {:induction false} HundredthPassesHundredFirstRefused(start: Option<Entry>, times: seq<int>)
    requires OneWindow(start, times)
    ensures LastDecision(start, times).CallsNext() <==> |times| <= MAX_REQUESTS
    ensures start.None? && |times| == 1 ==> LastDecision(start, times) == PassFirst
  {
    if |times| > 1 {
      var init := times[..|times| - 1];
      assert init[0] == times[0];
      assert OneWindow(start, init);
      OneWindowCounts(start, init);
    }
  }

  // ---------------------------------------------------------------------
  // The middleware's state

  class RateLimiter {
    var requestCounts: map<string, Entry>

    /** Every remembered client has made at least one request. */
    ghost predicate Valid()
      reads this
    {
      forall key :: key in requestCounts ==> requestCounts[key].count >= 1
    }

    /** The limiter at start-up remembers no client. */
    constructor ()
      ensures Valid() && requestCounts == map[]
    {
      requestCounts := map[];
    }

    /**
     * rateLimit for one request from `clientKey` at time `now`: only that
     * client's entry is created or changed.
     */
    method Handle(clientKey: string, now: int) returns (d: Decision)
      requires Valid()
      modifies this
      ensures Valid()
      ensures var o := Step(Lookup(old(requestCounts), clientKey), now);
        requestCounts == old(requestCounts)[clientKey := o.entry] && d == o.decision
      ensures forall key :: key != clientKey ==> Lookup(requestCounts, key) == Lookup(old(requestCounts), key)
    {
      if clientKey !in requestCounts {
        requestCounts := requestCounts[clientKey := Entry(1, now + WINDOW_MS)];
        return PassFirst;
      }
      var clientData := requestCounts[clientKey];
      if now > clientData.resetTime {
        clientData := Entry(1, now + WINDOW_MS);
      } else {
        clientData := clientData.(count := clientData.count + 1);
      }
      requestCounts := requestCounts[clientKey := clientData];
      if clientData.count > MAX_REQUESTS {
        return Limited(TOO_MANY_ERROR, TOO_MANY_MESSAGE, CeilDiv(clientData.resetTime - now, 1000));
      }
      d := Pass(MAX_REQUESTS, MAX_REQUESTS - clientData.count, clientData.resetTime);
    }
  }
}
