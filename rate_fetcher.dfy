/**
 * One day's USD/UAH rate from the central bank's statistics service, with
 * bounded retries (`fetch_usd_uah_rate`, app.py).
 *
 * The service is an oracle: `upstream(day, attempt)` is the reply the
 * `attempt`-th request for `day` gets. Each sleep is recorded as a wait
 * duration instead of blocking.
 */
module RateFetcher {
  import opened Opt

  /**
   * What `float(data[0]["rate"])` makes of a truthy payload. `NoRateField` covers
   * every way the lookup or the conversion raises an exception outside the
   * `except` tuple: a payload that is not an array (`data[0]` on an object is a
   * KeyError, on a string, number or `true` a TypeError once `["rate"]` or the
   * index is applied), a first element that is not an object, an object without
   * "rate", a `null` rate (TypeError), and an integer rate too large for a float
   * (OverflowError).
   */
  datatype RateCell =
    | Number(text: string)  // `float(...)` accepts it; `text` is what `str(rate)` gives
    | BadNumber             // `float(...)` raises ValueError (a string that is not a number)
    | NoRateField           // the lookup or `float` raises KeyError, TypeError or OverflowError

  /**
   * The decoded JSON payload of a reply. Every truthy payload, array or not, is
   * `Entries`, classified by what its `data[0]["rate"]` gives.
   */
  datatype Payload =
    | NotJson               // `r.json()` raises a decoding error
    | Falsy                 // an empty array, or any other value Python reads as false
    | Entries(first: RateCell)

  /** What one `requests.get` call comes back with. */
  datatype Reply =
    | TimedOut
    | ConnectionFailed
    | Answered(status: int, payload: Payload)

  /** The exception one attempt ends with. */
  datatype FetchError =
    | Timeout
    | ConnectionError
    | UpstreamBusy(status: int)  // "502 from NBU" and friends, raised before `raise_for_status`
    | HttpStatus(status: int)    // raised by `raise_for_status`
    | InvalidJson
    | NoRate(day: int)           // "No NBU USD rate for <day>"
    | InvalidRate
    | MissingRate
    | NothingToRaise           // `raise None` when no attempt was made at all

  /** How one attempt ends. */
  datatype Outcome =
    | Got(rate: string)
    | Retry(error: FetchError)  // caught by the `except` clause: sleep and try again
    | Abort(error: FetchError)  // not caught: leaves the function at once

  /** The statuses the fetcher treats as a busy upstream. */
  predicate BusyStatus(status: int)
  {
    status == 502 || status == 503 || status == 504
  }

  /** The statuses `raise_for_status` raises for. */
  predicate ErrorStatus(status: int)
  {
    400 <= status < 600
  }

  /** Classifies the reply to one attempt exactly as the `try` body and its `except` clause do. */
  function Classify(day: int, reply: Reply): (o: Outcome)
    ensures o.Got? <==> reply.Answered? && !ErrorStatus(reply.status)
                        && reply.payload.Entries? && reply.payload.first.Number?
    ensures o.Got? ==> o.rate == reply.payload.first.text
    ensures o.Abort? <==> reply.Answered? && !ErrorStatus(reply.status)
                          && reply.payload.Entries? && reply.payload.first.NoRateField?
    ensures reply.Answered? && BusyStatus(reply.status) ==> o == Retry(UpstreamBusy(reply.status))
    ensures reply.Answered? && ErrorStatus(reply.status) ==> o.Retry?
    ensures reply.Answered? && reply.payload.Falsy? ==> o.Retry?
    ensures !reply.Answered? ==> o.Retry?
  {
    match reply
    case TimedOut => Retry(Timeout)
    case ConnectionFailed => Retry(ConnectionError)
    case Answered(status, payload) =>
      if BusyStatus(status) then Retry(UpstreamBusy(status))
      else if ErrorStatus(status) then Retry(HttpStatus(status))
      else match payload
        case NotJson => Retry(InvalidJson)
        case Falsy => Retry(NoRate(day))
        case Entries(Number(text)) => Got(text)
        case Entries(BadNumber) => Retry(InvalidRate)
        case Entries(NoRateField) => Abort(MissingRate)
  }

  type Upstream = (int, nat) -> Reply

  datatype FetchResult = Fetched(rate: string) | Failed(error: FetchError)

  /** The result of a fetch, the number of requests it made and the waits between them, in order. */
  datatype FetchRun = FetchRun(result: FetchResult, attempts: nat, waits: seq<real>)

  /**
   * The attempts from number `attempt` on, given the error the previous
   * attempt ended with (`None` before the first).
   */
  function Run(upstream: Upstream, day: int, retries: int, backoff: real,
               attempt: nat, lastErr: Option<FetchError>): FetchRun
    requires attempt >= 1
    decreases if attempt <= retries then retries - attempt + 1 else 0
  {
    if attempt > retries then
      FetchRun(match lastErr case Some(e) => Failed(e) case None => Failed(NothingToRaise), attempt - 1, [])
    else match Classify(day, upstream(day, attempt))
      case Got(rate) => FetchRun(Fetched(rate), attempt, [])
      case Abort(e) => FetchRun(Failed(e), attempt, [])
      case Retry(e) =>
        var rest := Run(upstream, day, retries, backoff, attempt + 1, Some(e));
        rest.(waits := [backoff * attempt as real] + rest.waits)
  }

  /**
   * One retried attempt, as the fetch loop sees it: if `spec` is the run so far
   * (`waits`) followed by the run from `attempt` on, it is also the run so far
   * with this attempt's wait appended followed by the run from `attempt + 1` on.
   */
  lemma RunRetryStep(upstream: Upstream, day: int, retries: int, backoff: real,
                     attempt: nat, lastErr: Option<FetchError>, e: FetchError,
                     spec: FetchRun, waits: seq<real>)
    requires 1 <= attempt <= retries
    requires Classify(day, upstream(day, attempt)) == Retry(e)
    requires var rest := Run(upstream, day, retries, backoff, attempt, lastErr);
      spec == rest.(waits := waits + rest.waits)
    ensures var rest := Run(upstream, day, retries, backoff, attempt + 1, Some(e));
      spec == rest.(waits := (waits + [backoff * attempt as real]) + rest.waits)
  {
    var rest := Run(upstream, day, retries, backoff, attempt + 1, Some(e));
    assert (waits + [backoff * attempt as real]) + rest.waits == waits + ([backoff * attempt as real] + rest.waits);
  }

  /** The whole fetch of `day`: at most `retries` attempts, waiting `backoff * k` after failed attempt `k`. */
  function Fetch(upstream: Upstream, day: int, retries: int, backoff: real): (r: FetchRun)
    ensures retries >= 1 && !Retried(upstream, day, 1) ==>
      r == FetchRun(Settled(Classify(day, upstream(day, 1))), 1, [])
    ensures retries >= 1 && Retried(upstream, day, 1) ==> |r.waits| >= 1 && r.waits[0] == backoff
  {
    Run(upstream, day, retries, backoff, 1, None)
  }

  /** Requests `day` from the service until an attempt succeeds, one escapes, or the attempts run out. */
  method FetchRate(upstream: Upstream, day: int, retries: int, backoff: real)
    returns (result: FetchResult, attempts: nat, waits: seq<real>)
    ensures FetchRun(result, attempts, waits) == Fetch(upstream, day, retries, backoff)
  {
    ghost var spec := Fetch(upstream, day, retries, backoff);
    var lastErr: Option<FetchError> := None;
    var attempt: nat := 1;
    waits := [];
    while attempt <= retries
      invariant attempt >= 1
      invariant attempt == 1 <==> lastErr == None
      invariant var rest := Run(upstream, day, retries, backoff, attempt, lastErr);
        spec == rest.(waits := waits + rest.waits)
      decreases retries - attempt
    {
      match Classify(day, upstream(day, attempt))
      case Got(rate) =>
        assert waits + [] == waits;
        return Fetched(rate), attempt, waits;
      case Abort(e) =>
        assert waits + [] == waits;
        return Failed(e), attempt, waits;
      case Retry(e) =>
        RunRetryStep(upstream, day, retries, backoff, attempt, lastErr, e, spec, waits);
        lastErr := Some(e);
        waits := waits + [backoff * attempt as real];
        attempt := attempt + 1;
    }
    assert waits + [] == waits;
    attempts := attempt - 1;
    match lastErr
    case Some(e) => result := Failed(e);
    case None => result := Failed(NothingToRaise);
  }

  /** The largest of `retries` and zero: how many attempts `range(1, retries + 1)` allows. */
  function AttemptBudget(retries: int): nat
  {
    if retries > 0 then retries else 0
  }

  /** What a fetch returns when attempt `k` is the one that ends it without being retried. */
  function Settled(o: Outcome): FetchResult
    requires !o.Retry?
  {
    match o
    case Got(rate) => Fetched(rate)
    case Abort(e) => Failed(e)
  }

  /** The attempt at `k` was caught and retried. */
  predicate Retried(upstream: Upstream, day: int, k: nat)
  {
    Classify(day, upstream(day, k)).Retry?
  }

  lemma {:induction false} RunShape(upstream: Upstream, day: int, retries: int, backoff: real,
                                     attempt: nat, lastErr: Option<FetchError>)
    requires attempt >= 1
    ensures var r := Run(upstream, day, retries, backoff, attempt, lastErr);
      && attempt - 1 <= r.attempts <= (if retries > attempt - 1 then retries else attempt - 1)
      && (forall k :: attempt <= k < r.attempts ==> Retried(upstream, day, k))
      && (if r.attempts >= attempt && !Retried(upstream, day, r.attempts) then
            && r.result == Settled(Classify(day, upstream(day, r.attempts)))
            && |r.waits| == r.attempts - attempt
          else
            && r.attempts == (if retries > attempt - 1 then retries else attempt - 1)
            && r.result == (if r.attempts >= attempt then Failed(Classify(day, upstream(day, r.attempts)).error)
                            else match lastErr case Some(e) => Failed(e) case None => Failed(NothingToRaise))
            && |r.waits| == r.attempts - attempt + 1)
      && (forall i :: 0 <= i < |r.waits| ==> r.waits[i] == backoff * (attempt + i) as real)
    decreases if attempt <= retries then retries - attempt + 1 else 0
  {
    if attempt <= retries {
      match Classify(day, upstream(day, attempt))
      case Got(rate) =>
      case Abort(e) =>
      case Retry(e) =>
        RunShape(upstream, day, retries, backoff, attempt + 1, Some(e));
    }
  }

  /**
   * A fetch makes at most `retries` requests (at least one when `retries >= 1`),
   * every attempt before the last was retried, and the waits grow linearly: the
   * `i`-th wait (counting from zero) is `backoff * (i + 1)`. Each retried attempt
   * is followed by a wait, the last one included.
   */
  lemma FetchBounded(upstream: Upstream, day: int, retries: int, backoff: real)
    ensures var r := Fetch(upstream, day, retries, backoff);
      && r.attempts <= AttemptBudget(retries)
      && (retries >= 1 ==> r.attempts >= 1)
      && (forall k :: 1 <= k < r.attempts ==> Retried(upstream, day, k))
      && |r.waits| == (if r.attempts >= 1 && !Retried(upstream, day, r.attempts) then r.attempts - 1 else r.attempts)
      && (forall i :: 0 <= i < |r.waits| ==> r.waits[i] == backoff * (i + 1) as real)
      && (r.attempts >= 1 && !Retried(upstream, day, r.attempts) ==>
            r.result == Settled(Classify(day, upstream(day, r.attempts))))
      && (r.attempts >= 1 && Retried(upstream, day, r.attempts) ==>
            r.attempts == retries && r.result == Failed(Classify(day, upstream(day, r.attempts)).error))
  {
    RunShape(upstream, day, retries, backoff, 1, None);
  }

  /**
   * A fetch returns a rate exactly when some attempt within the budget yields one
   * and every earlier attempt was retried; the rate is that attempt's.
   */
  lemma FetchFirstSuccess(upstream: Upstream, day: int, retries: int, backoff: real, rate: string)
    ensures Fetch(upstream, day, retries, backoff).result == Fetched(rate) <==>
      exists k :: 1 <= k <= retries && Classify(day, upstream(day, k)) == Got(rate)
                  && forall j :: 1 <= j < k ==> Retried(upstream, day, j)
  {
    RunShape(upstream, day, retries, backoff, 1, None);
    var r := Fetch(upstream, day, retries, backoff);
    if k :| 1 <= k <= retries && Classify(day, upstream(day, k)) == Got(rate)
            && forall j :: 1 <= j < k ==> Retried(upstream, day, j) {
      assert !Retried(upstream, day, k);
      assert r.attempts == k;
    }
  }

  /** When every allowed attempt is retried, the fetch fails with the last attempt's error after `retries` waits. */
  lemma FetchExhausted(upstream: Upstream, day: int, retries: int, backoff: real)
    requires retries >= 1
    requires forall k :: 1 <= k <= retries ==> Retried(upstream, day, k)
    ensures var r := Fetch(upstream, day, retries, backoff);
      && Retried(upstream, day, retries)
      && r.result == Failed(Classify(day, upstream(day, retries)).error)
      && r.attempts == retries
      && |r.waits| == retries
  {
    RunShape(upstream, day, retries, backoff, 1, None);
  }

  /** With no attempt allowed, the loop body never runs and `raise None` fails on its own. */
  lemma FetchWithoutAttempts(upstream: Upstream, day: int, retries: int, backoff: real)
    requires retries < 1
    ensures Fetch(upstream, day, retries, backoff) == FetchRun(Failed(NothingToRaise), 0, [])
  {
  }

  /** The waits a fetch records add up to `backoff * n * (n + 1) / 2` for `n` waits. */
  lemma FetchWaitTotal(upstream: Upstream, day: int, retries: int, backoff: real)
    ensures var w := Fetch(upstream, day, retries, backoff).waits;
      TotalWait(w) * 2.0 == backoff * (|w| * (|w| + 1)) as real
  {
    FetchBounded(upstream, day, retries, backoff);
    LinearWaitTotal(Fetch(upstream, day, retries, backoff).waits, backoff);
  }

  /** The sum of a sequence of waits. */
  function TotalWait(waits: seq<real>): real
  {
    if waits == [] then 0.0 else TotalWait(waits[..|waits| - 1]) + waits[|waits| - 1]
  }

  /** Linear backoff: `n` waits add up to `backoff * n * (n + 1) / 2`, not to a geometric sum. */
  lemma {:induction false} LinearWaitTotal(waits: seq<real>, backoff: real)
    requires forall i :: 0 <= i < |waits| ==> waits[i] == backoff * (i + 1) as real
    ensures TotalWait(waits) * 2.0 == backoff * (|waits| * (|waits| + 1)) as real
  {
    if waits != [] {
      var n := |waits|;
      LinearWaitTotal(waits[..n - 1], backoff);
      assert TotalWait(waits) == TotalWait(waits[..n - 1]) + backoff * n as real;
      calc {
        TotalWait(waits) * 2.0;
        backoff * ((n - 1) * n) as real + 2.0 * backoff * n as real;
        backoff * (((n - 1) * n) as real + 2.0 * n as real);
        backoff * (n * (n + 1)) as real;
      }
    }
  }
}
