/**
 * The `/update` endpoint (`update_rates`, app.py): check the caller, validate
 * the date range, fetch every day's rate, upsert the successes once and
 * report a summary with the first errors.
 *
 * The request is its optional header and query values; the dates arrive
 * already parsed to day numbers, `date.isoformat()` is the `isoDate` parameter
 * and the `updated_at` timestamp is a parameter.
 */
module Sync {
  import opened Opt
  import opened DateRange
  import opened Auth
  import opened RateFetcher
  import opened RecordStore
  import opened Upsert

  /** The fetcher's defaults, which the endpoint relies on. */
  const Retries: int := 4
  const Backoff: real := 0.8

  const MaxSpanDays: int := 370
  const MaxReportedErrors: nat := 20
  const Currency: string := "USD"
  const SourceTag: string := "NBU"

  const UnauthorizedMessage: string := "Unauthorized"
  const InvertedRangeMessage: string := "update_from must be <= update_to"
  const SpanMessage: string := "Max range is 370 days"

  datatype Request = Request(
    authorization: Option<string>,  // the `Authorization` header
    token: Option<string>,          // the `token` query parameter
    updateFrom: Option<int>,        // `update_from`, parsed
    updateTo: Option<int>)          // `update_to`, parsed

  /** One failed day: `{"date": ..., "error": ...}`. */
  datatype DayError = DayError(date: string, error: FetchError)

  /** The JSON body of a response. */
  datatype Body =
    | Refusal(message: string)
    | Summary(ok: bool, rowsWritten: nat, errorsCount: nat, errors: seq<DayError>, from: string, to: string)

  datatype Response = Response(status: int, body: Body)

  /** `date.isoformat()` of a day number. */
  type DateLabel = int -> string

  /** How the endpoint's fetch of `day` ends. */
  function DayResult(upstream: Upstream, day: int): (r: FetchResult)
    ensures r.Fetched? ==> exists k :: 1 <= k <= Retries && Classify(day, upstream(day, k)) == Got(r.rate)
  {
    var run := Fetch(upstream, day, Retries, Backoff);
    if run.result.Fetched? then
      FetchFirstSuccess(upstream, day, Retries, Backoff, run.result.rate);
      run.result
    else run.result
  }

  /** The sheet row for a fetched rate: date, currency, rate, source, sync time. */
  function RateRow(isoDate: DateLabel, day: int, rate: string, updatedAt: string): (row: Row)
    ensures |row| == Width && row[0] == isoDate(day) && row[1] == Currency && row[2] == rate
    ensures row[3] == SourceTag && row[4] == updatedAt
  {
    [isoDate(day), Currency, rate, SourceTag, updatedAt]
  }

  /** The rows collected over `days`, in walk order; all are rate rows stamped with the one sync time. */
  function RowsFor(upstream: Upstream, isoDate: DateLabel, updatedAt: string, days: seq<int>): (rows: seq<Row>)
    ensures WellFormed(rows)
    ensures forall i :: 0 <= i < |rows| ==>
      |rows[i]| == Width && rows[i][1] == Currency && rows[i][3] == SourceTag && rows[i][4] == updatedAt
  {
    if days == [] then []
    else
      var prev := RowsFor(upstream, isoDate, updatedAt, days[..|days| - 1]);
      var day := days[|days| - 1];
      match DayResult(upstream, day)
      case Fetched(rate) => prev + [RateRow(isoDate, day, rate, updatedAt)]
      case Failed(_) => prev
  }

  /** The errors collected over `days`, in walk order. */
  function ErrorsFor(upstream: Upstream, isoDate: DateLabel, days: seq<int>): (errors: seq<DayError>)
    ensures |errors| <= |days|
  {
    if days == [] then []
    else
      var prev := ErrorsFor(upstream, isoDate, days[..|days| - 1]);
      var day := days[|days| - 1];
      match DayResult(upstream, day)
      case Fetched(_) => prev
      case Failed(e) => prev + [DayError(isoDate(day), e)]
  }

  /** The days whose fetch returned a rate, in walk order. */
  function SucceededDays(upstream: Upstream, days: seq<int>): (s: seq<int>)
    ensures forall d :: d in s <==> d in days && DayResult(upstream, d).Fetched?
  {
    if days == [] then []
    else
      var prev := SucceededDays(upstream, days[..|days| - 1]);
      var day := days[|days| - 1];
      if DayResult(upstream, day).Fetched? then prev + [day] else prev
  }

  /** The days whose fetch failed, in walk order. */
  function FailedDays(upstream: Upstream, days: seq<int>): (f: seq<int>)
    ensures forall d :: d in f <==> d in days && DayResult(upstream, d).Failed?
  {
    if days == [] then []
    else
      var prev := FailedDays(upstream, days[..|days| - 1]);
      var day := days[|days| - 1];
      if DayResult(upstream, day).Failed? then prev + [day] else prev
  }

  /** Fetches every day in turn; a failed day becomes an error entry and the walk goes on. */
  method CollectRates(upstream: Upstream, isoDate: DateLabel, updatedAt: string, days: seq<int>)
    returns (rows: seq<Row>, errors: seq<DayError>, requests: nat)
    ensures rows == RowsFor(upstream, isoDate, updatedAt, days)
    ensures errors == ErrorsFor(upstream, isoDate, days)
    ensures requests <= AttemptBudget(Retries) * |days|
  {
    rows, errors, requests := [], [], 0;
    var i := 0;
    while i < |days|
      invariant 0 <= i <= |days|
      invariant rows == RowsFor(upstream, isoDate, updatedAt, days[..i])
      invariant errors == ErrorsFor(upstream, isoDate, days[..i])
      invariant requests <= AttemptBudget(Retries) * i
    {
      var day := days[i];
      assert days[..i + 1][..i] == days[..i];
      var result, attempts, waits := FetchRate(upstream, day, Retries, Backoff);
      assert attempts <= AttemptBudget(Retries) by {
        FetchBounded(upstream, day, Retries, Backoff);
      }
      assert result == DayResult(upstream, day);
      requests := requests + attempts;
      match result {
        case Fetched(rate) =>
          rows := rows + [RateRow(isoDate, day, rate, updatedAt)];
        case Failed(e) =>
          errors := errors + [DayError(isoDate(day), e)];
      }
      i := i + 1;
    }
    assert days[..i] == days;
  }

  /** The summary response: 200 when no day failed, 207 otherwise, listing at most 20 errors. */
  function Summarize(rows: seq<Row>, errors: seq<DayError>, from: string, to: string): (r: Response)
    ensures r.status == 200 || r.status == 207
    ensures r.status == 200 <==> errors == []
    ensures r.body.Summary? && r.body.from == from && r.body.to == to
    ensures r.body.ok <==> r.body.errorsCount == 0
    ensures r.body.rowsWritten == |rows| && r.body.errorsCount == |errors|
    ensures |r.body.errors| == (if |errors| < MaxReportedErrors then |errors| else MaxReportedErrors)
    ensures r.body.errors == errors[..|r.body.errors|]
  {
    var shown := if |errors| < MaxReportedErrors then errors else errors[..MaxReportedErrors];
    Response(if |errors| == 0 then 200 else 207,
             Summary(|errors| == 0, |rows|, |errors|, shown, from, to))
  }

  /** The range check: `Some(message)` for a range the endpoint rejects with 400. */
  function RangeProblem(from: int, to: int): (problem: Option<string>)
    ensures problem.None? <==> from <= to && to - from + 1 <= MaxSpanDays + 1
    ensures from > to ==> problem == Some(InvertedRangeMessage)
    ensures from <= to && to - from > MaxSpanDays ==> problem == Some(SpanMessage)
  {
    if from > to then Some(InvertedRangeMessage)
    else if to - from > MaxSpanDays then Some(SpanMessage)
    else None
  }

  /**
   * The endpoint. It returns the response and the number of requests sent to
   * the rate service; the worksheet records every write.
   */
  method UpdateRates(req: Request, expected: string, today: int, updatedAt: string,
                     upstream: Upstream, isoDate: DateLabel, ws: Worksheet)
    returns (resp: Response, requests: nat)
    modifies ws
    ensures !RequireAuth(expected, req.authorization, req.token) ==>
      && resp == Response(401, Refusal(UnauthorizedMessage))
      && requests == 0 && ws.values == old(ws.values) && ws.writes == old(ws.writes)
    ensures RequireAuth(expected, req.authorization, req.token) ==>
      var from := req.updateFrom.GetOr(today);
      var to := req.updateTo.GetOr(today);
      match RangeProblem(from, to)
      case Some(message) =>
        && resp == Response(400, Refusal(message))
        && requests == 0 && ws.values == old(ws.values) && ws.writes == old(ws.writes)
      case None =>
        var days := Span(from, to);
        var rows := RowsFor(upstream, isoDate, updatedAt, days);
        && resp == Summarize(rows, ErrorsFor(upstream, isoDate, days), isoDate(from), isoDate(to))
        && requests <= AttemptBudget(Retries) * |days|
        && ws.values == (if rows == [] then old(ws.values) else Upserted(old(ws.values), rows))
        && ws.writes == old(ws.writes) + (if rows == [] then [] else UpsertWrites(old(ws.values), rows))
  {
    if !RequireAuth(expected, req.authorization, req.token) {
      return Response(401, Refusal(UnauthorizedMessage)), 0;
    }
    var from := req.updateFrom.GetOr(today);
    var to := req.updateTo.GetOr(today);
    if from > to {
      return Response(400, Refusal(InvertedRangeMessage)), 0;
    }
    if to - from > MaxSpanDays {
      return Response(400, Refusal(SpanMessage)), 0;
    }
    var days := Days(from, to);
    var rows, errors;
    rows, errors, requests := CollectRates(upstream, isoDate, updatedAt, days);
    if rows != [] {
      UpsertRows(ws, rows);
    }
    resp := Summarize(rows, errors, isoDate(from), isoDate(to));
  }

  /** Row `i` is the rate row of the `i`-th day that succeeded. */
  lemma {:induction false} RowsForDays(upstream: Upstream, isoDate: DateLabel, updatedAt: string, days: seq<int>)
    ensures var rows := RowsFor(upstream, isoDate, updatedAt, days);
      var s := SucceededDays(upstream, days);
      && |rows| == |s|
      && forall i :: 0 <= i < |s| ==>
           DayResult(upstream, s[i]).Fetched?
           && rows[i] == RateRow(isoDate, s[i], DayResult(upstream, s[i]).rate, updatedAt)
  {
    if days != [] {
      RowsForDays(upstream, isoDate, updatedAt, days[..|days| - 1]);
    }
  }

  /** Error `i` names the `i`-th day that failed and carries the error its fetch ended with. */
  lemma {:induction false} ErrorsForDays(upstream: Upstream, isoDate: DateLabel, days: seq<int>)
    ensures var errors := ErrorsFor(upstream, isoDate, days);
      var f := FailedDays(upstream, days);
      && |errors| == |f|
      && forall i :: 0 <= i < |f| ==>
           DayResult(upstream, f[i]).Failed?
           && errors[i] == DayError(isoDate(f[i]), DayResult(upstream, f[i]).error)
  {
    if days != [] {
      ErrorsForDays(upstream, isoDate, days[..|days| - 1]);
    }
  }

  /** Every day of the walk is either a success or a failure, exactly once. */
  lemma {:induction false} DaysPartitioned(upstream: Upstream, days: seq<int>)
    ensures multiset(SucceededDays(upstream, days)) + multiset(FailedDays(upstream, days)) == multiset(days)
  {
    if days != [] {
      var n := |days|;
      var prefix, day := days[..n - 1], days[n - 1];
      DaysPartitioned(upstream, prefix);
      assert days == prefix + [day];
      assert multiset(days) == multiset(prefix) + multiset{day};
      if DayResult(upstream, day).Fetched? {
        assert SucceededDays(upstream, days) == SucceededDays(upstream, prefix) + [day];
        assert FailedDays(upstream, days) == FailedDays(upstream, prefix);
        assert multiset(SucceededDays(upstream, days)) == multiset(SucceededDays(upstream, prefix)) + multiset{day};
      } else {
        assert SucceededDays(upstream, days) == SucceededDays(upstream, prefix);
        assert FailedDays(upstream, days) == FailedDays(upstream, prefix) + [day];
        assert multiset(FailedDays(upstream, days)) == multiset(FailedDays(upstream, prefix)) + multiset{day};
      }
    }
  }

  /** Keeping some days of an ascending walk, in order, keeps it ascending. */
  lemma {:induction false} SucceededAscending(upstream: Upstream, days: seq<int>)
    requires Ascending(days)
    ensures Ascending(SucceededDays(upstream, days))
    ensures Ascending(FailedDays(upstream, days))
  {
    if days != [] {
      var n := |days|;
      var prefix := days[..n - 1];
      assert Ascending(prefix);
      SucceededAscending(upstream, prefix);
      forall d | d in prefix ensures d < days[n - 1] {
        var j :| 0 <= j < n - 1 && prefix[j] == d;
      }
      AppendAscending(SucceededDays(upstream, prefix), days[n - 1]);
      AppendAscending(FailedDays(upstream, prefix), days[n - 1]);
    }
  }

  lemma AppendAscending(s: seq<int>, x: int)
    requires Ascending(s)
    requires forall d :: d in s ==> d < x
    ensures Ascending(s + [x])
  {
    forall i, j | 0 <= i < j < |s + [x]| ensures (s + [x])[i] < (s + [x])[j] {
      if j == |s| {
        assert s[i] in s;
      }
    }
  }

  /**
   * For an accepted range every day is accounted for once: the rows written and
   * the errors counted add up to the number of days, and the response is 200
   * exactly when every day's fetch returned a rate.
   */
  lemma SyncAccounting(upstream: Upstream, isoDate: DateLabel, updatedAt: string, from: int, to: int)
    requires RangeProblem(from, to).None?
    ensures var days := Span(from, to);
      var r := Summarize(RowsFor(upstream, isoDate, updatedAt, days), ErrorsFor(upstream, isoDate, days),
                         isoDate(from), isoDate(to));
      && r.body.rowsWritten + r.body.errorsCount == DayCount(from, to)
      && (r.status == 200 <==> forall d :: from <= d <= to ==> DayResult(upstream, d).Fetched?)
  {
    var days := Span(from, to);
    RowsForDays(upstream, isoDate, updatedAt, days);
    ErrorsForDays(upstream, isoDate, days);
    DaysPartitioned(upstream, days);
    var s := SucceededDays(upstream, days);
    var f := FailedDays(upstream, days);
    assert |multiset(s)| + |multiset(f)| == |multiset(days)|;
    if f != [] {
      assert f[0] in f;
    }
  }

  /** The rows of a sync are sorted by day: they come from an ascending subsequence of the range. */
  lemma SyncRowsAscending(upstream: Upstream, isoDate: DateLabel, updatedAt: string, from: int, to: int)
    ensures var s := SucceededDays(upstream, Span(from, to));
      var rows := RowsFor(upstream, isoDate, updatedAt, Span(from, to));
      && Ascending(s) && |rows| == |s|
      && forall i :: 0 <= i < |s| ==> from <= s[i] <= to && rows[i][0] == isoDate(s[i])
  {
    SpanAscending(from, to);
    SucceededAscending(upstream, Span(from, to));
    RowsForDays(upstream, isoDate, updatedAt, Span(from, to));
  }

  /**
   * Re-running the sync for the same range against the same upstream replies,
   * at a later sync time, appends no row: the sheet's row count does not grow.
   */
  lemma SyncIdempotent(upstream: Upstream, isoDate: DateLabel, first: string, second: string,
                       from: int, to: int, values: seq<Row>)
    requires |values| >= 1
    requires forall d :: from <= d <= to ==> isoDate(d) != ""
    ensures var days := Span(from, to);
      var rows1 := RowsFor(upstream, isoDate, first, days);
      var rows2 := RowsFor(upstream, isoDate, second, days);
      var after := if rows1 == [] then values else Upserted(values, rows1);
      |if rows2 == [] then after else Upserted(after, rows2)| == |after|
  {
    var days := Span(from, to);
    var rows1 := RowsFor(upstream, isoDate, first, days);
    var rows2 := RowsFor(upstream, isoDate, second, days);
    if rows2 != [] {
      SyncRowsKeyed(upstream, isoDate, first, second, from, to);
      UpsertIdempotent(values, rows1, rows2);
    }
  }

  /** Two syncs of one range carry the same keys in the same order, and every key is complete. */
  lemma {:induction false} SyncRowsKeyed(upstream: Upstream, isoDate: DateLabel, first: string, second: string, from: int, to: int)
    requires forall d :: from <= d <= to ==> isoDate(d) != ""
    ensures var rows1 := RowsFor(upstream, isoDate, first, Span(from, to));
      var rows2 := RowsFor(upstream, isoDate, second, Span(from, to));
      && |rows1| == |rows2|
      && (forall i :: 0 <= i < |rows1| ==> Keyed(rows1[i]))
      && forall i :: 0 <= i < |rows1| ==> KeyOf(rows1[i]) == KeyOf(rows2[i])
  {
    var rows1 := RowsFor(upstream, isoDate, first, Span(from, to));
    var rows2 := RowsFor(upstream, isoDate, second, Span(from, to));
    var days := Span(from, to);
    var s := SucceededDays(upstream, days);
    RowsForDays(upstream, isoDate, first, days);
    RowsForDays(upstream, isoDate, second, days);
    forall i | 0 <= i < |rows1|
      ensures Keyed(rows1[i]) && KeyOf(rows1[i]) == KeyOf(rows2[i])
    {
      assert s[i] in s;
      assert s[i] in days;
      var rate := DayResult(upstream, s[i]).rate;
      assert rows1[i] == RateRow(isoDate, s[i], rate, first);
      assert rows2[i] == RateRow(isoDate, s[i], rate, second);
    }
  }

  /**
   * Three days, the middle one timing out on every attempt: the other two are
   * written, the middle one is the single error, and the status is 207.
   */
  lemma OneBadDayScenario(isoDate: DateLabel, updatedAt: string)
    ensures var upstream: Upstream := (day, attempt) =>
        if day == 1 then TimedOut else Answered(200, Entries(Number("39.5")));
      var days := Span(0, 2);
      var r := Summarize(RowsFor(upstream, isoDate, updatedAt, days), ErrorsFor(upstream, isoDate, days),
                         isoDate(0), isoDate(2));
      && r.status == 207 && !r.body.ok
      && r.body.rowsWritten == 2 && r.body.errorsCount == 1
      && r.body.errors == [DayError(isoDate(1), Timeout)]
  {
    var upstream: Upstream := (day, attempt) =>
      if day == 1 then TimedOut else Answered(200, Entries(Number("39.5")));
    var days := Span(0, 2);
    assert days == [0, 1, 2];
    assert days[..2] == [0, 1] && days[..2][..1] == [0] && days[..2][..1][..0] == [];
    assert Classify(0, upstream(0, 1)) == Got("39.5");
    assert Classify(2, upstream(2, 1)) == Got("39.5");
    FetchFirstSuccess(upstream, 0, Retries, Backoff, "39.5");
    FetchFirstSuccess(upstream, 2, Retries, Backoff, "39.5");
    FetchExhausted(upstream, 1, Retries, Backoff);
    assert DayResult(upstream, 0) == Fetched("39.5");
    assert DayResult(upstream, 1) == Failed(Timeout);
    assert DayResult(upstream, 2) == Fetched("39.5");
    assert |RowsFor(upstream, isoDate, updatedAt, [0])| == 1;
    assert |RowsFor(upstream, isoDate, updatedAt, [0, 1])| == 1;
    assert |RowsFor(upstream, isoDate, updatedAt, days)| == 2;
    assert ErrorsFor(upstream, isoDate, [0]) == [];
    assert ErrorsFor(upstream, isoDate, [0, 1]) == [DayError(isoDate(1), Timeout)];
    assert ErrorsFor(upstream, isoDate, days) == [DayError(isoDate(1), Timeout)];
  }
}
