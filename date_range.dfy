/**
 * The inclusive walk over calendar days (`daterange`, app.py).
 * A date is modelled as its day number, so "one day later" is `+ 1`.
 */
module DateRange {

  /** Number of days from `first` to `last`, both included; zero for an inverted range. */
  function DayCount(first: int, last: int): nat
  {
    if first <= last then last - first + 1 else 0
  }

  /** The days the walk yields, as a specification. */
  function Span(first: int, last: int): (r: seq<int>)
    ensures |r| == DayCount(first, last)
    ensures forall d :: d in r <==> first <= d <= last
    ensures |r| > 0 ==> r[0] == first && r[|r| - 1] == last
    ensures forall i :: 0 <= i < |r| - 1 ==> r[i + 1] == r[i] + 1
  {
    var r := seq(DayCount(first, last), i => first + i);
    assert forall d :: first <= d <= last ==> d in r by {
      forall d | first <= d <= last ensures d in r {
        assert r[d - first] == d;
      }
    }
    r
  }

  /** A sequence is strictly ascending. */
  predicate Ascending(s: seq<int>)
  {
    forall i, j :: 0 <= i < j < |s| ==> s[i] < s[j]
  }

  lemma SpanAscending(first: int, last: int)
    ensures Ascending(Span(first, last))
  {
  }

  /** Advances a cursor from `first` while it is not past `last`, collecting each day. */
  method Days(first: int, last: int) returns (days: seq<int>)
    ensures days == Span(first, last)
  {
    days := [];
    var cur := first;
    while cur <= last
      invariant first <= cur
      invariant first <= last ==> cur <= last + 1
      invariant first > last ==> cur == first
      invariant days == Span(first, cur - 1)
      decreases last - cur
    {
      days := days + [cur];
      cur := cur + 1;
    }
  }
}
