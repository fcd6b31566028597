/**
 * The date window and the per-day summary of db.py. A date is a day number
 * (days since some epoch), so "the day before" is subtraction; the query
 * behind `search_name` is a function from the name it is run with to the
 * rows it returns.
 */
module Db {
  import opened Text
  import opened Sorting

  function IntLe(): (int, int) -> bool {
    (a: int, b: int) => a <= b
  }

  /** The `days` days before `today`, newest first, as the comprehension lists them. */
  function DaysBefore(today: int, days: nat): (r: seq<int>)
    ensures |r| == days
    ensures forall i, j :: 0 <= i < j < days ==> r[i] > r[j]
    ensures forall i :: 0 <= i < days ==> today - days <= r[i] < today
  {
    seq(days, i => today - (i + 1))
  }

  /** `get_date_list(today, days)`: the `days` days before `today`, in ascending order. */
  function DateList(today: int, days: nat): (r: seq<int>)
    ensures |r| == days
    ensures forall i :: 0 <= i < days ==> r[i] == today - days + i
  {
    var s := DaysBefore(today, days);
    SortDescending(s, IntLe());
    forall i | 0 <= i < days ensures Reverse(s)[i] == today - days + i {
      ReverseIndex(s, i);
    }
    Sort(s, IntLe())
  }

  /** The window is strictly ascending, ends the day before `today`, and holds exactly the days from `today - days`. */
  lemma DateListSpec(today: int, days: nat)
    ensures forall i, j :: 0 <= i < j < days ==> DateList(today, days)[i] < DateList(today, days)[j]
    ensures forall d :: d in DateList(today, days) <==> today - days <= d < today
    ensures today !in DateList(today, days)
  {
    var r := DateList(today, days);
    forall d | today - days <= d < today ensures d in r {
      assert r[d - (today - days)] == d;
    }
  }

  /** A row of `search_name`: a user, a day and the usage summed over it. */
  datatype DayUsage = DayUsage(name: string, day: int, usage: real)

  /** Each day of `dates` at zero, entered in order. */
  function Zeros(dates: seq<int>): map<int, real>
    decreases |dates|
  {
    if dates == [] then map[] else Zeros(dates[..|dates| - 1])[dates[|dates| - 1] := 0.0]
  }

  lemma {:induction false} ZerosSpec(dates: seq<int>)
    ensures forall d :: d in Zeros(dates) <==> d in dates
    ensures forall d :: d in Zeros(dates) ==> Zeros(dates)[d] == 0.0
    decreases |dates|
  {
    if dates != [] {
      ZerosSpec(dates[..|dates| - 1]);
      assert dates == dates[..|dates| - 1] + [dates[|dates| - 1]];
    }
  }

  /** Every day of the window at zero, then each row's usage at its day, later rows winning. */
  function SummaryOf(dates: seq<int>, rows: seq<DayUsage>): map<int, real>
    decreases |rows|
  {
    if rows == [] then Zeros(dates)
    else
      var last := rows[|rows| - 1];
      SummaryOf(dates, rows[..|rows| - 1])[last.day := last.usage]
  }

  predicate HasRow(rows: seq<DayUsage>, d: int) {
    exists i :: 0 <= i < |rows| && rows[i].day == d
  }

  /**
   * The summary has a key for each day of the window and each row's day, and
   * no other; a window day without rows is zero, and a day with rows holds
   * the usage of its last row.
   */
  lemma {:induction false} SummarySpec(dates: seq<int>, rows: seq<DayUsage>)
    ensures forall d :: d in SummaryOf(dates, rows) <==> d in dates || HasRow(rows, d)
    ensures forall d :: d in dates && !HasRow(rows, d) ==> SummaryOf(dates, rows)[d] == 0.0
    ensures forall i :: 0 <= i < |rows| && (forall j :: i < j < |rows| ==> rows[j].day != rows[i].day) ==>
              rows[i].day in SummaryOf(dates, rows) && SummaryOf(dates, rows)[rows[i].day] == rows[i].usage
    decreases |rows|
  {
    if rows == [] {
      ZerosSpec(dates);
    } else {
      var init := rows[..|rows| - 1];
      var last := rows[|rows| - 1];
      SummarySpec(dates, init);
      forall d ensures HasRow(rows, d) <==> HasRow(init, d) || last.day == d {
        if HasRow(init, d) {
          var i :| 0 <= i < |init| && init[i].day == d;
          assert rows[i].day == d;
        }
        if HasRow(rows, d) && last.day != d {
          var i :| 0 <= i < |rows| && rows[i].day == d;
          assert init[i].day == d;
        }
      }
      forall i | 0 <= i < |rows| && (forall j :: i < j < |rows| ==> rows[j].day != rows[i].day)
        ensures rows[i].day in SummaryOf(dates, rows) && SummaryOf(dates, rows)[rows[i].day] == rows[i].usage
      {
        if i < |rows| - 1 {
          assert init[i] == rows[i];
          forall j | i < j < |init| ensures init[j].day != init[i].day {
            assert init[j] == rows[j];
          }
        }
      }
    }
  }

  /** The number of days `summary` covers. */
  const SummaryDays: nat := 30

  /**
   * `Database.summary`: the user's daily usage over the 30 days before
   * `today`, zero where there is no row. The name is stripped before the
   * query, which strips it once more.
   */
  method Summary(user: string, today: int, searchName: string -> seq<DayUsage>) returns (res: map<int, real>)
    ensures res == SummaryOf(DateList(today, SummaryDays), searchName(Strip(user)))
  {
    StripIdempotent(user);
    var raw := searchName(Strip(Strip(user)));
    var dates := DateList(today, SummaryDays);
    res := FillSummary(dates, raw);
  }

  /** The two loops of `summary`: every date at zero, then each row's usage at its day. */
  method FillSummary(dates: seq<int>, raw: seq<DayUsage>) returns (res: map<int, real>)
    ensures res == SummaryOf(dates, raw)
  {
    res := map[];
    var i := 0;
    while i < |dates|
      invariant 0 <= i <= |dates|
      invariant res == Zeros(dates[..i])
    {
      assert dates[..i + 1][..i] == dates[..i];
      res := res[dates[i] := 0.0];
      i := i + 1;
    }
    assert dates[..i] == dates;
    var j := 0;
    while j < |raw|
      invariant 0 <= j <= |raw|
      invariant res == SummaryOf(dates, raw[..j])
    {
      assert raw[..j + 1][..j] == raw[..j];
      res := res[raw[j].day := raw[j].usage];
      j := j + 1;
    }
    assert raw[..j] == raw;
  }
}
