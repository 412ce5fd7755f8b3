/** The row-grouping part of `get_email_schedule` in getschedule.py: the
    `(day_id, day_name, user_email)` rows of the query become a dictionary from
    day name to the e-mails of that day, appended in row order. The database
    connection and the query are not part of this model; the rows are an input. */
module GetSchedule {
  import opened Wrappers

  /** One result row of the schedule query. */
  datatype Row = Row(dayId: int, dayName: string, email: string)

  /** The schedule: day name to the e-mail list of that day. */
  type Schedule = map<string, seq<string>>

  /** The e-mails of the rows whose day is `day`, in row order. */
  function EmailsOn(rows: seq<Row>, day: string): (emails: seq<string>)
    ensures |emails| <= |rows|
  {
    if |rows| == 0 then []
    else
      var last := rows[|rows| - 1];
      EmailsOn(rows[..|rows| - 1], day) + (if last.dayName == day then [last.email] else [])
  }

  /** The distinct day names of the rows. */
  function DayNames(rows: seq<Row>): set<string> {
    set r | r in rows :: r.dayName
  }

  /** Reference definition of the grouping: one key per distinct day name,
      holding the e-mails of that day's rows in row order. */
  function Grouped(rows: seq<Row>): Schedule {
    map day | day in DayNames(rows) :: EmailsOn(rows, day)
  }

  /** The loop body: `schedule[day_name].append(user_email)` on a `defaultdict(list)`,
      which starts a missing key with an empty list. */
  function AddRow(schedule: Schedule, row: Row): (r: Schedule)
    ensures r.Keys == schedule.Keys + {row.dayName}
    ensures forall day :: day in schedule && day != row.dayName ==> r[day] == schedule[day]
    ensures |r[row.dayName]| >= 1 && r[row.dayName][|r[row.dayName]| - 1] == row.email
    ensures row.dayName in schedule ==> r[row.dayName][..|r[row.dayName]| - 1] == schedule[row.dayName]
    ensures row.dayName !in schedule ==> r[row.dayName] == [row.email]
  {
    var emails := if row.dayName in schedule then schedule[row.dayName] else [];
    schedule[row.dayName := emails + [row.email]]
  }

  /** Grouping stops at the first empty result with `None`; otherwise it folds
      every row into the dictionary, which then equals the reference grouping. */
  method GroupRows(rows: seq<Row>) returns (schedule: Option<Schedule>)
    ensures schedule.None? <==> |rows| == 0
    ensures schedule.Some? ==> schedule.value == Grouped(rows)
  {
    if |rows| == 0 {
      return None;
    }
    var grouped: Schedule := map[];
    var i := 0;
    while i < |rows|
      invariant 0 <= i <= |rows|
      invariant grouped == Grouped(rows[..i])
    {
      var row := rows[i];
      ghost var before := grouped;
      var emails := if row.dayName in grouped then grouped[row.dayName] else [];
      grouped := grouped[row.dayName := emails + [row.email]];
      assert grouped == AddRow(before, row);
      assert rows[..i + 1][..i] == rows[..i] && rows[..i + 1][i] == row;
      GroupedStep(rows[..i + 1]);
      i := i + 1;
    }
    assert rows[..|rows|] == rows;
    return Some(grouped);
  }

  /** A day that no row names has no e-mails. */
  lemma {:induction false} EmailsOnAbsentDay(rows: seq<Row>, day: string)
    requires day !in DayNames(rows)
    ensures EmailsOn(rows, day) == []
  {
    if |rows| > 0 {
      var init := rows[..|rows| - 1];
      assert rows[|rows| - 1] in rows;
      assert DayNames(init) <= DayNames(rows) by {
        forall r | r in init ensures r in rows {}
      }
      EmailsOnAbsentDay(init, day);
    }
  }

  /** Adding a row to the end of the input adds its e-mail to the end of its
      day's list and leaves every other day's list as it was. */
  lemma {:induction false} GroupedStep(rows: seq<Row>)
    requires |rows| > 0
    ensures Grouped(rows) == AddRow(Grouped(rows[..|rows| - 1]), rows[|rows| - 1])
  {
    var init, last := rows[..|rows| - 1], rows[|rows| - 1];
    DayNamesSnoc(rows);
    var g, a := Grouped(rows), AddRow(Grouped(init), last);
    assert g.Keys == DayNames(rows);
    assert a.Keys == DayNames(init) + {last.dayName};
    forall day | day in g
      ensures g[day] == a[day]
    {
      GroupedStepAt(rows, day);
    }
    SameEntries(g, a);
  }

  /** Two schedules with the same keys and the same list under each key are equal. */
  lemma SameEntries(g: Schedule, a: Schedule)
    requires g.Keys == a.Keys
    requires forall day :: day in g ==> g[day] == a[day]
    ensures g == a
  {
  }

  /** The last row adds its day name to those of the rows before it. */
  lemma DayNamesSnoc(rows: seq<Row>)
    requires |rows| > 0
    ensures DayNames(rows) == DayNames(rows[..|rows| - 1]) + {rows[|rows| - 1].dayName}
  {
    assert rows == rows[..|rows| - 1] + [rows[|rows| - 1]];
  }

  /** One day's list in `GroupedStep`. */
  lemma GroupedStepAt(rows: seq<Row>, day: string)
    requires |rows| > 0 && day in DayNames(rows)
    requires DayNames(rows) == DayNames(rows[..|rows| - 1]) + {rows[|rows| - 1].dayName}
    ensures Grouped(rows)[day] == AddRow(Grouped(rows[..|rows| - 1]), rows[|rows| - 1])[day]
  {
    var init, last := rows[..|rows| - 1], rows[|rows| - 1];
    if day == last.dayName {
      if day !in DayNames(init) {
        EmailsOnAbsentDay(init, day);
      }
      assert Grouped(rows)[day] == EmailsOn(init, day) + [last.email];
    } else {
      assert Grouped(rows)[day] == EmailsOn(init, day);
    }
  }

  /** The number of entries of the lists under the keys `days`. */
  function SumLengths(schedule: Schedule, days: seq<string>): nat
    requires forall d :: d in days ==> d in schedule
  {
    if |days| == 0 then 0
    else SumLengths(schedule, days[..|days| - 1]) + |schedule[days[|days| - 1]]|
  }

  /** The distinct day names in order of first appearance: the key order of the
      dictionary. */
  function DistinctDays(rows: seq<Row>): (days: seq<string>)
    ensures forall d :: d in days <==> d in DayNames(rows)
    ensures forall i, j :: 0 <= i < j < |days| ==> days[i] != days[j]
  {
    if |rows| == 0 then []
    else
      var init, last := rows[..|rows| - 1], rows[|rows| - 1];
      var earlier := DistinctDays(init);
      assert rows == init + [last];
      assert DayNames(rows) == DayNames(init) + {last.dayName};
      if last.dayName in earlier then earlier else earlier + [last.dayName]
  }

  /** The index of the first row on `day`, or `|rows|` when no row is. */
  function FirstRow(rows: seq<Row>, day: string): (k: nat)
    ensures k <= |rows|
    ensures k < |rows| ==> rows[k].dayName == day
    ensures forall i :: 0 <= i < k ==> rows[i].dayName != day
  {
    if |rows| == 0 then 0
    else if rows[0].dayName == day then 0
    else 1 + FirstRow(rows[1..], day)
  }

  /** A day that occurs among the first `n` rows first occurs at the same
      index in the whole row list. */
  lemma FirstRowPrefix(rows: seq<Row>, n: nat, day: string)
    requires n <= |rows|
    requires day in DayNames(rows[..n])
    ensures FirstRow(rows[..n], day) < n
    ensures FirstRow(rows, day) == FirstRow(rows[..n], day)
  {
    var r :| r in rows[..n] && r.dayName == day;
    var m :| 0 <= m < n && rows[..n][m] == r;
    var k := FirstRow(rows[..n], day);
    assert k <= m;
    assert rows[k] == rows[..n][k];
  }

  /** `DistinctDays` lists the day names in the order of their first rows. */
  lemma {:induction false} DistinctDaysInOrder(rows: seq<Row>)
    ensures forall i, j :: 0 <= i < j < |DistinctDays(rows)| ==>
      FirstRow(rows, DistinctDays(rows)[i]) < FirstRow(rows, DistinctDays(rows)[j])
  {
    if |rows| > 0 {
      var init, last := rows[..|rows| - 1], rows[|rows| - 1];
      assert rows[..|init|] == init;
      DistinctDaysInOrder(init);
      var earlier := DistinctDays(init);
      forall d | d in earlier
        ensures FirstRow(rows, d) == FirstRow(init, d) < |init|
      {
        FirstRowPrefix(rows, |init|, d);
      }
      var days := DistinctDays(rows);
      if last.dayName !in earlier {
        assert days == earlier + [last.dayName];
        assert FirstRow(rows, last.dayName) == |init| by {
          forall i | 0 <= i < |init|
            ensures rows[i].dayName != last.dayName
          {
            assert init[i] in init;
          }
        }
      }
    }
  }

  /** Changing a key outside `days` does not change their total. */
  lemma {:induction false} SumLengthsOtherKey(schedule: Schedule, days: seq<string>, key: string, emails: seq<string>)
    requires forall d :: d in days ==> d in schedule
    requires key !in days
    ensures SumLengths(schedule[key := emails], days) == SumLengths(schedule, days)
  {
    if |days| > 0 {
      SumLengthsOtherKey(schedule, days[..|days| - 1], key, emails);
    }
  }

  /** Appending to the list of a key that occurs once in `days` raises their
      total by one. */
  lemma {:induction false} SumLengthsAppend(schedule: Schedule, days: seq<string>, key: string, email: string)
    requires forall d :: d in days ==> d in schedule
    requires forall i, j :: 0 <= i < j < |days| ==> days[i] != days[j]
    requires key in days
    ensures SumLengths(schedule[key := schedule[key] + [email]], days) == SumLengths(schedule, days) + 1
  {
    var init, last := days[..|days| - 1], days[|days| - 1];
    if last == key {
      assert key !in init;
      SumLengthsOtherKey(schedule, init, key, schedule[key] + [email]);
    } else {
      assert key in init;
      SumLengthsAppend(schedule, init, key, email);
    }
  }

  /** Every row lands in exactly one list: the lists of the grouping hold as
      many entries as there are rows. */
  lemma {:induction false} GroupedTotal(rows: seq<Row>)
    ensures SumLengths(Grouped(rows), DistinctDays(rows)) == |rows|
  {
    if |rows| > 0 {
      var init, last := rows[..|rows| - 1], rows[|rows| - 1];
      GroupedTotal(init);
      GroupedStep(rows);
      var m, days, day := Grouped(init), DistinctDays(init), last.dayName;
      assert forall d :: d in days ==> d in m;
      if day in days {
        assert Grouped(rows) == m[day := m[day] + [last.email]];
        assert DistinctDays(rows) == days;
        SumLengthsAppend(m, days, day, last.email);
      } else {
        var m' := m[day := [last.email]];
        assert day !in m;
        assert AddRow(m, last) == m[day := [] + [last.email]];
        assert [] + [last.email] == [last.email];
        var ds := days + [day];
        assert DistinctDays(rows) == ds;
        assert ds[..|ds| - 1] == days;
        assert SumLengths(m', ds) == SumLengths(m', days) + 1;
        SumLengthsOtherKey(m, days, day, [last.email]);
      }
    }
  }

  /** An e-mail is listed under a day exactly when some row pairs them. */
  lemma {:induction false} EmailsOnMembership(rows: seq<Row>, day: string, email: string)
    ensures email in EmailsOn(rows, day) <==> exists r :: r in rows && r.dayName == day && r.email == email
  {
    if |rows| > 0 {
      var init, last := rows[..|rows| - 1], rows[|rows| - 1];
      EmailsOnMembership(init, day, email);
      assert rows == init + [last];
    }
  }

  /** Every key of the grouping holds at least one e-mail, so a non-empty row
      set never yields an empty dictionary. */
  lemma GroupedListsNonEmpty(rows: seq<Row>)
    ensures forall day :: day in Grouped(rows) ==> Grouped(rows)[day] != []
    ensures |rows| > 0 ==> Grouped(rows) != map[]
  {
    forall day | day in Grouped(rows)
      ensures Grouped(rows)[day] != []
    {
      var r :| r in rows && r.dayName == day;
      EmailsOnMembership(rows, day, r.email);
    }
    if |rows| > 0 {
      assert rows[0].dayName in Grouped(rows);
    }
  }
}
