/**
 * Workload accounting: the running time of every task within a window of days is split over the
 * days, grouped in the database, and put together again as one gapless daily series for each key.
 * Times are milliseconds since the epoch; days are those of a fixed offset from UTC.
 */
module Workloads {
  import opened Wrappers

  type Time = int

  /** Seconds in a day. */
  const DAY := 86400

  /** The requested days, the current time, and the offset of the requested time zone in seconds. */
  datatype Window = Window(start: Time, end: Time, now: Time, offset: int)

  datatype Task = Task(
    field: string,
    started: Time,
    inProgress: bool,
    completed: Option<Time>,
    statusChanged: Time,
    weight: int)

  /** The usage of one field value on one date. */
  datatype Record = Record(field: string, date: Time, usage: int)

  datatype Series = Series(dates: seq<Time>, values: seq<int>, total: int)

  function Min(a: int, b: int): int { if a <= b then a else b }

  function Max(a: int, b: int): int { if a >= b then a else b }

  function Second(t: Time): int { t / 1000 }

  function Day(t: Time, offset: int): int { (Second(t) + offset) / DAY }

  function DayStart(day: int, offset: int): Time { (day * DAY - offset) * 1000 }

  /** Days are those of the local time, in milliseconds since the epoch. */
  lemma DayMeans(t: Time, offset: int)
    ensures Day(t, offset) == (t + offset * 1000) / (24 * 60 * 60 * 1000)
  {
    assert (t + offset * 1000) / 1000 == t / 1000 + offset;
  }

  lemma DayOfStart(day: int, offset: int)
    ensures Day(DayStart(day, offset), offset) == day
    ensures Day(DayStart(day + 1, offset) - 1, offset) == day
  {
    var s := DayStart(day + 1, offset) - 1;
    assert s == ((day + 1) * DAY - offset - 1) * 1000 + 999;
    assert Second(s) == (day + 1) * DAY - offset - 1;
  }

  /** From the first moment of one day to the last millisecond of another. */
  function WindowOf(from: Time, to: Time, now: Time, offset: int): (w: Window)
    ensures w.now == now && w.offset == offset
    ensures Day(w.start, offset) == Day(from, offset) == Day(w.start - 1, offset) + 1
    ensures Day(w.end, offset) == Day(to, offset) == Day(w.end + 1, offset) - 1
  {
    Window(DayStart(Day(from, offset), offset), DayStart(Day(to, offset) + 1, offset) - 1, now, offset)
  }

  lemma DayIsMonotone(t: Time, u: Time, offset: int)
    requires t <= u
    ensures Second(t) <= Second(u) && Day(t, offset) <= Day(u, offset)
  {
  }

  /* ---------- Sums of usage ---------- */

  /** The usage of all records that fit. */
  function Usage(records: seq<Record>, fits: (string, Time) -> bool): int {
    if records == [] then 0
    else (if fits(records[0].field, records[0].date) then records[0].usage else 0) + Usage(records[1..], fits)
  }

  lemma {:induction false} UsageConcat(a: seq<Record>, b: seq<Record>, fits: (string, Time) -> bool)
    ensures Usage(a + b, fits) == Usage(a, fits) + Usage(b, fits)
  {
    if a == [] {
      assert a + b == b;
    } else {
      assert (a + b)[1..] == a[1..] + b;
      UsageConcat(a[1..], b, fits);
    }
  }

  lemma UsageAppend(a: seq<Record>, r: Record, fits: (string, Time) -> bool)
    ensures Usage(a + [r], fits) == Usage(a, fits) + if fits(r.field, r.date) then r.usage else 0
  {
    UsageConcat(a, [r], fits);
  }

  function Anything(): (string, Time) -> bool { (_, _) => true }

  function Exactly(field: string, date: Time): (string, Time) -> bool { (f, d) => f == field && d == date }

  function On(date: Time): (string, Time) -> bool { (_, d) => d == date }

  function OfKey(keyOf: string -> string, key: string): (string, Time) -> bool { (f, _) => keyOf(f) == key }

  function OfKeyOn(keyOf: string -> string, key: string, date: Time): (string, Time) -> bool {
    (f, d) => keyOf(f) == key && d == date
  }

  lemma {:induction false} UsageNone(records: seq<Record>, fits: (string, Time) -> bool)
    requires forall r :: r in records ==> !fits(r.field, r.date)
    ensures Usage(records, fits) == 0
  {
    if records != [] {
      UsageNone(records[1..], fits);
    }
  }

  /* ---------- A task, day by day ---------- */

  /** Whether the window has anything to do with a task. */
  predicate Selected(task: Task, w: Window) {
    && task.started < w.end
    && (task.inProgress ||
        match task.completed
        case Some(t) => t > w.start
        case None => task.statusChanged > w.start)
  }

  function Started(task: Task, w: Window): Time {
    Max(task.started, w.start)
  }

  /** When the task itself stopped, as far as it is known now. */
  function OwnStop(task: Task, now: Time): Time {
    if task.inProgress then now
    else match task.completed
         case Some(t) => t
         case None => task.statusChanged
  }

  function Stopped(task: Task, w: Window): Time {
    Min(OwnStop(task, w.now), w.end)
  }

  /** The seconds of a run that fall on the day that begins at `date`. */
  function SecondsOn(started: Time, stopped: Time, date: Time): int {
    Min(Second(stopped) - Second(date), DAY) - Max(Second(started) - Second(date), 0)
  }

  /** The `i`-th date of a run: `i` days after its start, cut to the beginning of the day. */
  function DateOf(started: Time, i: nat, offset: int): Time {
    DayStart(Day(started + i * DAY * 1000, offset), offset)
  }

  function DayCount(started: Time, stopped: Time, offset: int): nat {
    Max(0, 1 + Day(stopped, offset) - Day(started, offset))
  }

  /** The records of the first `n` days. */
  function RecordsFrom(task: Task, started: Time, stopped: Time, n: nat, offset: int): seq<Record> {
    if n == 0 then []
    else
      var date := DateOf(started, n - 1, offset);
      RecordsFrom(task, started, stopped, n - 1, offset)
        + [Record(task.field, date, task.weight * SecondsOn(started, stopped, date))]
  }

  /** The records of one task, one for each of its days. */
  function TaskRecords(task: Task, w: Window): seq<Record> {
    var started, stopped := Started(task, w), Stopped(task, w);
    RecordsFrom(task, started, stopped, DayCount(started, stopped, w.offset), w.offset)
  }

  /** The records of a task, if it is selected. */
  function OwnRecords(task: Task, w: Window): seq<Record> {
    if Selected(task, w) then TaskRecords(task, w) else []
  }

  function AllRecords(tasks: seq<Task>, w: Window): seq<Record> {
    if tasks == [] then []
    else OwnRecords(tasks[0], w) + AllRecords(tasks[1..], w)
  }

  lemma DateOfDay(started: Time, i: nat, offset: int)
    ensures DateOf(started, i, offset) == DayStart(Day(started, offset) + i, offset)
  {
    assert (started + i * DAY * 1000) / 1000 == started / 1000 + i * DAY;
  }

  lemma SecondsOfDay(started: Time, stopped: Time, n: nat, offset: int)
    requires 0 < n <= DayCount(started, stopped, offset)
    ensures var day := Day(started, offset) + n - 1;
      SecondsOn(started, stopped, DayStart(day, offset))
      == Min(Second(stopped), (day + 1) * DAY - offset) - if n == 1 then Second(started) else day * DAY - offset
    ensures n > 1 ==> Second(stopped) >= (Day(started, offset) + n - 1) * DAY - offset
  {
    var day := Day(started, offset) + n - 1;
    assert Second(DayStart(day, offset)) == day * DAY - offset;
    assert Second(stopped) + offset >= day * DAY;
  }

  lemma Distribute(a: int, b: int, c: int)
    ensures a * b + a * c == a * (b + c)
  {
  }

  /** The seconds of the first `n` days of a run add up to the time from its start to their end, or to its stop. */
  lemma {:induction false} SecondsTelescope(task: Task, started: Time, stopped: Time, n: nat, offset: int)
    requires n <= DayCount(started, stopped, offset)
    ensures Usage(RecordsFrom(task, started, stopped, n, offset), Anything())
         == if n == 0 then 0
            else task.weight * (Min(Second(stopped), (Day(started, offset) + n) * DAY - offset) - Second(started))
  {
    if n > 0 {
      var date := DateOf(started, n - 1, offset);
      SecondsTelescope(task, started, stopped, n - 1, offset);
      DateOfDay(started, n - 1, offset);
      SecondsOfDay(started, stopped, n, offset);
      UsageAppend(RecordsFrom(task, started, stopped, n - 1, offset),
                  Record(task.field, date, task.weight * SecondsOn(started, stopped, date)), Anything());
      var before := Min(Second(stopped), (Day(started, offset) + n - 1) * DAY - offset) - Second(started);
      Distribute(task.weight, before, SecondsOn(started, stopped, date));
    }
  }

  /**
   * The records of a task hold the seconds from its clipped start to its clipped stop, if it does
   * not stop on a day before the one it starts on; then it has no records at all.
   */
  lemma ClippedConserved(task: Task, w: Window)
    ensures var total := Usage(TaskRecords(task, w), Anything());
      var run := Second(Stopped(task, w)) - Second(Started(task, w));
      && (Day(Started(task, w), w.offset) <= Day(Stopped(task, w), w.offset) ==> total == task.weight * run)
      && (Day(Started(task, w), w.offset) > Day(Stopped(task, w), w.offset) ==> total == 0 && run < 0)
  {
    var started, stopped := Started(task, w), Stopped(task, w);
    var n := DayCount(started, stopped, w.offset);
    SecondsTelescope(task, started, stopped, n, w.offset);
    if n > 0 {
      assert Day(started, w.offset) + n == Day(stopped, w.offset) + 1;
      assert Second(stopped) + w.offset < (Day(stopped, w.offset) + 1) * DAY;
    } else {
      assert Second(stopped) + w.offset < Second(started) + w.offset;
    }
  }

  /** A selected task that did not stop before it started runs forward within a non-empty window. */
  lemma SelectedRunsForward(task: Task, w: Window)
    requires Selected(task, w) && w.start <= w.end && task.started <= OwnStop(task, w.now)
    requires task.inProgress ==> w.start <= w.now
    ensures w.start <= Started(task, w) <= Stopped(task, w) <= w.end
    ensures Day(Started(task, w), w.offset) <= Day(Stopped(task, w), w.offset)
  {
    DayIsMonotone(Started(task, w), Stopped(task, w), w.offset);
  }

  /* ---------- Grouping in the database ---------- */

  predicate Same(a: Record, b: Record) { a.field == b.field && a.date == b.date }

  ghost predicate Has(records: seq<Record>, x: Record) {
    exists r :: r in records && Same(r, x)
  }

  ghost predicate Distinct(groups: seq<Record>) {
    forall i, j :: 0 <= i < j < |groups| ==> !Same(groups[i], groups[j])
  }

  /** The answer of the grouping stage, in whatever order: one record for each field value and date. */
  ghost predicate IsGrouping(records: seq<Record>, groups: seq<Record>) {
    && Distinct(groups)
    && (forall r :: r in records ==> Has(groups, r))
    && (forall g :: g in groups ==> Has(records, g) && g.usage == Usage(records, Exactly(g.field, g.date)))
  }

  /** The records of other field values or dates. */
  function Others(records: seq<Record>, g: Record): (rest: seq<Record>)
    ensures forall r :: r in rest <==> r in records && !Same(r, g)
  {
    if records == [] then []
    else (if Same(records[0], g) then [] else [records[0]]) + Others(records[1..], g)
  }

  lemma {:induction false} UsageOfOthers(records: seq<Record>, g: Record, fits: (string, Time) -> bool)
    ensures Usage(records, fits) == Usage(Others(records, g), fits)
      + if fits(g.field, g.date) then Usage(records, Exactly(g.field, g.date)) else 0
  {
    if records != [] {
      UsageOfOthers(records[1..], g, fits);
      UsageConcat(if Same(records[0], g) then [] else [records[0]], Others(records[1..], g), fits);
    }
  }

  lemma SomeUngrouped(records: seq<Record>)
    requires records != []
    ensures exists r :: r in records && !Has([], r)
  {
    assert records[0] in records;
  }

  lemma LaterDiffer(groups: seq<Record>, g: Record)
    requires groups != [] && Distinct(groups) && g in groups[1..]
    ensures g in groups && !Same(groups[0], g)
  {
    var k :| 0 <= k < |groups| - 1 && groups[k + 1] == g;
  }

  lemma HasLater(groups: seq<Record>, x: Record)
    requires groups != [] && Has(groups, x) && !Same(x, groups[0])
    ensures Has(groups[1..], x)
  {
    var g :| g in groups && Same(g, x);
    assert g in groups[1..];
  }

  lemma GroupingOfOthers(records: seq<Record>, groups: seq<Record>)
    requires IsGrouping(records, groups) && groups != []
    ensures IsGrouping(Others(records, groups[0]), groups[1..])
  {
    var g0, rest, later := groups[0], Others(records, groups[0]), groups[1..];
    forall r | r in rest ensures Has(later, r) {
      HasLater(groups, r);
    }
    forall g | g in later
      ensures Has(rest, g) && g.usage == Usage(rest, Exactly(g.field, g.date))
    {
      LaterDiffer(groups, g);
      var r :| r in records && Same(r, g);
      assert r in rest;
      UsageOfOthers(records, g0, Exactly(g.field, g.date));
    }
  }

  /** Grouping keeps the usage of every selection of field values and dates. */
  lemma {:induction false} GroupingConserves(records: seq<Record>, groups: seq<Record>, fits: (string, Time) -> bool)
    requires IsGrouping(records, groups)
    ensures Usage(groups, fits) == Usage(records, fits)
    decreases |groups|
  {
    if groups == [] {
      if records != [] {
        SomeUngrouped(records);
      }
    } else {
      GroupingOfOthers(records, groups);
      GroupingConserves(Others(records, groups[0]), groups[1..], fits);
      UsageOfOthers(records, groups[0], fits);
      assert groups[0] in groups;
    }
  }

  /* ---------- The series of one key ---------- */

  /** The records of one key, in order. */
  function KeyData(groups: seq<Record>, keyOf: string -> string, key: string): (data: seq<Record>)
    ensures forall r :: r in data <==> r in groups && keyOf(r.field) == key
  {
    if groups == [] then []
    else (if keyOf(groups[0].field) == key then [groups[0]] else []) + KeyData(groups[1..], keyOf, key)
  }

  lemma {:induction false} KeyDataUsage(groups: seq<Record>, keyOf: string -> string, key: string, date: Time)
    ensures Usage(KeyData(groups, keyOf, key), Anything()) == Usage(groups, OfKey(keyOf, key))
    ensures Usage(KeyData(groups, keyOf, key), On(date)) == Usage(groups, OfKeyOn(keyOf, key, date))
  {
    if groups != [] {
      KeyDataUsage(groups[1..], keyOf, key, date);
      if keyOf(groups[0].field) == key {
        assert KeyData(groups, keyOf, key)[1..] == KeyData(groups[1..], keyOf, key);
      } else {
        assert KeyData(groups, keyOf, key) == KeyData(groups[1..], keyOf, key);
      }
    }
  }

  ghost predicate Sorted(data: seq<Record>) {
    forall i, j :: 0 <= i < j < |data| ==> data[i].date <= data[j].date
  }

  function Insert(r: Record, data: seq<Record>): seq<Record> {
    if data == [] || r.date <= data[0].date then [r] + data else [data[0]] + Insert(r, data[1..])
  }

  /** `sorted(key_data, key=itemgetter("date"))` */
  function SortByDate(data: seq<Record>): seq<Record> {
    if data == [] then [] else Insert(data[0], SortByDate(data[1..]))
  }

  lemma {:induction false} InsertUsage(r: Record, data: seq<Record>, fits: (string, Time) -> bool)
    ensures Usage(Insert(r, data), fits) == Usage([r] + data, fits)
  {
    assert ([r] + data)[1..] == data;
    if data != [] && r.date > data[0].date {
      InsertUsage(r, data[1..], fits);
      assert ([data[0]] + Insert(r, data[1..]))[1..] == Insert(r, data[1..]);
      assert ([r] + data[1..])[1..] == data[1..];
    }
  }

  lemma {:induction false} InsertMembers(r: Record, data: seq<Record>)
    ensures forall x :: x in Insert(r, data) <==> x == r || x in data
  {
    if data != [] && r.date > data[0].date {
      InsertMembers(r, data[1..]);
      assert data == [data[0]] + data[1..];
    }
  }

  lemma BehindHead(head: Record, rest: seq<Record>)
    requires Sorted(rest) && forall x :: x in rest ==> head.date <= x.date
    ensures Sorted([head] + rest)
  {
    forall j | 0 <= j < |rest| ensures head.date <= rest[j].date {
      assert rest[j] in rest;
    }
  }

  lemma {:induction false} InsertSorted(r: Record, data: seq<Record>)
    requires Sorted(data)
    ensures Sorted(Insert(r, data))
  {
    if data != [] && r.date > data[0].date {
      InsertSorted(r, data[1..]);
      InsertMembers(r, data[1..]);
      BehindHead(data[0], Insert(r, data[1..]));
    }
  }

  lemma {:induction false} SortKeeps(data: seq<Record>, fits: (string, Time) -> bool)
    ensures Sorted(SortByDate(data))
    ensures forall x :: x in SortByDate(data) <==> x in data
    ensures Usage(SortByDate(data), fits) == Usage(data, fits)
  {
    if data != [] {
      SortKeeps(data[1..], fits);
      var rest := SortByDate(data[1..]);
      InsertUsage(data[0], rest, fits);
      InsertMembers(data[0], rest);
      InsertSorted(data[0], rest);
      assert ([data[0]] + rest)[1..] == rest;
      assert data == [data[0]] + data[1..];
    }
  }

  function Total(values: seq<int>): int {
    if values == [] then 0 else Total(values[..|values| - 1]) + values[|values| - 1]
  }

  lemma TotalAppend(values: seq<int>, v: int)
    ensures Total(values + [v]) == Total(values) + v
  {
    assert (values + [v])[..|values|] == values;
  }

  lemma TotalRaised(values: seq<int>, v: int)
    requires values != []
    ensures Total(values[|values| - 1 := values[|values| - 1] + v]) == Total(values) + v
  {
    var n := |values| - 1;
    assert values[n := values[n] + v][..n] == values[..n];
  }

  /** All dates are beginnings of days of the window. */
  ghost predicate WithinWindow(data: seq<Record>, w: Window) {
    forall r :: r in data ==>
      && r.date == DayStart(Day(r.date, w.offset), w.offset)
      && Day(w.start, w.offset) <= Day(r.date, w.offset) <= Day(w.end, w.offset)
  }

  /** The beginning of the `i`-th day of the window. */
  function DateAt(w: Window, i: int): Time { DayStart(Day(w.start, w.offset) + i, w.offset) }

  function FirstDates(w: Window, n: nat): seq<Time> { seq(n, i => DateAt(w, i)) }

  lemma DatesAscend(w: Window, i: int, j: int)
    ensures i < j <==> DateAt(w, i) < DateAt(w, j)
    ensures DateAt(w, i + 1) == DateAt(w, i) + DAY * 1000
    ensures Day(DateAt(w, i), w.offset) == Day(w.start, w.offset) + i
  {
    DayOfStart(Day(w.start, w.offset) + i, w.offset);
  }

  /** On each date the usage seen so far, nothing seen behind the last date. */
  ghost predicate Tallied(seen: seq<Record>, dates: seq<Time>, values: seq<int>, total: int) {
    && |values| == |dates|
    && (forall i :: 0 <= i < |dates| ==> values[i] == Usage(seen, On(dates[i])))
    && total == Usage(seen, Anything()) == Total(values)
    && (forall r :: r in seen ==> dates != [] && r.date <= dates[|dates| - 1])
  }

  /** What the filling loop keeps: dates without gaps, with their usage so far. */
  ghost predicate Filled(seen: seq<Record>, w: Window, dates: seq<Time>, values: seq<int>, total: int) {
    dates == FirstDates(w, |dates|) && Tallied(seen, dates, values, total)
  }

  lemma NextDay(w: Window, n: nat)
    ensures FirstDates(w, n + 1) == FirstDates(w, n) + [DateAt(w, n)]
    ensures forall t :: t in FirstDates(w, n) ==> t < DateAt(w, n)
  {
    forall i | 0 <= i < n ensures DateAt(w, i) < DateAt(w, n) {
      DatesAscend(w, i, n);
    }
  }

  /** A day without usage is added behind the last one. */
  lemma TalliedGap(seen: seq<Record>, dates: seq<Time>, values: seq<int>, total: int, date: Time)
    requires Tallied(seen, dates, values, total)
    requires forall t :: t in dates ==> t < date
    ensures Tallied(seen, dates + [date], values + [0], total)
  {
    TotalAppend(values, 0);
    assert dates != [] ==> dates[|dates| - 1] in dates;
    UsageNone(seen, On(date));
  }

  /** The first record of a day is added behind the last one. */
  lemma TalliedNew(seen: seq<Record>, dates: seq<Time>, values: seq<int>, total: int, r: Record)
    requires Tallied(seen, dates, values, total)
    requires forall t :: t in dates ==> t < r.date
    ensures Tallied(seen + [r], dates + [r.date], values + [r.usage], total + r.usage)
  {
    TotalAppend(values, r.usage);
    assert dates != [] ==> dates[|dates| - 1] in dates;
    UsageNone(seen, On(r.date));
    UsageAppend(seen, r, Anything());
    forall i | 0 <= i < |dates| + 1
      ensures (values + [r.usage])[i] == Usage(seen + [r], On((dates + [r.date])[i]))
    {
      UsageAppend(seen, r, On((dates + [r.date])[i]));
      assert i < |dates| ==> dates[i] in dates;
    }
  }

  /** A further record of the last day is summed under the same date. */
  lemma TalliedSame(seen: seq<Record>, dates: seq<Time>, values: seq<int>, total: int, r: Record)
    requires Tallied(seen, dates, values, total)
    requires dates != [] && r.date == dates[|dates| - 1]
    requires forall i :: 0 <= i < |dates| - 1 ==> dates[i] < r.date
    ensures Tallied(seen + [r], dates, values[|values| - 1 := values[|values| - 1] + r.usage], total + r.usage)
  {
    TotalRaised(values, r.usage);
    UsageAppend(seen, r, Anything());
    forall i | 0 <= i < |dates|
      ensures values[|values| - 1 := values[|values| - 1] + r.usage][i] == Usage(seen + [r], On(dates[i]))
    {
      UsageAppend(seen, r, On(dates[i]));
    }
  }

  /** Days without usage, up to but without the given one. */
  method FillGaps(ghost seen: seq<Record>, w: Window, dates: seq<Time>, values: seq<int>, ghost total: int,
                  next: Time, day: int)
    returns (dates': seq<Time>, values': seq<int>, next': Time)
    requires Filled(seen, w, dates, values, total) && next == DateAt(w, |dates|)
    ensures Filled(seen, w, dates', values', total) && next' == DateAt(w, |dates'|)
    ensures dates <= dates' && |dates'| == Max(|dates|, day - Day(w.start, w.offset))
  {
    dates', values', next' := dates, values, next;
    DatesAscend(w, |dates'|, 0);
    while day > Day(next', w.offset)
      invariant Filled(seen, w, dates', values', total) && next' == DateAt(w, |dates'|)
      invariant dates <= dates' && |dates'| <= Max(|dates|, day - Day(w.start, w.offset))
      invariant Day(next', w.offset) == Day(w.start, w.offset) + |dates'|
      decreases day - Day(next', w.offset)
    {
      NextDay(w, |dates'|);
      TalliedGap(seen, dates', values', total, next');
      DatesAscend(w, |dates'|, 0);
      dates' := dates' + [next'];
      next' := next' + DAY * 1000;
      values' := values' + [0];
      DatesAscend(w, |dates'|, 0);
    }
  }

  /** One record: first the days before it that have no record, then its own. */
  method AddRecord(ghost seen: seq<Record>, w: Window, dates: seq<Time>, values: seq<int>, total: int, next: Time,
                   r: Record, ghost k: nat)
    returns (dates': seq<Time>, values': seq<int>, total': int, next': Time)
    requires Filled(seen, w, dates, values, total) && next == DateAt(w, |dates|)
    requires r.date == DateAt(w, k) && (|dates| <= k || (|dates| == k + 1 && dates[k] == r.date))
    ensures Filled(seen + [r], w, dates', values', total') && next' == DateAt(w, |dates'|)
    ensures |dates'| == k + 1 && dates'[k] == r.date
  {
    DatesAscend(w, k, k);
    dates', values', next' := FillGaps(seen, w, dates, values, total, next, Day(r.date, w.offset));
    total' := total + r.usage;
    if dates' != [] && dates'[|dates'| - 1] == r.date {
      DatesAscend(w, |dates'| - 1, k);
      NextDay(w, k);
      TalliedSame(seen, dates', values', total, r);
      values' := values'[|values'| - 1 := values'[|values'| - 1] + r.usage];
    } else {
      NextDay(w, k);
      TalliedNew(seen, dates', values', total, r);
      dates' := dates' + [r.date];
      next' := r.date + DAY * 1000;
      values' := values' + [r.usage];
    }
  }

  lemma Prefix(data: seq<Record>, n: nat)
    requires n <= |data|
    ensures if n == |data| then data[..n] == data else data[..n + 1] == data[..n] + [data[n]]
  {
  }

  /** The next record is not before the last date. */
  lemma BehindLast(data: seq<Record>, n: nat, w: Window, dates: seq<Time>, k: nat)
    requires n < |data| && Sorted(data) && data[n].date == DateAt(w, k)
    requires dates == FirstDates(w, |dates|)
    requires if n == 0 then dates == [] else dates != [] && dates[|dates| - 1] == data[n - 1].date
    ensures |dates| <= k || (|dates| == k + 1 && dates[k] == data[n].date)
  {
    if n > 0 {
      DatesAscend(w, k, |dates| - 1);
    }
  }

  /** Where the next record belongs. */
  lemma RecordDay(data: seq<Record>, n: nat, w: Window) returns (k: nat)
    requires n < |data| && WithinWindow(data, w)
    ensures k < DayCount(w.start, w.end, w.offset) && data[n].date == DateAt(w, k)
  {
    assert data[n] in data;
    k := Day(data[n].date, w.offset) - Day(w.start, w.offset);
  }

  /**
   * The filling loop for one key: every day of the window once, in order; on each day the sum of
   * all records of that day; and the total of the records, which is the sum of the series.
   */
  method FillSeries(data: seq<Record>, w: Window) returns (dates: seq<Time>, values: seq<int>, total: int)
    requires Sorted(data) && WithinWindow(data, w) && w.start == DayStart(Day(w.start, w.offset), w.offset)
    ensures |values| == |dates| && dates == FirstDates(w, DayCount(w.start, w.end, w.offset))
    ensures forall i :: 0 <= i < |dates| ==> values[i] == Usage(data, On(dates[i]))
    ensures total == Usage(data, Anything()) == Total(values)
  {
    dates, values, total := [], [], 0;
    var next := w.start;
    for n := 0 to |data|
      invariant Filled(data[..n], w, dates, values, total) && next == DateAt(w, |dates|)
      invariant |dates| <= DayCount(w.start, w.end, w.offset)
      invariant if n == 0 then dates == [] else dates != [] && dates[|dates| - 1] == data[n - 1].date
    {
      Prefix(data, n);
      ghost var k := RecordDay(data, n, w);
      BehindLast(data, n, w, dates, k);
      dates, values, total, next := AddRecord(data[..n], w, dates, values, total, next, data[n], k);
    }
    Prefix(data, |data|);
    dates, values, next := FillGaps(data, w, dates, values, total, next, Day(w.end, w.offset) + 1);
  }

  /* ---------- From tasks to series ---------- */

  function AddToGroups(r: Record, groups: seq<Record>): seq<Record> {
    if groups == [] then [r]
    else if Same(groups[0], r) then [groups[0].(usage := groups[0].usage + r.usage)] + groups[1..]
    else [groups[0]] + AddToGroups(r, groups[1..])
  }

  /** The grouping stage. */
  function Grouped(records: seq<Record>): seq<Record> {
    if records == [] then [] else AddToGroups(records[0], Grouped(records[1..]))
  }

  lemma {:induction false} UsageOfGroups(r: Record, groups: seq<Record>, fits: (string, Time) -> bool)
    ensures Usage(AddToGroups(r, groups), fits) == Usage([r] + groups, fits)
  {
    assert ([r] + groups)[1..] == groups;
    if groups != [] && !Same(groups[0], r) {
      UsageOfGroups(r, groups[1..], fits);
      assert ([r] + groups[1..])[1..] == groups[1..];
    }
  }

  /** A head that is like the old one, in front of records that do not have it, keeps groups distinct. */
  lemma StillDistinct(head: Record, rest: seq<Record>, groups: seq<Record>)
    requires groups != [] && Same(head, groups[0])
    requires Distinct(groups) ==> Distinct(rest)
    requires Distinct(groups) ==> !Has(rest, head)
    ensures Distinct(groups) ==> Distinct([head] + rest)
  {
    if Distinct(groups) {
      forall j | 0 <= j < |rest| ensures !Same(head, rest[j]) {
        assert rest[j] in rest;
      }
    }
  }

  lemma HasMore(r: Record, records: seq<Record>, all: seq<Record>)
    requires all == [r] + records
    ensures forall x :: Has(all, x) <==> Same(r, x) || Has(records, x)
  {
  }

  lemma {:induction false} AddedKeeps(r: Record, groups: seq<Record>)
    ensures forall x :: Has(AddToGroups(r, groups), x) <==> Same(r, x) || Has(groups, x)
    ensures Distinct(groups) ==> Distinct(AddToGroups(r, groups))
  {
    var rest := AddToGroups(r, groups);
    if groups == [] {
      HasMore(r, [], rest);
    } else if Same(groups[0], r) {
      HasMore(groups[0], groups[1..], groups);
      HasMore(rest[0], groups[1..], rest);
      StillDistinct(rest[0], groups[1..], groups);
    } else {
      AddedKeeps(r, groups[1..]);
      HasMore(groups[0], groups[1..], groups);
      HasMore(groups[0], AddToGroups(r, groups[1..]), rest);
      StillDistinct(groups[0], AddToGroups(r, groups[1..]), groups);
    }
  }

  /** Among distinct records, a record is all there is of its field value and date. */
  lemma {:induction false} DistinctUsage(groups: seq<Record>, x: Record)
    requires Distinct(groups) && x in groups
    ensures Usage(groups, Exactly(x.field, x.date)) == x.usage
  {
    if x == groups[0] {
      forall r | r in groups[1..] ensures !Same(r, x) {
        LaterDiffer(groups, r);
      }
      UsageNone(groups[1..], Exactly(x.field, x.date));
    } else {
      LaterDiffer(groups, x);
      DistinctUsage(groups[1..], x);
    }
  }

  lemma {:induction false} GroupedKeeps(records: seq<Record>, fits: (string, Time) -> bool)
    ensures Usage(Grouped(records), fits) == Usage(records, fits)
    ensures forall x :: Has(Grouped(records), x) <==> Has(records, x)
    ensures Distinct(Grouped(records))
  {
    if records != [] {
      GroupedKeeps(records[1..], fits);
      UsageOfGroups(records[0], Grouped(records[1..]), fits);
      AddedKeeps(records[0], Grouped(records[1..]));
      assert ([records[0]] + Grouped(records[1..]))[1..] == Grouped(records[1..]);
      HasMore(records[0], records[1..], records);
    }
  }

  /** The grouping stage gives a grouping. */
  lemma GroupedIsGrouping(records: seq<Record>)
    ensures IsGrouping(records, Grouped(records))
  {
    GroupedKeeps(records, Anything());
    forall r | r in records ensures Has(Grouped(records), r) {
      assert Same(r, r) && Has(records, r);
    }
    forall g | g in Grouped(records)
      ensures Has(records, g) && g.usage == Usage(records, Exactly(g.field, g.date))
    {
      assert Same(g, g) && Has(Grouped(records), g);
      DistinctUsage(Grouped(records), g);
      GroupedKeeps(records, Exactly(g.field, g.date));
    }
  }

  /* ---------- The seconds a task runs, by its own fields ---------- */

  /** The end of a run as far as it is known: now, or when it was completed, or else when its status changed. */
  ghost predicate EndsAt(task: Task, now: Time, stop: Time) {
    && (task.inProgress ==> stop == now)
    && (!task.inProgress && task.completed.Some? ==> stop == task.completed.value)
    && (!task.inProgress && task.completed.None? ==> stop == task.statusChanged)
  }

  ghost function Range(lo: int, hi: int): (r: set<int>)
    ensures forall s :: s in r <==> lo <= s < hi
    ensures |r| == Max(0, hi - lo)
    decreases hi - lo
  {
    if lo < hi then Range(lo, hi - 1) + {hi - 1} else {}
  }

  /** The seconds of the window, but for its last one. */
  ghost function WindowSeconds(w: Window): set<int> { Range(Second(w.start), Second(w.end)) }

  /** Those of them on the day that begins at `date`. */
  ghost function DaySeconds(w: Window, date: Time): set<int> {
    set s | s in WindowSeconds(w) && Second(date) <= s < Second(date) + DAY
  }

  /** How many of some seconds lie between two moments. */
  ghost function Between(t: Time, u: Time, seconds: set<int>): int {
    |set s | s in seconds && Second(t) <= s < Second(u)|
  }

  /** The task ends before it starts, but on the same day and in reach of the window. */
  ghost predicate RunsBackward(task: Task, w: Window, stop: Time) {
    && stop < task.started < w.end && Day(stop, w.offset) == Day(task.started, w.offset)
    && (task.inProgress || stop > w.start)
  }

  /** The number of some seconds that the task runs; those that it runs backward count negative. */
  ghost function SecondsRun(task: Task, w: Window, seconds: set<int>): int {
    assert EndsAt(task, w.now, OwnStop(task, w.now));
    var stop :| EndsAt(task, w.now, stop);
    if RunsBackward(task, w, stop) then -Between(stop, task.started, seconds)
    else Between(task.started, stop, seconds)
  }

  /** The weighted seconds of a task in the window. */
  ghost function TaskUsage(task: Task, w: Window): int {
    task.weight * SecondsRun(task, w, WindowSeconds(w))
  }

  /** The weighted seconds of a task on the day that begins at `date`. */
  ghost function TaskUsageOn(task: Task, w: Window, date: Time): int {
    if date == DayStart(Day(date, w.offset), w.offset) then task.weight * SecondsRun(task, w, DaySeconds(w, date))
    else 0
  }

  lemma BetweenIs(t: Time, u: Time, lo: int, hi: int, seconds: set<int>)
    requires forall s :: s in seconds <==> lo <= s < hi
    ensures Between(t, u, seconds) == Max(0, Min(Second(u), hi) - Max(Second(t), lo))
  {
    assert (set s | s in seconds && Second(t) <= s < Second(u)) == Range(Max(Second(t), lo), Min(Second(u), hi));
  }

  /** The window begins with a day. */
  predicate Aligned(w: Window) {
    w.start == DayStart(Day(w.start, w.offset), w.offset)
  }

  lemma DayBegins(t: Time, day: int, offset: int)
    ensures Day(t, offset) >= day <==> Second(t) >= day * DAY - offset
    ensures Second(DayStart(day, offset)) == day * DAY - offset
  {
  }

  lemma SecondsRunIs(task: Task, w: Window, lo: int, hi: int, seconds: set<int>)
    requires forall s :: s in seconds <==> lo <= s < hi
    ensures var stop := OwnStop(task, w.now);
      SecondsRun(task, w, seconds) ==
        if RunsBackward(task, w, stop) then -Max(0, Min(Second(task.started), hi) - Max(Second(stop), lo))
        else Max(0, Min(Second(stop), hi) - Max(Second(task.started), lo))
  {
    var stop := OwnStop(task, w.now);
    BetweenIs(task.started, stop, lo, hi, seconds);
    BetweenIs(stop, task.started, lo, hi, seconds);
  }

  /** The clipped run is the part of the run in the window. */
  lemma ClippedSeconds(task: Task, w: Window)
    requires Aligned(w)
    ensures SecondsRun(task, w, WindowSeconds(w)) ==
      var started, stopped := Started(task, w), Stopped(task, w);
      if Selected(task, w) && Day(started, w.offset) <= Day(stopped, w.offset) then Second(stopped) - Second(started)
      else 0
  {
    SecondsRunIs(task, w, Second(w.start), Second(w.end), WindowSeconds(w));
    DayBegins(OwnStop(task, w.now), Day(w.start, w.offset), w.offset);
  }

  /** A task that runs backward on a day does so between its own start and stop. */
  lemma BackwardIsUnclipped(task: Task, w: Window)
    requires Aligned(w) && Selected(task, w) && OwnStop(task, w.now) < task.started
    requires Day(Started(task, w), w.offset) <= Day(Stopped(task, w), w.offset)
    ensures RunsBackward(task, w, OwnStop(task, w.now))
    ensures Started(task, w) == task.started && Stopped(task, w) == OwnStop(task, w.now)
  {
    DayBegins(Stopped(task, w), Day(w.start, w.offset), w.offset);
    DayIsMonotone(OwnStop(task, w.now), task.started, w.offset);
  }

  lemma BackwardOn(task: Task, w: Window, date: Time, lo: int, hi: int)
    requires Aligned(w) && date == DayStart(Day(date, w.offset), w.offset) && OwnStop(task, w.now) < task.started
    requires lo == Max(Second(w.start), Second(date)) && hi == Min(Second(w.end), Second(date) + DAY)
    ensures var started, stopped, stop := Started(task, w), Stopped(task, w), OwnStop(task, w.now);
      if Selected(task, w) && Day(started, w.offset) <= Day(date, w.offset) <= Day(stopped, w.offset)
      then
        && RunsBackward(task, w, stop)
        && SecondsOn(started, stopped, date) == -Max(0, Min(Second(task.started), hi) - Max(Second(stop), lo))
      else RunsBackward(task, w, stop) ==> Min(Second(task.started), hi) <= Max(Second(stop), lo)
  {
    var started, stopped, stop := Started(task, w), Stopped(task, w), OwnStop(task, w.now);
    DayBegins(stop, Day(date, w.offset), w.offset);
    DayBegins(task.started, Day(date, w.offset), w.offset);
    DayBegins(stop, Day(w.start, w.offset), w.offset);
    DayBegins(stop, Day(date, w.offset) + 1, w.offset);
    DayBegins(task.started, Day(date, w.offset) + 1, w.offset);
    if Selected(task, w) && Day(started, w.offset) <= Day(date, w.offset) <= Day(stopped, w.offset) {
      BackwardIsUnclipped(task, w);
    }
  }

  lemma ForwardOn(task: Task, w: Window, date: Time, lo: int, hi: int)
    requires Aligned(w) && date == DayStart(Day(date, w.offset), w.offset) && task.started <= OwnStop(task, w.now)
    requires lo == Max(Second(w.start), Second(date)) && hi == Min(Second(w.end), Second(date) + DAY)
    ensures var started, stopped, stop := Started(task, w), Stopped(task, w), OwnStop(task, w.now);
      Max(0, Min(Second(stop), hi) - Max(Second(task.started), lo)) ==
        if Selected(task, w) && Day(started, w.offset) <= Day(date, w.offset) <= Day(stopped, w.offset)
        then SecondsOn(started, stopped, date)
        else 0
  {
    DayBegins(Stopped(task, w), Day(date, w.offset), w.offset);
    DayBegins(Stopped(task, w), Day(w.start, w.offset), w.offset);
    DayBegins(Started(task, w), Day(date, w.offset) + 1, w.offset);
  }

  /** On each day the clipped run is the part of the run on that day. */
  lemma ClippedSecondsOn(task: Task, w: Window, date: Time)
    requires Aligned(w) && date == DayStart(Day(date, w.offset), w.offset)
    ensures SecondsRun(task, w, DaySeconds(w, date)) ==
      var started, stopped := Started(task, w), Stopped(task, w);
      if Selected(task, w) && Day(started, w.offset) <= Day(date, w.offset) <= Day(stopped, w.offset)
      then SecondsOn(started, stopped, date)
      else 0
  {
    var lo, hi := Max(Second(w.start), Second(date)), Min(Second(w.end), Second(date) + DAY);
    SecondsRunIs(task, w, lo, hi, DaySeconds(w, date));
    if task.started <= OwnStop(task, w.now) {
      ForwardOn(task, w, date, lo, hi);
    } else {
      BackwardOn(task, w, date, lo, hi);
    }
  }

  /** The sum over all tasks of one key. */
  ghost function KeyUsage(tasks: seq<Task>, w: Window, keyOf: string -> string, key: string): int {
    if tasks == [] then 0
    else (if keyOf(tasks[0].field) == key then TaskUsage(tasks[0], w) else 0) + KeyUsage(tasks[1..], w, keyOf, key)
  }

  ghost function KeyUsageOn(tasks: seq<Task>, w: Window, keyOf: string -> string, key: string, date: Time): int {
    if tasks == [] then 0
    else
      (if keyOf(tasks[0].field) == key then TaskUsageOn(tasks[0], w, date) else 0)
        + KeyUsageOn(tasks[1..], w, keyOf, key, date)
  }

  /** The records of a task are its own and lie on its days. */
  lemma {:induction false} RecordsOfTask(task: Task, w: Window, n: nat)
    ensures forall r :: r in RecordsFrom(task, Started(task, w), Stopped(task, w), n, w.offset) ==>
      && r.field == task.field && r.date == DayStart(Day(r.date, w.offset), w.offset)
      && Day(Started(task, w), w.offset) <= Day(r.date, w.offset) < Day(Started(task, w), w.offset) + n
  {
    if n > 0 {
      var started := Started(task, w);
      RecordsOfTask(task, w, n - 1);
      DateOfDay(started, n - 1, w.offset);
      DayOfStart(Day(started, w.offset) + n - 1, w.offset);
    }
  }

  /** A selection by field value takes all or nothing. */
  lemma {:induction false} UsageOfField(records: seq<Record>, field: string, fits: (string, Time) -> bool)
    requires forall r :: r in records ==> r.field == field
    ensures (forall d :: fits(field, d)) ==> Usage(records, fits) == Usage(records, Anything())
    ensures (forall d :: !fits(field, d)) ==> Usage(records, fits) == 0
  {
    if records != [] {
      UsageOfField(records[1..], field, fits);
    }
  }

  /** On a given date the records of a task hold its seconds of that day. */
  lemma {:induction false} RecordsFromOn(task: Task, w: Window, n: nat, fits: (string, Time) -> bool, date: Time)
    requires n <= DayCount(Started(task, w), Stopped(task, w), w.offset)
    requires forall d :: fits(task.field, d) <==> d == date
    ensures Usage(RecordsFrom(task, Started(task, w), Stopped(task, w), n, w.offset), fits)
         == var started, stopped := Started(task, w), Stopped(task, w);
            if date == DayStart(Day(date, w.offset), w.offset)
               && Day(started, w.offset) <= Day(date, w.offset) < Day(started, w.offset) + n
            then task.weight * SecondsOn(started, stopped, date)
            else 0
  {
    var started, stopped := Started(task, w), Stopped(task, w);
    if n > 0 {
      RecordsFromOn(task, w, n - 1, fits, date);
      var last := DateOf(started, n - 1, w.offset);
      DateOfDay(started, n - 1, w.offset);
      DayOfStart(Day(started, w.offset) + n - 1, w.offset);
      UsageAppend(RecordsFrom(task, started, stopped, n - 1, w.offset),
                  Record(task.field, last, task.weight * SecondsOn(started, stopped, last)), fits);
    }
  }

  /** Conservation for one task: its records hold exactly the seconds that it runs in the window, and on each day. */
  lemma TaskConserved(task: Task, w: Window, date: Time)
    requires Aligned(w)
    ensures var own := OwnRecords(task, w);
      && Usage(own, Anything()) == TaskUsage(task, w)
      && Usage(own, Exactly(task.field, date)) == TaskUsageOn(task, w, date)
  {
    var n := DayCount(Started(task, w), Stopped(task, w), w.offset);
    ClippedConserved(task, w);
    ClippedSeconds(task, w);
    RecordsFromOn(task, w, n, Exactly(task.field, date), date);
    if date == DayStart(Day(date, w.offset), w.offset) {
      ClippedSecondsOn(task, w, date);
    }
  }

  lemma TaskRecordsConserve(task: Task, w: Window, keyOf: string -> string, key: string, date: Time)
    requires Aligned(w)
    ensures var own := OwnRecords(task, w);
      && Usage(own, OfKey(keyOf, key)) == (if keyOf(task.field) == key then TaskUsage(task, w) else 0)
      && Usage(own, OfKeyOn(keyOf, key, date)) == (if keyOf(task.field) == key then TaskUsageOn(task, w, date) else 0)
  {
    var n := DayCount(Started(task, w), Stopped(task, w), w.offset);
    TaskConserved(task, w, date);
    RecordsOfTask(task, w, n);
    UsageOfField(TaskRecords(task, w), task.field, OfKey(keyOf, key));
    UsageOfField(TaskRecords(task, w), task.field, OfKeyOn(keyOf, key, date));
    if keyOf(task.field) == key {
      RecordsFromOn(task, w, n, OfKeyOn(keyOf, key, date), date);
      RecordsFromOn(task, w, n, Exactly(task.field, date), date);
    }
  }

  /** The records of all tasks hold, for each key, and for each key and date, exactly the seconds of its tasks. */
  lemma {:induction false} RecordsConserve(tasks: seq<Task>, w: Window, keyOf: string -> string, key: string,
                                           date: Time)
    requires Aligned(w)
    ensures Usage(AllRecords(tasks, w), OfKey(keyOf, key)) == KeyUsage(tasks, w, keyOf, key)
    ensures Usage(AllRecords(tasks, w), OfKeyOn(keyOf, key, date)) == KeyUsageOn(tasks, w, keyOf, key, date)
  {
    if tasks != [] {
      RecordsConserve(tasks[1..], w, keyOf, key, date);
      TaskRecordsConserve(tasks[0], w, keyOf, key, date);
      var own := OwnRecords(tasks[0], w);
      UsageConcat(own, AllRecords(tasks[1..], w), OfKey(keyOf, key));
      UsageConcat(own, AllRecords(tasks[1..], w), OfKeyOn(keyOf, key, date));
    }
  }

  /** All records lie on days of the window. */
  lemma {:induction false} RecordsWithinWindow(tasks: seq<Task>, w: Window)
    ensures WithinWindow(AllRecords(tasks, w), w)
  {
    if tasks != [] {
      RecordsWithinWindow(tasks[1..], w);
      var task := tasks[0];
      var started, stopped := Started(task, w), Stopped(task, w);
      RecordsOfTask(task, w, DayCount(started, stopped, w.offset));
      DayIsMonotone(w.start, started, w.offset);
      DayIsMonotone(stopped, w.end, w.offset);
    }
  }

  /** The series of a key as the tasks demand it. */
  ghost predicate Accounts(s: Series, tasks: seq<Task>, w: Window, keyOf: string -> string, key: string) {
    && s.dates == FirstDates(w, DayCount(w.start, w.end, w.offset)) && |s.values| == |s.dates|
    && (forall i :: 0 <= i < |s.dates| ==> s.values[i] == KeyUsageOn(tasks, w, keyOf, key, s.dates[i]))
    && s.total == KeyUsage(tasks, w, keyOf, key) == Total(s.values)
  }

  lemma SeriesAccounts(tasks: seq<Task>, w: Window, groups: seq<Record>, keyOf: string -> string, key: string,
                       data: seq<Record>, s: Series)
    requires Aligned(w) && IsGrouping(AllRecords(tasks, w), groups)
    requires data == SortByDate(KeyData(groups, keyOf, key))
    requires |s.values| == |s.dates| && s.dates == FirstDates(w, DayCount(w.start, w.end, w.offset))
    requires forall i :: 0 <= i < |s.dates| ==> s.values[i] == Usage(data, On(s.dates[i]))
    requires s.total == Usage(data, Anything()) == Total(s.values)
    ensures Accounts(s, tasks, w, keyOf, key)
  {
    forall date
      ensures Usage(data, On(date)) == KeyUsageOn(tasks, w, keyOf, key, date)
      ensures Usage(data, Anything()) == KeyUsage(tasks, w, keyOf, key)
    {
      SortKeeps(KeyData(groups, keyOf, key), On(date));
      SortKeeps(KeyData(groups, keyOf, key), Anything());
      KeyDataUsage(groups, keyOf, key, date);
      GroupingConserves(AllRecords(tasks, w), groups, OfKey(keyOf, key));
      GroupingConserves(AllRecords(tasks, w), groups, OfKeyOn(keyOf, key, date));
      RecordsConserve(tasks, w, keyOf, key, date);
    }
  }

  lemma KeyDataFits(tasks: seq<Task>, w: Window, groups: seq<Record>, keyOf: string -> string, key: string)
    requires IsGrouping(AllRecords(tasks, w), groups)
    ensures var data := SortByDate(KeyData(groups, keyOf, key)); Sorted(data) && WithinWindow(data, w)
  {
    RecordsWithinWindow(tasks, w);
    SortKeeps(KeyData(groups, keyOf, key), Anything());
    forall g | g in KeyData(groups, keyOf, key)
      ensures exists r :: r in AllRecords(tasks, w) && r.date == g.date
    {
      assert Has(AllRecords(tasks, w), g);
    }
  }

  lemma KeysOfGroups(records: seq<Record>, groups: seq<Record>, keyOf: string -> string)
    requires IsGrouping(records, groups)
    ensures (set g | g in groups :: keyOf(g.field)) == set r | r in records :: keyOf(r.field)
  {
    forall r | r in records ensures exists g :: g in groups && g.field == r.field {
      assert Has(groups, r);
    }
    forall g | g in groups ensures exists r :: r in records && r.field == g.field {
      assert Has(records, g);
    }
  }

  /** The task is in reach of the window, and some day of the window is none before its start or after its end. */
  ghost predicate Shows(task: Task, w: Window) {
    exists stop :: EndsAt(task, w.now, stop)
      && task.started < w.end && (task.inProgress || stop > w.start)
      && Day(w.start, w.offset) <= Day(w.end, w.offset) && Day(task.started, w.offset) <= Day(stop, w.offset)
      && Day(w.start, w.offset) <= Day(stop, w.offset) && Day(task.started, w.offset) <= Day(w.end, w.offset)
  }

  lemma DayOfClipped(t: Time, u: Time, offset: int)
    ensures Day(Max(t, u), offset) == Max(Day(t, offset), Day(u, offset))
    ensures Day(Min(t, u), offset) == Min(Day(t, offset), Day(u, offset))
  {
    DayIsMonotone(Min(t, u), Max(t, u), offset);
  }

  lemma RecordsShow(task: Task, w: Window)
    ensures OwnRecords(task, w) != [] <==> Shows(task, w)
  {
    var stop := OwnStop(task, w.now);
    assert EndsAt(task, w.now, stop);
    DayOfClipped(task.started, w.start, w.offset);
    DayOfClipped(stop, w.end, w.offset);
    assert OwnRecords(task, w) != [] <==>
      Selected(task, w) && Day(Started(task, w), w.offset) <= Day(Stopped(task, w), w.offset);
  }

  lemma KeysOfParts(a: seq<Record>, b: seq<Record>, keyOf: string -> string)
    ensures (set r | r in a + b :: keyOf(r.field))
         == (set r | r in a :: keyOf(r.field)) + set r | r in b :: keyOf(r.field)
  {
  }

  /** The keys with records are those of the tasks that show. */
  lemma {:induction false} KeysOfTasks(tasks: seq<Task>, w: Window, keyOf: string -> string)
    ensures (set r | r in AllRecords(tasks, w) :: keyOf(r.field))
         == set task | task in tasks && Shows(task, w) :: keyOf(task.field)
  {
    if tasks != [] {
      var task, later := tasks[0], tasks[1..];
      var own := OwnRecords(task, w);
      KeysOfTasks(later, w, keyOf);
      RecordsShow(task, w);
      RecordsOfTask(task, w, DayCount(Started(task, w), Stopped(task, w), w.offset));
      KeysOfParts(own, AllRecords(later, w), keyOf);
      assert own != [] ==> own[0] in own;
      assert (set r | r in own :: keyOf(r.field)) == if own == [] then {} else {keyOf(task.field)};
      assert tasks == [task] + later;
    }
  }

  /**
   * The workloads by key, from whatever order the database returns the groups in: a series for
   * exactly the keys of tasks that show; each covers every day of the window once, holds on each day
   * the seconds its tasks ran on that day, and sums up to the seconds its tasks ran in the window.
   */
  method GetProjectWorkloads(ghost tasks: seq<Task>, from: Time, to: Time, now: Time, offset: int,
                             groups: seq<Record>, keyOf: string -> string)
    returns (series: map<string, Series>)
    requires IsGrouping(AllRecords(tasks, WindowOf(from, to, now, offset)), groups)
    ensures series.Keys == set task | task in tasks && Shows(task, WindowOf(from, to, now, offset)) :: keyOf(task.field)
    ensures forall key :: key in series ==> Accounts(series[key], tasks, WindowOf(from, to, now, offset), keyOf, key)
  {
    var w := WindowOf(from, to, now, offset);
    DayOfStart(Day(from, offset), offset);
    series := map[];
    var keys := set g | g in groups :: keyOf(g.field);
    var rest := keys;
    while rest != {}
      invariant rest <= keys && series.Keys == keys - rest
      invariant forall key :: key in series ==> Accounts(series[key], tasks, w, keyOf, key)
      decreases rest
    {
      var key :| key in rest;
      var data := SortByDate(KeyData(groups, keyOf, key));
      KeyDataFits(tasks, w, groups, keyOf, key);
      var dates, values, total := FillSeries(data, w);
      SeriesAccounts(tasks, w, groups, keyOf, key, data, Series(dates, values, total));
      series := series[key := Series(dates, values, total)];
      rest := rest - {key};
    }
    KeysOfGroups(AllRecords(tasks, w), groups, keyOf);
    KeysOfTasks(tasks, w, keyOf);
  }
}
