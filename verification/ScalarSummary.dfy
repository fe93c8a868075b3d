/**
 * Summaries of scalar metrics: each batch of events is summarized while it is read, and the
 * summaries of successive batches are merged into the stored task.
 */
module ScalarSummary {
  import opened Wrappers

  type Key = (string, string)

  datatype Event = Event(metric: string, variant: string, value: Option<real>, iter: int, timestamp: int)

  /** One reported value. */
  datatype Point = Point(value: real, iter: int, timestamp: int)

  datatype Summary = Summary(
    count: nat,
    total: real,
    last: Point,
    first: Point,
    min: Point,
    max: Point)

  /** `p` has a greater iteration, or the same one and a greater timestamp. */
  ghost predicate After(p: Point, q: Point) {
    p.iter >= q.iter && (p.iter == q.iter ==> p.timestamp > q.timestamp)
  }

  /** Python's `(p.iter, p.timestamp) <= (q.iter, q.timestamp)`. */
  predicate NotAfter(p: Point, q: Point)
    ensures NotAfter(p, q) <==> !After(p, q)
  {
    p.iter < q.iter || (p.iter == q.iter && p.timestamp <= q.timestamp)
  }

  /* ---------- What a summary means ---------- */

  function Sum(points: seq<Point>): real {
    if points == [] then 0.0 else Sum(points[..|points| - 1]) + points[|points| - 1].value
  }

  type Rank = Point -> real

  function ByValue(): Rank { (p: Point) => p.value }

  function ByValueDown(): Rank { (p: Point) => -p.value }

  function ByIteration(): Rank { (p: Point) => p.iter as real }

  /** The earliest arrival among the points of the lowest rank is at `k`. */
  ghost predicate EarliestAt(points: seq<Point>, k: int, rank: Rank) {
    && 0 <= k < |points|
    && (forall j :: 0 <= j < k ==> rank(points[k]) < rank(points[j]))
    && (forall j :: k <= j < |points| ==> rank(points[k]) <= rank(points[j]))
  }

  ghost predicate Earliest(points: seq<Point>, p: Point, rank: Rank) {
    exists k :: EarliestAt(points, k, rank) && points[k] == p
  }

  /** The latest arrival among the points of the greatest (iteration, timestamp) is at `k`. */
  ghost predicate LatestAt(points: seq<Point>, k: int) {
    && 0 <= k < |points|
    && (forall j :: 0 <= j <= k ==> !After(points[j], points[k]))
    && (forall j :: k < j < |points| ==> After(points[k], points[j]))
  }

  ghost predicate Latest(points: seq<Point>, p: Point) {
    exists k :: LatestAt(points, k) && points[k] == p
  }

  /** The summary that follows from all points at once. */
  ghost predicate Summarizes(s: Summary, points: seq<Point>) {
    && s.count == |points| && s.total == Sum(points)
    && Earliest(points, s.min, ByValue())
    && Earliest(points, s.max, ByValueDown())
    && Earliest(points, s.first, ByIteration())
    && Latest(points, s.last)
  }

  lemma EarliestIsNotLater(points: seq<Point>, k: int, m: int, rank: Rank)
    requires EarliestAt(points, k, rank) && EarliestAt(points, m, rank)
    ensures m <= k
  {
    var atK, atM := rank(points[k]), rank(points[m]);
    assert k <= m ==> atK <= atM;
  }

  lemma EarliestUnique(points: seq<Point>, p: Point, q: Point, rank: Rank)
    requires Earliest(points, p, rank) && Earliest(points, q, rank)
    ensures p == q
  {
    var k :| EarliestAt(points, k, rank) && points[k] == p;
    var m :| EarliestAt(points, m, rank) && points[m] == q;
    EarliestIsNotLater(points, k, m, rank);
    EarliestIsNotLater(points, m, k, rank);
  }

  lemma LatestUnique(points: seq<Point>, p: Point, q: Point)
    requires Latest(points, p) && Latest(points, q)
    ensures p == q
  {
    var k :| LatestAt(points, k) && points[k] == p;
    var m :| LatestAt(points, m) && points[m] == q;
  }

  /** There is only one summary. */
  lemma SummaryUnique(s: Summary, t: Summary, points: seq<Point>)
    requires Summarizes(s, points) && Summarizes(t, points)
    ensures s == t
  {
    EarliestUnique(points, s.min, t.min, ByValue());
    EarliestUnique(points, s.max, t.max, ByValueDown());
    EarliestUnique(points, s.first, t.first, ByIteration());
    LatestUnique(points, s.last, t.last);
  }

  lemma EarliestStep(points: seq<Point>, p: Point, q: Point, rank: Rank)
    requires Earliest(points, p, rank)
    ensures Earliest(points + [q], if rank(q) < rank(p) then q else p, rank)
  {
    var k :| EarliestAt(points, k, rank) && points[k] == p;
    var all := points + [q];
    assert all[|points|] == q && all[k] == p;
    if rank(q) < rank(p) {
      assert EarliestAt(all, |points|, rank);
    } else {
      assert EarliestAt(all, k, rank);
    }
  }

  lemma LatestStep(points: seq<Point>, p: Point, q: Point)
    requires Latest(points, p)
    ensures Latest(points + [q], if NotAfter(p, q) then q else p)
  {
    var k :| LatestAt(points, k) && points[k] == p;
    var all := points + [q];
    assert all[|points|] == q && all[k] == p;
    if NotAfter(p, q) {
      assert LatestAt(all, |points|);
    } else {
      assert LatestAt(all, k);
    }
  }

  /* ---------- One point after the other ---------- */

  function Fresh(p: Point): Summary { Summary(1, p.value, p, p, p, p) }

  function Updated(s: Summary, p: Point): Summary {
    Summary(
      s.count + 1,
      s.total + p.value,
      if NotAfter(s.last, p) then p else s.last,
      if p.iter < s.first.iter then p else s.first,
      if p.value < s.min.value then p else s.min,
      if p.value > s.max.value then p else s.max)
  }

  function Folded(points: seq<Point>): Summary
    requires points != []
  {
    var n := |points| - 1;
    if n == 0 then Fresh(points[0]) else Updated(Folded(points[..n]), points[n])
  }

  lemma FreshSummarizes(p: Point)
    ensures Summarizes(Fresh(p), [p])
  {
    assert [p][..0] == [];
    assert EarliestAt([p], 0, ByValue()) && EarliestAt([p], 0, ByValueDown());
    assert EarliestAt([p], 0, ByIteration()) && LatestAt([p], 0);
  }

  lemma UpdatedSummarizes(s: Summary, points: seq<Point>, p: Point)
    requires Summarizes(s, points)
    ensures Summarizes(Updated(s, p), points + [p])
  {
    assert (points + [p])[..|points|] == points;
    EarliestStep(points, s.min, p, ByValue());
    EarliestStep(points, s.max, p, ByValueDown());
    EarliestStep(points, s.first, p, ByIteration());
    LatestStep(points, s.last, p);
  }

  /** The online summary of any sequence of points is the offline one. */
  lemma {:induction false} OnlineIsOffline(points: seq<Point>)
    requires points != []
    ensures Summarizes(Folded(points), points)
  {
    var n := |points| - 1;
    assert points == points[..n] + [points[n]];
    if n == 0 {
      FreshSummarizes(points[0]);
    } else {
      OnlineIsOffline(points[..n]);
      UpdatedSummarizes(Folded(points[..n]), points[..n], points[n]);
    }
  }

  /* ---------- Reading a batch ---------- */

  /** The points of one metric and variant, in order of arrival; events without a value are ignored. */
  function Points(events: seq<Event>, key: Key): seq<Point> {
    if events == [] then []
    else
      var e := events[|events| - 1];
      var before := Points(events[..|events| - 1], key);
      if e.value.Some? && (e.metric, e.variant) == key then
        before + [Point(e.value.value, e.iter, e.timestamp)]
      else before
  }

  /** The summaries are those of the events read so far. */
  ghost predicate Reflects(last: map<Key, Summary>, events: seq<Event>) {
    && (forall key :: key in last <==> Points(events, key) != [])
    && (forall key :: key in last ==> last[key] == Folded(Points(events, key)))
  }

  lemma PointArrives(events: seq<Event>, event: Event, p: Point)
    requires event.value.Some? && p == Point(event.value.value, event.iter, event.timestamp)
    ensures var key := (event.metric, event.variant);
      var points := Points(events, key);
      && Points(events + [event], key) == points + [p]
      && Folded(points + [p]) == if points == [] then Fresh(p) else Updated(Folded(points), p)
    ensures forall key :: key != (event.metric, event.variant) ==> Points(events + [event], key) == Points(events, key)
  {
    assert (events + [event])[..|events|] == events;
    var points := Points(events, (event.metric, event.variant));
    assert (points + [p])[..|points|] == points;
  }

  class Batch {
    var last: map<Key, Summary>

    constructor ()
      ensures Reflects(last, [])
    {
      last := map[];
    }

    /** Take one event into the summary of its metric and variant. */
    method UpdateLastScalarEvents(event: Event, ghost events: seq<Event>)
      requires Reflects(last, events)
      modifies this
      ensures Reflects(last, events + [event])
    {
      assert (events + [event])[..|events|] == events;
      if event.value == None {
        return;
      }
      var key := (event.metric, event.variant);
      var p := Point(event.value.value, event.iter, event.timestamp);
      PointArrives(events, event, p);
      var s := if key in last then last[key] else Fresh(p).(count := 0, total := 0.0);
      s := s.(count := s.count + 1, total := s.total + p.value);
      if NotAfter(s.last, p) {
        s := s.(last := p);
      }
      if p.iter < s.first.iter {
        s := s.(first := p);
      }
      if p.value < s.min.value {
        s := s.(min := p);
      }
      if p.value > s.max.value {
        s := s.(max := p);
      }
      last := last[key := s];
    }

    /** Read a batch. */
    method AddEvents(events: seq<Event>)
      requires Reflects(last, [])
      modifies this
      ensures Reflects(last, events)
      ensures forall key :: key in last ==> Summarizes(last[key], Points(events, key))
    {
      for n := 0 to |events|
        invariant Reflects(last, events[..n])
      {
        assert events[..n + 1] == events[..n] + [events[n]];
        UpdateLastScalarEvents(events[n], events[..n]);
      }
      assert events[..|events|] == events;
      forall key | key in last ensures Summarizes(last[key], Points(events, key)) {
        OnlineIsOffline(Points(events, key));
      }
    }
  }

  /* ---------- Merging batches into the task ---------- */

  /** What the task stores of a metric and variant. */
  datatype Stored = Stored(
    count: nat,
    value: real,
    firstValue: real, firstIter: int,
    minValue: real, minIter: int,
    maxValue: real, maxIter: int)

  /** The update of the stored task: conditional for first, min and max, an overwrite for the value. */
  function Merged(was: Option<Stored>, s: Summary): Stored {
    match was
    case None =>
      Stored(s.count, s.last.value, s.first.value, s.first.iter, s.min.value, s.min.iter, s.max.value, s.max.iter)
    case Some(t) =>
      var lower, higher := t.minValue > s.min.value, t.maxValue < s.max.value;
      Stored(
        t.count + s.count, s.last.value, t.firstValue, t.firstIter,
        if lower then s.min.value else t.minValue, if lower then s.min.iter else t.minIter,
        if higher then s.max.value else t.maxValue, if higher then s.max.iter else t.maxIter)
  }

  predicate NonEmpty(batches: seq<seq<Point>>) {
    forall i :: 0 <= i < |batches| ==> batches[i] != []
  }

  function AfterBatches(batches: seq<seq<Point>>): Option<Stored>
    requires NonEmpty(batches)
  {
    if batches == [] then None
    else Some(Merged(AfterBatches(batches[..|batches| - 1]), Folded(batches[|batches| - 1])))
  }

  function Concat(batches: seq<seq<Point>>): seq<Point> {
    if batches == [] then [] else Concat(batches[..|batches| - 1]) + batches[|batches| - 1]
  }

  /** The summary of two batches in a row, from the summaries of both. */
  function Joined(s: Summary, t: Summary): Summary {
    Summary(
      s.count + t.count,
      s.total + t.total,
      if NotAfter(s.last, t.last) then t.last else s.last,
      if t.first.iter < s.first.iter then t.first else s.first,
      if t.min.value < s.min.value then t.min else s.min,
      if t.max.value > s.max.value then t.max else s.max)
  }

  lemma {:induction false} FoldedConcat(a: seq<Point>, b: seq<Point>)
    requires a != [] && b != []
    ensures Folded(a + b) == Joined(Folded(a), Folded(b))
  {
    var n := |b| - 1;
    assert (a + b)[..|a| + n] == a + b[..n];
    if n == 0 {
      assert a + b[..n] == a;
    } else {
      FoldedConcat(a, b[..n]);
    }
  }

  /**
   * However the points are split into batches, the task stores their number, and the value and
   * iteration of the earliest smallest and the earliest greatest of them all.
   */
  lemma {:induction false} BatchesDoNotMatter(batches: seq<seq<Point>>)
    requires batches != [] && NonEmpty(batches)
    ensures Concat(batches) != []
    ensures var t, s := AfterBatches(batches).value, Folded(Concat(batches));
      && t.count == s.count
      && t.minValue == s.min.value && t.minIter == s.min.iter
      && t.maxValue == s.max.value && t.maxIter == s.max.iter
  {
    var n := |batches| - 1;
    if n == 0 {
      assert Concat(batches) == batches[0];
    } else {
      BatchesDoNotMatter(batches[..n]);
      FoldedConcat(Concat(batches[..n]), batches[n]);
    }
  }

  /** The stored first value is that of the first batch, the stored value that of the last one. */
  lemma {:induction false} FirstAndLastBatch(batches: seq<seq<Point>>)
    requires batches != [] && NonEmpty(batches)
    ensures var t, a, z := AfterBatches(batches).value, Folded(batches[0]), Folded(batches[|batches| - 1]);
      t.firstValue == a.first.value && t.firstIter == a.first.iter && t.value == z.last.value
  {
    var n := |batches| - 1;
    if n > 0 {
      FirstAndLastBatch(batches[..n]);
    }
  }

  lemma Associate(a: seq<Point>, b: seq<Point>, c: seq<Point>)
    ensures (a + b) + c == a + (b + c)
  {
  }

  lemma {:induction false} ConcatFirst(batches: seq<seq<Point>>)
    requires batches != []
    ensures Concat(batches) == batches[0] + Concat(batches[1..])
  {
    var n := |batches| - 1;
    if n == 0 {
      assert batches[..0] == [] && batches[1..] == [];
    } else {
      ConcatFirst(batches[..n]);
      var tail := batches[1..];
      assert batches[..n][1..] == tail[..n - 1] && tail[n - 1] == batches[n];
      assert Concat(tail) == Concat(tail[..n - 1]) + tail[n - 1];
      Associate(batches[0], Concat(tail[..n - 1]), batches[n]);
    }
  }

  lemma FirstOf(points: seq<Point>, first: Point)
    requires Earliest(points, first, ByIteration())
    ensures first in points && forall p :: p in points ==> first.iter <= p.iter
  {
    var k :| EarliestAt(points, k, ByIteration()) && points[k] == first;
    forall p | p in points ensures first.iter <= p.iter {
      var j :| 0 <= j < |points| && points[j] == p;
      assert ByIteration()(first) <= ByIteration()(p);
    }
  }

  /**
   * The stored first value and iteration are those of the earliest arrival at the smallest
   * iteration of all, if and only if no later batch goes below them.
   */
  lemma FirstIsGlobal(batches: seq<seq<Point>>)
    requires batches != [] && NonEmpty(batches)
    ensures Concat(batches) != []
    ensures var t, s := AfterBatches(batches).value, Folded(Concat(batches)).first;
      (t.firstValue == s.value && t.firstIter == s.iter)
        <==> forall p :: p in Concat(batches[1..]) ==> p.iter >= t.firstIter
  {
    var later := Concat(batches[1..]);
    ConcatFirst(batches);
    FirstAndLastBatch(batches);
    if later == [] {
      assert batches[0] + later == batches[0];
    } else {
      FoldedConcat(batches[0], later);
      OnlineIsOffline(later);
      FirstOf(later, Folded(later).first);
    }
  }

  lemma LastOf(points: seq<Point>, last: Point)
    requires Latest(points, last)
    ensures last in points && forall p :: p in points ==> !After(p, last)
  {
    var k :| LatestAt(points, k) && points[k] == last;
    forall p | p in points ensures !After(p, last) {
      var j :| 0 <= j < |points| && points[j] == p;
    }
  }

  /**
   * The stored value is the value of the last point of all, if and only if no point of an earlier
   * batch is after the last one of the last batch, or the latest such point has the same value.
   */
  lemma LastIsGlobal(batches: seq<seq<Point>>)
    requires |batches| > 1 && NonEmpty(batches)
    ensures var n := |batches| - 1;
      && Concat(batches) != [] && Concat(batches[..n]) != []
      && var earlier, last := Concat(batches[..n]), Folded(batches[n]).last;
         (AfterBatches(batches).value.value == Folded(Concat(batches)).last.value) <==>
           (forall p :: p in earlier ==> !After(p, last)) || Folded(earlier).last.value == last.value
  {
    var n := |batches| - 1;
    var earlier := Concat(batches[..n]);
    BatchesDoNotMatter(batches[..n]);
    FoldedConcat(earlier, batches[n]);
    OnlineIsOffline(earlier);
    LastOf(earlier, Folded(earlier).last);
    var e, z := Folded(earlier).last, Folded(batches[n]).last;
    if NotAfter(e, z) {
      forall p | p in earlier ensures !After(p, z) {
      }
    }
  }

  /** Two batches in the wrong order: neither the stored first value nor the stored value is that of all points. */
  lemma OutOfOrderBatches()
    ensures var a, b := Point(1.0, 7, 1), Point(2.0, 3, 0);
      var t, s := AfterBatches([[a], [b]]).value, Folded([a, b]);
      t.firstValue != s.first.value && t.value != s.last.value
  {
    var a, b := Point(1.0, 7, 1), Point(2.0, 3, 0);
    assert [[a], [b]][..1] == [[a]] && [a, b][..1] == [a];
    assert [[a]][..0] == [];
    assert AfterBatches([[a]]).value == Merged(None, Fresh(a));
    assert Folded([b]) == Fresh(b);
  }
}
