/**
 * The average waiting time over all queues: a queue without data in a bucket is counted with its
 * most recent values, also those from before the chart starts.
 */
module QueueMetrics {
  type QueueId = nat

  datatype Metrics = Metrics(waiting: real, length: nat)

  datatype Bucket = Bucket(timestamp: int, metrics: map<QueueId, Metrics>)

  datatype Total = Total(date: int, waiting: real, length: nat)

  /** Buckets before the start of the chart are not shown; a start of 0 counts as none. */
  predicate Shown(b: Bucket, chartStart: int) {
    chartStart == 0 || b.timestamp >= chartStart
  }

  /* ---------- What a bucket is made of ---------- */

  /** The most recent values of every queue in the buckets. */
  function Latest(buckets: seq<Bucket>): map<QueueId, Metrics> {
    if buckets == [] then map[]
    else Latest(buckets[..|buckets| - 1]) + buckets[|buckets| - 1].metrics
  }

  /** Value `m` of queue `q` is that of bucket `k`, and no later bucket has any. */
  predicate MostRecentAt(buckets: seq<Bucket>, q: QueueId, m: Metrics, k: int) {
    && 0 <= k < |buckets| && q in buckets[k].metrics && buckets[k].metrics[q] == m
    && forall j :: k < j < |buckets| ==> q !in buckets[j].metrics
  }

  /** Every queue seen so far is there, with its most recent values. */
  lemma {:induction false} LatestIsMostRecent(buckets: seq<Bucket>, q: QueueId)
    ensures q in Latest(buckets) <==> exists k :: 0 <= k < |buckets| && q in buckets[k].metrics
    ensures q in Latest(buckets) ==> exists k :: MostRecentAt(buckets, q, Latest(buckets)[q], k)
  {
    if buckets != [] {
      var n := |buckets| - 1;
      var front := buckets[..n];
      LatestIsMostRecent(front, q);
      if q in buckets[n].metrics {
        assert MostRecentAt(buckets, q, Latest(buckets)[q], n);
      } else if q in Latest(front) {
        var k :| MostRecentAt(front, q, Latest(front)[q], k);
        assert MostRecentAt(buckets, q, Latest(buckets)[q], k);
      }
      if k :| 0 <= k < |buckets| && q in buckets[k].metrics && k < n {
        assert front[k] == buckets[k];
      }
    }
  }

  /* ---------- Sums over queues ---------- */

  /** The sum of a value of some queues. */
  ghost function Sum(ms: map<QueueId, Metrics>, keys: set<QueueId>, part: Metrics -> real): real
    requires keys <= ms.Keys
  {
    if keys == {} then 0.0
    else
      var q :| q in keys;
      part(ms[q]) + Sum(ms, keys - {q}, part)
  }

  lemma {:induction false} SumSplit(ms: map<QueueId, Metrics>, keys: set<QueueId>, part: Metrics -> real, x: QueueId)
    requires keys <= ms.Keys && x in keys
    ensures Sum(ms, keys, part) == part(ms[x]) + Sum(ms, keys - {x}, part)
    decreases keys
  {
    var q :| q in keys && Sum(ms, keys, part) == part(ms[q]) + Sum(ms, keys - {q}, part);
    if q != x {
      SumSplit(ms, keys - {q}, part, x);
      SumSplit(ms, keys - {x}, part, q);
      assert keys - {q} - {x} == keys - {x} - {q};
    }
  }

  lemma {:induction false} SumMonotone(ms: map<QueueId, Metrics>, keys: set<QueueId>, low: Metrics -> real,
                                       high: Metrics -> real)
    requires keys <= ms.Keys && forall q :: q in keys ==> low(ms[q]) <= high(ms[q])
    ensures Sum(ms, keys, low) <= Sum(ms, keys, high)
    decreases keys
  {
    if keys != {} {
      var q :| q in keys;
      SumSplit(ms, keys, low, q);
      SumSplit(ms, keys, high, q);
      SumMonotone(ms, keys - {q}, low, high);
    }
  }

  lemma DistributeOver(f: real, x: real, y: real)
    ensures f * (x + y) == f * x + f * y
  {
  }

  lemma {:induction false} SumScaled(ms: map<QueueId, Metrics>, keys: set<QueueId>, part: Metrics -> real,
                                     scaled: Metrics -> real, f: real)
    requires keys <= ms.Keys && forall m :: scaled(m) == f * part(m)
    ensures Sum(ms, keys, scaled) == f * Sum(ms, keys, part)
    decreases keys
  {
    if keys != {} {
      var q :| q in keys;
      SumSplit(ms, keys, part, q);
      SumSplit(ms, keys, scaled, q);
      SumScaled(ms, keys - {q}, part, scaled, f);
      DistributeOver(f, part(ms[q]), Sum(ms, keys - {q}, part));
    }
  }

  function LengthOf(): Metrics -> real { (m: Metrics) => m.length as real }

  /** The waiting time weighted by the share of the total length. */
  function Share(total: real): Metrics -> real
    requires total > 0.0
  {
    (m: Metrics) => m.waiting * m.length as real / total
  }

  function Scaled(f: real): Metrics -> real { (m: Metrics) => f * m.length as real }

  lemma Quotients(x: real, n: real, d: real)
    requires d > 0.0
    ensures x / d * n == x * n / d
  {
  }

  lemma QuotientMonotone(x: real, y: real, d: real)
    requires d > 0.0
    ensures x <= y ==> x / d <= y / d
  {
  }

  lemma ShareBounds(m: Metrics, total: real, x: real)
    requires total > 0.0
    ensures x <= m.waiting ==> Scaled(x / total)(m) <= Share(total)(m)
    ensures x >= m.waiting ==> Scaled(x / total)(m) >= Share(total)(m)
  {
    var n := m.length as real;
    Quotients(x, n, total);
    if x <= m.waiting {
      QuotientMonotone(x * n, m.waiting * n, total);
    }
    if x >= m.waiting {
      QuotientMonotone(m.waiting * n, x * n, total);
    }
  }

  lemma QuotientBack(x: real, d: real)
    requires d > 0.0
    ensures x / d * d == x
  {
  }

  /** Scaled lengths add up to the scale of the total. */
  lemma ScaledTotal(ms: map<QueueId, Metrics>, x: real, total: real)
    requires total > 0.0 && total == Sum(ms, ms.Keys, LengthOf())
    ensures Sum(ms, ms.Keys, Scaled(x / total)) == x
  {
    SumScaled(ms, ms.Keys, LengthOf(), Scaled(x / total), x / total);
    QuotientBack(x, total);
  }

  /** A weighted average lies above a lower bound of what it is made of. */
  lemma AverageAbove(ms: map<QueueId, Metrics>, lo: real, total: real)
    requires total > 0.0 && total == Sum(ms, ms.Keys, LengthOf())
    requires forall q :: q in ms ==> lo <= ms[q].waiting
    ensures lo <= Sum(ms, ms.Keys, Share(total))
  {
    forall q | q in ms ensures Scaled(lo / total)(ms[q]) <= Share(total)(ms[q]) {
      ShareBounds(ms[q], total, lo);
    }
    ScaledTotal(ms, lo, total);
    SumMonotone(ms, ms.Keys, Scaled(lo / total), Share(total));
  }

  /** And below an upper bound. */
  lemma AverageBelow(ms: map<QueueId, Metrics>, hi: real, total: real)
    requires total > 0.0 && total == Sum(ms, ms.Keys, LengthOf())
    requires forall q :: q in ms ==> ms[q].waiting <= hi
    ensures Sum(ms, ms.Keys, Share(total)) <= hi
  {
    forall q | q in ms ensures Share(total)(ms[q]) <= Scaled(hi / total)(ms[q]) {
      ShareBounds(ms[q], total, hi);
    }
    ScaledTotal(ms, hi, total);
    SumMonotone(ms, ms.Keys, Share(total), Scaled(hi / total));
  }

  /* ---------- The totals ---------- */

  /** The total of a bucket over the most recent values of all queues seen so far. */
  ghost predicate IsTotal(t: Total, b: Bucket, ms: map<QueueId, Metrics>) {
    && t.date == b.timestamp && t.length as real == Sum(ms, ms.Keys, LengthOf())
    && t.waiting == if t.length == 0 then 0.0 else Sum(ms, ms.Keys, Share(t.length as real))
  }

  /** One total for every shown bucket, in order. */
  ghost predicate IsChart(totals: seq<Total>, buckets: seq<Bucket>, chartStart: int) {
    if buckets == [] then totals == []
    else
      var n := |buckets| - 1;
      if chartStart == 0 || buckets[n].timestamp >= chartStart then
        && totals != [] && IsTotal(totals[|totals| - 1], buckets[n], Latest(buckets))
        && IsChart(totals[..|totals| - 1], buckets[..n], chartStart)
      else IsChart(totals, buckets[..n], chartStart)
  }

  /** When some queue is not empty, the average lies between the bounds of all carried waiting times. */
  lemma AverageIsBetween(t: Total, b: Bucket, ms: map<QueueId, Metrics>, lo: real, hi: real)
    requires IsTotal(t, b, ms) && t.length > 0
    requires forall q :: q in ms ==> lo <= ms[q].waiting <= hi
    ensures lo <= t.waiting <= hi
  {
    AverageAbove(ms, lo, t.length as real);
    AverageBelow(ms, hi, t.length as real);
  }

  /** Total length of all queues. */
  method TotalLength(ms: map<QueueId, Metrics>) returns (total: nat)
    ensures total as real == Sum(ms, ms.Keys, LengthOf())
  {
    total := 0;
    var rest := ms.Keys;
    while rest != {}
      invariant rest <= ms.Keys
      invariant total as real + Sum(ms, rest, LengthOf()) == Sum(ms, ms.Keys, LengthOf())
      decreases rest
    {
      var q :| q in rest;
      SumSplit(ms, rest, LengthOf(), q);
      total := total + ms[q].length;
      rest := rest - {q};
    }
  }

  /** Average waiting time, weighted by length. */
  method TotalAverage(ms: map<QueueId, Metrics>, total: nat) returns (average: real)
    requires total > 0
    ensures average == Sum(ms, ms.Keys, Share(total as real))
  {
    average := 0.0;
    var rest := ms.Keys;
    var part := Share(total as real);
    while rest != {}
      invariant rest <= ms.Keys && average + Sum(ms, rest, part) == Sum(ms, ms.Keys, part)
      decreases rest
    {
      var q :| q in rest;
      SumSplit(ms, rest, part, q);
      average := average + part(ms[q]);
      rest := rest - {q};
    }
  }

  /** The histogram: skipped buckets still count for the values carried forward. */
  method AverageDatetimeHistogram(buckets: seq<Bucket>, chartStart: int) returns (totals: seq<Total>)
    ensures IsChart(totals, buckets, chartStart)
  {
    totals := [];
    var last: map<QueueId, Metrics> := map[];
    for n := 0 to |buckets|
      invariant last == Latest(buckets[..n]) && IsChart(totals, buckets[..n], chartStart)
    {
      var b := buckets[n];
      assert buckets[..n + 1][..n] == buckets[..n];
      var metrics := last + b.metrics;
      last := last + b.metrics;
      if !Shown(b, chartStart) {
        continue;
      }
      var length := TotalLength(metrics);
      var waiting := 0.0;
      if length > 0 {
        waiting := TotalAverage(metrics, length);
      }
      var t := Total(b.timestamp, waiting, length);
      assert (totals + [t])[..|totals|] == totals;
      totals := totals + [t];
    }
    assert buckets[..|buckets|] == buckets;
  }
}
