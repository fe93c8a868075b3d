/**
 * Histograms of many metrics in few queries: the interval of each metric is sized so that its
 * buckets do not exceed the requested samples, and metrics with close intervals share a query.
 */
module MetricIntervals {
  const MAX_AGGS_ELEMENTS_COUNT := 50
  const MAX_SAMPLE_BUCKETS := 6000

  datatype Item = Item(metric: string, variant: string, interval: nat, size: nat)

  datatype Group = Group(interval: nat, metrics: seq<(string, string)>)

  /* ---------- Sorting by interval ---------- */

  ghost predicate Sorted(items: seq<Item>) {
    forall i, j :: 0 <= i < j < |items| ==> items[i].interval <= items[j].interval
  }

  function Insert(x: Item, items: seq<Item>): seq<Item> {
    if items == [] || x.interval <= items[0].interval then [x] + items
    else [items[0]] + Insert(x, items[1..])
  }

  lemma InsertedBehind(x: Item, items: seq<Item>)
    requires items != [] && x.interval > items[0].interval
    requires forall y :: y in Insert(x, items[1..]) ==> y == x || y in items[1..]
    requires Sorted(items[1..]) ==> Sorted(Insert(x, items[1..]))
    ensures Sorted(items) ==> Sorted([items[0]] + Insert(x, items[1..]))
  {
    var rest := Insert(x, items[1..]);
    if Sorted(items) {
      forall k | 0 <= k < |rest| ensures items[0].interval <= rest[k].interval {
        assert rest[k] in rest;
      }
    }
  }

  lemma {:induction false} InsertSorts(x: Item, items: seq<Item>)
    ensures multiset(Insert(x, items)) == multiset{x} + multiset(items)
    ensures forall y :: y in Insert(x, items) ==> y == x || y in items
    ensures Sorted(items) ==> Sorted(Insert(x, items))
  {
    if items == [] || x.interval <= items[0].interval {
    } else {
      InsertSorts(x, items[1..]);
      assert items == [items[0]] + items[1..];
      InsertedBehind(x, items);
    }
  }

  /** `sorted(items, key=interval)`: stable, so equal intervals keep their order. */
  function SortByInterval(items: seq<Item>): (r: seq<Item>)
    ensures multiset(r) == multiset(items)
    ensures Sorted(r)
  {
    if items == [] then []
    else
      var rest := SortByInterval(items[1..]);
      InsertSorts(items[0], rest);
      assert items == [items[0]] + items[1..];
      Insert(items[0], rest)
  }

  function OfInterval(items: seq<Item>, v: nat): seq<Item> {
    if items == [] then []
    else (if items[0].interval == v then [items[0]] else []) + OfInterval(items[1..], v)
  }

  lemma OfIntervalCons(x: Item, items: seq<Item>, v: nat)
    ensures OfInterval([x] + items, v) == (if x.interval == v then [x] else []) + OfInterval(items, v)
  {
    assert ([x] + items)[1..] == items;
  }

  lemma {:induction false} InsertStable(x: Item, items: seq<Item>, v: nat)
    requires Sorted(items)
    ensures OfInterval(Insert(x, items), v) == (if x.interval == v then [x] else []) + OfInterval(items, v)
  {
    if items == [] || x.interval <= items[0].interval {
      OfIntervalCons(x, items, v);
    } else {
      assert Sorted(items[1..]);
      InsertStable(x, items[1..], v);
      OfIntervalCons(items[0], Insert(x, items[1..]), v);
      if items[0].interval == v {
        assert [] + OfInterval(items[1..], v) == OfInterval(items[1..], v);
      }
    }
  }

  /** Metrics of equal interval stay in their original order. */
  lemma {:induction false} SortStable(items: seq<Item>, v: nat)
    ensures OfInterval(SortByInterval(items), v) == OfInterval(items, v)
  {
    if items != [] {
      SortStable(items[1..], v);
      InsertStable(items[0], SortByInterval(items[1..]), v);
    }
  }

  /* ---------- What a group must satisfy ---------- */

  function Samples(g: seq<Item>): nat {
    if g == [] then 0 else Samples(g[..|g| - 1]) + g[|g| - 1].size
  }

  /** An interval goes with another one, which it exceeds by at most a tenth. */
  ghost predicate WithinTenth(i: nat, interval: nat) {
    10 * (i - interval) <= interval
  }

  /** The greatest interval that goes with another one. */
  function UpperBound(interval: nat): nat {
    interval + interval / 10
  }

  lemma UpperBoundMeans(i: nat, interval: nat)
    ensures i <= UpperBound(interval) <==> WithinTenth(i, interval)
  {
  }

  function MaxInterval(g: seq<Item>): (m: nat)
    requires g != []
    ensures exists k :: 0 <= k < |g| && g[k].interval == m
    ensures forall k :: 0 <= k < |g| ==> g[k].interval <= m
  {
    var last := g[|g| - 1];
    if |g| == 1 then last.interval
    else
      var m := MaxInterval(g[..|g| - 1]);
      assert forall k :: 0 <= k < |g| - 1 ==> g[..|g| - 1][k] == g[k];
      if last.interval > m then last.interval else m
  }

  function Names(g: seq<Item>): seq<(string, string)> {
    seq(|g|, k requires 0 <= k < |g| => (g[k].metric, g[k].variant))
  }

  /** The limits on one group; a single metric always makes a group. */
  ghost predicate Fits(g: seq<Item>) {
    && 1 <= |g| <= MAX_AGGS_ELEMENTS_COUNT
    && (forall k :: 0 <= k < |g| ==> WithinTenth(g[k].interval, g[0].interval))
    && (Samples(g) <= MAX_SAMPLE_BUCKETS || |g| == 1)
  }

  function Flat(gs: seq<seq<Item>>): seq<Item> {
    if gs == [] then [] else gs[0] + Flat(gs[1..])
  }

  /** Group `k` cannot take the first metric of the group after it. */
  ghost predicate FullAt(gs: seq<seq<Item>>, k: nat)
    requires k + 1 < |gs|
  {
    gs[k + 1] != [] && !Fits(gs[k] + [gs[k + 1][0]])
  }

  /** Every group satisfies the limits and none could also take the first metric of the next. */
  ghost predicate Greedy(gs: seq<seq<Item>>) {
    && (forall k :: 0 <= k < |gs| ==> Fits(gs[k]))
    && forall k :: 0 <= k < |gs| - 1 ==> FullAt(gs, k)
  }

  lemma {:induction false} FlatSnoc(gs: seq<seq<Item>>, g: seq<Item>)
    ensures Flat(gs + [g]) == Flat(gs) + g
  {
    if gs == [] {
      assert [] + [g] == [g];
    } else {
      assert (gs + [g])[1..] == gs[1..] + [g];
      FlatSnoc(gs[1..], g);
    }
  }

  /** A metric can be added exactly when none of the three limits is exceeded. */
  lemma FitsOneMore(g: seq<Item>, x: Item)
    requires Fits(g)
    ensures Fits(g + [x]) <==>
      && x.interval <= UpperBound(g[0].interval)
      && Samples(g) + x.size <= MAX_SAMPLE_BUCKETS
      && |g| < MAX_AGGS_ELEMENTS_COUNT
  {
    var h := g + [x];
    UpperBoundMeans(x.interval, g[0].interval);
    assert h[..|g|] == g;
    assert h[|g|] == x;
    assert forall k :: 0 <= k < |g| ==> h[k] == g[k];
  }

  lemma FitsAlone(x: Item)
    ensures Fits([x]) && Samples([x]) == x.size && MaxInterval([x]) == x.interval
  {
    assert [x][..0] == [];
  }

  /* ---------- The grouping loop ---------- */

  /** Each group is labelled with its greatest interval. */
  ghost predicate Labels(groups: seq<Group>, parts: seq<seq<Item>>) {
    && |groups| == |parts|
    && forall k :: 0 <= k < |parts| ==>
         parts[k] != [] && groups[k].interval == MaxInterval(parts[k]) && groups[k].metrics == Names(parts[k])
  }

  /** The state of the loop once it has an open group. */
  ghost predicate Open(prefix: seq<Item>, groups: seq<Group>, parts: seq<seq<Item>>, metrics: seq<(string, string)>,
                       part: seq<Item>, upperBound: nat, maxInterval: nat, samples: nat)
  {
    && part != []
    && prefix == Flat(parts) + part
    && Greedy(parts + [part])
    && Labels(groups, parts)
    && metrics == Names(part)
    && upperBound == UpperBound(part[0].interval)
    && maxInterval == MaxInterval(part)
    && samples == Samples(part)
  }

  function Max(a: nat, b: nat): nat { if a >= b then a else b }

  lemma OpenFirst(x: Item)
    ensures Open([x], [], [], [(x.metric, x.variant)], [x], UpperBound(x.interval), x.interval, x.size)
  {
    FitsAlone(x);
    assert [] + [[x]] == [[x]];
    assert Names([x]) == [(x.metric, x.variant)];
  }

  lemma GroupGrown(parts: seq<seq<Item>>, part: seq<Item>, x: Item)
    requires Greedy(parts + [part]) && part != [] && Fits(part + [x])
    ensures Greedy(parts + [part + [x]])
  {
    var gs, hs := parts + [part], parts + [part + [x]];
    forall k | 0 <= k < |hs| ensures Fits(hs[k]) {
      if k < |parts| {
        assert Fits(gs[k]);
      }
    }
    forall k | 0 <= k < |hs| - 1 ensures FullAt(hs, k) {
      assert FullAt(gs, k);
    }
  }

  /** The open group grows by a metric that exceeds no limit. */
  lemma OpenGrows(prefix: seq<Item>, groups: seq<Group>, parts: seq<seq<Item>>, metrics: seq<(string, string)>,
                  part: seq<Item>, upperBound: nat, maxInterval: nat, samples: nat, x: Item)
    requires Open(prefix, groups, parts, metrics, part, upperBound, maxInterval, samples)
    requires x.interval <= upperBound && samples + x.size <= MAX_SAMPLE_BUCKETS && |metrics| < MAX_AGGS_ELEMENTS_COUNT
    ensures Open(prefix + [x], groups, parts, metrics + [(x.metric, x.variant)],
                 part + [x], upperBound, Max(maxInterval, x.interval), samples + x.size)
  {
    assert (parts + [part])[|parts|] == part;
    FitsOneMore(part, x);
    GroupGrown(parts, part, x);
    assert (part + [x])[..|part|] == part;
    assert Names(part + [x]) == Names(part) + [(x.metric, x.variant)];
  }

  lemma GroupClosed(parts: seq<seq<Item>>, part: seq<Item>, x: Item)
    requires Greedy(parts + [part]) && part != [] && !Fits(part + [x])
    ensures Greedy(parts + [part] + [[x]]) && Flat(parts + [part]) == Flat(parts) + part
  {
    FlatSnoc(parts, part);
    FitsAlone(x);
    var gs := parts + [part];
    var hs := gs + [[x]];
    forall k | 0 <= k < |hs| ensures Fits(hs[k]) {
      if k < |gs| {
        assert Fits(gs[k]);
      }
    }
    forall k | 0 <= k < |hs| - 1 ensures FullAt(hs, k) {
      if k < |gs| - 1 {
        assert FullAt(gs, k);
      }
    }
  }

  /** The open group is closed by a metric that exceeds a limit, which opens the next one. */
  lemma OpenCloses(prefix: seq<Item>, groups: seq<Group>, parts: seq<seq<Item>>, metrics: seq<(string, string)>,
                   part: seq<Item>, upperBound: nat, maxInterval: nat, samples: nat, x: Item)
    requires Open(prefix, groups, parts, metrics, part, upperBound, maxInterval, samples)
    requires x.interval > upperBound || samples + x.size > MAX_SAMPLE_BUCKETS || |metrics| >= MAX_AGGS_ELEMENTS_COUNT
    ensures Open(prefix + [x], groups + [Group(maxInterval, metrics)], parts + [part], [(x.metric, x.variant)],
                 [x], UpperBound(x.interval), x.interval, x.size)
  {
    assert (parts + [part])[|parts|] == part;
    FitsOneMore(part, x);
    FitsAlone(x);
    GroupClosed(parts, part, x);
    assert Names([x]) == [(x.metric, x.variant)];
  }

  lemma OpenStep(prefix: seq<Item>, groups: seq<Group>, parts: seq<seq<Item>>, metrics: seq<(string, string)>,
                 part: seq<Item>, upperBound: nat, maxInterval: nat, samples: nat, x: Item)
    requires Open(prefix, groups, parts, metrics, part, upperBound, maxInterval, samples)
    ensures metrics != []
    ensures
      if x.interval > upperBound || samples + x.size > MAX_SAMPLE_BUCKETS || |metrics| >= MAX_AGGS_ELEMENTS_COUNT then
        Open(prefix + [x], groups + [Group(maxInterval, metrics)], parts + [part], [] + [(x.metric, x.variant)],
             [] + [x], UpperBound(x.interval), Max(x.interval, x.interval), 0 + x.size)
      else
        Open(prefix + [x], groups, parts, metrics + [(x.metric, x.variant)],
             part + [x], upperBound, Max(maxInterval, x.interval), samples + x.size)
  {
    assert [] + [x] == [x] && [] + [(x.metric, x.variant)] == [(x.metric, x.variant)];
    if x.interval > upperBound || samples + x.size > MAX_SAMPLE_BUCKETS || |metrics| >= MAX_AGGS_ELEMENTS_COUNT {
      OpenCloses(prefix, groups, parts, metrics, part, upperBound, maxInterval, samples, x);
    } else {
      OpenGrows(prefix, groups, parts, metrics, part, upperBound, maxInterval, samples, x);
    }
  }

  lemma OpenEnds(all: seq<Item>, groups: seq<Group>, parts: seq<seq<Item>>, metrics: seq<(string, string)>,
                 part: seq<Item>, upperBound: nat, maxInterval: nat, samples: nat)
    requires Open(all, groups, parts, metrics, part, upperBound, maxInterval, samples)
    ensures Flat(parts + [part]) == all && Greedy(parts + [part])
    ensures Labels(groups + [Group(maxInterval, metrics)], parts + [part])
  {
    FlatSnoc(parts, part);
  }

  lemma OneMore(sorted: seq<Item>, n: nat)
    requires n < |sorted|
    ensures sorted[..n + 1] == sorted[..n] + [sorted[n]]
  {
  }

  /** Before the first metric nothing is open; then there is always an open group. */
  ghost predicate Loop(prefix: seq<Item>, groups: seq<Group>, parts: seq<seq<Item>>, metrics: seq<(string, string)>,
                       part: seq<Item>, upperBound: nat, maxInterval: nat, samples: nat)
  {
    if prefix == [] then
      groups == [] && parts == [] && metrics == [] && part == [] && upperBound == maxInterval == samples == 0
    else Open(prefix, groups, parts, metrics, part, upperBound, maxInterval, samples)
  }

  predicate Exceeds(metrics: seq<(string, string)>, upperBound: nat, samples: nat, x: Item) {
    x.interval > upperBound || samples + x.size > MAX_SAMPLE_BUCKETS || |metrics| >= MAX_AGGS_ELEMENTS_COUNT
  }

  /** What one round of the loop does. */
  lemma Advance(prefix: seq<Item>, groups: seq<Group>, parts: seq<seq<Item>>, metrics: seq<(string, string)>,
                part: seq<Item>, upperBound: nat, maxInterval: nat, samples: nat, x: Item,
                groups': seq<Group>, parts': seq<seq<Item>>, metrics': seq<(string, string)>,
                part': seq<Item>, upperBound': nat, maxInterval': nat, samples': nat)
    requires Loop(prefix, groups, parts, metrics, part, upperBound, maxInterval, samples)
    requires var full := Exceeds(metrics, upperBound, samples, x);
      var closes := full && metrics != [];
      && groups' == (if closes then groups + [Group(maxInterval, metrics)] else groups)
      && parts' == (if closes then parts + [part] else parts)
      && metrics' == (if closes then [] else metrics) + [(x.metric, x.variant)]
      && part' == (if closes then [] else part) + [x]
      && upperBound' == (if full then UpperBound(x.interval) else upperBound)
      && maxInterval' == Max(if full then x.interval else maxInterval, x.interval)
      && samples' == (if full then 0 else samples) + x.size
    ensures Loop(prefix + [x], groups', parts', metrics', part', upperBound', maxInterval', samples')
  {
    if prefix == [] {
      OpenFirst(x);
      assert prefix + [x] == [x];
    } else {
      OpenStep(prefix, groups, parts, metrics, part, upperBound, maxInterval, samples, x);
    }
  }

  /** The body of the loop: close the open group if `x` exceeds a limit, then add `x`. */
  method AddToGroup(ghost prefix: seq<Item>, groups: seq<Group>, ghost parts: seq<seq<Item>>,
                    metrics: seq<(string, string)>, ghost part: seq<Item>,
                    upperBound: nat, maxInterval: nat, samples: nat, x: Item)
    returns (groups': seq<Group>, ghost parts': seq<seq<Item>>, metrics': seq<(string, string)>, ghost part': seq<Item>,
             upperBound': nat, maxInterval': nat, samples': nat)
    requires Loop(prefix, groups, parts, metrics, part, upperBound, maxInterval, samples)
    ensures Loop(prefix + [x], groups', parts', metrics', part', upperBound', maxInterval', samples')
  {
    groups', parts', metrics', part' := groups, parts, metrics, part;
    upperBound', maxInterval', samples' := upperBound, maxInterval, samples;
    if x.interval > upperBound || samples + x.size > MAX_SAMPLE_BUCKETS || |metrics| >= MAX_AGGS_ELEMENTS_COUNT {
      if metrics != [] {
        groups', parts' := groups + [Group(maxInterval, metrics)], parts + [part];
        metrics', part' := [], [];
      }
      maxInterval' := x.interval;
      upperBound' := UpperBound(x.interval);
      samples' := 0;
    }
    metrics', part' := metrics' + [(x.metric, x.variant)], part' + [x];
    samples' := samples' + x.size;
    maxInterval' := Max(maxInterval', x.interval);
    Advance(prefix, groups, parts, metrics, part, upperBound, maxInterval, samples, x,
            groups', parts', metrics', part', upperBound', maxInterval', samples');
  }

  /** Group task metric intervals; `parts` are the metrics behind the groups. */
  method GroupTaskMetricIntervals(intervals: seq<Item>) returns (groups: seq<Group>, ghost parts: seq<seq<Item>>)
    ensures Flat(parts) == SortByInterval(intervals)
    ensures Greedy(parts)
    ensures Labels(groups, parts)
  {
    groups, parts := [], [];
    var metrics: seq<(string, string)> := [];
    ghost var part: seq<Item> := [];
    var upperBound: nat, maxInterval: nat, samples: nat := 0, 0, 0;
    var sorted := SortByInterval(intervals);
    for n := 0 to |sorted|
      invariant Loop(sorted[..n], groups, parts, metrics, part, upperBound, maxInterval, samples)
    {
      OneMore(sorted, n);
      groups, parts, metrics, part, upperBound, maxInterval, samples :=
        AddToGroup(sorted[..n], groups, parts, metrics, part, upperBound, maxInterval, samples, sorted[n]);
    }
    assert sorted[..|sorted|] == sorted;
    if metrics != [] {
      OpenEnds(sorted, groups, parts, metrics, part, upperBound, maxInterval, samples);
      groups, parts := groups + [Group(maxInterval, metrics)], parts + [part];
    }
  }

  /* ---------- No contiguous grouping has fewer groups ---------- */

  lemma {:induction false} SamplesConcat(a: seq<Item>, b: seq<Item>)
    ensures Samples(a + b) == Samples(a) + Samples(b)
  {
    if b == [] {
      assert a + b == a;
    } else {
      assert (a + b)[..|a + b| - 1] == a + b[..|b| - 1];
      SamplesConcat(a, b[..|b| - 1]);
    }
  }

  /** A stretch of a group within the limits is within the limits. */
  lemma FitsStretch(a: seq<Item>, b: seq<Item>, c: seq<Item>)
    requires Fits(a + b + c) && Sorted(a + b + c) && b != []
    ensures Fits(b)
  {
    var g := a + b + c;
    SamplesConcat(a + b, c);
    SamplesConcat(a, b);
    assert g[|a|] == b[0];
    assert g[0].interval <= b[0].interval;
    forall k | 0 <= k < |b| ensures b[k].interval <= UpperBound(b[0].interval) {
      assert g[|a| + k] == b[k];
    }
    if |g| == 1 {
      assert |b| == 1;
    }
  }

  lemma SortedStretch(a: seq<Item>, b: seq<Item>)
    requires Sorted(a + b)
    ensures Sorted(a) && Sorted(b)
  {
    forall i, j | 0 <= i < j < |a| ensures a[i].interval <= a[j].interval {
      assert (a + b)[i] == a[i] && (a + b)[j] == a[j];
    }
    forall i, j | 0 <= i < j < |b| ensures b[i].interval <= b[j].interval {
      assert (a + b)[|a| + i] == b[i] && (a + b)[|a| + j] == b[j];
    }
  }

  /** What comes right behind the first group. */
  lemma NextItem(gs: seq<seq<Item>>, mid: seq<Item>, tail: seq<Item>)
    requires |gs| > 1 && gs[1] != [] && Flat(gs) == mid + tail && |mid| > |gs[0]|
    ensures mid[..|gs[0]| + 1] == gs[0] + [gs[1][0]]
  {
    var p := gs[0];
    assert gs[1..][0] == gs[1];
    assert Flat(gs[1..]) == gs[1] + Flat(gs[1..][1..]);
    assert Flat(gs)[..|p| + 1] == p + [gs[1][0]];
    assert (mid + tail)[..|p| + 1] == mid[..|p| + 1];
  }

  /** The first greedy group reaches at least as far as any group over its beginning. */
  lemma GreedyReaches(gs: seq<seq<Item>>, pre: seq<Item>, mid: seq<Item>, tail: seq<Item>)
    requires gs != [] && Greedy(gs) && Fits(pre + mid) && Sorted(pre + mid)
    requires Flat(gs) == mid + tail && mid != []
    ensures |mid| <= |gs[0]|
  {
    var p := gs[0];
    if |mid| > |p| {
      assert Flat(gs) == p + Flat(gs[1..]);
      assert |gs| > 1;
      assert FullAt(gs, 0);
      NextItem(gs, mid, tail);
      var b := p + [gs[1][0]];
      assert mid == b + mid[|p| + 1..];
      assert pre + mid == pre + b + mid[|p| + 1..];
      FitsStretch(pre, b, mid[|p| + 1..]);
    }
  }

  /** Two ways to cut one sequence: the longer first piece starts with the shorter one. */
  lemma SplitAt(a: seq<Item>, b: seq<Item>, c: seq<Item>, d: seq<Item>)
    requires a + b == c + d && |c| <= |a|
    ensures a == c + a[|c|..] && d == a[|c|..] + b
  {
    assert (a + b)[..|c|] == a[..|c|] && (c + d)[..|c|] == c;
    assert (a + b)[|c|..] == a[|c|..] + b && (c + d)[|c|..] == d;
  }

  lemma FirstGroupCovers(gs: seq<seq<Item>>, o: seq<Item>, rest: seq<seq<Item>>, pre: seq<Item>)
    requires gs != [] && Greedy(gs) && Fits(o) && Sorted(o) && |o| > |pre|
    requires o + Flat(rest) == pre + Flat(gs)
    ensures |o| - |pre| <= |gs[0]|
    ensures Flat(rest) == gs[0][|o| - |pre|..] + Flat(gs[1..])
  {
    var mid := o[|pre|..];
    SplitAt(o, Flat(rest), pre, Flat(gs));
    GreedyReaches(gs, pre, mid, Flat(rest));
    SplitAt(gs[0], Flat(gs[1..]), mid, Flat(rest));
  }

  lemma {:induction false} GreedyStaysAhead(gs: seq<seq<Item>>, other: seq<seq<Item>>, pre: seq<Item>)
    requires Greedy(gs) && (forall k :: 0 <= k < |other| ==> Fits(other[k]))
    requires Flat(other) == pre + Flat(gs) && Sorted(Flat(other))
    ensures |gs| <= |other|
    decreases |other|
  {
    if gs != [] {
      assert gs[0] != [] && Flat(gs) == gs[0] + Flat(gs[1..]);
      assert other != [];
      var o, rest := other[0], other[1..];
      assert Flat(other) == o + Flat(rest);
      SortedStretch(o, Flat(rest));
      if |o| <= |pre| {
        assert Flat(rest) == pre[|o|..] + Flat(gs) by { assert (o + Flat(rest))[|o|..] == (pre + Flat(gs))[|o|..]; }
        GreedyStaysAhead(gs, rest, pre[|o|..]);
      } else {
        FirstGroupCovers(gs, o, rest, pre);
        assert Greedy(gs[1..]) by {
          forall k | 0 <= k < |gs[1..]| - 1 ensures FullAt(gs[1..], k) {
            assert FullAt(gs, k + 1);
          }
        }
        var m := |o| - |pre|;
        GreedyStaysAhead(gs[1..], rest, gs[0][m..]);
      }
    }
  }

  /** The grouping found has the fewest groups of all contiguous groupings within the limits. */
  lemma FewestGroups(intervals: seq<Item>, parts: seq<seq<Item>>, other: seq<seq<Item>>)
    requires Greedy(parts) && Flat(parts) == SortByInterval(intervals)
    requires Flat(other) == SortByInterval(intervals) && forall k :: 0 <= k < |other| ==> Fits(other[k])
    ensures |parts| <= |other|
  {
    assert Flat(other) == [] + Flat(parts);
    GreedyStaysAhead(parts, other, []);
  }

  /* ---------- Sizing the interval of one metric ---------- */

  /** `math.ceil(a / b)`. */
  function CeilDiv(a: nat, b: nat): nat
    requires b > 0
  {
    (a + b - 1) / b
  }

  lemma MulMonotone(x: nat, y: nat, b: nat)
    requires x <= y
    ensures x * b <= y * b
  {
  }

  lemma CeilDivIs(a: nat, b: nat, q: nat)
    requires b > 0
    ensures CeilDiv(a, b) <= q <==> a <= q * b
  {
    var c := CeilDiv(a, b);
    assert c * b <= a + b - 1 < (c + 1) * b;
    if c <= q {
      MulMonotone(c, q, b);
      assert a <= c * b;
    } else {
      MulMonotone(q + 1, c, b);
      assert (q + 1) * b == q * b + b;
    }
  }

  /** What the aggregation says about one metric variant. */
  datatype Stats = Stats(count: nat, minIndex: int, maxIndex: int)

  /** The interval of one metric variant and the number of samples it yields. */
  function BuildMetricInterval(data: Stats, samples: nat): (nat, nat)
    requires samples >= 1 && data.minIndex <= data.maxIndex
  {
    if data.count < samples then (1, data.count)
    else
      var indexRange := data.maxIndex - data.minIndex + 1;
      var interval := Max(1, CeilDiv(indexRange, samples));
      (interval, CeilDiv(indexRange, interval))
  }

  /** The bucket of an index; buckets are aligned at the origin. */
  function BucketOf(v: int, interval: nat): int
    requires interval > 0
  {
    v / interval
  }

  /** Every index has a bucket of its own. */
  ghost predicate KeepsApart(interval: nat)
    requires interval > 0
  {
    forall i, j :: BucketOf(i, interval) == BucketOf(j, interval) ==> i == j
  }

  /**
   * With at least as many values as samples, the interval is the least positive one whose buckets
   * over the whole range do not exceed the samples. With fewer values no two indices share a
   * bucket, and the size is the number of values.
   */
  lemma IntervalIsLeast(data: Stats, samples: nat)
    requires samples >= 1 && data.minIndex <= data.maxIndex
    ensures BuildMetricInterval(data, samples).0 >= 1
    ensures var (interval, size) := BuildMetricInterval(data, samples);
      data.count < samples ==> size == data.count && KeepsApart(interval)
    ensures var (interval, size) := BuildMetricInterval(data, samples);
      var indexRange := data.maxIndex - data.minIndex + 1;
      data.count >= samples ==>
        && size == CeilDiv(indexRange, interval) && 1 <= size <= samples
        && forall i: nat :: 1 <= i < interval ==> CeilDiv(indexRange, i) > samples
  {
    var indexRange := data.maxIndex - data.minIndex + 1;
    var (interval, size) := BuildMetricInterval(data, samples);
    if data.count >= samples {
      CeilDivIs(indexRange, samples, interval);
      CeilDivIs(indexRange, interval, samples);
      CeilDivIs(indexRange, interval, 0);
      forall i: nat | 1 <= i < interval ensures CeilDiv(indexRange, i) > samples {
        CeilDivIs(indexRange, samples, i);
        CeilDivIs(indexRange, i, samples);
      }
    }
  }

  /** The buckets `[k * interval, (k + 1) * interval)` that a range of indices touches. */
  function Buckets(minIndex: int, maxIndex: int, interval: nat): int
    requires interval > 0
  {
    BucketOf(maxIndex, interval) - BucketOf(minIndex, interval) + 1
  }

  lemma MulLess(x: int, y: int, w: nat)
    requires w > 0
    ensures x * w < y * w ==> x < y
  {
    if x >= y {
      assert (x - y) * w >= 0;
      assert (x - y) * w == x * w - y * w;
    }
  }

  lemma TouchedBuckets(lo: int, hi: int, w: nat, s: nat)
    requires w > 0 && hi - lo + 1 <= s * w
    ensures Buckets(lo, hi, w) <= s + 1
  {
    var a, b := lo / w, hi / w;
    assert a * w <= lo < a * w + w && b * w <= hi < b * w + w;
    assert (b - a) * w == b * w - a * w && (s + 1) * w == s * w + w;
    MulLess(b - a, s + 1, w);
  }

  lemma MulWider(s: nat, a: nat, b: nat)
    requires a <= b
    ensures s * a <= s * b
  {
  }

  /** The buckets in which some values lie. */
  function Occupied(values: seq<int>, interval: nat): set<int>
    requires interval > 0
  {
    set v | v in values :: BucketOf(v, interval)
  }

  lemma OccupiedAtMost(values: seq<int>, interval: nat)
    requires interval > 0
    ensures |Occupied(values, interval)| <= |values|
  {
    if values != [] {
      var front, last := values[..|values| - 1], values[|values| - 1];
      OccupiedAtMost(front, interval);
      assert forall v :: v in values <==> v in front || v == last;
      assert Occupied(values, interval) == Occupied(front, interval) + {BucketOf(last, interval)};
    }
  }

  lemma {:induction false} RangeCard(xs: set<int>, lo: int, n: nat)
    requires forall x :: x in xs ==> lo <= x < lo + n
    ensures |xs| <= n
  {
    if n > 0 {
      RangeCard(xs - {lo + n - 1}, lo, n - 1);
    } else {
      assert forall x :: x !in xs;
    }
  }

  lemma BucketMonotone(x: int, y: int, interval: nat)
    requires interval > 0 && x <= y
    ensures x / interval <= y / interval
  {
    MulLess(x / interval, y / interval + 1, interval);
  }

  lemma OccupiedInRange(values: seq<int>, lo: int, hi: int, interval: nat)
    requires interval > 0 && lo <= hi && forall v :: v in values ==> lo <= v <= hi
    ensures |Occupied(values, interval)| <= Buckets(lo, hi, interval)
  {
    BucketMonotone(lo, hi, interval);
    forall v | v in values ensures lo / interval <= v / interval <= hi / interval {
      BucketMonotone(lo, v, interval);
      BucketMonotone(v, hi, interval);
    }
    RangeCard(Occupied(values, interval), lo / interval, Buckets(lo, hi, interval));
  }

  /**
   * The values of a metric lie in no more buckets than its size. With at least as many values as
   * samples it can be one more, as buckets are aligned at the origin. This holds for every label
   * that a group may give the metric, since labels only widen intervals.
   */
  lemma BucketsOfLabel(data: Stats, samples: nat, wide: nat, values: seq<int>)
    requires samples >= 1 && data.minIndex <= data.maxIndex && wide >= BuildMetricInterval(data, samples).0
    requires |values| == data.count && forall v :: v in values ==> data.minIndex <= v <= data.maxIndex
    ensures wide > 0
    ensures |Occupied(values, wide)| <= BuildMetricInterval(data, samples).1 + if data.count < samples then 0 else 1
  {
    var (interval, size) := BuildMetricInterval(data, samples);
    var indexRange := data.maxIndex - data.minIndex + 1;
    IntervalIsLeast(data, samples);
    if data.count < samples {
      OccupiedAtMost(values, wide);
    } else {
      CeilDivIs(indexRange, interval, size);
      MulWider(size, interval, wide);
      TouchedBuckets(data.minIndex, data.maxIndex, wide, size);
      OccupiedInRange(values, data.minIndex, data.maxIndex, wide);
    }
  }

  /** The label of a group is no smaller than the interval of any metric in it. */
  lemma LabelWidens(groups: seq<Group>, parts: seq<seq<Item>>, k: nat, i: nat)
    requires Labels(groups, parts) && k < |parts| && i < |parts[k]|
    ensures parts[k][i].interval <= groups[k].interval
    ensures exists j :: 0 <= j < |parts[k]| && parts[k][j].interval == groups[k].interval
    ensures groups[k].metrics[i] == (parts[k][i].metric, parts[k][i].variant)
  {
  }
}
