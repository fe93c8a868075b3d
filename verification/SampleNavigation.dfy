/**
 * Stepping through debug samples: a search on the current iteration first, then one on the other
 * iterations. Together they make one step in the order (iteration, metric, variant) of the valid
 * samples.
 */
module SampleNavigation {
  import opened Wrappers

  /* ---------- Order on names and on sample keys ---------- */

  /** The order of names: by character, a prefix first. */
  predicate Less(a: string, b: string) {
    b != "" && (a == "" || a[0] < b[0] || (a[0] == b[0] && Less(a[1..], b[1..])))
  }

  lemma {:induction false} LessTransitive(a: string, b: string, c: string)
    requires Less(a, b) && Less(b, c)
    ensures Less(a, c)
  {
    if a != "" && a[0] == b[0] == c[0] {
      LessTransitive(a[1..], b[1..], c[1..]);
    }
  }

  lemma {:induction false} LessIrreflexive(a: string)
    ensures !Less(a, a)
  {
    if a != "" {
      LessIrreflexive(a[1..]);
    }
  }

  lemma {:induction false} LessTotal(a: string, b: string)
    ensures a == b || Less(a, b) || Less(b, a)
  {
    if a != "" && b != "" && a[0] == b[0] {
      LessTotal(a[1..], b[1..]);
      assert a == [a[0]] + a[1..] && b == [b[0]] + b[1..];
    }
  }

  /** The strings agree before `k`; there `a` ends, or has the smaller character. */
  ghost predicate SmallerAt(a: string, b: string, k: int) {
    0 <= k <= |a| && k < |b| && a[..k] == b[..k] && (k < |a| ==> a[k] < b[k])
  }

  /** `a` is a proper prefix of `b`, or has the smaller character where they first differ. */
  ghost predicate Precedes(a: string, b: string) {
    exists k :: SmallerAt(a, b, k)
  }

  lemma SmallerLater(a: string, b: string, k: int)
    requires a != "" && b != "" && a[0] == b[0] && k > 0
    ensures SmallerAt(a, b, k) <==> SmallerAt(a[1..], b[1..], k - 1)
  {
    if k <= |a| && k < |b| {
      assert a[..k] == [a[0]] + a[1..][..k - 1] && b[..k] == [b[0]] + b[1..][..k - 1];
      assert a[..k] == b[..k] ==> a[1..][..k - 1] == a[..k][1..] == b[..k][1..] == b[1..][..k - 1];
    }
  }

  lemma {:induction false} LessMeans(a: string, b: string)
    ensures Less(a, b) <==> Precedes(a, b)
  {
    if a == "" || b == "" || a[0] != b[0] {
      assert SmallerAt(a, b, 0) <==> Less(a, b);
      forall k | k > 0 ensures !SmallerAt(a, b, k) {
        if k <= |a| && k < |b| {
          assert a[..k][0] == a[0] && b[..k][0] == b[0];
        }
      }
    } else {
      LessMeans(a[1..], b[1..]);
      if Precedes(a, b) {
        var k :| SmallerAt(a, b, k);
        SmallerLater(a, b, k);
      } else if Precedes(a[1..], b[1..]) {
        var k :| SmallerAt(a[1..], b[1..], k);
        SmallerLater(a, b, k + 1);
      }
    }
  }

  datatype Key = Key(iteration: int, metric: string, variant: string)

  /** Python's comparison of the pairs (metric, variant). */
  predicate PairLess(m1: string, v1: string, m2: string, v2: string) {
    Less(m1, m2) || (m1 == m2 && Less(v1, v2))
  }

  /** How the queries sort. */
  predicate KeyLess(a: Key, b: Key) {
    a.iteration < b.iteration
    || (a.iteration == b.iteration && PairLess(a.metric, a.variant, b.metric, b.variant))
  }

  /** By iteration, then by metric, then by variant. */
  ghost predicate Before(a: Key, b: Key) {
    || a.iteration < b.iteration
    || (a.iteration == b.iteration && Precedes(a.metric, b.metric))
    || (a.iteration == b.iteration && a.metric == b.metric && Precedes(a.variant, b.variant))
  }

  /** `a` comes before `b` in the direction of travel. */
  ghost predicate Ahead(earlier: bool, a: Key, b: Key) {
    if earlier then Before(b, a) else Before(a, b)
  }

  lemma KeyLessMeans(a: Key, b: Key)
    ensures KeyLess(a, b) <==> Before(a, b)
  {
    LessMeans(a.metric, b.metric);
    LessMeans(a.variant, b.variant);
  }

  lemma PairLessMeans(a: Key, b: Key)
    requires a.iteration == b.iteration
    ensures PairLess(a.metric, a.variant, b.metric, b.variant) <==> Before(a, b)
  {
    KeyLessMeans(a, b);
  }

  lemma KeyOrder(a: Key, b: Key, c: Key)
    ensures !KeyLess(a, a)
    ensures a == b || KeyLess(a, b) || KeyLess(b, a)
    ensures KeyLess(a, b) && KeyLess(b, c) ==> KeyLess(a, c)
  {
    LessIrreflexive(a.metric);
    LessIrreflexive(a.variant);
    LessTotal(a.metric, b.metric);
    LessTotal(a.variant, b.variant);
    if Less(a.metric, b.metric) && Less(b.metric, c.metric) {
      LessTransitive(a.metric, b.metric, c.metric);
    }
    if Less(a.variant, b.variant) && Less(b.variant, c.variant) {
      LessTransitive(a.variant, b.variant, c.variant);
    }
  }

  lemma BeforeOrder(a: Key, b: Key, c: Key)
    ensures !Before(a, a)
    ensures a == b || Before(a, b) || Before(b, a)
    ensures Before(a, b) && Before(b, c) ==> Before(a, c)
  {
    KeyOrder(a, b, c);
    KeyLessMeans(a, a);
    KeyLessMeans(a, b);
    KeyLessMeans(b, a);
    KeyLessMeans(b, c);
    KeyLessMeans(a, c);
  }

  lemma AheadOrder(earlier: bool, a: Key, b: Key, c: Key)
    ensures !Ahead(earlier, a, a)
    ensures a == b || Ahead(earlier, a, b) || Ahead(earlier, b, a)
    ensures Ahead(earlier, a, b) && Ahead(earlier, b, c) ==> Ahead(earlier, a, c)
    ensures Ahead(earlier, a, b) ==> !Ahead(earlier, b, a)
  {
    BeforeOrder(a, b, c);
    BeforeOrder(c, b, a);
    BeforeOrder(a, b, a);
  }

  /* ---------- Events and state ---------- */

  datatype Event = Event(key: Key, url: Option<string>)

  /** From which iteration on the samples of a variant are valid. */
  datatype VariantState = VariantState(metric: string, name: string, minIteration: int, maxIteration: int)

  /** The stored events never change here; the state says which variants are looked at and where we are. */
  datatype State = State(key: Key, variants: seq<VariantState>, currentMetricOnly: bool)

  function OfMetric(variants: seq<VariantState>, metric: string): (r: seq<VariantState>)
    ensures forall v :: v in r <==> v in variants && v.metric == metric
  {
    if variants == [] then []
    else
      var rest := OfMetric(variants[1..], metric);
      assert variants == [variants[0]] + variants[1..];
      if variants[0].metric == metric then [variants[0]] + rest else rest
  }

  /** The variants a search starts from. */
  function Candidates(state: State): seq<VariantState> {
    if state.currentMetricOnly then OfMetric(state.variants, state.key.metric) else state.variants
  }

  /** The condition on metric, variant and minimal iteration that a query is built from. */
  predicate InVariants(variants: seq<VariantState>, key: Key) {
    exists v :: v in variants && v.metric == key.metric && v.name == key.variant && v.minIteration <= key.iteration
  }

  /**
   * A sample that navigation may show: it has a url, lies in the valid range of its variant, and
   * is of the current metric if only that one is looked at.
   */
  ghost predicate Valid(events: seq<Event>, state: State, e: Event) {
    && e in events && e.url.Some?
    && (state.currentMetricOnly ==> e.key.metric == state.key.metric)
    && exists v ::
         && v in state.variants && v.metric == e.key.metric && v.name == e.key.variant
         && v.minIteration <= e.key.iteration
  }

  /** Steps with the same choice of variants. */
  predicate SameScope(a: State, b: State) {
    && a.variants == b.variants && a.currentMetricOnly == b.currentMetricOnly
    && (a.currentMetricOnly ==> a.key.metric == b.key.metric)
  }

  /** Keys of the valid samples. */
  ghost predicate ValidKey(events: seq<Event>, state: State, key: Key) {
    exists e :: Valid(events, state, e) && e.key == key
  }

  /* ---------- The sorted query for one hit ---------- */

  /** The first hit in the direction of travel; among samples of one key the one with the greatest url. */
  predicate Better(earlier: bool, a: Event, b: Event)
    requires a.url.Some? && b.url.Some?
  {
    || (if earlier then KeyLess(b.key, a.key) else KeyLess(a.key, b.key))
    || (a.key == b.key && Less(b.url.value, a.url.value))
  }

  function Search(events: seq<Event>, matches: Event -> bool, earlier: bool): (r: Option<Event>)
    requires forall e :: e in events && matches(e) ==> e.url.Some?
    ensures r == None <==> forall e :: e in events ==> !matches(e)
    ensures r.Some? ==> r.value in events && matches(r.value) && r.value.url.Some?
  {
    if events == [] then None
    else
      var e := events[0];
      assert events == [e] + events[1..];
      assert forall d :: d in events[1..] ==> d in events;
      var rest := Search(events[1..], matches, earlier);
      if !matches(e) then rest
      else if rest.Some? && Better(earlier, rest.value, e) then rest
      else Some(e)
  }

  /** The hit is the first of all matching events. */
  lemma {:induction false} SearchIsFirst(events: seq<Event>, matches: Event -> bool, earlier: bool, d: Event)
    requires forall e :: e in events && matches(e) ==> e.url.Some?
    requires d in events && matches(d)
    ensures Search(events, matches, earlier).Some?
    ensures var r := Search(events, matches, earlier).value;
      r.key == d.key || Ahead(earlier, r.key, d.key)
    ensures var r := Search(events, matches, earlier).value;
      r.key == d.key ==> !Less(r.url.value, d.url.value)
  {
    var e := events[0];
    forall a: Key, b: Key ensures KeyLess(a, b) <==> Before(a, b) {
      KeyLessMeans(a, b);
    }
    assert events == [e] + events[1..];
    forall x | x in events[1..] && matches(x) ensures x.url.Some? {
      assert x in events;
    }
    var rest := Search(events[1..], matches, earlier);
    if d in events[1..] {
      SearchIsFirst(events[1..], matches, earlier, d);
      if matches(e) {
        AheadOrder(earlier, e.key, rest.value.key, d.key);
        AheadOrder(earlier, rest.value.key, e.key, d.key);
        LessTotal(e.url.value, rest.value.url.value);
        LessIrreflexive(e.url.value);
        if Less(e.url.value, d.url.value) && Less(rest.value.url.value, e.url.value) {
          LessTransitive(rest.value.url.value, e.url.value, d.url.value);
        }
      }
    } else {
      LessIrreflexive(d.url.value);
      if rest.Some? {
        AheadOrder(earlier, rest.value.key, e.key, d.key);
        if Less(e.url.value, rest.value.url.value) && Less(rest.value.url.value, e.url.value) {
          LessTransitive(e.url.value, rest.value.url.value, e.url.value);
        }
      }
    }
  }

  /* ---------- The two searches ---------- */

  /** The variants next to the current one on the current iteration. */
  function VariantsBeyond(variants: seq<VariantState>, earlier: bool, at: Key): (r: seq<VariantState>)
    ensures forall v :: v in r <==>
              && v in variants && v.minIteration <= at.iteration
              && (if earlier then PairLess(v.metric, v.name, at.metric, at.variant)
                  else PairLess(at.metric, at.variant, v.metric, v.name))
  {
    if variants == [] then []
    else
      var v := variants[0];
      var rest := VariantsBeyond(variants[1..], earlier, at);
      assert variants == [v] + variants[1..];
      if (if earlier then PairLess(v.metric, v.name, at.metric, at.variant)
          else PairLess(at.metric, at.variant, v.metric, v.name)) && v.minIteration <= at.iteration
      then [v] + rest else rest
  }

  /** The variants that have valid samples before the current iteration. */
  function VariantsBefore(variants: seq<VariantState>, iteration: int): (r: seq<VariantState>)
    ensures forall v :: v in r <==> v in variants && v.minIteration < iteration
  {
    if variants == [] then []
    else
      var rest := VariantsBefore(variants[1..], iteration);
      assert variants == [variants[0]] + variants[1..];
      if variants[0].minIteration < iteration then [variants[0]] + rest else rest
  }

  function NextForCurrentIteration(events: seq<Event>, state: State, earlier: bool): (r: Option<Event>) {
    var variants := VariantsBeyond(Candidates(state), earlier, state.key);
    if variants == [] then None
    else
      Search(events,
             (e: Event) => e.url.Some? && e.key.iteration == state.key.iteration && InVariants(variants, e.key),
             earlier)
  }

  function NextForAnotherIteration(events: seq<Event>, state: State, earlier: bool): Option<Event> {
    var variants := if earlier then VariantsBefore(Candidates(state), state.key.iteration) else Candidates(state);
    if variants == [] then None
    else
      Search(events,
             (e: Event) =>
               && e.url.Some?
               && (if earlier then e.key.iteration < state.key.iteration else e.key.iteration > state.key.iteration)
               && InVariants(variants, e.key),
             earlier)
  }

  /** The sample that a step finds: on another iteration only, or on the current one first. */
  function NextSample(events: seq<Event>, state: State, earlier: bool, nextIteration: bool): Option<Event> {
    var here := if nextIteration then None else NextForCurrentIteration(events, state, earlier);
    if here.Some? then here else NextForAnotherIteration(events, state, earlier)
  }

  /** `e` is the first valid sample of those that satisfy `within`. */
  ghost predicate FirstValid(events: seq<Event>, state: State, earlier: bool, within: Key -> bool, r: Option<Event>) {
    && (r == None <==> forall d :: Valid(events, state, d) ==> !within(d.key))
    && (r.Some? ==>
          && Valid(events, state, r.value) && within(r.value.key)
          && (forall d :: Valid(events, state, d) && within(d.key) ==>
                r.value.key == d.key || Ahead(earlier, r.value.key, d.key))
          && forall d :: Valid(events, state, d) && d.key == r.value.key ==>
                !Precedes(r.value.url.value, d.url.value))
  }

  /** Beyond the current sample but on its iteration. */
  ghost function Here(at: Key, earlier: bool): Key -> bool {
    (k: Key) => k.iteration == at.iteration && Ahead(earlier, at, k)
  }

  /** On an iteration beyond the current one. */
  ghost function There(at: Key, earlier: bool): Key -> bool {
    (k: Key) => if earlier then k.iteration < at.iteration else k.iteration > at.iteration
  }

  ghost function Anywhere(at: Key, earlier: bool): Key -> bool {
    (k: Key) => Ahead(earlier, at, k)
  }

  lemma SearchFindsFirst(events: seq<Event>, state: State, earlier: bool, within: Key -> bool, matches: Event -> bool)
    requires forall e :: e in events ==> (matches(e) <==> Valid(events, state, e) && within(e.key))
    requires forall e :: e in events && matches(e) ==> e.url.Some?
    ensures FirstValid(events, state, earlier, within, Search(events, matches, earlier))
  {
    var r := Search(events, matches, earlier);
    forall d | Valid(events, state, d) && within(d.key)
      ensures r.Some? && (r.value.key == d.key || Ahead(earlier, r.value.key, d.key))
      ensures d.key == r.value.key ==> !Precedes(r.value.url.value, d.url.value)
    {
      SearchIsFirst(events, matches, earlier, d);
      LessMeans(r.value.url.value, d.url.value);
    }
  }

  lemma CurrentIterationIsFirst(events: seq<Event>, state: State, earlier: bool)
    ensures FirstValid(events, state, earlier, Here(state.key, earlier),
                       NextForCurrentIteration(events, state, earlier))
  {
    var variants := VariantsBeyond(Candidates(state), earlier, state.key);
    var matches := (e: Event) =>
      e.url.Some? && e.key.iteration == state.key.iteration && InVariants(variants, e.key);
    forall e | e in events ensures matches(e) <==> Valid(events, state, e) && Here(state.key, earlier)(e.key) {
      if e.key.iteration == state.key.iteration {
        PairLessMeans(e.key, state.key);
        PairLessMeans(state.key, e.key);
      }
      if Valid(events, state, e) && Here(state.key, earlier)(e.key) {
        var v :| v in Candidates(state)
          && v.metric == e.key.metric && v.name == e.key.variant && v.minIteration <= e.key.iteration;
        assert v in variants;
      }
    }
    SearchFindsFirst(events, state, earlier, Here(state.key, earlier), matches);
  }

  lemma AnotherIterationIsFirst(events: seq<Event>, state: State, earlier: bool)
    ensures FirstValid(events, state, earlier, There(state.key, earlier),
                       NextForAnotherIteration(events, state, earlier))
  {
    var variants := if earlier then VariantsBefore(Candidates(state), state.key.iteration) else Candidates(state);
    var matches := (e: Event) =>
      && e.url.Some?
      && (if earlier then e.key.iteration < state.key.iteration else e.key.iteration > state.key.iteration)
      && InVariants(variants, e.key);
    forall e | e in events ensures matches(e) <==> Valid(events, state, e) && There(state.key, earlier)(e.key) {
      if Valid(events, state, e) && There(state.key, earlier)(e.key) {
        var v :| v in Candidates(state)
          && v.metric == e.key.metric && v.name == e.key.variant && v.minIteration <= e.key.iteration;
        assert v in variants;
      }
    }
    SearchFindsFirst(events, state, earlier, There(state.key, earlier), matches);
  }

  /** The two searches together are one step in the order of all valid samples. */
  lemma TwoStagesAreOneStep(events: seq<Event>, state: State, earlier: bool)
    ensures FirstValid(events, state, earlier, Anywhere(state.key, earlier), NextSample(events, state, earlier, false))
    ensures FirstValid(events, state, earlier, There(state.key, earlier), NextSample(events, state, earlier, true))
  {
    CurrentIterationIsFirst(events, state, earlier);
    AnotherIterationIsFirst(events, state, earlier);
    var r := NextSample(events, state, earlier, false);
    forall d | Valid(events, state, d) && Anywhere(state.key, earlier)(d.key)
      ensures r.Some? && (r.value.key == d.key || Ahead(earlier, r.value.key, d.key))
    {
      assert Here(state.key, earlier)(d.key) || There(state.key, earlier)(d.key);
    }
  }

  /** The events that lie ahead. */
  ghost function Remaining(events: seq<Event>, earlier: bool, at: Key): set<Event> {
    set e | e in events && Ahead(earlier, at, e.key)
  }

  /* ---------- The iterator ---------- */

  lemma NothingVisited(start: Key, earlier: bool)
    ensures forall k :: Ahead(earlier, start, k) ==> k != start && !Ahead(earlier, k, start)
  {
    forall k ensures Ahead(earlier, start, k) ==> k != start && !Ahead(earlier, k, start) {
      AheadOrder(earlier, start, k, start);
    }
  }

  lemma AllVisited(events: seq<Event>, start: State, at: State, earlier: bool, visited: seq<Key>)
    requires SameScope(at, start)
    requires FirstValid(events, at, earlier, Anywhere(at.key, earlier), None)
    requires forall k :: k in visited <==>
               && ValidKey(events, start, k) && Ahead(earlier, start.key, k)
               && (k == at.key || Ahead(earlier, k, at.key))
    ensures forall k :: k in visited <==> ValidKey(events, start, k) && Ahead(earlier, start.key, k)
  {
    forall k | ValidKey(events, start, k) && Ahead(earlier, start.key, k) ensures k in visited {
      var e :| Valid(events, start, e) && e.key == k;
      assert Valid(events, at, e);
      AheadOrder(earlier, at.key, k, k);
    }
  }

  lemma StepExtends(events: seq<Event>, start: State, at: State, earlier: bool, visited: seq<Key>, e: Event)
    requires SameScope(at, start)
    requires FirstValid(events, at, earlier, Anywhere(at.key, earlier), Some(e))
    requires forall k :: k in visited <==>
               && ValidKey(events, start, k) && Ahead(earlier, start.key, k)
               && (k == at.key || Ahead(earlier, k, at.key))
    requires at.key == start.key || Ahead(earlier, start.key, at.key)
    ensures Ahead(earlier, start.key, e.key)
    ensures forall k :: k in visited ==> Ahead(earlier, k, e.key)
    ensures forall k :: k in visited + [e.key] <==>
              && ValidKey(events, start, k) && Ahead(earlier, start.key, k)
              && (k == e.key || Ahead(earlier, k, e.key))
    ensures Remaining(events, earlier, e.key) < Remaining(events, earlier, at.key)
  {
    AheadOrder(earlier, start.key, at.key, e.key);
    assert Valid(events, start, e);
    forall k ensures Ahead(earlier, k, at.key) && Ahead(earlier, at.key, e.key) ==> Ahead(earlier, k, e.key) {
      AheadOrder(earlier, k, at.key, e.key);
    }
    forall k | ValidKey(events, start, k) && Ahead(earlier, start.key, k) && Ahead(earlier, k, e.key)
      ensures k in visited
    {
      var d :| Valid(events, start, d) && d.key == k;
      assert Valid(events, at, d);
      AheadOrder(earlier, at.key, k, k);
      AheadOrder(earlier, e.key, k, k);
    }
    forall d | d in events && Ahead(earlier, e.key, d.key) ensures Ahead(earlier, at.key, d.key) {
      AheadOrder(earlier, at.key, e.key, d.key);
    }
    AheadOrder(earlier, e.key, e.key, e.key);
    assert e !in Remaining(events, earlier, e.key) && e in Remaining(events, earlier, at.key);
  }

  class Iterator {
    var state: State

    constructor (state: State)
      ensures this.state == state
    {
      this.state := state;
    }

    /** Step to the next or previous sample, or to the first one of another iteration. */
    method GetNextSample(events: seq<Event>, earlier: bool, nextIteration: bool) returns (r: Option<Event>)
      modifies this
      ensures FirstValid(events, old(state), earlier,
                         if nextIteration then There(old(state).key, earlier) else Anywhere(old(state).key, earlier), r)
      ensures r == None ==> state == old(state)
      ensures r.Some? ==> state == old(state).(key := r.value.key)
      ensures SameScope(state, old(state))
    {
      TwoStagesAreOneStep(events, state, earlier);
      r := NextSample(events, state, earlier, nextIteration);
      if r.Some? {
        state := state.(key := r.value.key);
      }
    }

    /**
     * Repeated steps in one direction visit every valid key beyond the start exactly once, in
     * order, and stop after the last.
     */
    method Walk(events: seq<Event>, earlier: bool) returns (visited: seq<Key>)
      modifies this
      ensures forall k :: k in visited <==> ValidKey(events, old(state), k) && Ahead(earlier, old(state).key, k)
      ensures forall i, j :: 0 <= i < j < |visited| ==> Ahead(earlier, visited[i], visited[j])
    {
      visited := [];
      NothingVisited(state.key, earlier);
      ghost var left := Remaining(events, earlier, state.key);
      while true
        invariant SameScope(state, old(state))
        invariant forall k :: k in visited <==>
                    && ValidKey(events, old(state), k)
                    && Ahead(earlier, old(state).key, k)
                    && (k == state.key || Ahead(earlier, k, state.key))
        invariant forall i, j :: 0 <= i < j < |visited| ==> Ahead(earlier, visited[i], visited[j])
        invariant visited == [] ==> state == old(state)
        invariant state.key == old(state).key || Ahead(earlier, old(state).key, state.key)
        invariant left == Remaining(events, earlier, state.key)
        decreases left
      {
        ghost var before := state;
        var r := GetNextSample(events, earlier, false);
        if r == None {
          AllVisited(events, old(state), before, earlier, visited);
          return;
        }
        StepExtends(events, old(state), before, earlier, visited, r.value);
        visited := visited + [r.value.key];
        left := Remaining(events, earlier, state.key);
      }
    }
  }

  lemma BackAtStart(earlier: bool, start: Key, next: Key, back: Key)
    requires Ahead(earlier, start, next) && Ahead(!earlier, next, back)
    requires back == start || Ahead(!earlier, back, start)
    requires Ahead(earlier, start, back) ==> next == back || Ahead(earlier, next, back)
    ensures back == start
  {
    AheadOrder(earlier, start, back, next);
    AheadOrder(earlier, back, next, back);
  }

  lemma BackReaches(events: seq<Event>, state: State, there: State, earlier: bool, next: Event, back: Option<Event>)
    requires ValidKey(events, state, state.key) && there == state.(key := next.key)
    requires FirstValid(events, state, earlier, Anywhere(state.key, earlier), Some(next))
    requires FirstValid(events, there, !earlier, Anywhere(next.key, !earlier), back)
    ensures back.Some? && back.value.key == state.key
  {
    assert Valid(events, state, next);
    var start :| Valid(events, state, start) && start.key == state.key;
    assert Valid(events, there, start) && Anywhere(next.key, !earlier)(start.key);
    assert Valid(events, state, back.value);
    BackAtStart(earlier, state.key, next.key, back.value.key);
  }

  /** A step forth and a step back lead to the start when the start is itself a valid sample. */
  lemma ForthAndBack(events: seq<Event>, state: State, earlier: bool, next: Event)
    requires ValidKey(events, state, state.key)
    requires NextSample(events, state, earlier, false) == Some(next)
    ensures var back := NextSample(events, state.(key := next.key), !earlier, false);
      back.Some? && back.value.key == state.key
  {
    var there := state.(key := next.key);
    var back := NextSample(events, there, !earlier, false);
    TwoStagesAreOneStep(events, state, earlier);
    TwoStagesAreOneStep(events, there, !earlier);
    BackReaches(events, state, there, earlier, next, back);
  }
}
