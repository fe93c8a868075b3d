/**
 * Paging through the events of a task by a key (iteration or time), in either direction. A page
 * always takes in every event that ties with its last one. A scroll over several requests is a
 * full scan exactly when no response but the last ends with the key 0.
 */
module EventPaging {
  import opened Wrappers

  datatype Event = Event(id: nat, key: int)

  /** The key from which to go on: none, a number, or the decimal text of a number. */
  datatype Cursor = NoCursor | IntCursor(value: int) | StrCursor(value: int)

  const MAX_TIES := 10_000
  const MAX_PAGE := 10_000

  /** Python's truth value: the number 0 counts as absent, its text "0" does not. */
  function After(cursor: Cursor): Option<int> {
    match cursor
    case NoCursor => None
    case IntCursor(v) => if v == 0 then None else Some(v)
    case StrCursor(v) => Some(v)
  }

  /** The position of a key in the direction of travel. */
  function Rank(earlier: bool, key: int): int {
    if earlier then -key else key
  }

  ghost predicate UniqueIds(events: set<Event>) {
    forall a, b :: a in events && b in events && a.id == b.id ==> a == b
  }

  function WithKey(events: set<Event>, key: int): set<Event> {
    set e | e in events && e.key == key
  }

  /** No key has more events than one query returns. */
  ghost predicate FewTies(events: set<Event>) {
    forall k :: |WithKey(events, k)| <= MAX_TIES
  }

  /** The events strictly beyond a key, or all of them. */
  function Beyond(events: set<Event>, earlier: bool, after: Option<int>): set<Event> {
    set e | e in events && (after.Some? ==> Rank(earlier, after.value) < Rank(earlier, e.key))
  }

  ghost predicate Distinct(xs: seq<Event>) {
    forall i, j :: 0 <= i < j < |xs| ==> xs[i] != xs[j]
  }

  ghost predicate Sorted(xs: seq<Event>, earlier: bool) {
    forall i, j :: 0 <= i < j < |xs| ==> Rank(earlier, xs[i].key) <= Rank(earlier, xs[j].key)
  }

  function Last(xs: seq<Event>): Event
    requires xs != []
  {
    xs[|xs| - 1]
  }

  /** What a sorted query with `search_after` and a size returns; ties come in any order. */
  ghost predicate TopHits(events: set<Event>, earlier: bool, after: Option<int>, size: nat, hits: seq<Event>) {
    var beyond := Beyond(events, earlier, after);
    && Distinct(hits) && Sorted(hits, earlier)
    && (forall e :: e in hits ==> e in beyond)
    && |hits| <= size
    && (|hits| < size ==> forall e :: e in beyond ==> e in hits)
    && forall e, h :: e in beyond && e !in hits && h in hits ==> Rank(earlier, h.key) <= Rank(earlier, e.key)
  }

  /** Exactly the events strictly beyond `after` up to the last key of the page, ties included, in order. */
  ghost predicate IsPage(events: set<Event>, earlier: bool, after: Option<int>, page: seq<Event>) {
    && Distinct(page) && Sorted(page, earlier)
    && (page == [] ==> Beyond(events, earlier, after) == {})
    && forall e :: e in page <==>
         && page != []
         && e in Beyond(events, earlier, after)
         && Rank(earlier, e.key) <= Rank(earlier, Last(page).key)
  }

  /** Nothing is left beyond the events. */
  ghost predicate Exhausts(events: set<Event>, earlier: bool, after: Option<int>, xs: seq<Event>) {
    forall e :: e in Beyond(events, earlier, after) ==> e in xs
  }

  /** No event before the last key of the page is missing. */
  ghost predicate CompleteBefore(events: set<Event>, earlier: bool, after: Option<int>, page: seq<Event>)
    requires page != []
  {
    forall e :: e in Beyond(events, earlier, after) && Rank(earlier, e.key) < Rank(earlier, Last(page).key) ==>
      e in page
  }

  /**
   * What one request brings: a page, except that of more than `MAX_TIES` events with the last key
   * some may be missing. It is shorter than the batch only when nothing is left, and goes past it
   * only with ties of its last key.
   */
  ghost predicate IsBatch(events: set<Event>, earlier: bool, after: Option<int>, batchSize: nat, page: seq<Event>) {
    && Distinct(page) && Sorted(page, earlier)
    && (forall e :: e in page ==> e in Beyond(events, earlier, after))
    && (page == [] ==> Beyond(events, earlier, after) == {})
    && (|page| < batchSize ==> Exhausts(events, earlier, after, page))
    && (forall k :: 0 <= k < |page| && batchSize <= k + 1 ==> page[k].key == Last(page).key)
    && |page| <= batchSize + MAX_TIES
    && (page != [] ==> CompleteBefore(events, earlier, after, page))
    && (page != [] && |WithKey(events, Last(page).key)| <= MAX_TIES ==> IsPage(events, earlier, after, page))
  }

  /* ---------- One page ---------- */

  method LeastOf(events: set<Event>, earlier: bool) returns (least: Event)
    requires events != {}
    ensures least in events
    ensures forall e :: e in events ==> Rank(earlier, least.key) <= Rank(earlier, e.key)
  {
    least :| least in events;
    var rest := events - {least};
    while rest != {}
      invariant rest < events && least in events
      invariant forall e :: e in events && e !in rest ==> Rank(earlier, least.key) <= Rank(earlier, e.key)
      decreases rest
    {
      var e :| e in rest;
      if Rank(earlier, e.key) < Rank(earlier, least.key) {
        least := e;
      }
      rest := rest - {e};
    }
  }

  /** The sorted query. */
  method Search(events: set<Event>, earlier: bool, after: Option<int>, size: nat) returns (hits: seq<Event>)
    ensures TopHits(events, earlier, after, size, hits)
  {
    var rest := Beyond(events, earlier, after);
    hits := [];
    while |hits| < size && rest != {}
      invariant |hits| <= size
      invariant forall e :: e in Beyond(events, earlier, after) <==> e in hits || e in rest
      invariant forall e :: e in hits ==> e !in rest
      invariant Distinct(hits) && Sorted(hits, earlier)
      invariant forall e, h :: e in rest && h in hits ==> Rank(earlier, h.key) <= Rank(earlier, e.key)
      decreases rest
    {
      var e := LeastOf(rest, earlier);
      hits := hits + [e];
      rest := rest - {e};
    }
  }

  /** The query for one key: some of its events, all of them if they are few. */
  method SearchKey(events: set<Event>, key: int) returns (hits: seq<Event>)
    ensures Distinct(hits) && forall e :: e in hits ==> e in events && e.key == key
    ensures |WithKey(events, key)| <= MAX_TIES ==> forall e :: e in events && e.key == key ==> e in hits
    ensures |hits| <= MAX_TIES
    ensures |hits| < MAX_TIES ==> forall e :: e in events && e.key == key ==> e in hits
  {
    var rest := WithKey(events, key);
    hits := [];
    while |hits| < MAX_TIES && rest != {}
      invariant |hits| + |rest| == |WithKey(events, key)| && |hits| <= MAX_TIES
      invariant forall e :: e in WithKey(events, key) <==> e in hits || e in rest
      invariant Distinct(hits) && forall e :: e in hits ==> e !in rest
      decreases rest
    {
      var e :| e in rest;
      hits := hits + [e];
      rest := rest - {e};
    }
  }

  /** The events not among those already present, told apart by id. */
  function Leftovers(ties: seq<Event>, ids: set<nat>): (r: seq<Event>)
    ensures forall e :: e in r <==> e in ties && e.id !in ids
    ensures Distinct(ties) ==> Distinct(r)
    ensures |r| <= |ties|
  {
    if ties == [] then []
    else
      var front, last := ties[..|ties| - 1], ties[|ties| - 1];
      var rest := Leftovers(front, ids);
      assert ties == front + [last];
      if last.id in ids then rest else rest + [last]
  }

  lemma TopHitsPrefix(events: set<Event>, earlier: bool, after: Option<int>, size: nat, hits: seq<Event>)
    requires TopHits(events, earlier, after, size, hits) && hits != []
    ensures forall e :: e in Beyond(events, earlier, after) && Rank(earlier, e.key) < Rank(earlier, Last(hits).key)
              ==> e in hits
    ensures forall e :: e in hits ==> Rank(earlier, e.key) <= Rank(earlier, Last(hits).key)
  {
  }

  /** Completing the hits with all ties of the last one makes a page. */
  lemma CompletedPage(events: set<Event>, earlier: bool, after: Option<int>, size: nat, hits: seq<Event>,
                      more: seq<Event>)
    requires TopHits(events, earlier, after, size, hits) && hits != []
    requires Distinct(more)
    requires forall e :: e in more <==> e in events && e.key == Last(hits).key && e !in hits
    ensures IsPage(events, earlier, after, hits + more)
  {
    TopHitsPrefix(events, earlier, after, size, hits);
    var page := hits + more;
    var top := Rank(earlier, Last(hits).key);
    assert Last(hits) in hits;
    assert Rank(earlier, Last(page).key) == top by {
      if more != [] {
        assert Last(page) == more[|more| - 1] && more[|more| - 1] in more;
      }
    }
    forall e ensures e in page <==> e in Beyond(events, earlier, after) && Rank(earlier, e.key) <= top {
      assert e in page <==> e in hits || e in more;
    }
    assert Sorted(page, earlier) by {
      forall i, j | 0 <= i < j < |page| ensures Rank(earlier, page[i].key) <= Rank(earlier, page[j].key) {
        assert page[i] in page && page[j] in page;
        if j >= |hits| {
          assert page[j] in more;
        }
      }
    }
  }

  lemma AloneAtItsKey(events: set<Event>, hits: seq<Event>, ties: seq<Event>)
    requires hits != [] && Last(hits) in events && |ties| < 2
    requires forall e :: e in events && e.key == Last(hits).key ==> e in ties
    ensures forall e :: e in events && e.key == Last(hits).key ==> e in hits
  {
    assert Last(hits) in ties;
    assert ties == [ties[0]];
  }

  lemma IdsTellApart(events: set<Event>, hits: seq<Event>, ties: seq<Event>, ids: set<nat>)
    requires UniqueIds(events) && (forall e :: e in hits ==> e in events) && (forall e :: e in ties ==> e in events)
    requires ids == set e | e in hits :: e.id
    ensures forall e :: e in Leftovers(ties, ids) <==> e in ties && e !in hits
  {
    assert forall e :: e in hits ==> e.id in ids;
  }

  /** The events that tie with the last hit but are not among the hits. */
  method RestOfTies(events: set<Event>, hits: seq<Event>) returns (more: seq<Event>)
    requires UniqueIds(events) && hits != [] && forall e :: e in hits ==> e in events
    ensures Distinct(more) && forall e :: e in more ==> e in events && e.key == Last(hits).key && e !in hits
    ensures |more| <= MAX_TIES
    ensures |WithKey(events, Last(hits).key)| <= MAX_TIES ==>
      forall e :: e in events && e.key == Last(hits).key && e !in hits ==> e in more
  {
    var ties := SearchKey(events, Last(hits).key);
    if |ties| < 2 {
      AloneAtItsKey(events, hits, ties);
      return [];
    }
    var ids := set e | e in hits :: e.id;
    IdsTellApart(events, hits, ties, ids);
    more := Leftovers(ties, ids);
  }

  lemma LastAfterTies(hits: seq<Event>, more: seq<Event>)
    requires hits != [] && forall e :: e in more ==> e.key == Last(hits).key
    ensures forall k :: |hits| - 1 <= k < |hits + more| ==> (hits + more)[k].key == Last(hits).key
  {
    forall k | |hits| <= k < |hits + more| ensures (hits + more)[k].key == Last(hits).key {
      assert (hits + more)[k] in more;
    }
  }

  lemma MembersOf(p: seq<Event>, q: seq<Event>)
    ensures forall e :: e in p + q <==> e in p || e in q
  {
  }

  lemma SortedTies(earlier: bool, hits: seq<Event>, more: seq<Event>)
    requires hits != [] && Distinct(hits) && Sorted(hits, earlier) && Distinct(more)
    requires forall e :: e in more ==> e.key == Last(hits).key && e !in hits
    ensures Distinct(hits + more) && Sorted(hits + more, earlier)
  {
    forall i, j | 0 <= i < j < |hits + more|
      ensures (hits + more)[i] != (hits + more)[j]
      ensures Rank(earlier, (hits + more)[i].key) <= Rank(earlier, (hits + more)[j].key)
    {
      if j >= |hits| {
        assert (hits + more)[j] in more;
        if i >= |hits| {
          assert (hits + more)[i] in more;
        } else {
          assert (hits + more)[i] in hits;
        }
      }
    }
  }

  /** The hits with the rest of their ties make a batch. */
  lemma CompletedBatch(events: set<Event>, earlier: bool, after: Option<int>, size: nat, hits: seq<Event>,
                       more: seq<Event>)
    requires TopHits(events, earlier, after, size, hits) && hits != []
    requires Distinct(more) && |more| <= MAX_TIES
    requires forall e :: e in more ==> e in events && e.key == Last(hits).key && e !in hits
    requires |WithKey(events, Last(hits).key)| <= MAX_TIES ==>
      forall e :: e in events && e.key == Last(hits).key && e !in hits ==> e in more
    ensures IsBatch(events, earlier, after, size, hits + more)
  {
    var page := hits + more;
    TopHitsPrefix(events, earlier, after, size, hits);
    LastAfterTies(hits, more);
    assert Last(page).key == Last(hits).key;
    assert Last(hits) in hits;
    MembersOf(hits, more);
    SortedTies(earlier, hits, more);
    if |WithKey(events, Last(hits).key)| <= MAX_TIES {
      CompletedPage(events, earlier, after, size, hits, more);
    }
  }

  /** A page of events: the next batch and the rest of the ties with its last event. */
  method GetEvents(events: set<Event>, batchSize: nat, earlier: bool, cursor: Cursor) returns (page: seq<Event>)
    requires UniqueIds(events) && batchSize >= 1
    ensures IsBatch(events, earlier, After(cursor), batchSize, page)
  {
    var hits := Search(events, earlier, After(cursor), batchSize);
    if hits == [] {
      return [];
    }
    var more := RestOfTies(events, hits);
    CompletedBatch(events, earlier, After(cursor), batchSize, hits, more);
    page := hits + more;
  }

  /* ---------- Several pages ---------- */

  lemma JoinedMembers(events: set<Event>, earlier: bool, after: Option<int>, p: seq<Event>, q: seq<Event>)
    requires p != [] && q != []
    requires IsPage(events, earlier, after, p) && IsPage(events, earlier, Some(Last(p).key), q)
    requires Rank(earlier, Last(p).key) < Rank(earlier, Last(q).key) && Last(p) in Beyond(events, earlier, after)
    ensures forall e :: e in p + q <==>
              e in Beyond(events, earlier, after) && Rank(earlier, e.key) <= Rank(earlier, Last(q).key)
  {
    forall e ensures e in p + q <==>
                     e in Beyond(events, earlier, after) && Rank(earlier, e.key) <= Rank(earlier, Last(q).key)
    {
      assert e in p + q <==> e in p || e in q;
      if Rank(earlier, e.key) <= Rank(earlier, Last(p).key) {
        assert e !in q;
      }
    }
  }

  /** A page followed by the page after it is a page; none is lost, none repeated. */
  lemma PagesJoin(events: set<Event>, earlier: bool, after: Option<int>, p: seq<Event>, q: seq<Event>)
    requires p != [] && IsPage(events, earlier, after, p) && IsPage(events, earlier, Some(Last(p).key), q)
    ensures IsPage(events, earlier, after, p + q)
  {
    var top := Rank(earlier, Last(p).key);
    assert Last(p) in p;
    forall e | e in p ensures Rank(earlier, e.key) <= top {
    }
    forall e | e in q ensures top < Rank(earlier, e.key) && e in Beyond(events, earlier, after) {
    }
    if q != [] {
      assert Last(p + q) == Last(q);
      assert Last(q) in q;
      JoinedMembers(events, earlier, after, p, q);
    } else {
      assert p + q == p;
    }
    assert Distinct(p + q) && Sorted(p + q, earlier) by {
      forall i, j | 0 <= i < j < |p + q|
        ensures (p + q)[i] != (p + q)[j] && Rank(earlier, (p + q)[i].key) <= Rank(earlier, (p + q)[j].key)
      {
        if i < |p| <= j {
          assert (p + q)[i] in p && (p + q)[j] in q;
        }
      }
    }
  }

  /** A page that takes all that is left behind another page. */
  lemma ExhaustedBy(events: set<Event>, earlier: bool, after: Option<int>, p: seq<Event>, q: seq<Event>)
    requires p != [] ==> IsPage(events, earlier, after, p)
    requires Exhausts(events, earlier, if p == [] then after else Some(Last(p).key), q)
    ensures Exhausts(events, earlier, after, p + q)
  {
    forall e | e in Beyond(events, earlier, after) && e !in q ensures e in p {
    }
  }

  /** What the pages of one request add up to; without crowded keys they are one page. */
  ghost predicate Pages(events: set<Event>, after: Option<int>, response: seq<Event>) {
    && Distinct(response) && Sorted(response, false)
    && (forall e :: e in response ==> e in Beyond(events, false, after))
    && (FewTies(events) && response != [] ==> IsPage(events, false, after, response))
  }

  /** Nothing more is found: everything has been brought, or some key was crowded. */
  lemma EndReached(events: set<Event>, after: Option<int>, p: seq<Event>)
    requires Pages(events, after, p)
    requires Beyond(events, false, if p == [] then after else Some(Last(p).key)) == {}
    ensures FewTies(events) ==> Exhausts(events, false, after, p) && (p == [] ==> IsPage(events, false, after, p))
    ensures p == [] ==> Beyond(events, false, after) == {}
  {
    if FewTies(events) {
      ExhaustedBy(events, false, after, p, []);
      assert p + [] == p;
    }
  }

  /** Distinct sorted events, followed by others strictly beyond the last of them. */
  lemma PartsJoin(events: set<Event>, earlier: bool, after: Option<int>, p: seq<Event>, q: seq<Event>)
    requires p != [] && Distinct(p) && Sorted(p, earlier) && Distinct(q) && Sorted(q, earlier)
    requires forall e :: e in p ==> e in Beyond(events, earlier, after)
    requires forall e :: e in q ==> e in Beyond(events, earlier, Some(Last(p).key))
    ensures Distinct(p + q) && Sorted(p + q, earlier)
    ensures forall e :: e in p + q ==> e in Beyond(events, earlier, after)
  {
    MembersOf(p, q);
    assert Last(p) in p;
    forall e | e in p ensures Rank(earlier, e.key) <= Rank(earlier, Last(p).key) {
    }
    forall i, j | 0 <= i < j < |p + q|
      ensures (p + q)[i] != (p + q)[j] && Rank(earlier, (p + q)[i].key) <= Rank(earlier, (p + q)[j].key)
    {
      if i < |p| <= j {
        assert (p + q)[i] in p && (p + q)[j] in q;
      }
    }
  }

  /** One more page: longer by what was asked for unless nothing is left. */
  lemma PageAppended(events: set<Event>, after: Option<int>, p: seq<Event>, q: seq<Event>, size: nat)
    requires Pages(events, after, p) && q != []
    requires IsBatch(events, false, if p == [] then after else Some(Last(p).key), size, q)
    ensures Pages(events, after, p + q)
    ensures FewTies(events) ==>
      && (|q| >= size || Exhausts(events, false, after, p + q))
      && (Exhausts(events, false, after, p) ==> Exhausts(events, false, after, p + q))
  {
    if p == [] {
      assert p + q == q;
    } else {
      PartsJoin(events, false, after, p, q);
      if FewTies(events) {
        PagesJoin(events, false, after, p, q);
      }
    }
    if FewTies(events) && |q| < size {
      ExhaustedBy(events, false, after, p, q);
    }
  }

  /** The queries for one request of raw scalars, and their size. */
  function Rounds(batchSize: nat): nat { (batchSize + MAX_PAGE - 1) / MAX_PAGE }

  function PageSize(batchSize: nat): nat { if batchSize < MAX_PAGE then batchSize else MAX_PAGE }

  /** The most events that one request of raw scalars can bring. */
  function MostRaw(batchSize: nat): nat {
    if batchSize < MAX_PAGE then batchSize + MAX_TIES else Rounds(batchSize) * (MAX_PAGE + MAX_TIES)
  }

  /** The events of some rounds of a size. */
  function InRounds(rounds: nat, size: nat): nat {
    if rounds == 0 then 0 else InRounds(rounds - 1, size) + size
  }

  lemma {:induction false} InRoundsTimes(rounds: nat, size: nat)
    ensures InRounds(rounds, size) == rounds * size
  {
    if rounds > 0 {
      InRoundsTimes(rounds - 1, size);
      assert rounds * size == (rounds - 1) * size + size;
    }
  }

  lemma FewerRounds(n: nat, rounds: nat, size: nat)
    requires n <= rounds
    ensures InRounds(n, size) <= InRounds(rounds, size)
    decreases rounds
  {
    if n < rounds {
      FewerRounds(n, rounds - 1, size);
    }
  }

  /** The rounds bring what is asked for, and how much they bring at most. */
  lemma EnoughRounds(batchSize: nat)
    requires batchSize >= 1
    ensures InRounds(Rounds(batchSize), PageSize(batchSize)) >= batchSize
    ensures InRounds(Rounds(batchSize), PageSize(batchSize) + MAX_TIES) == MostRaw(batchSize)
  {
    InRoundsTimes(Rounds(batchSize), PageSize(batchSize));
    InRoundsTimes(Rounds(batchSize), PageSize(batchSize) + MAX_TIES);
    if batchSize < MAX_PAGE {
      assert Rounds(batchSize) == 1;
    }
  }

  /** The size of one request for raw scalars: what was asked for, within the configured limit. */
  function RawSize(asked: nat, maxSize: nat): (size: nat)
    ensures size <= asked && size <= maxSize && (size == asked || size == maxSize)
  {
    if asked < maxSize then asked else maxSize
  }

  /**
   * A response of raw scalars: no longer than its queries allow; without crowded keys it is one
   * page, shorter than its size only at the end.
   */
  ghost predicate IsRawResponse(events: set<Event>, after: Option<int>, size: nat, response: seq<Event>) {
    && Pages(events, after, response)
    && |response| <= MostRaw(size)
    && (response == [] ==> Beyond(events, false, after) == {})
    && (FewTies(events) ==>
          && IsPage(events, false, after, response)
          && (|response| < size ==> Exhausts(events, false, after, response)))
  }

  /** The raw scalars of one request: as many pages as its size asks for, or up to the end. */
  method ScalarMetricsIterRaw(events: set<Event>, asked: nat, maxSize: nat, cursor: Cursor)
    returns (response: seq<Event>, next: Option<int>)
    requires UniqueIds(events) && asked >= 1 && maxSize >= 1
    ensures IsRawResponse(events, After(cursor), RawSize(asked, maxSize), response)
    ensures next == if response == [] then None else Some(Last(response).key)
  {
    response := [];
    var batchSize := RawSize(asked, maxSize);
    var from := cursor;
    var size := PageSize(batchSize);
    for n := 0 to Rounds(batchSize)
      invariant Pages(events, After(cursor), response) && (n > 0 ==> response != [])
      invariant |response| <= InRounds(n, size + MAX_TIES)
      invariant FewTies(events) ==> |response| >= InRounds(n, size) || Exhausts(events, false, After(cursor), response)
      invariant from == if response == [] then cursor else StrCursor(Last(response).key)
    {
      var page := GetEvents(events, size, false, from);
      if page == [] {
        EndReached(events, After(cursor), response);
        FewerRounds(n, Rounds(batchSize), size + MAX_TIES);
        break;
      }
      PageAppended(events, After(cursor), response, page, size);
      response := response + page;
      from := StrCursor(Last(response).key);
    }
    EnoughRounds(batchSize);
    next := if response == [] then None else Some(Last(response).key);
  }

  /** Without a scroll a descending request has no cursor and an ascending one has the number 0. */
  function FirstOrScrolled(earlier: bool, scroll: Option<int>): Cursor {
    match scroll
    case Some(v) => IntCursor(v)
    case None => if earlier then NoCursor else IntCursor(0)
  }

  /** The events of one request, in either direction. */
  method GetTaskEvents(events: set<Event>, batchSize: nat, earlier: bool, scroll: Option<int>)
    returns (response: seq<Event>, next: Option<int>)
    requires UniqueIds(events) && batchSize >= 1
    ensures IsBatch(events, earlier, After(FirstOrScrolled(earlier, scroll)), batchSize, response)
    ensures next == if response == [] then None else Some(Last(response).key)
  {
    response := GetEvents(events, batchSize, earlier, FirstOrScrolled(earlier, scroll));
    next := if response == [] then None else Some(Last(response).key);
  }

  lemma SeenAtMost(xs: seq<Event>)
    ensures |set x | x in xs| <= |xs|
    ensures Distinct(xs) ==> |set x | x in xs| == |xs|
  {
    if xs != [] {
      var front, last := xs[..|xs| - 1], xs[|xs| - 1];
      SeenAtMost(front);
      assert xs == front + [last];
      assert (set x | x in xs) == (set x | x in front) + {last};
    }
  }

  lemma SubsetCard(a: set<Event>, b: set<Event>)
    requires a <= b
    ensures |a| <= |b|
  {
    if a != {} {
      var x :| x in a;
      SubsetCard(a - {x}, b - {x});
    }
  }

  /** A key with more events than one request can bring loses some of them for good. */
  lemma CrowdedKeyLoses(events: set<Event>, earlier: bool, after: Option<int>, batchSize: nat, page: seq<Event>)
    returns (e: Event)
    requires IsBatch(events, earlier, after, batchSize, page) && page != []
    requires |WithKey(events, Last(page).key)| > batchSize + MAX_TIES
    ensures e in Beyond(events, earlier, after) && e !in page
    ensures e !in Beyond(events, earlier, Some(Last(page).key))
  {
    var key := Last(page).key;
    assert Last(page) in page;
    var seen := set x | x in page;
    SeenAtMost(page);
    assert !(WithKey(events, key) <= seen) by {
      if WithKey(events, key) <= seen {
        SubsetCard(WithKey(events, key), seen);
      }
    }
    e :| e in WithKey(events, key) && e !in seen;
  }

  /* ---------- A scroll over several requests ---------- */

  /** How the next request reads the last key of a response. */
  function ContinueFrom(response: seq<Event>): Option<int> {
    if response == [] then None else After(IntCursor(Last(response).key))
  }

  /** The key beyond which response `k` of a scroll is to go on. */
  function From(responses: seq<seq<Event>>, k: nat): Option<int>
    requires k <= |responses|
  {
    if k == 0 then None else ContinueFrom(responses[k - 1])
  }

  /** Distinct events beyond a key in order, none only at the end; without crowded keys they are a page. */
  ghost predicate Brings(events: set<Event>, earlier: bool, after: Option<int>, response: seq<Event>) {
    && Distinct(response) && Sorted(response, earlier)
    && (forall e :: e in response ==> e in Beyond(events, earlier, after))
    && (response == [] ==> Beyond(events, earlier, after) == {})
    && (FewTies(events) ==> IsPage(events, earlier, after, response))
  }

  /** Response `k` brings what its request asked for. */
  ghost predicate Answered(events: set<Event>, earlier: bool, responses: seq<seq<Event>>, k: nat)
    requires k < |responses|
  {
    Brings(events, earlier, From(responses, k), responses[k])
  }

  /**
   * The responses to a chain of requests, each continuing from the last key of the one before as
   * a number; all but the last have events.
   */
  ghost predicate Transcript(events: set<Event>, earlier: bool, responses: seq<seq<Event>>) {
    && (forall k :: 0 <= k < |responses| - 1 ==> responses[k] != [])
    && forall k {:trigger Answered(events, earlier, responses, k)} :: 0 <= k < |responses| ==>
         Answered(events, earlier, responses, k)
  }

  ghost predicate BatchAt(events: set<Event>, earlier: bool, batchSize: nat, responses: seq<seq<Event>>, k: nat)
    requires k < |responses|
  {
    IsBatch(events, earlier, From(responses, k), batchSize, responses[k])
  }

  /** All responses are batches of one size. */
  ghost predicate Batches(events: set<Event>, earlier: bool, batchSize: nat, responses: seq<seq<Event>>) {
    forall k {:trigger BatchAt(events, earlier, batchSize, responses, k)} :: 0 <= k < |responses| ==>
      BatchAt(events, earlier, batchSize, responses, k)
  }

  /** The size of raw request `k`: the size asked for in it or else in the latest request before it that has one. */
  function AskedSize(asked: seq<nat>, k: nat): nat
    requires k <= |asked|
    decreases k
  {
    if k == 0 then MAX_PAGE
    else if asked[k - 1] != 0 then asked[k - 1]
    else AskedSize(asked, k - 1)
  }

  ghost predicate RawAt(events: set<Event>, asked: seq<nat>, maxSize: nat, responses: seq<seq<Event>>, k: nat)
    requires k < |responses| <= |asked|
  {
    IsRawResponse(events, From(responses, k), RawSize(AskedSize(asked, k + 1), maxSize), responses[k])
  }

  /** All responses are those of raw requests with the sizes asked for. */
  ghost predicate RawResponses(events: set<Event>, asked: seq<nat>, maxSize: nat, responses: seq<seq<Event>>)
    requires |responses| <= |asked|
  {
    forall k {:trigger RawAt(events, asked, maxSize, responses, k)} :: 0 <= k < |responses| ==>
      RawAt(events, asked, maxSize, responses, k)
  }

  function Concat(responses: seq<seq<Event>>): seq<Event> {
    if responses == [] then [] else Concat(responses[..|responses| - 1]) + responses[|responses| - 1]
  }

  /** No response that is continued ends with the key 0. */
  ghost predicate NoZeroBoundary(responses: seq<seq<Event>>) {
    forall k :: 0 <= k < |responses| - 1 && responses[k] != [] ==> Last(responses[k]).key != 0
  }

  lemma FromFront(responses: seq<seq<Event>>, response: seq<Event>)
    ensures forall k :: 0 <= k <= |responses| ==> From(responses + [response], k) == From(responses, k)
  {
  }

  lemma LongerTranscript(events: set<Event>, earlier: bool, responses: seq<seq<Event>>, response: seq<Event>)
    requires Transcript(events, earlier, responses)
    requires responses != [] ==> responses[|responses| - 1] != []
    requires Brings(events, earlier, From(responses, |responses|), response)
    ensures Transcript(events, earlier, responses + [response])
  {
    var longer := responses + [response];
    FromFront(responses, response);
    forall k | 0 <= k < |longer| ensures Answered(events, earlier, longer, k) {
      if k < |responses| {
        assert Answered(events, earlier, responses, k);
      }
    }
  }

  lemma MoreBatches(events: set<Event>, earlier: bool, batchSize: nat, responses: seq<seq<Event>>,
                    response: seq<Event>)
    requires Transcript(events, earlier, responses) && Batches(events, earlier, batchSize, responses)
    requires responses != [] ==> responses[|responses| - 1] != []
    requires IsBatch(events, earlier, From(responses, |responses|), batchSize, response)
    ensures Transcript(events, earlier, responses + [response])
    ensures Batches(events, earlier, batchSize, responses + [response])
  {
    FromFront(responses, response);
    LongerTranscript(events, earlier, responses, response);
    var longer := responses + [response];
    forall k | 0 <= k < |longer| ensures BatchAt(events, earlier, batchSize, longer, k) {
      if k < |responses| {
        assert BatchAt(events, earlier, batchSize, responses, k) && longer[k] == responses[k];
      }
    }
  }

  lemma RawAtFront(events: set<Event>, asked: seq<nat>, maxSize: nat, responses: seq<seq<Event>>,
                   response: seq<Event>, k: nat)
    requires k < |responses| < |asked| && RawAt(events, asked, maxSize, responses, k)
    ensures RawAt(events, asked, maxSize, responses + [response], k)
  {
    FromFront(responses, response);
    assert (responses + [response])[k] == responses[k];
  }

  lemma MoreRaw(events: set<Event>, asked: seq<nat>, maxSize: nat, responses: seq<seq<Event>>, response: seq<Event>)
    requires |responses| < |asked| && RawResponses(events, asked, maxSize, responses)
    requires RawAt(events, asked, maxSize, responses + [response], |responses|)
    ensures RawResponses(events, asked, maxSize, responses + [response])
  {
    forall k | 0 <= k < |responses| + 1 ensures RawAt(events, asked, maxSize, responses + [response], k) {
      if k < |responses| {
        RawAtFront(events, asked, maxSize, responses, response, k);
      }
    }
  }

  lemma RawBrings(events: set<Event>, after: Option<int>, size: nat, response: seq<Event>)
    requires IsRawResponse(events, after, size, response)
    ensures Brings(events, false, after, response)
  {
  }

  /** One raw request more. */
  lemma LongerRaw(events: set<Event>, asked: seq<nat>, maxSize: nat, responses: seq<seq<Event>>, response: seq<Event>)
    requires |responses| < |asked| && RawResponses(events, asked, maxSize, responses)
    requires Transcript(events, false, responses) && (responses != [] ==> responses[|responses| - 1] != [])
    requires IsRawResponse(events, From(responses, |responses|),
                           RawSize(AskedSize(asked, |responses| + 1), maxSize), response)
    ensures Transcript(events, false, responses + [response])
    ensures RawResponses(events, asked, maxSize, responses + [response])
  {
    RawBrings(events, From(responses, |responses|), RawSize(AskedSize(asked, |responses| + 1), maxSize), response);
    LongerTranscript(events, false, responses, response);
    FromFront(responses, response);
    MoreRaw(events, asked, maxSize, responses, response);
  }

  lemma ConcatLast(responses: seq<seq<Event>>)
    requires responses != [] && responses[|responses| - 1] != []
    ensures Concat(responses) != [] && Last(Concat(responses)) == Last(responses[|responses| - 1])
  {
  }

  lemma ShorterTranscript(events: set<Event>, earlier: bool, responses: seq<seq<Event>>)
    requires |responses| > 1 && Transcript(events, earlier, responses)
    ensures Transcript(events, earlier, responses[..|responses| - 1])
    ensures NoZeroBoundary(responses) ==> NoZeroBoundary(responses[..|responses| - 1])
  {
    var front := responses[..|responses| - 1];
    forall k | 0 <= k < |front| ensures Answered(events, earlier, front, k) {
      assert Answered(events, earlier, responses, k);
    }
  }

  lemma LastAnswer(events: set<Event>, earlier: bool, responses: seq<seq<Event>>)
    requires responses != [] && Transcript(events, earlier, responses) && NoZeroBoundary(responses)
    ensures var n := |responses|;
      if n == 1 then Brings(events, earlier, None, responses[0])
      else
        && responses[n - 2] != []
        && Brings(events, earlier, Some(Last(responses[n - 2]).key), responses[n - 1])
  {
    assert Answered(events, earlier, responses, |responses| - 1);
  }

  /** Without a boundary at 0 the responses bring distinct events in order; without crowded keys they are one page. */
  lemma {:induction false} ScrollIsPage(events: set<Event>, earlier: bool, responses: seq<seq<Event>>)
    requires responses != [] && Transcript(events, earlier, responses) && NoZeroBoundary(responses)
    ensures Distinct(Concat(responses)) && Sorted(Concat(responses), earlier)
    ensures forall e :: e in Concat(responses) ==> e in Beyond(events, earlier, None)
    ensures FewTies(events) ==> IsPage(events, earlier, None, Concat(responses))
  {
    var n := |responses|;
    var front, last := responses[..n - 1], responses[n - 1];
    LastAnswer(events, earlier, responses);
    if n == 1 {
      assert Concat(front) + last == last;
      if FewTies(events) && last == [] {
        assert IsPage(events, earlier, None, last);
      }
    } else {
      ShorterTranscript(events, earlier, responses);
      ScrollIsPage(events, earlier, front);
      ConcatLast(front);
      PartsJoin(events, earlier, None, Concat(front), last);
      if FewTies(events) {
        PagesJoin(events, earlier, None, Concat(front), last);
      }
    }
  }

  /** A response continued from the key 0 starts over: without crowded keys some event comes a second time. */
  lemma ZeroBoundaryRepeats(events: set<Event>, earlier: bool, responses: seq<seq<Event>>, k: nat)
    requires Transcript(events, earlier, responses) && FewTies(events)
    requires k < |responses| - 1 && Last(responses[k]).key == 0
    ensures responses[k + 1] != [] && exists e :: e in responses[0] && e in responses[k + 1]
  {
    var again, first := responses[k + 1], responses[0];
    assert responses[k] != [] && first != [];
    assert Answered(events, earlier, responses, k + 1) && Answered(events, earlier, responses, 0);
    assert Last(first) in first && first[0] in first;
    assert again != [];
    assert again[0] in again && Last(again) in again;
    if Rank(earlier, first[0].key) <= Rank(earlier, Last(again).key) {
      assert first[0] in again;
    } else {
      assert again[0] in first;
    }
  }

  /** Where response `k` begins in the concatenation. */
  function Offset(responses: seq<seq<Event>>, k: nat): nat
    requires k <= |responses|
  {
    |Concat(responses[..k])|
  }

  lemma {:induction false} ConcatMembers(responses: seq<seq<Event>>, k: nat, e: Event) returns (at: nat)
    requires k < |responses| && e in responses[k]
    ensures at < |Concat(responses)| && Concat(responses)[at] == e
    ensures Offset(responses, k) <= at < Offset(responses, k) + |responses[k]|
  {
    var n := |responses|;
    if k == n - 1 {
      var i :| 0 <= i < |responses[k]| && responses[k][i] == e;
      at := |Concat(responses[..n - 1])| + i;
    } else {
      at := ConcatMembers(responses[..n - 1], k, e);
      assert responses[..n - 1][..k] == responses[..k];
    }
  }

  lemma {:induction false} OffsetGrows(responses: seq<seq<Event>>, k: nat)
    requires 0 < k <= |responses|
    ensures Offset(responses, k) >= |responses[0]|
  {
    assert responses[..k][..k - 1] == responses[..k - 1];
    if k > 1 {
      OffsetGrows(responses, k - 1);
    } else {
      assert responses[..1] == [responses[0]];
    }
  }

  /** After an empty response nothing is missing, unless some key was crowded. */
  lemma ScrollIsComplete(events: set<Event>, earlier: bool, responses: seq<seq<Event>>)
    requires responses != [] && Transcript(events, earlier, responses) && NoZeroBoundary(responses)
    requires responses[|responses| - 1] == [] && FewTies(events)
    ensures forall e :: e in Concat(responses) <==> e in events
  {
    ScrollIsPage(events, earlier, responses);
    var all, n := Concat(responses), |responses|;
    LastAnswer(events, earlier, responses);
    if n == 1 {
      assert Beyond(events, earlier, None) == {};
      assert forall e :: e in events ==> e in Beyond(events, earlier, None);
    } else {
      var last := Last(responses[n - 2]);
      ConcatLast(responses[..n - 1]);
      assert all == Concat(responses[..n - 1]);
      assert Beyond(events, earlier, Some(last.key)) == {};
      forall e | e in events ensures e in all {
        assert e !in Beyond(events, earlier, Some(last.key));
        assert e in Beyond(events, earlier, None);
      }
    }
  }

  /**
   * A scroll that never continues from the key 0 brings no event twice, and without crowded keys
   * only such a scroll does; when it also ended, it brought every event, in key order.
   */
  lemma ScrollExactlyOnce(events: set<Event>, earlier: bool, responses: seq<seq<Event>>)
    requires responses != [] && Transcript(events, earlier, responses)
    ensures NoZeroBoundary(responses) ==> Distinct(Concat(responses)) && Sorted(Concat(responses), earlier)
    ensures FewTies(events) ==> (Distinct(Concat(responses)) <==> NoZeroBoundary(responses))
    ensures FewTies(events) && NoZeroBoundary(responses) && responses[|responses| - 1] == [] ==>
      forall e :: e in Concat(responses) <==> e in events
  {
    if NoZeroBoundary(responses) {
      ScrollIsPage(events, earlier, responses);
      if FewTies(events) && responses[|responses| - 1] == [] {
        ScrollIsComplete(events, earlier, responses);
      }
    } else if FewTies(events) {
      var k: nat :| k < |responses| - 1 && responses[k] != [] && Last(responses[k]).key == 0;
      ZeroBoundaryRepeats(events, earlier, responses, k);
      var e :| e in responses[0] && e in responses[k + 1];
      var i := ConcatMembers(responses, 0, e);
      var j := ConcatMembers(responses, k + 1, e);
      OffsetGrows(responses, k + 1);
      assert responses[..0] == [];
      assert i < j && Concat(responses)[i] == Concat(responses)[j];
    }
  }

  /* ---------- When a scroll meets the key 0, and when it ends ---------- */

  /** Without an event at key 0 no scroll continues from it. */
  lemma NoZeroKey(events: set<Event>, earlier: bool, responses: seq<seq<Event>>)
    requires Transcript(events, earlier, responses) && forall e :: e in events ==> e.key != 0
    ensures NoZeroBoundary(responses)
  {
    forall k | 0 <= k < |responses| - 1 && responses[k] != [] ensures Last(responses[k]).key != 0 {
      assert Answered(events, earlier, responses, k);
      assert Last(responses[k]) in responses[k];
    }
  }

  /** Iterations numbered from 0: the events at 0 fill the first response, or there are no others. */
  ghost predicate ZeroFillsFirst(events: set<Event>, batchSize: nat) {
    |WithKey(events, 0)| >= batchSize || forall e :: e in events ==> e.key == 0
  }

  /** The first ascending response ends with 0 exactly when the events at 0 fill it. */
  lemma FirstEndsAtZero(events: set<Event>, batchSize: nat, page: seq<Event>)
    requires IsBatch(events, false, None, batchSize, page) && page != [] && batchSize >= 1
    requires forall e :: e in events ==> e.key >= 0
    ensures Last(page).key == 0 <==> ZeroFillsFirst(events, batchSize)
  {
    assert Last(page) in page;
    assert forall e :: e in events <==> e in Beyond(events, false, None);
    if Last(page).key == 0 {
      forall e | e in page ensures e in WithKey(events, 0) {
      }
      SeenAtMost(page);
      SubsetCard((set e | e in page), WithKey(events, 0));
    } else {
      var early := page[..if |page| < batchSize then |page| else batchSize - 1];
      forall e | e in WithKey(events, 0) ensures e in early {
        assert e in page;
        var i :| 0 <= i < |page| && page[i] == e;
        assert early[i] == e;
      }
      SeenAtMost(early);
      SubsetCard(WithKey(events, 0), (set e | e in early));
    }
  }

  lemma {:induction false} BoundaryGrows(events: set<Event>, responses: seq<seq<Event>>, k: nat)
    requires Transcript(events, false, responses) && k < |responses| - 1 && responses[0] != []
    requires (forall e :: e in events ==> e.key >= 0) && Last(responses[0]).key != 0
    ensures responses[k] != [] && Last(responses[k]).key > 0
  {
    assert Answered(events, false, responses, k);
    assert Last(responses[k]) in responses[k];
    if k > 0 {
      BoundaryGrows(events, responses, k - 1);
    }
  }

  /** An ascending scroll over such iterations continues from 0 exactly when the events at 0 fill its first response. */
  lemma AscendingScroll(events: set<Event>, batchSize: nat, responses: seq<seq<Event>>)
    requires Transcript(events, false, responses) && |responses| > 1
    requires batchSize >= 1 && IsBatch(events, false, None, batchSize, responses[0])
    requires forall e :: e in events ==> e.key >= 0
    ensures NoZeroBoundary(responses) <==> !ZeroFillsFirst(events, batchSize)
  {
    assert Answered(events, false, responses, 0);
    FirstEndsAtZero(events, batchSize, responses[0]);
    if Last(responses[0]).key != 0 {
      forall k | 0 <= k < |responses| - 1 ensures Last(responses[k]).key > 0 {
        BoundaryGrows(events, responses, k);
      }
    }
  }

  /**
   * Scrolling back through such iterations never comes to an end once there is an event at
   * iteration 0: no chain of responses ends with an empty one.
   */
  lemma DescendingNeverEnds(events: set<Event>, responses: seq<seq<Event>>, zero: Event)
    requires responses != [] && Transcript(events, true, responses)
    requires (forall e :: e in events ==> e.key >= 0) && zero in events && zero.key == 0
    ensures responses[|responses| - 1] != []
  {
    var n := |responses|;
    assert Answered(events, true, responses, n - 1);
    if n > 1 {
      assert Answered(events, true, responses, n - 2);
      assert Last(responses[n - 2]) in responses[n - 2];
    }
    assert forall k :: k > 0 ==> zero in Beyond(events, true, Some(k));
    assert zero in Beyond(events, true, None);
  }

  lemma {:induction false} ConcatLength(responses: seq<seq<Event>>)
    requires forall k :: 0 <= k < |responses| - 1 ==> responses[k] != []
    ensures |Concat(responses)| + 1 >= |responses|
    ensures responses != [] && responses[|responses| - 1] != [] ==> |Concat(responses)| >= |responses|
  {
    if responses != [] {
      ConcatLength(responses[..|responses| - 1]);
    }
  }

  /** A scroll that never continues from the key 0 makes at most one request more than there are events. */
  lemma ScrollEnds(events: set<Event>, earlier: bool, responses: seq<seq<Event>>)
    requires responses != [] && Transcript(events, earlier, responses) && NoZeroBoundary(responses)
    ensures |responses| <= |events| + 1
  {
    ScrollIsPage(events, earlier, responses);
    var all := Concat(responses);
    SeenAtMost(all);
    SubsetCard((set e | e in all), events);
    ConcatLength(responses);
  }

  /** Two events, at iterations 0 and 1, read one by one: the first one comes again and again. */
  lemma ScrollRepeats()
    ensures var a, b := Event(0, 0), Event(1, 1);
      && Transcript({a, b}, false, [[a], [a]]) && Batches({a, b}, false, 1, [[a], [a]])
      && ZeroFillsFirst({a, b}, 1) && !Distinct(Concat([[a], [a]]))
  {
    var a, b := Event(0, 0), Event(1, 1);
    var events, responses := {a, b}, [[a], [a]];
    assert Beyond(events, false, None) == events && WithKey(events, 0) == {a};
    assert IsBatch(events, false, None, 1, [a]);
    assert Answered(events, false, responses, 0) && Answered(events, false, responses, 1);
    var one, all := [[a]], Concat(responses);
    assert one[..0] == [] && Concat(one) == Concat(one[..0]) + one[0];
    assert responses[..1] == one && all == Concat(responses[..1]) + responses[1];
    assert all == [a, a] && all[0] == all[1];
  }

  /**
   * A client that scrolls until a response is empty, or gives up after some number of requests. It
   * gives up for lack of requests only if it continued from the key 0 or asked for too few.
   */
  method Scroll(events: set<Event>, batchSize: nat, earlier: bool, requests: nat) returns (responses: seq<seq<Event>>)
    requires UniqueIds(events) && batchSize >= 1
    ensures Transcript(events, earlier, responses) && Batches(events, earlier, batchSize, responses)
    ensures |responses| <= requests
    ensures |responses| < requests ==> responses != [] && responses[|responses| - 1] == []
    ensures requests > |events| + 1 && NoZeroBoundary(responses) ==> responses != [] && responses[|responses| - 1] == []
  {
    responses := [];
    var scroll: Option<int> := None;
    while |responses| < requests
      invariant |responses| <= requests
      invariant Transcript(events, earlier, responses) && Batches(events, earlier, batchSize, responses)
      invariant responses != [] ==> responses[|responses| - 1] != []
      invariant scroll == if responses == [] then None else Some(Last(responses[|responses| - 1]).key)
    {
      var response, next := GetTaskEvents(events, batchSize, earlier, scroll);
      MoreBatches(events, earlier, batchSize, responses, response);
      responses := responses + [response];
      if response == [] {
        return;
      }
      scroll := next;
    }
    if requests > |events| + 1 && NoZeroBoundary(responses) {
      ScrollEnds(events, earlier, responses);
    }
  }

  /** A client that scrolls through raw scalars in the same way, each request with a size of its own or without. */
  method ScrollRaw(events: set<Event>, asked: seq<nat>, maxSize: nat) returns (responses: seq<seq<Event>>)
    requires UniqueIds(events) && maxSize >= 1
    ensures |responses| <= |asked|
    ensures Transcript(events, false, responses) && RawResponses(events, asked, maxSize, responses)
    ensures |responses| < |asked| ==> responses != [] && responses[|responses| - 1] == []
    ensures |asked| > |events| + 1 && NoZeroBoundary(responses) ==> responses != [] && responses[|responses| - 1] == []
  {
    responses := [];
    var cursor, size := NoCursor, MAX_PAGE;
    for n := 0 to |asked|
      invariant |responses| == n && size == AskedSize(asked, n) && size >= 1
      invariant Transcript(events, false, responses) && RawResponses(events, asked, maxSize, responses)
      invariant responses != [] ==> responses[|responses| - 1] != []
      invariant After(cursor) == From(responses, n)
    {
      if asked[n] != 0 {
        size := asked[n];
      }
      var response, next := ScalarMetricsIterRaw(events, size, maxSize, cursor);
      LongerRaw(events, asked, maxSize, responses, response);
      responses := responses + [response];
      if response == [] {
        return;
      }
      cursor := IntCursor(next.value);
    }
    if |asked| > |events| + 1 && NoZeroBoundary(responses) {
      ScrollEnds(events, false, responses);
    }
  }
}
