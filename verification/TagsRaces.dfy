/**
 * The cache of tags between several callers. A list that is missing is looked for, read from the
 * database and kept in three steps; an edit updates the entities, looks up the lists to drop, and
 * drops them one by one. The steps of all callers interleave.
 */
module TagsRaces {
  import opened Wrappers
  import opened ProjectForest
  import opened TagsCache

  type Caller = nat

  /** A caller that found no list, and one that has read the tags which it will keep as a list. */
  datatype Reading =
    | Missed(key: Key)
    | Fetched(key: Key, tags: seq<Tag>)

  /** An edit after its update: projects whose lists are not looked up yet, and lists not dropped yet. */
  datatype ToDrop = ToDrop(projects: set<Option<Id>>, keys: set<Key>)

  datatype Shared = Shared(s: State, readings: map<Caller, Reading>, edits: map<Caller, ToDrop>)

  datatype Act =
    | Miss(caller: Caller, key: Key)
    | Fetch(caller: Caller, tags: seq<Tag>)
    | Push(caller: Caller)
    | Update(caller: Caller, ids: set<EntityId>, add: set<Tag>, remove: set<Tag>)
    | LookUp(caller: Caller, project: Option<Id>)
    | Drop(caller: Caller, key: Key)
    | Expire(key: Key)

  ghost predicate Possible(projects: Store, filters: Filters, sh: Shared, act: Act) {
    match act
    case Miss(c, key) => c !in sh.readings && key !in sh.s.cache
    case Fetch(c, tags) =>
      && c in sh.readings && sh.readings[c].Missed?
      && SetOf(tags) == DbTags(projects, filters, sh.s.entities, sh.readings[c].key)
    case Push(c) => c in sh.readings && sh.readings[c].Fetched?
    case Update(_, _, _, _) => true
    case LookUp(c, p) => c in sh.edits && p in sh.edits[c].projects
    case Drop(c, key) => c in sh.edits && key in sh.edits[c].keys
    case Expire(_) => true
  }

  /** A list is pushed behind whatever is kept under its key by then. */
  function Pushed(cache: map<Key, TagList>, r: Reading): map<Key, TagList>
    requires r.Fetched?
  {
    cache[r.key := (if r.key in cache then cache[r.key] else []) + [DUMMY] + r.tags]
  }

  function EditOf(sh: Shared, c: Caller): ToDrop {
    if c in sh.edits then sh.edits[c] else ToDrop({}, {})
  }

  /** The lists of tags of a project or the company that are kept, whatever their filter. */
  function KeptFor(cache: map<Key, TagList>, project: Option<Id>): set<Key> {
    set k | k in cache && k.field == Tags && k.project == project
  }

  function Apply(sh: Shared, act: Act): Shared {
    match act
    case Miss(c, key) => sh.(readings := sh.readings[c := Missed(key)])
    case Fetch(c, tags) =>
      if c in sh.readings then sh.(readings := sh.readings[c := Fetched(sh.readings[c].key, tags)]) else sh
    case Push(c) =>
      if c in sh.readings && sh.readings[c].Fetched? then
        sh.(s := sh.s.(cache := Pushed(sh.s.cache, sh.readings[c])), readings := sh.readings - {c})
      else sh
    case Update(c, ids, add, remove) =>
      var now := sh.s.(entities := Edited(sh.s.entities, ids, add, remove));
      if ids !! sh.s.entities.Keys then sh.(s := now)
      else
        var e := EditOf(sh, c);
        var more := ProjectsOf(sh.s.entities, ids) + {None};
        sh.(s := now, edits := sh.edits[c := e.(projects := e.projects + more)])
    case LookUp(c, p) =>
      var e := EditOf(sh, c);
      sh.(edits := sh.edits[c := ToDrop(e.projects - {p}, e.keys + KeptFor(sh.s.cache, p))])
    case Drop(c, key) =>
      var e := EditOf(sh, c);
      sh.(s := sh.s.(cache := sh.s.cache - {key}), edits := sh.edits[c := e.(keys := e.keys - {key})])
    case Expire(key) => sh.(s := sh.s.(cache := sh.s.cache - {key}))
  }

  /* ---------- What the steps keep ---------- */

  /** Some edit has still to look up the lists for the key. */
  ghost predicate Pending(sh: Shared, k: Key) {
    k.field == Tags && exists c :: c in sh.edits && k.project in sh.edits[c].projects
  }

  /** Some edit will drop the list. */
  ghost predicate Doomed(sh: Shared, k: Key) {
    Pending(sh, k) || exists c :: c in sh.edits && k in sh.edits[c].keys
  }

  /** Every guarded list is that of the database or will be dropped. */
  ghost predicate Kept(projects: Store, filters: Filters, sh: Shared) {
    forall k :: k in sh.s.cache && Guarded(projects, k) && !Doomed(sh, k) ==>
      Lists(sh.s.cache[k], DbTags(projects, filters, sh.s.entities, k))
  }

  /** All edits are finished. */
  predicate Quiet(sh: Shared) {
    forall c :: c in sh.edits ==> sh.edits[c] == ToDrop({}, {})
  }

  /** What is pushed will be dropped, or is right behind what is there by now. */
  ghost predicate Fits(projects: Store, filters: Filters, sh: Shared, r: Reading)
    requires r.Fetched?
  {
    Guarded(projects, r.key) && !Doomed(sh, r.key) ==>
      var tags := DbTags(projects, filters, sh.s.entities, r.key);
      if r.key in sh.s.cache then DUMMY in tags && SetOf(r.tags) <= tags else SetOf(r.tags) == tags
  }

  /** The step is no push, or a push that fits. */
  ghost predicate InTime(projects: Store, filters: Filters, sh: Shared, act: Act) {
    act.Push? && act.caller in sh.readings && sh.readings[act.caller].Fetched? ==>
      Fits(projects, filters, sh, sh.readings[act.caller])
  }

  lemma QuietIsCoherent(projects: Store, filters: Filters, sh: Shared)
    requires Kept(projects, filters, sh) && Quiet(sh)
    ensures Coherent(projects, filters, sh.s)
  {
  }

  lemma SetOfConcat(a: seq<Tag>, b: seq<Tag>)
    ensures SetOf(a + b) == SetOf(a) + SetOf(b)
  {
  }

  /** The list after a push. */
  lemma PushedLists(cache: map<Key, TagList>, r: Reading, tags: set<Tag>)
    requires r.Fetched? && (r.key in cache ==> Lists(cache[r.key], tags))
    ensures Lists(Pushed(cache, r)[r.key], tags) <==>
      if r.key in cache then DUMMY in tags && SetOf(r.tags) <= tags else SetOf(r.tags) == tags
  {
    var list := Pushed(cache, r)[r.key];
    if r.key in cache {
      var was := cache[r.key];
      assert list[1..] == was[1..] + ([DUMMY] + r.tags);
      SetOfConcat(was[1..], [DUMMY] + r.tags);
      SetOfConcat([DUMMY], r.tags);
      assert SetOf(list[1..]) == tags + {DUMMY} + SetOf(r.tags);
    } else {
      assert list[1..] == r.tags;
    }
  }

  /** A push keeps the lists right exactly when it fits. */
  lemma PushExactly(projects: Store, filters: Filters, sh: Shared, c: Caller)
    requires Kept(projects, filters, sh) && Possible(projects, filters, sh, Push(c))
    ensures Kept(projects, filters, Apply(sh, Push(c))) <==> Fits(projects, filters, sh, sh.readings[c])
  {
    var r, sh' := sh.readings[c], Apply(sh, Push(c));
    forall k ensures Doomed(sh', k) <==> Doomed(sh, k) {
    }
    if Guarded(projects, r.key) && !Doomed(sh, r.key) {
      PushedLists(sh.s.cache, r, DbTags(projects, filters, sh.s.entities, r.key));
    }
  }

  /** After an update the tags a guarded list stands for are the same, or an edit is pending for it. */
  lemma UpdateSpares(projects: Store, filters: Filters, sh: Shared, act: Act, k: Key)
    requires act.Update? && Guarded(projects, k)
    ensures Pending(sh, k) ==> Pending(Apply(sh, act), k)
    ensures Doomed(sh, k) ==> Doomed(Apply(sh, act), k)
    ensures
      || Pending(Apply(sh, act), k)
      || DbTags(projects, filters, Apply(sh, act).s.entities, k) == DbTags(projects, filters, sh.s.entities, k)
  {
    var sh' := Apply(sh, act);
    forall c | c in sh.edits
      ensures c in sh'.edits && sh.edits[c].projects <= sh'.edits[c].projects && sh.edits[c].keys <= sh'.edits[c].keys
    {
    }
    if !Pending(sh', k) {
      assert act.ids !! sh.s.entities.Keys || act.caller in sh'.edits;
      EditSparesOthers(projects, filters, sh.s.entities, act.ids, act.add, act.remove, k);
    }
  }

  /** An update makes no guarded list wrong without dooming it. */
  lemma UpdateKeeps(projects: Store, filters: Filters, sh: Shared, act: Act)
    requires Kept(projects, filters, sh) && act.Update?
    ensures Kept(projects, filters, Apply(sh, act))
  {
    var sh' := Apply(sh, act);
    forall k | Guarded(projects, k) && !Doomed(sh', k)
      ensures !Doomed(sh, k)
      ensures DbTags(projects, filters, sh'.s.entities, k) == DbTags(projects, filters, sh.s.entities, k)
    {
      UpdateSpares(projects, filters, sh, act, k);
    }
  }

  /** Looking up and dropping loses no list that is to be dropped. */
  lemma DropKeeps(projects: Store, filters: Filters, sh: Shared, act: Act)
    requires Kept(projects, filters, sh) && Possible(projects, filters, sh, act) && (act.LookUp? || act.Drop?)
    ensures Kept(projects, filters, Apply(sh, act))
  {
    var sh' := Apply(sh, act);
    forall k, c | k in sh'.s.cache && c in sh.edits && k.field == Tags && k.project in sh.edits[c].projects
      ensures Doomed(sh', k)
    {
      assert c in sh'.edits;
    }
    forall k, c | k in sh'.s.cache && c in sh.edits && k in sh.edits[c].keys ensures Doomed(sh', k) {
      assert c in sh'.edits && k in sh'.edits[c].keys;
    }
  }

  /** Every step of any caller keeps the lists right, pushes if they fit. */
  lemma ActKeeps(projects: Store, filters: Filters, sh: Shared, act: Act)
    requires Kept(projects, filters, sh) && Possible(projects, filters, sh, act) && InTime(projects, filters, sh, act)
    ensures Kept(projects, filters, Apply(sh, act))
  {
    match act
    case Push(c) => PushExactly(projects, filters, sh, c);
    case Update(_, _, _, _) => UpdateKeeps(projects, filters, sh, act);
    case LookUp(_, _) => DropKeeps(projects, filters, sh, act);
    case Drop(_, _) => DropKeeps(projects, filters, sh, act);
    case Miss(_, _) | Fetch(_, _) | Expire(_) =>
      forall k ensures Doomed(Apply(sh, act), k) <==> Doomed(sh, k) {
      }
  }

  /* ---------- Runs ---------- */

  ghost predicate Stepped(projects: Store, filters: Filters, sh: Shared, act: Act, sh': Shared) {
    Possible(projects, filters, sh, act) && sh' == Apply(sh, act)
  }

  /** The states of all callers before the first and after every step. */
  ghost predicate Interleaving(projects: Store, filters: Filters, trace: seq<Shared>, acts: seq<Act>) {
    && |trace| == |acts| + 1
    && forall n :: 0 <= n < |acts| ==> Stepped(projects, filters, trace[n], acts[n], trace[n + 1])
  }

  /** In every run whose pushes fit, a guarded list is that of the database as soon as no edit will drop it. */
  lemma {:induction false} InterleavingKeeps(projects: Store, filters: Filters, trace: seq<Shared>, acts: seq<Act>,
                                             n: nat)
    requires Interleaving(projects, filters, trace, acts) && n < |trace| && Kept(projects, filters, trace[0])
    requires forall m :: 0 <= m < n ==> InTime(projects, filters, trace[m], acts[m])
    ensures Kept(projects, filters, trace[n])
    ensures Quiet(trace[n]) ==> Coherent(projects, filters, trace[n].s)
  {
    if n > 0 {
      InterleavingKeeps(projects, filters, trace, acts, n - 1);
      assert Stepped(projects, filters, trace[n - 1], acts[n - 1], trace[n - 1 + 1]);
      ActKeeps(projects, filters, trace[n - 1], acts[n - 1]);
    }
    if Quiet(trace[n]) {
      QuietIsCoherent(projects, filters, trace[n]);
    }
  }

  /** Another caller pushes a list for the key, or some edit looks up the lists of its project. */
  predicate Disturbs(sh: Shared, act: Act, key: Key) {
    match act
    case Push(c) => c in sh.readings && sh.readings[c].key == key
    case LookUp(_, p) => p == key.project
    case _ => false
  }

  /** The caller is still reading; the list is missing, and what was read is right or an edit is pending. */
  ghost predicate Undisturbed(projects: Store, filters: Filters, sh: Shared, c: Caller, key: Key) {
    && c in sh.readings && sh.readings[c].key == key && key !in sh.s.cache
    && (sh.readings[c].Fetched? && !Pending(sh, key) ==>
          SetOf(sh.readings[c].tags) == DbTags(projects, filters, sh.s.entities, key))
  }

  lemma ActLeavesUndisturbed(projects: Store, filters: Filters, sh: Shared, act: Act, c: Caller, key: Key)
    requires Guarded(projects, key) && Undisturbed(projects, filters, sh, c, key)
    requires Possible(projects, filters, sh, act) && !Disturbs(sh, act, key)
    ensures Undisturbed(projects, filters, Apply(sh, act), c, key)
  {
    var sh' := Apply(sh, act);
    if act.Update? {
      UpdateSpares(projects, filters, sh, act, key);
    } else if Pending(sh, key) {
      var e :| e in sh.edits && key.project in sh.edits[e].projects;
      assert e in sh'.edits && key.project in sh'.edits[e].projects;
    }
  }

  /**
   * A caller's push fits if, since it found no list, nobody else pushed one and no edit looked up
   * the lists of the project.
   */
  lemma {:induction false} UndisturbedFits(projects: Store, filters: Filters, trace: seq<Shared>, acts: seq<Act>,
                                           n: nat, c: Caller, key: Key)
    requires Interleaving(projects, filters, trace, acts) && 0 < n < |trace| && Guarded(projects, key)
    requires acts[0] == Miss(c, key) && forall m :: 0 < m < n ==> !Disturbs(trace[m], acts[m], key)
    ensures Undisturbed(projects, filters, trace[n], c, key)
    ensures InTime(projects, filters, trace[n], Push(c))
  {
    if n > 1 {
      UndisturbedFits(projects, filters, trace, acts, n - 1, c, key);
      assert Stepped(projects, filters, trace[n - 1], acts[n - 1], trace[n - 1 + 1]);
      ActLeavesUndisturbed(projects, filters, trace[n - 1], acts[n - 1], c, key);
    }
  }

  /** One entity without a project, before and after the edit that tags it. */
  function Tagged(tags: set<Tag>): map<EntityId, Entity> { map[7 := Entity(None, tags, {})] }

  const ALL := Key(Tags, None, None)

  function AnyFilter(): Filters { (_, _) => true }

  /** A caller reads, an edit is made, the caller keeps what it read. */
  function StaleTrace(): seq<Shared> {
    [ Shared(State(Tagged({}), map[]), map[], map[]),
      Shared(State(Tagged({}), map[]), map[0 := Missed(ALL)], map[]),
      Shared(State(Tagged({}), map[]), map[0 := Fetched(ALL, [])], map[]),
      Shared(State(Tagged({"new"}), map[]), map[0 := Fetched(ALL, [])], map[1 := ToDrop({None}, {})]),
      Shared(State(Tagged({"new"}), map[]), map[0 := Fetched(ALL, [])], map[1 := ToDrop({}, {})]),
      Shared(State(Tagged({"new"}), map[ALL := [DUMMY]]), map[], map[1 := ToDrop({}, {})])]
  }

  function StaleActs(): seq<Act> {
    [Miss(0, ALL), Fetch(0, []), Update(1, {7}, {"new"}, {}), LookUp(1, None), Push(0)]
  }

  lemma StaleRead()
    ensures Stepped(map[], AnyFilter(), StaleTrace()[0], StaleActs()[0], StaleTrace()[1])
    ensures Stepped(map[], AnyFilter(), StaleTrace()[1], StaleActs()[1], StaleTrace()[2])
  {
    var none: seq<Tag> := [];
    assert DbTags(map[], AnyFilter(), Tagged({}), ALL) == {} == SetOf(none);
  }

  lemma StaleEdit()
    ensures Stepped(map[], AnyFilter(), StaleTrace()[2], StaleActs()[2], StaleTrace()[3])
    ensures Stepped(map[], AnyFilter(), StaleTrace()[3], StaleActs()[3], StaleTrace()[4])
  {
    assert Edited(Tagged({}), {7}, {"new"}, {}) == Tagged({"new"});
    assert ProjectsOf(Tagged({}), {7}) == {None};
    var one, none: set<Option<Id>>, noKeys: set<Key> := {None}, {}, {};
    assert none + one == one && one - {None} == none;
    assert KeptFor(map[], None) == noKeys && noKeys + noKeys == noKeys;
  }

  /** What pushing an empty list makes of the cache and of the readings. */
  lemma PushFirst(c: Caller, others: map<Caller, Reading>)
    requires c !in others
    ensures Pushed(map[], Fetched(ALL, [])) == map[ALL := [DUMMY]]
    ensures Pushed(map[ALL := [DUMMY]], Fetched(ALL, [])) == map[ALL := [DUMMY, DUMMY]]
    ensures others[c := Fetched(ALL, [])] - {c} == others
  {
    var none: seq<Tag> := [];
    assert none + [DUMMY] + none == [DUMMY];
    assert [DUMMY] + [DUMMY] + none == [DUMMY, DUMMY];
  }

  /** A list read before an edit and kept after it stays wrong when all edits are finished. */
  lemma StaleListStays()
    ensures Interleaving(map[], AnyFilter(), StaleTrace(), StaleActs())
    ensures var end := StaleTrace()[5];
      && StaleTrace()[0].s.cache == map[] && Quiet(end)
      && !Lists(end.s.cache[ALL], DbTags(map[], AnyFilter(), end.s.entities, ALL))
  {
    StaleRead();
    StaleEdit();
    PushFirst(0, map[]);
    assert Stepped(map[], AnyFilter(), StaleTrace()[4], StaleActs()[4], StaleTrace()[5]);
    var tagged := Tagged({"new"});
    assert "new" in TagsOf(tagged[7], Tags) && "new" in DbTags(map[], AnyFilter(), tagged, ALL);
    assert SetOf([DUMMY][1..]) == {};
  }

  /** Two callers miss the list together. */
  function TwiceTrace(): seq<Shared> {
    [ Shared(State(map[], map[]), map[], map[]),
      Shared(State(map[], map[]), map[0 := Missed(ALL)], map[]),
      Shared(State(map[], map[]), map[0 := Missed(ALL), 1 := Missed(ALL)], map[]),
      Shared(State(map[], map[]), map[0 := Fetched(ALL, []), 1 := Missed(ALL)], map[]),
      Shared(State(map[], map[]), map[0 := Fetched(ALL, []), 1 := Fetched(ALL, [])], map[]),
      Shared(State(map[], map[ALL := [DUMMY]]), map[1 := Fetched(ALL, [])], map[]),
      Shared(State(map[], map[ALL := [DUMMY, DUMMY]]), map[], map[])]
  }

  function TwiceActs(): seq<Act> {
    [Miss(0, ALL), Miss(1, ALL), Fetch(0, []), Fetch(1, []), Push(0), Push(1)]
  }

  lemma TwiceRead(n: nat)
    requires n < 4
    ensures Stepped(map[], AnyFilter(), TwiceTrace()[n], TwiceActs()[n], TwiceTrace()[n + 1])
  {
    var none: seq<Tag> := [];
    assert DbTags(map[], AnyFilter(), map[], ALL) == {} == SetOf(none);
  }

  /** The mark at the beginning of a list that was kept twice becomes a tag. */
  lemma MarkBecomesTag()
    ensures Interleaving(map[], AnyFilter(), TwiceTrace(), TwiceActs())
    ensures var end := TwiceTrace()[6];
      && TwiceTrace()[0].s.cache == map[] && Quiet(end)
      && SetOf(end.s.cache[ALL][1..]) == {DUMMY} && DbTags(map[], AnyFilter(), end.s.entities, ALL) == {}
  {
    forall n | 0 <= n < 4
      ensures Stepped(map[], AnyFilter(), TwiceTrace()[n], TwiceActs()[n], TwiceTrace()[n + 1])
    {
      TwiceRead(n);
    }
    PushFirst(0, map[1 := Fetched(ALL, [])]);
    assert map[0 := Fetched(ALL, []), 1 := Fetched(ALL, [])] == map[1 := Fetched(ALL, [])][0 := Fetched(ALL, [])];
    assert Stepped(map[], AnyFilter(), TwiceTrace()[4], TwiceActs()[4], TwiceTrace()[5]);
    PushFirst(1, map[]);
    assert Stepped(map[], AnyFilter(), TwiceTrace()[5], TwiceActs()[5], TwiceTrace()[6]);
    assert [DUMMY, DUMMY][1..] == [DUMMY];
  }

  /* ---------- Callers one at a time ---------- */

  /** A caller that is not interleaved with others reads as in one step. */
  lemma AloneIsGetStep(projects: Store, filters: Filters, sh: Shared, c: Caller, key: Key, tags: seq<Tag>)
    requires c !in sh.readings && key !in sh.s.cache
    requires SetOf(tags) == DbTags(projects, filters, sh.s.entities, key)
    ensures var a := Apply(sh, Miss(c, key));
      var b := Apply(a, Fetch(c, tags));
      var end := Apply(b, Push(c));
      && Possible(projects, filters, sh, Miss(c, key)) && Possible(projects, filters, a, Fetch(c, tags))
      && Possible(projects, filters, b, Push(c))
      && GetStep(projects, filters, sh.s, end.s, {key}) && end.readings == sh.readings && end.edits == sh.edits
  {
    var b := Apply(Apply(sh, Miss(c, key)), Fetch(c, tags));
    PushedLists(sh.s.cache, b.readings[c], SetOf(tags));
  }

  lemma LongerInterleaving(projects: Store, filters: Filters, trace: seq<Shared>, acts: seq<Act>, act: Act)
    requires Interleaving(projects, filters, trace, acts) && Possible(projects, filters, trace[|acts|], act)
    ensures Interleaving(projects, filters, trace + [Apply(trace[|acts|], act)], acts + [act])
  {
  }

  /** The lists of tags of some projects that are kept. */
  function KeptForAll(cache: map<Key, TagList>, ps: set<Option<Id>>): set<Key> {
    set k | k in cache && k.field == Tags && k.project in ps
  }

  lemma AllDropped(cache: map<Key, TagList>, ps: set<Option<Id>>)
    ensures cache - KeptForAll(cache, ps + {None}) == Invalidated(cache, {Tags}, ps)
  {
  }

  /** A run from one state to another. */
  ghost predicate RunTo(projects: Store, filters: Filters, sh: Shared, trace: seq<Shared>, acts: seq<Act>,
                        end: Shared)
  {
    Interleaving(projects, filters, trace, acts) && trace[0] == sh && trace[|acts|] == end
  }

  lemma RunOn(projects: Store, filters: Filters, sh: Shared, trace: seq<Shared>, acts: seq<Act>, mid: Shared,
              act: Act, end: Shared)
    requires RunTo(projects, filters, sh, trace, acts, mid) && Stepped(projects, filters, mid, act, end)
    ensures RunTo(projects, filters, sh, trace + [end], acts + [act], end)
  {
    LongerInterleaving(projects, filters, trace, acts, act);
  }

  /** The state of an edit in the middle. */
  function Editing(sh: Shared, c: Caller, cache: map<Key, TagList>, ps: set<Option<Id>>, keys: set<Key>): Shared {
    sh.(s := sh.s.(cache := cache), edits := sh.edits[c := ToDrop(ps, keys)])
  }

  lemma LookUpOne(sh: Shared, c: Caller, all: set<Option<Id>>, rest: set<Option<Id>>, p: Option<Id>)
    requires p in rest && rest <= all
    ensures var cache := sh.s.cache;
      Apply(Editing(sh, c, cache, rest, KeptForAll(cache, all - rest)), LookUp(c, p))
      == Editing(sh, c, cache, rest - {p}, KeptForAll(cache, all - (rest - {p})))
  {
    var cache := sh.s.cache;
    assert KeptForAll(cache, all - rest) + KeptFor(cache, p) == KeptForAll(cache, all - (rest - {p}));
  }

  lemma DropOne(sh: Shared, c: Caller, all: set<Key>, rest: set<Key>, k: Key)
    requires k in rest && rest <= all
    ensures var cache := sh.s.cache;
      Apply(Editing(sh, c, cache - (all - rest), {}, rest), Drop(c, k))
      == Editing(sh, c, cache - (all - (rest - {k})), {}, rest - {k})
  {
    var cache := sh.s.cache;
    assert cache - (all - rest) - {k} == cache - (all - (rest - {k}));
  }

  /** An edit after its update looks up and drops all its lists. */
  method DropLists(projects: Store, filters: Filters, sh: Shared, c: Caller, ps: set<Option<Id>>, mid: Shared,
                   ghost trace: seq<Shared>, ghost acts: seq<Act>)
    returns (end: Shared, ghost trace': seq<Shared>, ghost acts': seq<Act>)
    requires RunTo(projects, filters, sh, trace, acts, mid) && mid == Editing(mid, c, mid.s.cache, ps + {None}, {})
    ensures RunTo(projects, filters, sh, trace', acts', end)
    ensures end == Editing(mid, c, Invalidated(mid.s.cache, {Tags}, ps), {}, {})
  {
    var cache, all := mid.s.cache, ps + {None};
    end, trace', acts' := mid, trace, acts;
    var rest := all;
    assert KeptForAll(cache, all - rest) == {};
    while rest != {}
      invariant rest <= all && RunTo(projects, filters, sh, trace', acts', end)
      invariant end == Editing(mid, c, cache, rest, KeptForAll(cache, all - rest))
      decreases rest
    {
      var p :| p in rest;
      LookUpOne(mid, c, all, rest, p);
      RunOn(projects, filters, sh, trace', acts', end, LookUp(c, p), Apply(end, LookUp(c, p)));
      end, rest := Apply(end, LookUp(c, p)), rest - {p};
      trace', acts' := trace' + [end], acts' + [LookUp(c, p)];
    }
    assert all - {} == all;
    var found := KeptForAll(cache, all);
    var keys := found;
    assert cache - (found - keys) == cache;
    while keys != {}
      invariant keys <= found && RunTo(projects, filters, sh, trace', acts', end)
      invariant end == Editing(mid, c, cache - (found - keys), {}, keys)
      decreases keys
    {
      var k :| k in keys;
      DropOne(mid, c, found, keys, k);
      RunOn(projects, filters, sh, trace', acts', end, Drop(c, k), Apply(end, Drop(c, k)));
      end, keys := Apply(end, Drop(c, k)), keys - {k};
      trace', acts' := trace' + [end], acts' + [Drop(c, k)];
    }
    assert found - {} == found;
    AllDropped(cache, ps);
  }

  /** An edit that is not interleaved with others does what it does in one step. */
  method EditAlone(projects: Store, filters: Filters, sh: Shared, c: Caller, ids: set<EntityId>, add: set<Tag>,
                   remove: set<Tag>)
    returns (end: Shared, ghost trace: seq<Shared>, ghost acts: seq<Act>)
    requires c !in sh.edits
    ensures RunTo(projects, filters, sh, trace, acts, end)
    ensures EditStep(sh.s, end.s, ids, add, remove)
    ensures end.readings == sh.readings && (Quiet(sh) ==> Quiet(end))
  {
    end := Apply(sh, Update(c, ids, add, remove));
    trace, acts := [sh], [];
    RunOn(projects, filters, sh, trace, acts, sh, Update(c, ids, add, remove), end);
    trace, acts := trace + [end], acts + [Update(c, ids, add, remove)];
    if !(ids !! sh.s.entities.Keys) {
      var ps := ProjectsOf(sh.s.entities, ids);
      assert EditOf(sh, c).projects + (ps + {None}) == ps + {None};
      assert end.edits[c := ToDrop(ps + {None}, {})] == end.edits;
      end, trace, acts := DropLists(projects, filters, sh, c, ps, end, trace, acts);
    }
  }
}
