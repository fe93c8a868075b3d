/**
 * The cache of tags: lists kept beside the database for the company and for single projects, and
 * invalidated when tags are edited. One company and one kind of entities, with their projects.
 */
module TagsCache {
  import opened Wrappers
  import opened ProjectForest
  import opened ProjectQueries

  type EntityId = nat
  type Tag = string
  type FilterId = nat

  datatype Field = Tags | SystemTags

  datatype Entity = Entity(project: Option<Id>, tags: set<Tag>, systemTags: set<Tag>)

  /** Lists are kept by field, by project or for the whole company, and by filter. */
  datatype Key = Key(field: Field, project: Option<Id>, filter: Option<FilterId>)

  /** Every list starts with this tag, since empty lists are not kept. */
  const DUMMY: Tag := "__dummy__"

  type TagList = xs: seq<Tag> | xs != [] witness [DUMMY]

  datatype State = State(entities: map<EntityId, Entity>, cache: map<Key, TagList>)

  /** Which entities a filter lets through. */
  type Filters = (FilterId, Entity) -> bool

  function TagsOf(e: Entity, field: Field): set<Tag> {
    match field
    case Tags => e.tags
    case SystemTags => e.systemTags
  }

  /** The entities a query looks at: those of a project with its sub-projects, or all. */
  predicate Queried(projects: Store, filters: Filters, key: Key, e: Entity) {
    && (key.project.Some? ==> e.project.Some? && e.project.value in IdsWithChildren(projects, {key.project.value}))
    && (key.filter.Some? ==> filters(key.filter.value, e))
  }

  /** The distinct tags in the database. */
  function DbTags(projects: Store, filters: Filters, entities: map<EntityId, Entity>, key: Key): set<Tag> {
    set i, t | i in entities && Queried(projects, filters, key, entities[i]) && t in TagsOf(entities[i], key.field) :: t
  }

  function SetOf<T(==)>(xs: seq<T>): set<T> { set x | x in xs }

  /** A list that holds the given tags behind the dummy. */
  ghost predicate Lists(list: TagList, tags: set<Tag>) {
    list[0] == DUMMY && SetOf(list[1..]) == tags
  }

  /* ---------- Steps ---------- */

  /** The keys that an answer for some fields looks up. */
  function KeysFor(fields: set<Field>, project: Option<Id>, filter: Option<FilterId>): set<Key> {
    set f | f in fields :: Key(f, project, filter)
  }

  /** Reading: missing lists are computed and kept, nothing else changes. */
  ghost predicate GetStep(projects: Store, filters: Filters, s: State, s': State, keys: set<Key>) {
    && s'.entities == s.entities
    && s'.cache.Keys == s.cache.Keys + keys
    && (forall k :: k in s.cache ==> s'.cache[k] == s.cache[k])
    && forall k :: k in s'.cache && k !in s.cache ==> Lists(s'.cache[k], DbTags(projects, filters, s.entities, k))
  }

  function Edited(entities: map<EntityId, Entity>, ids: set<EntityId>, add: set<Tag>, remove: set<Tag>)
    : map<EntityId, Entity>
  {
    map i | i in entities ::
      if i in ids then entities[i].(tags := entities[i].tags + add - remove) else entities[i]
  }

  /** The projects of some entities. */
  function ProjectsOf(entities: map<EntityId, Entity>, ids: set<EntityId>): set<Option<Id>> {
    set i | i in ids && i in entities :: entities[i].project
  }

  /** The lists left after those of some fields are dropped for some projects and for the company. */
  function Invalidated(cache: map<Key, TagList>, fields: set<Field>, ps: set<Option<Id>>): map<Key, TagList> {
    map k | k in cache && !(k.field in fields && (k.project in ps || k.project == None)) :: cache[k]
  }

  /** An edit of tags drops the lists of the edited entities' projects and of the company. */
  ghost predicate EditStep(s: State, s': State, ids: set<EntityId>, add: set<Tag>, remove: set<Tag>) {
    && s'.entities == Edited(s.entities, ids, add, remove)
    && s'.cache == if ids !! s.entities.Keys then s.cache else Invalidated(s.cache, {Tags}, ProjectsOf(s.entities, ids))
  }

  ghost predicate ResetStep(s: State, s': State, ps: set<Option<Id>>) {
    s' == s.(cache := Invalidated(s.cache, {Tags, SystemTags}, ps))
  }

  ghost predicate ExpireStep(s: State, s': State, key: Key) {
    s' == s.(cache := s.cache - {key})
  }

  datatype Command =
    | Read(project: Option<Id>, includeSystem: bool, filter: Option<FilterId>)
    | Edit(ids: set<EntityId>, add: set<Tag>, remove: set<Tag>)
    | Reset(projects: set<Option<Id>>)
    | Expire(key: Key)

  function FieldsFor(includeSystem: bool): set<Field> {
    if includeSystem then {Tags, SystemTags} else {Tags}
  }

  /** An edit without entities, or without tags to add or remove, is refused. */
  predicate Refused(ids: set<EntityId>, add: set<Tag>, remove: set<Tag>) {
    ids == {} || (add == {} && remove == {})
  }

  /** What a command makes of the database and the cache. */
  ghost predicate Step(projects: Store, filters: Filters, s: State, command: Command, s': State) {
    match command
    case Read(project, includeSystem, filter) =>
      GetStep(projects, filters, s, s', KeysFor(FieldsFor(includeSystem), project, filter))
    case Edit(ids, add, remove) => if Refused(ids, add, remove) then s' == s else EditStep(s, s', ids, add, remove)
    case Reset(ps) => ResetStep(s, s', ps)
    case Expire(key) => ExpireStep(s, s', key)
  }

  /* ---------- Coherence ---------- */

  /** Unfiltered lists of the company and of projects without sub-projects: the ones an edit invalidates. */
  predicate Guarded(projects: Store, key: Key) {
    key.filter == None && (key.project.Some? ==> Descendants(projects, key.project.value) == {})
  }

  /** Every guarded list holds the distinct tags of the database. */
  ghost predicate Coherent(projects: Store, filters: Filters, s: State) {
    forall k :: k in s.cache && Guarded(projects, k) ==> Lists(s.cache[k], DbTags(projects, filters, s.entities, k))
  }

  lemma WithChildren(projects: Store, p: Id)
    ensures IdsWithChildren(projects, {p}) == {p} + Descendants(projects, p)
  {
  }

  /** A guarded key of a project looks at the entities of that project only. */
  lemma GuardedProject(projects: Store, filters: Filters, k: Key, e: Entity)
    requires Guarded(projects, k) && Queried(projects, filters, k, e)
    ensures k.project.Some? ==> e.project == k.project
  {
    if k.project.Some? {
      WithChildren(projects, k.project.value);
    }
  }

  /** An edit changes the tags of a guarded key only if its list is dropped. */
  lemma EditSparesOthers(projects: Store, filters: Filters, entities: map<EntityId, Entity>, ids: set<EntityId>,
                         add: set<Tag>, remove: set<Tag>, k: Key)
    requires Guarded(projects, k)
    requires
      || k.field == SystemTags
      || (k.project.Some? && k.project !in ProjectsOf(entities, ids))
      || ids !! entities.Keys
    ensures DbTags(projects, filters, Edited(entities, ids, add, remove), k) == DbTags(projects, filters, entities, k)
  {
    var now := Edited(entities, ids, add, remove);
    forall i | i in entities
      ensures Queried(projects, filters, k, now[i]) <==> Queried(projects, filters, k, entities[i])
      ensures Queried(projects, filters, k, entities[i]) ==> TagsOf(now[i], k.field) == TagsOf(entities[i], k.field)
    {
      assert i in ids ==> entities[i].project in ProjectsOf(entities, ids);
      if Queried(projects, filters, k, entities[i]) {
        GuardedProject(projects, filters, k, entities[i]);
      }
      if Queried(projects, filters, k, now[i]) {
        GuardedProject(projects, filters, k, now[i]);
      }
    }
  }

  /** Every command keeps the guarded lists coherent. */
  lemma StepKeepsCoherent(projects: Store, filters: Filters, s: State, command: Command, s': State)
    requires Coherent(projects, filters, s) && Step(projects, filters, s, command, s')
    ensures Coherent(projects, filters, s')
  {
    if command.Edit? && !Refused(command.ids, command.add, command.remove) {
      forall k | k in s'.cache && Guarded(projects, k)
        ensures Lists(s'.cache[k], DbTags(projects, filters, s'.entities, k))
      {
        EditSparesOthers(projects, filters, s.entities, command.ids, command.add, command.remove, k);
      }
    }
  }

  /** A run: the states before the first and after every command. */
  ghost predicate IsRun(projects: Store, filters: Filters, trace: seq<State>, commands: seq<Command>) {
    && |trace| == |commands| + 1
    && forall n :: 0 <= n < |commands| ==> Step(projects, filters, trace[n], commands[n], trace[n + 1])
  }

  /** Over every run of reads, edits, resets and expiries the guarded lists are those of the database. */
  lemma {:induction false} RunKeepsCoherent(projects: Store, filters: Filters, trace: seq<State>,
                                            commands: seq<Command>, n: nat)
    requires IsRun(projects, filters, trace, commands) && n < |trace| && Coherent(projects, filters, trace[0])
    ensures Coherent(projects, filters, trace[n])
  {
    if n > 0 {
      RunKeepsCoherent(projects, filters, trace, commands, n - 1);
      StepKeepsCoherent(projects, filters, trace[n - 1], commands[n - 1], trace[n]);
    }
  }

  /** Some entity that a query looks at, edited or not, has the tag. */
  ghost predicate Carried(projects: Store, filters: Filters, entities: map<EntityId, Entity>, k: Key,
                          ids: set<EntityId>, edited: bool, t: Tag)
  {
    exists i :: i in entities && (i in ids <==> edited) && Queried(projects, filters, k, entities[i])
      && t in TagsOf(entities[i], k.field)
  }

  /** The edit meets an entity that the query looks at. */
  ghost predicate Meets(projects: Store, filters: Filters, entities: map<EntityId, Entity>, k: Key,
                        ids: set<EntityId>)
  {
    exists i :: i in entities && i in ids && Queried(projects, filters, k, entities[i])
  }

  /**
   * The edit adds only tags that the query already finds, and removes only tags that it finds
   * nowhere or also at an entity that is not edited.
   */
  ghost predicate NothingNew(projects: Store, filters: Filters, entities: map<EntityId, Entity>, k: Key,
                             ids: set<EntityId>, add: set<Tag>, remove: set<Tag>)
  {
    && add - remove <= DbTags(projects, filters, entities, k)
    && forall t :: t in remove && t in DbTags(projects, filters, entities, k) ==>
         Carried(projects, filters, entities, k, ids, false, t)
  }

  lemma TagsAreCarried(projects: Store, filters: Filters, entities: map<EntityId, Entity>, k: Key, ids: set<EntityId>)
    ensures forall t :: t in DbTags(projects, filters, entities, k) <==>
      || Carried(projects, filters, entities, k, ids, true, t)
      || Carried(projects, filters, entities, k, ids, false, t)
  {
  }

  /** What an edit makes of the tags that an unfiltered query finds. */
  lemma EditedCarries(projects: Store, filters: Filters, entities: map<EntityId, Entity>, k: Key, ids: set<EntityId>,
                      add: set<Tag>, remove: set<Tag>, t: Tag)
    requires k.field == Tags && k.filter == None
    ensures var now := Edited(entities, ids, add, remove);
      && (Carried(projects, filters, now, k, ids, false, t) <==> Carried(projects, filters, entities, k, ids, false, t))
      && (Carried(projects, filters, now, k, ids, true, t) <==>
            && t !in remove
            && (|| Carried(projects, filters, entities, k, ids, true, t)
                || (t in add && Meets(projects, filters, entities, k, ids))))
  {
    var now := Edited(entities, ids, add, remove);
    forall i | i in entities
      ensures Queried(projects, filters, k, now[i]) <==> Queried(projects, filters, k, entities[i])
      ensures i in ids ==> now[i].tags == entities[i].tags + add - remove
      ensures i !in ids ==> now[i] == entities[i]
    {
    }
  }

  /**
   * An unfiltered list of tags that an edit spares stays right if and only if the edit meets none
   * of its entities or brings nothing new.
   */
  lemma SparedExactly(projects: Store, filters: Filters, s: State, s': State, ids: set<EntityId>, add: set<Tag>,
                      remove: set<Tag>, k: Key)
    requires EditStep(s, s', ids, add, remove) && k in s'.cache && k.field == Tags && k.filter == None
    requires Lists(s.cache[k], DbTags(projects, filters, s.entities, k))
    ensures Lists(s'.cache[k], DbTags(projects, filters, s'.entities, k)) <==>
      || !Meets(projects, filters, s.entities, k, ids)
      || NothingNew(projects, filters, s.entities, k, ids, add, remove)
  {
    var before := DbTags(projects, filters, s.entities, k);
    var after := DbTags(projects, filters, s'.entities, k);
    TagsAreCarried(projects, filters, s.entities, k, ids);
    TagsAreCarried(projects, filters, s'.entities, k, ids);
    forall t
      ensures t in after <==>
        || Carried(projects, filters, s.entities, k, ids, false, t)
        || (t !in remove && Carried(projects, filters, s.entities, k, ids, true, t))
        || (t !in remove && t in add && Meets(projects, filters, s.entities, k, ids))
    {
      EditedCarries(projects, filters, s.entities, k, ids, add, remove, t);
    }
    if !Meets(projects, filters, s.entities, k, ids) {
      forall t ensures !Carried(projects, filters, s.entities, k, ids, true, t) {
      }
      assert before == after;
    } else if NothingNew(projects, filters, s.entities, k, ids, add, remove) {
      assert before == after;
    } else if t :| t in add - remove && t !in before {
      assert t in after;
    } else {
      var t :| t in remove && t in before && !Carried(projects, filters, s.entities, k, ids, false, t);
      assert t !in after;
    }
  }

  /** Editing an entity of a sub-project leaves the list of the project above as it was. */
  lemma AncestorGoesStale()
    ensures var projects: Store := map[
        0 := Project("c", "p", "p", None, []),
        1 := Project("c", "p/q", "q", Some(0), [0])];
      var filters: Filters := (_, _) => true;
      var k := Key(Tags, Some(0), None);
      var s := State(map[7 := Entity(Some(1), {}, {})], map[k := [DUMMY]]);
      var s' := State(map[7 := Entity(Some(1), {"new"}, {})], map[k := [DUMMY]]);
      && Lists(s.cache[k], DbTags(projects, filters, s.entities, k))
      && EditStep(s, s', {7}, {"new"}, {})
      && !Lists(s'.cache[k], DbTags(projects, filters, s'.entities, k))
  {
    var projects: Store := map[
      0 := Project("c", "p", "p", None, []),
      1 := Project("c", "p/q", "q", Some(0), [0])];
    var filters: Filters := (_, _) => true;
    var k := Key(Tags, Some(0), None);
    var before, after := map[7 := Entity(Some(1), {}, {})], map[7 := Entity(Some(1), {"new"}, {})];
    assert projects[1].path == [0];
    assert 1 in IdsWithChildren(projects, {0});
    assert Queried(projects, filters, k, after[7]) && "new" in TagsOf(after[7], Tags);
    assert "new" in DbTags(projects, filters, after, k);
    assert DbTags(projects, filters, before, k) == {};
    assert SetOf([DUMMY][1..]) == {};
    assert Edited(before, {7}, {"new"}, {}) == after;
    assert Invalidated(map[k := [DUMMY]], {Tags}, ProjectsOf(before, {7})) == map[k := [DUMMY]];
  }

  lemma GetTwice(projects: Store, filters: Filters, a: State, b: State, c: State, k: Key, m: Key)
    requires GetStep(projects, filters, a, b, {k}) && GetStep(projects, filters, b, c, {m})
    ensures GetStep(projects, filters, a, c, {k, m})
  {
  }

  lemma EditedTwice(entities: map<EntityId, Entity>, ids: set<EntityId>, add: set<Tag>, remove: set<Tag>)
    ensures Edited(Edited(entities, ids, add, {}), ids, {}, remove) == Edited(entities, ids, add, remove)
    ensures Edited(entities, ids, add, {}).Keys == entities.Keys
  {
    forall i | i in entities ensures
        Edited(Edited(entities, ids, add, {}), ids, {}, remove)[i] == Edited(entities, ids, add, remove)[i]
    {
      assert entities[i].tags + add - {} + {} - remove == entities[i].tags + add - remove;
    }
  }

  lemma SameProjects(entities: map<EntityId, Entity>, ids: set<EntityId>, add: set<Tag>, remove: set<Tag>)
    ensures ProjectsOf(Edited(entities, ids, add, remove), ids) == ProjectsOf(entities, ids)
  {
  }

  /* ---------- The cache ---------- */

  class Cache {
    const projects: Store
    const filters: Filters
    var s: State

    constructor (projects: Store, filters: Filters, entities: map<EntityId, Entity>)
      ensures this.projects == projects && this.filters == filters && s == State(entities, map[])
      ensures Coherent(projects, filters, s)
    {
      this.projects := projects;
      this.filters := filters;
      this.s := State(entities, map[]);
    }

    /** The members of a set in some order. */
    method Listed(tags: set<Tag>) returns (list: seq<Tag>)
      ensures SetOf(list) == tags
    {
      var rest := tags;
      list := [];
      while rest != {}
        invariant rest <= tags && SetOf(list) == tags - rest
        decreases rest
      {
        var t :| t in rest;
        assert SetOf(list + [t]) == SetOf(list) + {t};
        list := list + [t];
        rest := rest - {t};
      }
    }

    /** The tags of one field, from the cache or else from the database. */
    method GetField(key: Key) returns (tags: set<Tag>)
      modifies this
      ensures GetStep(projects, filters, old(s), s, {key})
      ensures tags == SetOf(s.cache[key][1..])
      ensures Coherent(projects, filters, old(s)) && Guarded(projects, key) ==>
        tags == DbTags(projects, filters, s.entities, key)
    {
      if key in s.cache {
        tags := SetOf(s.cache[key][1..]);
        return;
      }
      tags := DbTags(projects, filters, s.entities, key);
      var list := Listed(tags);
      s := s.(cache := s.cache[key := [DUMMY] + list]);
      assert s.cache[key][1..] == list;
    }

    /** The tags of a project or the company, and its system tags if asked for. */
    method GetTags(project: Option<Id>, includeSystem: bool, filter: Option<FilterId>)
      returns (ret: map<Field, set<Tag>>)
      modifies this
      ensures ret.Keys == FieldsFor(includeSystem)
      ensures GetStep(projects, filters, old(s), s, KeysFor(ret.Keys, project, filter))
      ensures forall f :: f in ret ==>
        var key := Key(f, project, filter);
        && key in s.cache && ret[f] == SetOf(s.cache[key][1..])
        && (key !in old(s).cache ==> ret[f] == DbTags(projects, filters, s.entities, key))
      ensures Coherent(projects, filters, old(s)) ==>
        forall f :: f in ret && Guarded(projects, Key(f, project, filter)) ==>
          ret[f] == DbTags(projects, filters, s.entities, Key(f, project, filter))
    {
      var tags := GetField(Key(Tags, project, filter));
      ret := map[Tags := tags];
      if includeSystem {
        ghost var mid := s;
        var systemTags := GetField(Key(SystemTags, project, filter));
        ret := ret[SystemTags := systemTags];
        GetTwice(projects, filters, old(s), mid, s, Key(Tags, project, filter), Key(SystemTags, project, filter));
        assert KeysFor(ret.Keys, project, filter) == {Key(Tags, project, filter), Key(SystemTags, project, filter)};
      } else {
        assert KeysFor(ret.Keys, project, filter) == {Key(Tags, project, filter)};
      }
    }

    /** Drop the lists of some fields for some projects and for the company, whatever their filter. */
    method DeleteKeys(fields: set<Field>, ps: set<Option<Id>>)
      modifies this
      ensures s == old(s).(cache := Invalidated(old(s).cache, fields, ps))
    {
      var keys := set k | k in s.cache && k.field in fields && (k.project in ps || k.project == None);
      s := s.(cache := s.cache - keys);
      assert s.cache == Invalidated(old(s).cache, fields, ps);
    }

    method ResetTags(ps: set<Option<Id>>)
      modifies this
      ensures ResetStep(old(s), s, ps)
    {
      DeleteKeys({Tags, SystemTags}, ps);
    }

    /** The two updates of an edit, and how many entities they met. */
    method UpdateEntities(ids: set<EntityId>, add: set<Tag>, remove: set<Tag>) returns (updated: nat)
      requires add != {} || remove != {}
      modifies this
      ensures s == old(s).(entities := Edited(old(s).entities, ids, add, remove))
      ensures updated == 0 <==> ids !! old(s).entities.Keys
      ensures updated == (if add != {} then |ids * old(s).entities.Keys| else 0)
        + if remove != {} then |ids * old(s).entities.Keys| else 0
    {
      var found := ids * s.entities.Keys;
      assert found == {} <==> ids !! s.entities.Keys;
      EditedTwice(s.entities, ids, add, remove);
      updated := 0;
      if add != {} {
        s := s.(entities := Edited(s.entities, ids, add, {}));
        updated := updated + |found|;
      }
      if remove != {} {
        s := s.(entities := Edited(s.entities, ids, {}, remove));
        updated := updated + |found|;
      }
    }

    /** Add and remove tags of some entities; without any of them in the database nothing happens. */
    method EditEntityTags(ids: set<EntityId>, add: set<Tag>, remove: set<Tag>) returns (r: Result<nat, string>)
      modifies this
      ensures r.Err? <==> Refused(ids, add, remove)
      ensures Step(projects, filters, old(s), Edit(ids, add, remove), s)
      ensures r.Ok? ==>
        r.value == (if add != {} then |ids * old(s).entities.Keys| else 0)
          + if remove != {} then |ids * old(s).entities.Keys| else 0
    {
      if ids == {} {
        return Err("no entity ids");
      }
      if add == {} && remove == {} {
        return Err("neither tags to add nor tags to remove");
      }
      var updated := UpdateEntities(ids, add, remove);
      if updated != 0 {
        SameProjects(old(s).entities, ids, add, remove);
        DeleteKeys({Tags}, ProjectsOf(s.entities, ids));
      }
      r := Ok(updated);
    }

    method Execute(command: Command)
      modifies this
      ensures Step(projects, filters, old(s), command, s)
    {
      match command
      case Read(project, includeSystem, filter) => var _ := GetTags(project, includeSystem, filter);
      case Edit(ids, add, remove) => var _ := EditEntityTags(ids, add, remove);
      case Reset(ps) => ResetTags(ps);
      case Expire(key) => s := s.(cache := s.cache - {key});
    }

    /** Any sequence of commands; the guarded lists are those of the database at every point of it. */
    method Run(commands: seq<Command>) returns (ghost trace: seq<State>)
      modifies this
      ensures IsRun(projects, filters, trace, commands) && trace[0] == old(s) && trace[|commands|] == s
      ensures Coherent(projects, filters, old(s)) ==> forall n :: 0 <= n < |trace| ==>
        Coherent(projects, filters, trace[n])
    {
      trace := [s];
      for n := 0 to |commands|
        invariant IsRun(projects, filters, trace, commands[..n]) && trace[0] == old(s) && trace[n] == s
      {
        assert commands[..n + 1] == commands[..n] + [commands[n]];
        Execute(commands[n]);
        trace := trace + [s];
      }
      assert commands[..|commands|] == commands;
      if Coherent(projects, filters, old(s)) {
        forall n | 0 <= n < |trace| ensures Coherent(projects, filters, trace[n]) {
          RunKeepsCoherent(projects, filters, trace, commands, n);
        }
      }
    }
  }
}
