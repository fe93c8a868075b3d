/**
 * What creating a project together with its missing ancestors promises, for every requested name,
 * and the cases of that creation. A requested name is given by its cleaned-up levels.
 */
module ProjectEnsure {
  import opened Wrappers
  import opened Strings
  import opened ProjectForest
  import opened ProjectNames
  import opened ProjectMerge
  import opened ProjectMoves

  /** `id` is the company's project with these levels, and whatever is new is `id` or an ancestor of it. */
  ghost predicate Created(db: Store, db': Store, company: string, cp: seq<string>, id: Id) {
    && id in db'
    && db'[id].company == company
    && Parts(db'[id].name) == cp
    && forall e :: e in db' && e !in db ==> e == id || e in db'[id].path
  }

  /** A new top-level record whose name has a separator. */
  ghost predicate Broken(db: Store, db': Store, id: Id) {
    id in db' && id !in db && db'[id].parent == None && db'[id].path == [] && db'[id].basename != db'[id].name
  }

  /** The result of ensuring that the project with levels `cp` exists: nothing stored is touched and
      the forest survives unless the levels are a `BlankRoot`; only missing ancestors are created. */
  ghost predicate Ensured(db: Store, db': Store, company: string, cp: seq<string>, r: Result<Option<Id>, Error>) {
    && Extends(db, db')
    && (Forest(db') <==> !BlankRoot(cp))
    && (r == Ok(None) <==> NoName(cp))
    && (NoName(cp) ==> db' == db)
    && (r.Ok? ==> NoName(cp) || BlankRoot(cp) || NoBlankPart(cp))
    && (r.Ok? && r.value.Some? ==> Created(db, db', company, cp, r.value.value))
    && (BlankRoot(cp) ==> r.Ok? && r.value.Some? && Broken(db, db', r.value.value))
    && (NoBlankPart(cp) && r.Err? ==> r.error == PublicProjectExists && db' == db)
    && (forall e :: e in db' && e !in db ==> |db'[e].path| < |cp|)
  }

  /** The levels of a project on the way to the one with levels `cp`. */
  predicate OnTheWay(parts: seq<string>, cp: seq<string>) {
    if BlankRoot(cp) then parts == cp else parts <= DropBlank(cp)
  }

  /** Whatever is new belongs to the company and is on the way to `cp`. */
  ghost predicate OnlyAncestors(db: Store, db': Store, company: string, cp: seq<string>) {
    forall e :: e in db' && e !in db ==> db'[e].company == company && OnTheWay(Parts(db'[e].name), cp)
  }

  ghost predicate Blocks(db: Store, company: string, cp: seq<string>, i: Id)
    requires i in db
  {
    && db[i].company == "" && Parts(db[i].name) <= cp
    && forall j :: j in db && db[j].company == company ==> db[j].name != db[i].name
  }

  /** Some level of `cp` is a public project that the company does not have itself. */
  ghost predicate PublicBlocks(db: Store, company: string, cp: seq<string>) {
    exists i :: i in db && Blocks(db, company, cp, i)
  }

  /**
   * Whatever the result, nothing but ancestors is new; a name without blank levels is refused
   * exactly for a public project.
   */
  ghost predicate Accounted(db: Store, db': Store, company: string, cp: seq<string>, r: Result<Option<Id>, Error>) {
    && OnlyAncestors(db, db', company, cp)
    && (NoBlankPart(cp) ==> (r.Err? <==> PublicBlocks(db, company, cp)))
  }

  /** Looking up a name in a forest finds it only if no level is blank. */
  lemma FoundByName(db: Store, company: string, cp: seq<string>, i: Id, r: Result<Option<Id>, Error>)
    requires Forest(db) && i in db && Parts(db[i].name) == cp
    requires (r == Ok(Some(i)) && db[i].company == company) || (r == Err(PublicProjectExists) && db[i].company == "")
    ensures Ensured(db, db, company, cp, r)
  {
    StoredNameIsClean(db, i);
  }

  /** The situation in which the missing project is saved: the project of its location has been ensured. */
  ghost predicate Ready(db: Store, db': Store, p: Project, parent: Option<Id>, id: Id) {
    var cp := Parts(p.name);
    && Forest(db) && id !in db'
    && p.basename == cp[|cp| - 1] && p.basename != ""
    && (forall i :: i in db && db[i].company == p.company ==> db[i].name != p.name)
    && Ensured(db, db', p.company, DropBlank(cp[..|cp| - 1]), Ok(parent))
  }

  function ParentName(db: Store, parent: Option<Id>): string
    requires parent.Some? ==> parent.value in db
  {
    if parent.Some? then db[parent.value].name else ""
  }

  function Placed(db: Store, p: Project, parent: Option<Id>): Project
    requires parent.Some? ==> parent.value in db
  {
    p.(parent := parent, path := DestPath(db, parent))
  }

  /** What was ensured for levels without blanks. */
  lemma EnsuredFacts(db: Store, db': Store, company: string, cp: seq<string>, parent: Option<Id>)
    requires Ensured(db, db', company, cp, Ok(parent)) && NoBlankPart(cp)
    ensures Forest(db') && Extends(db, db')
    ensures parent == None <==> cp == []
    ensures parent.Some? ==> Created(db, db', company, cp, parent.value)
    ensures forall e :: e in db' && e !in db ==> |db'[e].path| < |cp|
  {
    NoNameIsBlank(cp);
    assert Ok(parent) == Result<Option<Id>, Error>.Ok(None) <==> parent == None;
  }

  lemma ReadyParent(db: Store, db': Store, p: Project, parent: Option<Id>, id: Id, cleaned: seq<string>)
    requires Ready(db, db', p, parent, id) && cleaned == DropBlank(Parts(p.name)[..|Parts(p.name)| - 1])
    ensures Forest(db') && Extends(db, db')
    ensures parent.None? <==> cleaned == []
    ensures parent.Some? ==> Created(db, db', p.company, cleaned, parent.value)
    ensures forall e :: e in db' && e !in db ==> |db'[e].path| < |cleaned|
  {
    EnsuredFacts(db, db', p.company, cleaned, parent);
  }

  lemma SameName(a: string, b: string)
    ensures a == b <==> Parts(a) == Parts(b)
  {
    if Parts(a) == Parts(b) {
      SplitInjective(a, b, SEP);
    }
  }

  lemma LocationCheckNames(name: string, parentName: Option<string>, cleaned: seq<string>)
    requires Parts(name)[|Parts(name)| - 1] != "" && cleaned == DropBlank(Parts(name)[..|Parts(name)| - 1])
    requires parentName == None <==> cleaned == []
    requires parentName.Some? ==> Parts(parentName.value) == cleaned
    ensures Location(name, SEP) == (if parentName.Some? then parentName.value else "")
      <==> NoBlankPart(Parts(name)) || BlankRoot(Parts(name))
  {
    var cp := Parts(name);
    var front := cp[..|cp| - 1];
    assert NoBlankPart(cp) <==> NoBlankPart(front);
    if |cp| == 1 {
      LocationOfSingle(name, SEP);
    } else {
      PartsOfLocation(name, SEP);
      SplitAtom("", SEP);
      SameName(Location(name, SEP), if parentName.Some? then parentName.value else "");
    }
  }

  /** The location check passes exactly for names without blank levels and for a `BlankRoot`. */
  lemma LocationCheck(db': Store, p: Project, parent: Option<Id>, cleaned: seq<string>)
    requires Parts(p.name)[|Parts(p.name)| - 1] != "" && cleaned == DropBlank(Parts(p.name)[..|Parts(p.name)| - 1])
    requires parent == None <==> cleaned == []
    requires parent.Some? ==> parent.value in db' && Parts(db'[parent.value].name) == cleaned
    ensures Location(p.name, SEP) == ParentName(db', parent)
      <==> NoBlankPart(Parts(p.name)) || BlankRoot(Parts(p.name))
  {
    LocationCheckNames(p.name, if parent.Some? then Some(db'[parent.value].name) else None, cleaned);
  }

  /** The project of the location is the one named by the location without its blank levels. */
  lemma ReadyNames(db: Store, db': Store, p: Project, parent: Option<Id>, id: Id, cleaned: seq<string>)
    requires Ready(db, db', p, parent, id) && cleaned == DropBlank(Parts(p.name)[..|Parts(p.name)| - 1])
    ensures Parts(p.name)[|Parts(p.name)| - 1] != ""
    ensures parent == None <==> cleaned == []
    ensures parent.Some? ==> parent.value in db' && Parts(db'[parent.value].name) == cleaned
  {
    EnsuredFacts(db, db', p.company, cleaned, parent);
  }

  /** The name of the missing project is free when it is saved. */
  lemma NameIsFree(db: Store, db': Store, p: Project, parent: Option<Id>, id: Id)
    requires Ready(db, db', p, parent, id)
    ensures NameFree(db', id, p)
  {
    ReadyParent(db, db', p, parent, id, DropBlank(Parts(p.name)[..|Parts(p.name)| - 1]));
    forall e | e in db' && db'[e].company == p.company ensures db'[e].name != p.name {
      NameSize(db', e);
      if e in db {
        assert db'[e] == db[e];
      }
    }
  }

  /** One more record on top of what was ensured for its location. */
  lemma Grown(db: Store, db': Store, p: Project, id: Id)
    requires Extends(db, db') && id !in db'
    requires var cp := Parts(p.name);
      && (Forest(db'[id := p]) <==> !BlankRoot(cp))
      && (BlankRoot(cp) || NoBlankPart(cp))
      && (BlankRoot(cp) ==> p.parent == None && p.path == [] && p.basename != p.name)
      && |p.path| < |cp|
    requires forall e :: e in db' && e !in db ==> e in p.path && |db'[e].path| < |p.path|
    ensures Ensured(db, db'[id := p], p.company, Parts(p.name), Ok(Some(id)))
  {
    var now, cp := db'[id := p], Parts(p.name);
    NoNameIsBlank(cp);
    assert Extends(db, now);
    assert Created(db, now, p.company, cp, id);
    assert BlankRoot(cp) ==> Broken(db, now, id);
    assert forall e :: e in now && e !in db ==> |now[e].path| < |cp|;
  }

  lemma FrontAndLast(cp: seq<string>)
    requires cp != [] && NoBlankPart(cp)
    ensures DropBlank(cp[..|cp| - 1]) == cp[..|cp| - 1]
    ensures cp == cp[..|cp| - 1] + [cp[|cp| - 1]]
  {
  }

  lemma NormalReady(db: Store, db': Store, p: Project, parent: Option<Id>, id: Id)
    requires Ready(db, db', p, parent, id) && NoBlankPart(Parts(p.name))
    ensures Forest(db') && Extends(db, db')
    ensures parent.Some? ==>
      && parent.value in db' && db'[parent.value].company == p.company
      && Parts(p.name) == Parts(db'[parent.value].name) + [p.basename]
      && forall e :: e in db' && e !in db ==> e == parent.value || e in db'[parent.value].path
    ensures parent.None? ==> Parts(p.name) == [p.basename] && forall e :: e in db' ==> e in db
  {
    ReadyParent(db, db', p, parent, id, DropBlank(Parts(p.name)[..|Parts(p.name)| - 1]));
    FrontAndLast(Parts(p.name));
  }

  lemma ExtendedName(base: string, last: string, name: string)
    requires SEP !in last && Parts(name) == Parts(base) + [last]
    ensures name == base + [SEP] + last
  {
    SplitConcat(base, last, SEP);
    SplitAtom(last, SEP);
    SplitInjective(name, base + [SEP] + last, SEP);
  }

  lemma NormalLinked(db: Store, p: Project, parent: Option<Id>, id: Id)
    requires Forest(db) && id !in db && NormalPart(p.basename)
    requires parent.Some? ==>
      && parent.value in db && db[parent.value].company == p.company
      && Parts(p.name) == Parts(db[parent.value].name) + [p.basename]
    requires parent.None? ==> Parts(p.name) == [p.basename]
    ensures Linked(db[id := Placed(db, p, parent)], id)
    ensures |Placed(db, p, parent).path| < |Parts(p.name)|
  {
    if parent.Some? {
      NameSize(db, parent.value);
      ExtendedName(db[parent.value].name, p.basename, p.name);
    } else {
      LocationOfSingle(p.name, SEP);
    }
  }

  lemma NewAreAncestors(db: Store, db': Store, parent: Option<Id>)
    requires Forest(db')
    requires parent.Some? ==>
      && parent.value in db'
      && forall e :: e in db' && e !in db ==> e == parent.value || e in db'[parent.value].path
    requires parent.None? ==> forall e :: e in db' ==> e in db
    ensures forall e :: e in db' && e !in db ==> e in DestPath(db', parent) && |db'[e].path| < |DestPath(db', parent)|
  {
    forall e | e in db' && e !in db && e != parent.value ensures |db'[e].path| < |DestPath(db', parent)| {
      PathThrough(db', parent.value, e);
    }
  }

  /** A name without blank levels: the forest grows by the project, whose ancestors are all there. */
  lemma NormalSave(db: Store, db': Store, p: Project, parent: Option<Id>, id: Id)
    requires Ready(db, db', p, parent, id) && NormalPart(p.basename) && NoBlankPart(Parts(p.name))
    requires parent.Some? ==> parent.value in db'
    ensures Ensured(db, db'[id := Placed(db', p, parent)], p.company, Parts(p.name), Ok(Some(id)))
  {
    var saved := Placed(db', p, parent);
    NormalReady(db, db', p, parent, id);
    NameIsFree(db, db', p, parent, id);
    NormalLinked(db', p, parent, id);
    AddedRecord(db', id, saved);
    NewAreAncestors(db, db', parent);
    Grown(db, db', saved, id);
  }

  /** A name with a blank level, other than a `BlankRoot`, is refused; at most ancestors were created. */
  lemma BlankSave(db: Store, db': Store, p: Project, parent: Option<Id>, id: Id)
    requires Ready(db, db', p, parent, id)
    requires !NoBlankPart(Parts(p.name)) && !BlankRoot(Parts(p.name))
    ensures Ensured(db, db', p.company, Parts(p.name), Err(LocationMismatch))
  {
    ReadyParent(db, db', p, parent, id, DropBlank(Parts(p.name)[..|Parts(p.name)| - 1]));
  }

  lemma BlankFront(cp: seq<string>)
    requires BlankRoot(cp)
    ensures DropBlank(cp[..|cp| - 1]) == []
  {
    assert cp[..|cp| - 1] == [""] && [""][1..] == [];
  }

  lemma BlankRootReady(db: Store, db': Store, p: Project, parent: Option<Id>, id: Id)
    requires Ready(db, db', p, parent, id) && BlankRoot(Parts(p.name))
    ensures parent == None && Extends(db, db') && id !in db' && p.basename in Parts(p.name)
    ensures forall e :: e in db' ==> e in db
  {
    ReadyParent(db, db', p, parent, id, DropBlank(Parts(p.name)[..|Parts(p.name)| - 1]));
    BlankFront(Parts(p.name));
  }

  lemma NotItsBasename(name: string, basename: string)
    requires |Parts(name)| > 1 && basename in Parts(name)
    ensures name != basename
  {
    SplitIsFree(name, SEP);
    if name == basename {
      SplitAtom(name, SEP);
    }
  }

  /** A `BlankRoot` is stored at the top under a name with a separator. */
  lemma BlankRootSave(db: Store, db': Store, p: Project, parent: Option<Id>, id: Id)
    requires Ready(db, db', p, parent, id) && BlankRoot(Parts(p.name))
    requires parent.Some? ==> parent.value in db'
    ensures Ensured(db, db'[id := Placed(db', p, parent)], p.company, Parts(p.name), Ok(Some(id)))
  {
    var saved := Placed(db', p, parent);
    BlankRootReady(db, db', p, parent, id);
    NotItsBasename(p.name, p.basename);
    assert !Linked(db'[id := saved], id);
    Grown(db, db', saved, id);
  }

  /* ---------- Which records are new, and which names are refused ---------- */

  /** A project has an ancestor, or is itself, at every stored prefix of its levels. */
  lemma OwnPrefix(db: Store, i: Id, b: Id) returns (a: Id)
    requires Forest(db) && i in db && b in db && Parts(db[b].name) <= Parts(db[i].name)
    ensures a in db && db[a].company == db[i].company && db[a].name == db[b].name
  {
    var k := |Parts(db[b].name)| - 1;
    NameSize(db, i);
    if k < |db[i].path| {
      PathElement(db, i, k);
      a := db[i].path[k];
    } else {
      a := i;
    }
    SplitInjective(db[a].name, db[b].name, SEP);
  }

  lemma FoundAccounted(db: Store, company: string, cp: seq<string>, i: Id, r: Result<Option<Id>, Error>)
    requires Forest(db) && i in db && Parts(db[i].name) == cp
    requires (r == Ok(Some(i)) && db[i].company == company)
          || (r == Err(PublicProjectExists) && db[i].company == ""
              && forall j :: j in db && db[j].company == company ==> db[j].name != db[i].name)
    ensures Accounted(db, db, company, cp, r)
  {
    if r.Ok? {
      forall b | b in db && db[b].company == "" && Parts(db[b].name) <= cp ensures !Blocks(db, company, cp, b) {
        var a := OwnPrefix(db, i, b);
      }
    } else {
      assert Blocks(db, company, cp, i);
    }
  }

  /** What is new when a project without blank levels was ensured. */
  lemma OkOnTheWay(db: Store, db': Store, company: string, cp: seq<string>, r: Result<Option<Id>, Error>)
    requires Ensured(db, db', company, cp, r) && r.Ok? && NoBlankPart(cp)
    ensures OnlyAncestors(db, db', company, cp)
  {
    if r.value.Some? {
      var id := r.value.value;
      forall e | e in db' && e !in db ensures db'[e].company == company && Parts(db'[e].name) <= cp {
        if e != id {
          var k :| 0 <= k < |db'[id].path| && db'[id].path[k] == e;
          PathElement(db', id, k);
        }
      }
    }
  }

  /** A level that blocks the location blocks the name, and no other does unless it is the name itself. */
  lemma BlocksFront(db: Store, company: string, name: string)
    requires NoBlankPart(Parts(name))
    ensures var cp := Parts(name);
      && (PublicBlocks(db, company, cp[..|cp| - 1]) ==> PublicBlocks(db, company, cp))
      && ((forall i :: i in db && db[i].company == "" ==> db[i].name != name) ==>
            (PublicBlocks(db, company, cp) <==> PublicBlocks(db, company, cp[..|cp| - 1])))
  {
    var cp := Parts(name);
    var front := cp[..|cp| - 1];
    if i :| i in db && Blocks(db, company, front, i) {
      assert Blocks(db, company, cp, i);
    }
    if i :| i in db && Blocks(db, company, cp, i) && db[i].name != name {
      var parts := Parts(db[i].name);
      if |parts| == |cp| {
        SplitInjective(db[i].name, name, SEP);
      }
      assert parts <= front;
      assert Blocks(db, company, front, i);
    }
  }

  /** What is on the way to the location is on the way to the name. */
  lemma StillOnTheWay(db: Store, db': Store, company: string, cp: seq<string>)
    requires cp != [] && !BlankRoot(cp) && OnlyAncestors(db, db', company, DropBlank(cp[..|cp| - 1]))
    ensures OnlyAncestors(db, db', company, cp)
  {
    DropBlankFront(cp);
    var cleaned := DropBlank(cp[..|cp| - 1]);
    assert !BlankRoot(cleaned) && DropBlank(cleaned) == cleaned;
    forall e | e in db' && e !in db ensures OnTheWay(Parts(db'[e].name), cp) {
      assert OnTheWay(Parts(db'[e].name), cleaned);
    }
  }

  /** A location that was refused, or ensured for a name that is then refused. */
  lemma RefusedAccounted(db: Store, db': Store, company: string, name: string, front: Result<Option<Id>, Error>,
                         r: Result<Option<Id>, Error>)
    requires var cp := Parts(name);
      && Accounted(db, db', company, DropBlank(cp[..|cp| - 1]), front)
      && r.Err? && !BlankRoot(cp) && (front.Ok? ==> !NoBlankPart(cp))
    ensures Accounted(db, db', company, Parts(name), r)
  {
    var cp := Parts(name);
    var before := cp[..|cp| - 1];
    StillOnTheWay(db, db', company, cp);
    if NoBlankPart(cp) {
      FrontAndLast(cp);
      assert front.Err? && NoBlankPart(before) && PublicBlocks(db, company, before);
      BlocksFront(db, company, name);
    }
  }

  /** A name that was saved. */
  lemma SavedAccounted(db: Store, db': Store, p: Project, parent: Option<Id>, id: Id, now: Store)
    requires Ready(db, db', p, parent, id)
    requires Accounted(db, db', p.company, DropBlank(Parts(p.name)[..|Parts(p.name)| - 1]), Ok(parent))
    requires forall i :: i in db && db[i].company == "" ==> db[i].name != p.name
    requires now == db'[id := Placed(db', p, parent)]
    requires Ensured(db, now, p.company, Parts(p.name), Ok(Some(id)))
    ensures Accounted(db, now, p.company, Parts(p.name), Ok(Some(id)))
  {
    var cp := Parts(p.name);
    if BlankRoot(cp) {
      BlankRootReady(db, db', p, parent, id);
    } else {
      assert NoBlankPart(cp);
      FrontAndLast(cp);
      OkOnTheWay(db, now, p.company, cp, Ok(Some(id)));
      BlocksFront(db, p.company, p.name);
    }
  }

  /* ---------- Renaming in place ---------- */

  /** Equal locations mean equal levels, except that a single blank level looks like no level. */
  lemma SameLocation(cp: seq<string>, normal: seq<string>)
    requires Free(cp, SEP) && Free(normal, SEP) && NoBlankPart(normal)
    requires cp != [] && normal != [] && cp[|cp| - 1] != "" && !BlankRoot(cp)
    requires Join(cp[..|cp| - 1], SEP) == Join(normal[..|normal| - 1], SEP)
    ensures cp[..|cp| - 1] == normal[..|normal| - 1]
  {
    var a, b := cp[..|cp| - 1], normal[..|normal| - 1];
    SplitAtom("", SEP);
    if a != [] {
      SplitOfJoin(a, SEP);
    }
    if b != [] {
      SplitOfJoin(b, SEP);
    }
  }

  /** The record of `id` under its new last level. */
  function Renamed(p: Project, newName: string): Project
    requires CleanParts(newName) != []
  {
    var cp := CleanParts(newName);
    p.(name := CleanName(newName), basename := cp[|cp| - 1])
  }

  /** Levels with a basename, in the location of the given name. */
  predicate InLocation(cp: seq<string>, name: string) {
    cp != [] && cp[|cp| - 1] != "" && Join(cp[..|cp| - 1], SEP) == Location(name, SEP)
  }

  /** The company's own project may be renamed within its location, or left as it is. */
  ghost predicate RenameFits(db: Store, company: string, id: Id, newName: string) {
    && id in db && db[id].company == company != ""
    && (newName != "" ==> InLocation(CleanParts(newName), db[id].name))
  }

  /** Whether a rename goes through. */
  ghost predicate RenameAllowed(db: Store, company: string, id: Id, newName: string) {
    RenameFits(db, company, id, newName) && (newName != "" ==> NameFree(db, id, Renamed(db[id], newName)))
  }

  /** The location of a stored name is what comparing cleaned names compares. */
  lemma StoredLocation(db: Store, id: Id)
    requires Forest(db) && id in db
    ensures var cp := CleanParts(db[id].name); cp != [] && Join(cp[..|cp| - 1], SEP) == Location(db[id].name, SEP)
  {
    StoredNameIsClean(db, id);
    LocationOfParts(db[id].name, SEP);
  }

  lemma RenamedLinks(db: Store, id: Id, name: string, last: string)
    requires Forest(db) && id in db && SEP !in last
    requires var oldParts := Parts(db[id].name); Parts(name) == oldParts[..|oldParts| - 1] + [last]
    ensures match db[id].parent
      case None => name == last && db[id].path == []
      case Some(q) =>
        && q in db && q != id && id !in db[q].path
        && db[q].company == db[id].company
        && db[id].path == db[q].path + [q]
        && name == db[q].name + [SEP] + last
  {
    assert Linked(db, id);
    match db[id].parent
    case None =>
      SplitAtom(db[id].basename, SEP);
      assert Parts(name) == [last];
      LocationOfSingle(name, SEP);
    case Some(q) =>
      PartsOfChild(db, id);
      ExtendedName(db[q].name, last, name);
      DescendantsAreBelow(db, id);
  }

  lemma LastReplaced(cp: seq<string>, oldCp: seq<string>)
    requires cp != [] && oldCp != [] && cp[..|cp| - 1] == oldCp[..|oldCp| - 1]
    requires NoBlankPart(oldCp) && cp[|cp| - 1] != ""
    ensures cp == oldCp[..|oldCp| - 1] + [cp[|cp| - 1]] && NoBlankPart(cp)
  {
    forall k | 0 <= k < |cp| - 1 ensures cp[k] != "" {
      assert cp[k] == cp[..|cp| - 1][k] == oldCp[k];
    }
  }

  lemma RenamedParts(db: Store, id: Id, newName: string)
    requires Forest(db) && id in db && CleanParts(newName) != [] && !BlankRoot(CleanParts(newName))
    requires var cp, oldCp := CleanParts(newName), CleanParts(db[id].name);
      cp[|cp| - 1] != "" && oldCp != [] && Join(cp[..|cp| - 1], SEP) == Join(oldCp[..|oldCp| - 1], SEP)
    ensures var cp, oldParts := CleanParts(newName), Parts(db[id].name);
      && Parts(CleanName(newName)) == oldParts[..|oldParts| - 1] + [cp[|cp| - 1]]
      && NormalPart(cp[|cp| - 1])
  {
    var cp, oldCp := CleanParts(newName), CleanParts(db[id].name);
    CleanPartsFree(newName);
    StoredNameIsClean(db, id);
    SplitIsFree(db[id].name, SEP);
    SameLocation(cp, oldCp);
    PartsOfCleanName(newName);
    LastReplaced(cp, oldCp);
  }

  lemma RenamedIsGood(db: Store, id: Id, newName: string)
    requires Forest(db) && id in db && CleanParts(newName) != [] && !BlankRoot(CleanParts(newName))
    requires var cp, oldCp := CleanParts(newName), CleanParts(db[id].name);
      cp[|cp| - 1] != "" && oldCp != [] && Join(cp[..|cp| - 1], SEP) == Join(oldCp[..|oldCp| - 1], SEP)
    requires NameFree(db, id, Renamed(db[id], newName))
    ensures GoodRoot(db, id, Renamed(db[id], newName))
  {
    RenamedParts(db, id, newName);
    RenamedLinks(db, id, CleanName(newName), CleanParts(newName)[|CleanParts(newName)| - 1]);
  }

  /** A name with a blank level breaks the forest wherever it is stored. */
  lemma BlankStoredName(db: Store, id: Id)
    requires id in db && !NoBlankPart(Parts(db[id].name))
    ensures !Forest(db)
  {
    if Forest(db) {
      StoredNameIsClean(db, id);
    }
  }

  lemma StoredNameStart(db: Store, i: Id)
    requires Forest(db) && i in db
    ensures db[i].name != "" && db[i].name[0] != SEP
  {
    StoredNameIsClean(db, i);
    BelowHasName(db, i);
  }

  /** No stored name starts with the separator, so a `BlankRoot` above does not clash either. */
  lemma BlankRootHasNoClash(db: Store, r: Id, root: Project, children: set<Id>)
    requires Forest(db) && r in db && children <= Descendants(db, r)
    requires root.name != "" && root.name[0] == SEP
    ensures NoClash(db[r := root], children, root, db[r])
  {
    var db' := db[r := root];
    DescendantsAreBelow(db, r);
    forall c, j | c in children && c in db' && j in db' && j != c && db'[j].company == db'[c].company
      ensures db'[j].name != NewName(root.name, db[r].name, db'[c].name)
      ensures j in children ==>
        NewName(root.name, db[r].name, db'[j].name) != NewName(root.name, db[r].name, db'[c].name)
    {
      NameBelow(db, c, r);
      NewNameForm(root.name, db[r].name, db[c].name);
      if j != r {
        StoredNameStart(db, j);
      }
      if j in children && NewName(root.name, db[r].name, db[j].name) == NewName(root.name, db[r].name, db[c].name) {
        NewNameInjective(db, r, root, j, c);
      }
    }
  }

  lemma BlankNameStart(newName: string)
    requires BlankRoot(CleanParts(newName))
    ensures CleanName(newName) != "" && CleanName(newName)[0] == SEP
  {
    var cp := CleanParts(newName);
    assert cp == [cp[0], cp[1]];
    JoinPair(cp[0], cp[1], SEP);
  }

  lemma Rejoined(path: seq<Id>, n: nat)
    requires n <= |path|
    ensures path[..n] + From(path, n) == path
  {
  }

  lemma PathKept(db: Store, id: Id, i: Id)
    requires Forest(db) && i in Descendants(db, id)
    ensures id in db && db[id].path + From(db[i].path, |db[id].path|) == db[i].path
  {
    PathThrough(db, i, id);
    Rejoined(db[i].path, |db[id].path|);
  }

  /** When only names are rewritten, the paths are already the relocated ones. */
  lemma PathsKept(db: Store, id: Id, root: Project)
    requires Forest(db) && id in db && root.path == db[id].path
    ensures id !in Descendants(db, id)
    ensures forall i :: i in Descendants(db, id) ==> root.path + From(db[i].path, |db[id].path|) == db[i].path
  {
    DescendantsAreBelow(db, id);
    forall i | i in Descendants(db, id) ensures root.path + From(db[i].path, |db[id].path|) == db[i].path {
      PathKept(db, id, i);
    }
  }

  lemma RenamingRelocates(db: Store, id: Id, root: Project)
    requires Forest(db) && id in db && root.path == db[id].path
    ensures Followed(db[id := root], Descendants(db, id), root, db[id], false)
         == Relocated(db, id, root, Descendants(db, id))
  {
    PathsKept(db, id, root);
    SameStore(Followed(db[id := root], Descendants(db, id), root, db[id], false),
              Relocated(db, id, root, Descendants(db, id)));
  }

  /** What a rename leaves behind, and that no update of a descendant is refused. */
  lemma RenameOutcome(db: Store, id: Id, newName: string)
    requires Forest(db) && id in db && newName != "" && RenameFits(db, db[id].company, id, newName)
    requires NameFree(db, id, Renamed(db[id], newName))
    ensures var root, D := Renamed(db[id], newName), Descendants(db, id);
      && NoClash(db[id := root], D, root, db[id])
      && Followed(db[id := root], D, root, db[id], false) == Relocated(db, id, root, D)
      && (Forest(Relocated(db, id, root, D)) <==> !BlankRoot(CleanParts(newName)))
      && forall i :: i in db ==> |Relocated(db, id, root, D)[i].path| == |db[i].path|
  {
    var root, D := Renamed(db[id], newName), Descendants(db, id);
    StoredLocation(db, id);
    PathsKept(db, id, root);
    RenamingRelocates(db, id, root);
    if BlankRoot(CleanParts(newName)) {
      BlankNameStart(newName);
      BlankRootHasNoClash(db, id, root, D);
      PartsOfCleanName(newName);
      BlankStoredName(Relocated(db, id, root, D), id);
    } else {
      RenamedIsGood(db, id, newName);
      GoodRootHasNoClash(db, id, root, D);
      RelocationKeepsForest(db, id, root);
    }
  }

  /* ---------- Moving ---------- */

  /** Creating the new location adds nothing below the moved project unless it lies below it itself. */
  lemma MoveDescendants(db: Store, mid: Store, id: Id, company: string, cp: seq<string>, parent: Option<Id>)
    requires Forest(db) && id in db && !BlankRoot(cp) && Ensured(db, mid, company, cp, Ok(parent))
    requires parent.Some? ==> id !in mid[parent.value].path && parent.value != id
    ensures Descendants(mid, id) == Descendants(db, id)
  {
    forall e | e in mid && e !in db ensures id !in mid[e].path {
      if e != parent.value {
        PathThrough(mid, parent.value, e);
      }
    }
    forall i | i in db ensures mid[i] == db[i] {
    }
  }

  /** A location that was ensured has no blank levels, or is one that stands for the top level. */
  lemma EnsuredLevels(db: Store, mid: Store, company: string, cp: seq<string>, parent: Option<Id>)
    requires !BlankRoot(cp) && Ensured(db, mid, company, cp, Ok(parent))
    ensures parent == None ==> DropBlank(cp) == [] && mid == db
    ensures parent.Some? ==>
      && NoBlankPart(cp) && DropBlank(cp) == cp
      && parent.value in mid && mid[parent.value].company == company && Parts(mid[parent.value].name) == cp
  {
    assert [""][1..] == [];
    assert Result<Option<Id>, Error>.Ok(parent) == Ok(None) <==> parent == None;
  }

  lemma MoveGoodDestination(db: Store, mid: Store, id: Id, cp: seq<string>, parent: Option<Id>)
    requires Forest(db) && id in db && !BlankRoot(cp) && Ensured(db, mid, db[id].company, cp, Ok(parent))
    requires parent.Some? ==> id !in mid[parent.value].path && parent.value != id
    ensures id in mid && GoodDestination(mid, id, parent) && mid[id] == db[id]
    ensures |Repositioned(mid, id, parent).path| == |DropBlank(cp)|
  {
    EnsuredLevels(db, mid, db[id].company, cp, parent);
    if parent.Some? {
      NameSize(mid, parent.value);
    }
  }

  /** A successful move to a location without blank levels keeps the forest, for subtrees of any depth. */
  lemma MoveOutcome(db: Store, mid: Store, id: Id, cp: seq<string>, parent: Option<Id>)
    requires Forest(db) && id in db && !BlankRoot(cp) && Ensured(db, mid, db[id].company, cp, Ok(parent))
    requires parent.Some? ==> id !in mid[parent.value].path && parent.value != id
    requires id in mid && NameFree(mid, id, Repositioned(mid, id, parent))
    ensures var root, D := Repositioned(mid, id, parent), Descendants(db, id);
      && Forest(Relocated(mid, id, root, D))
      && NoClash(mid[id := root], D, root, mid[id])
      && |root.path| == |DropBlank(cp)|
      && forall i :: i in D ==> |Relocated(mid, id, root, D)[i].path| == |db[i].path| - |db[id].path| + |DropBlank(cp)|
  {
    MoveDescendants(db, mid, id, db[id].company, cp, parent);
    var root := Repositioned(mid, id, parent);
    MoveGoodDestination(db, mid, id, cp, parent);
    RepositionedIsGood(mid, id, parent);
    RelocationKeepsForest(mid, id, root);
    GoodRootHasNoClash(mid, id, root, Descendants(mid, id));
  }

  lemma PartsBelow(base: Option<string>, basename: string)
    requires SEP !in basename
    ensures base.None? ==> Parts(basename) == [basename]
    ensures base.Some? ==> Parts(base.value + [SEP] + basename) == Parts(base.value) + [basename]
  {
    SplitAtom(basename, SEP);
    if base.Some? {
      SplitConcat(base.value, basename, SEP);
    }
  }

  /** Levels of the moved project: those of its new location and its own last one. */
  lemma MovedName(db: Store, mid: Store, id: Id, cp: seq<string>, parent: Option<Id>)
    requires Forest(db) && id in db && !BlankRoot(cp) && Ensured(db, mid, db[id].company, cp, Ok(parent))
    requires id in mid && mid[id] == db[id]
    ensures Parts(Repositioned(mid, id, parent).name) == DropBlank(cp) + [db[id].basename]
  {
    EnsuredLevels(db, mid, db[id].company, cp, parent);
    RepositionedName(mid, id, parent);
    assert Linked(mid, id);
    PartsBelow(if parent.Some? then Some(mid[parent.value].name) else None, db[id].basename);
  }

  /** A move below a `BlankRoot` leaves the broken record in place. */
  lemma BrokenStays(db: Store, mid: Store, id: Id, root: Project, children: set<Id>, b: Id)
    requires id in db && id in mid && children <= db.Keys && Broken(db, mid, b)
    ensures !Forest(Relocated(mid, id, root, children))
  {
    assert !Linked(Relocated(mid, id, root, children), b);
  }

  /** All that is new when a `BlankRoot` was ensured is named like it. */
  lemma BlankRootIsNew(db: Store, mid: Store, company: string, cp: seq<string>, parent: Option<Id>)
    requires BlankRoot(cp) && Ensured(db, mid, company, cp, Ok(parent)) && Accounted(db, mid, company, cp, Ok(parent))
    ensures parent.Some? && parent.value in mid && parent.value !in db && mid[parent.value].path == []
    ensures Parts(mid[parent.value].name) == cp
    ensures forall e :: e in mid && e !in db ==> Parts(mid[e].name) == cp
  {
  }

  /** The name of a project moved below a `BlankRoot`, or of one below it. */
  lemma BelowBlankRoot(db: Store, mid: Store, cp: seq<string>, j: Id, name: string)
    requires Forest(db) && BlankRoot(cp) && Extends(db, mid) && j in mid
    requires forall e :: e in mid && e !in db ==> Parts(mid[e].name) == cp
    requires |Parts(name)| > 2 && Parts(name)[0] == ""
    ensures mid[j].name != name
  {
    if j in db {
      StoredNameIsClean(db, j);
    }
  }

  /** The basename of a stored project under a given location. */
  lemma BlankPlaceName(db: Store, id: Id, base: string)
    requires Forest(db) && id in db && base != ""
    ensures NameUnder(base, db[id].name) == base + [SEP] + db[id].basename && SEP !in db[id].basename
  {
    NameSize(db, id);
    assert Linked(db, id);
    DropBlankPair(base, db[id].basename);
  }

  /** The name of a stored project below a `BlankRoot`. */
  lemma BlankTarget(db: Store, id: Id, base: string, cp: seq<string>)
    requires Forest(db) && id in db && BlankRoot(cp) && Parts(base) == cp
    ensures var name := NameUnder(base, db[id].name);
      Parts(name) == cp + [db[id].basename] && Location(name, SEP) == base
  {
    assert base != "" by {
      assert base == "" ==> Parts(base) == [""];
    }
    BlankPlaceName(db, id, base);
    PartsBelow(Some(base), db[id].basename);
    LocationOfConcat(base, db[id].basename, SEP);
  }

  lemma BlankChildName(db: Store, mid: Store, id: Id, cp: seq<string>, root: Project, c: Id, j: Id)
    requires Forest(db) && id in db && BlankRoot(cp) && Extends(db, mid) && c in Descendants(db, id)
    requires forall e :: e in mid && e !in db ==> Parts(mid[e].name) == cp
    requires |Parts(root.name)| > 2 && Parts(root.name)[0] == "" && j in mid && j != c && id in mid
    ensures c in mid && NamesApart(mid, id, root, Descendants(db, id), c, j)
  {
    var name := NewName(root.name, db[id].name, db[c].name);
    NameBelow(db, c, id);
    NewNameForm(root.name, db[id].name, db[c].name);
    SplitConcat(root.name, Join(Parts(db[c].name)[|Parts(db[id].name)|..], SEP), SEP);
    BelowBlankRoot(db, mid, cp, j, name);
    if j in Descendants(db, id) && NewName(root.name, db[id].name, db[j].name) == name {
      NewNameInjective(db, id, root, j, c);
    }
  }

  lemma BlankChildren(db: Store, mid: Store, id: Id, cp: seq<string>, root: Project)
    requires Forest(db) && id in db && id in mid && BlankRoot(cp) && Extends(db, mid)
    requires forall e :: e in mid && e !in db ==> Parts(mid[e].name) == cp
    requires |Parts(root.name)| > 2 && Parts(root.name)[0] == "" && root.company == mid[id].company
    ensures NoClash(mid[id := root], Descendants(db, id), root, mid[id])
  {
    DescendantsAreBelow(db, id);
    forall c, j | c in Descendants(db, id) && j in mid && j != c
      ensures c in mid && NamesApart(mid, id, root, Descendants(db, id), c, j)
    {
      BlankChildName(db, mid, id, cp, root, c, j);
    }
    ApartIsNoClash(mid, id, root, Descendants(db, id));
  }

  /** A move below a `BlankRoot` is never stopped by a clash of names. */
  lemma BlankMoveHasNoClash(db: Store, mid: Store, id: Id, cp: seq<string>, parent: Option<Id>)
    requires Forest(db) && id in db && BlankRoot(cp)
    requires Ensured(db, mid, db[id].company, cp, Ok(parent)) && Accounted(db, mid, db[id].company, cp, Ok(parent))
    ensures id in mid && mid[id] == db[id] && parent.Some? && parent.value in mid && parent.value !in db
    ensures var root := Repositioned(mid, id, parent);
      && NameFree(mid, id, root)
      && Location(root.name, SEP) == mid[parent.value].name
      && NoClash(mid[id := root], Descendants(db, id), root, mid[id])
  {
    BlankRootIsNew(db, mid, db[id].company, cp, parent);
    var root := Repositioned(mid, id, parent);
    BlankTarget(db, id, mid[parent.value].name, cp);
    forall j | j in mid && j != id ensures mid[j].name != root.name {
      BelowBlankRoot(db, mid, cp, j, root.name);
    }
    BlankChildren(db, mid, id, cp, root);
  }

  /** The whole subtree fits under the depth limit at its new place. */
  ghost predicate Fits(db: Store, id: Id, newDepth: nat, maxDepth: nat)
    requires id in db
  {
    && newDepth < maxDepth
    && forall i :: i in Descendants(db, id) ==> |db[i].path| + 1 - |db[id].path| + newDepth <= maxDepth
  }

  lemma MovedDepth(db: Store, mid: Store, id: Id, cp: seq<string>, parent: Option<Id>, maxDepth: nat)
    requires Forest(db) && id in db && !BlankRoot(cp) && Ensured(db, mid, db[id].company, cp, Ok(parent))
    requires parent.Some? ==> id !in mid[parent.value].path && parent.value != id
    requires id in mid && NameFree(mid, id, Repositioned(mid, id, parent))
    requires DepthAtMost(db, maxDepth) && Fits(db, id, |cp|, maxDepth)
    ensures DepthAtMost(Relocated(mid, id, Repositioned(mid, id, parent), Descendants(db, id)), maxDepth)
  {
    var root, D := Repositioned(mid, id, parent), Descendants(db, id);
    MoveOutcome(db, mid, id, cp, parent);
    var now := Relocated(mid, id, root, D);
    forall i | i in now ensures |now[i].path| + 1 <= maxDepth {
      if i != id && i !in D {
        assert now[i] == mid[i];
      }
    }
  }

  /** What a move that raises no error leaves behind, for every requested location. */
  lemma MoveDone(db: Store, mid: Store, id: Id, cp: seq<string>, parent: Option<Id>, maxDepth: nat)
    requires Forest(db) && id in db && Ensured(db, mid, db[id].company, cp, Ok(parent))
    requires parent.Some? ==> id !in mid[parent.value].path && parent.value != id
    requires id in mid && NameFree(mid, id, Repositioned(mid, id, parent))
    ensures var now := Relocated(mid, id, Repositioned(mid, id, parent), Descendants(db, id));
      && (Forest(now) <==> !BlankRoot(cp))
      && (!BlankRoot(cp) ==> Parts(now[id].name) == DropBlank(cp) + [db[id].basename])
      && (!BlankRoot(cp) && DepthAtMost(db, maxDepth) && Fits(db, id, |cp|, maxDepth) ==> DepthAtMost(now, maxDepth))
  {
    var root, D := Repositioned(mid, id, parent), Descendants(db, id);
    if BlankRoot(cp) {
      BrokenStays(db, mid, id, root, D, parent.value);
    } else {
      MoveOutcome(db, mid, id, cp, parent);
      MovedName(db, mid, id, cp, parent);
      if DepthAtMost(db, maxDepth) && Fits(db, id, |cp|, maxDepth) {
        MovedDepth(db, mid, id, cp, parent, maxDepth);
      }
    }
  }

  lemma EnsuredDepth(db: Store, mid: Store, company: string, cp: seq<string>, r: Result<Option<Id>, Error>,
                     maxDepth: nat)
    requires Ensured(db, mid, company, cp, r) && DepthAtMost(db, maxDepth) && |cp| <= maxDepth
    ensures DepthAtMost(mid, maxDepth)
  {
    forall i | i in mid ensures |mid[i].path| + 1 <= maxDepth {
      if i in db {
        assert mid[i] == db[i];
      }
    }
  }
}
