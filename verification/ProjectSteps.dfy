/**
 * What each operation on the stored projects may leave behind, as a relation between the
 * collection before and after it, and the steps and runs made of these operations.
 */
module ProjectSteps {
  import opened Wrappers
  import opened Strings
  import opened ProjectForest
  import opened ProjectNames
  import opened ProjectMerge
  import opened ProjectMoves
  import opened ProjectEnsure

  /* ---------- Create and ensure ---------- */

  /** Whether a create goes through. */
  ghost predicate CreateAllowed(db: Store, company: string, name: string, maxDepth: nat) {
    var cp := CleanParts(name);
    && 0 < |cp| <= maxDepth
    && (BlankRoot(cp) || (
          && NoBlankPart(cp) && !PublicBlocks(db, company, cp)
          && forall i :: i in db && db[i].company == company ==> db[i].name != CleanName(name)))
  }

  ghost predicate CreateStep(db: Store, maxDepth: nat, company: string, name: string,
                             r: Result<Id, Error>, db': Store)
  {
    var cp := CleanParts(name);
    && (r.Ok? <==> CreateAllowed(db, company, name, maxDepth))
    && Extends(db, db') && OnlyAncestors(db, db', company, cp)
    && (r.Ok? ==> r.value !in db && Created(db, db', company, cp, r.value))
    && (r.Ok? ==> IsCleanUp(name, Parts(db'[r.value].name)))
    && (Forest(db') <==> !(r.Ok? && BlankRoot(cp)))
    && (DepthAtMost(db, maxDepth) ==> DepthAtMost(db', maxDepth))
  }

  /** The project with levels `cp` is ensured or refused. */
  ghost predicate EnsuredAs(db: Store, company: string, cp: seq<string>, r: Result<Option<Id>, Error>, db': Store) {
    Ensured(db, db', company, cp, r) && Accounted(db, db', company, cp, r)
  }

  ghost predicate EnsureStep(db: Store, company: string, name: string, r: Result<Option<Id>, Error>, db': Store) {
    && EnsuredAs(db, company, CleanParts(name), r, db')
    && (r.Ok? && r.value.Some? ==> IsCleanUp(name, Parts(db'[r.value.value].name)))
  }

  lemma NoLevelBlocks(db: Store, company: string)
    ensures !PublicBlocks(db, company, [])
  {
    forall i | i in db ensures !Blocks(db, company, [], i) {
      assert |Parts(db[i].name)| > 0;
    }
  }

  /** No name, or one of blanks only: nothing is created and nothing can be refused. */
  lemma NothingNamed(db: Store, company: string, cp: seq<string>)
    requires Forest(db) && NoName(cp)
    ensures EnsuredAs(db, company, cp, Ok(None), db)
  {
    NoNameIsBlank(cp);
    NoLevelBlocks(db, company);
  }

  /** The project of the location of the missing project `p` has been ensured or refused. */
  ghost predicate LocationReady(db: Store, db': Store, p: Project, cleaned: seq<string>,
                                parent: Result<Option<Id>, Error>)
  {
    var cp := Parts(p.name);
    && Forest(db) && p.basename == cp[|cp| - 1] && p.basename != ""
    && (NoBlankPart(cp) ==> NormalPart(p.basename))
    && (forall i :: i in db && db[i].company in {p.company, ""} ==> db[i].name != p.name)
    && cleaned == DropBlank(cp[..|cp| - 1]) && EnsuredAs(db, p.company, cleaned, parent, db')
  }

  /** Saving a missing project passes the location check exactly when it should, and then its name is free. */
  lemma MissingChecked(db: Store, db': Store, p: Project, cleaned: seq<string>, parent: Option<Id>, id: Id)
    requires LocationReady(db, db', p, cleaned, Ok(parent)) && id !in db'
    ensures parent.Some? ==> parent.value in db'
    ensures Location(p.name, SEP) == ParentName(db', parent) <==> NoBlankPart(Parts(p.name)) || BlankRoot(Parts(p.name))
    ensures NameFree(db', id, p)
  {
    ReadyNames(db, db', p, parent, id, cleaned);
    LocationCheck(db', p, parent, cleaned);
    NameIsFree(db, db', p, parent, id);
  }

  lemma MissingSaved(db: Store, db': Store, p: Project, cleaned: seq<string>, parent: Option<Id>, id: Id)
    requires LocationReady(db, db', p, cleaned, Ok(parent)) && id !in db'
    requires NoBlankPart(Parts(p.name)) || BlankRoot(Parts(p.name))
    requires parent.Some? ==> parent.value in db'
    ensures EnsuredAs(db, p.company, Parts(p.name), Ok(Some(id)), db'[id := Placed(db', p, parent)])
  {
    if BlankRoot(Parts(p.name)) {
      BlankRootSave(db, db', p, parent, id);
    } else {
      NormalSave(db, db', p, parent, id);
    }
    SavedAccounted(db, db', p, parent, id, db'[id := Placed(db', p, parent)]);
  }

  lemma MissingRefused(db: Store, db': Store, p: Project, cleaned: seq<string>, parent: Option<Id>, id: Id)
    requires LocationReady(db, db', p, cleaned, Ok(parent)) && id !in db'
    requires !NoBlankPart(Parts(p.name)) && !BlankRoot(Parts(p.name))
    ensures EnsuredAs(db, p.company, Parts(p.name), Err(LocationMismatch), db')
  {
    BlankSave(db, db', p, parent, id);
    RefusedAccounted(db, db', p.company, p.name, Ok(parent), Err(LocationMismatch));
  }

  /** A name is refused with its location. */
  lemma LocationRefused(db: Store, db': Store, company: string, name: string, cleaned: seq<string>,
                        r: Result<Option<Id>, Error>)
    requires r.Err? && Parts(name)[|Parts(name)| - 1] != "" && cleaned == DropBlank(Parts(name)[..|Parts(name)| - 1])
    requires EnsuredAs(db, company, cleaned, r, db')
    ensures EnsuredAs(db, company, Parts(name), r, db')
  {
    var cp := Parts(name);
    NoLevelBlocks(db, company);
    if |cp| == 2 && cp[0] == "" {
      BlankFront(cp);
    }
    RefusedAccounted(db, db', company, name, r, r);
    if NoBlankPart(cp) {
      FrontAndLast(cp);
    }
  }

  /** A name without a basename is refused at once. */
  lemma BasenameRefused(db: Store, company: string, cp: seq<string>)
    requires Forest(db) && !NoName(cp) && cp[|cp| - 1] == ""
    ensures EnsuredAs(db, company, cp, Err(ValidationError), db)
  {
    assert !NoBlankPart(cp) && !BlankRoot(cp);
  }

  /** The levels of a cleaned name, those of its location, and its basename. */
  lemma CleanedName(name: string)
    requires CleanParts(name) != []
    ensures var cp := CleanParts(name);
      && Parts(CleanName(name)) == cp
      && CleanParts(Join(cp[..|cp| - 1], SEP)) == DropBlank(cp[..|cp| - 1])
      && (NoBlankPart(cp) ==> NormalPart(cp[|cp| - 1]))
  {
    PartsOfCleanName(name);
    CleanLocation(name);
    CleanPartsFree(name);
  }

  /** A name that somebody already has is not created again. */
  lemma NameTaken(db: Store, company: string, name: string, found: Result<Option<Id>, Error>)
    requires Forest(db) && CleanParts(name) != []
    requires found.Ok? ==>
      && found.value.Some? && found.value.value in db
      && db[found.value.value].company == company && db[found.value.value].name == CleanName(name)
    requires found.Err? ==>
      && (exists i :: i in db && db[i].company == "" && db[i].name == CleanName(name))
      && forall i :: i in db && db[i].company == company ==> db[i].name != CleanName(name)
    ensures NoBlankPart(CleanParts(name))
    ensures found.Err? ==> PublicBlocks(db, company, CleanParts(name))
  {
    var i := if found.Ok? then found.value.value else
      (var i :| i in db && db[i].company == "" && db[i].name == CleanName(name); i);
    PartsOfCleanName(name);
    StoredNameIsClean(db, i);
    if found.Err? {
      assert Blocks(db, company, CleanParts(name), i);
    }
  }

  lemma NewDepth(db: Store, db': Store, company: string, cp: seq<string>, r: Result<Option<Id>, Error>, maxDepth: nat)
    requires Ensured(db, db', company, cp, r) && |cp| <= maxDepth
    ensures DepthAtMost(db, maxDepth) ==> DepthAtMost(db', maxDepth)
  {
    if DepthAtMost(db, maxDepth) {
      EnsuredDepth(db, db', company, cp, r, maxDepth);
    }
  }

  /* ---------- Rename ---------- */

  ghost predicate RenameStep(db: Store, maxDepth: nat, company: string, id: Id, newName: string,
                             r: Result<(), Error>, db': Store)
  {
    && (r.Ok? <==> RenameAllowed(db, company, id, newName))
    && (r.Err? || newName == "" ==> db' == db)
    && (r.Ok? && newName != "" ==>
          && db' == Relocated(db, id, Renamed(db[id], newName), Descendants(db, id))
          && IsCleanUp(newName, Parts(db'[id].name))
          && (Forest(db') <==> !BlankRoot(CleanParts(newName))))
    && (DepthAtMost(db, maxDepth) ==> DepthAtMost(db', maxDepth))
  }

  lemma RenamedLevels(p: Project, newName: string)
    requires CleanParts(newName) != []
    ensures IsCleanUp(newName, Parts(Renamed(p, newName).name))
  {
    PartsOfCleanName(newName);
    CleanPartsMeans(newName, CleanParts(newName));
  }

  /* ---------- Move ---------- */

  /** What a move checks before it creates the new location. */
  ghost predicate MoveFits(db: Store, maxDepth: nat, company: string, id: Id, newLocation: string) {
    && id in db && db[id].company == company && (db[id].parent.Some? ==> company != "")
    && Fits(db, id, |CleanParts(newLocation)|, maxDepth)
  }

  /** What it checks once the project of the new location is known, up to the free name. */
  ghost predicate MoveAdmits(mid: Store, id: Id, parent: Option<Id>)
    requires id in mid && (parent.Some? ==> parent.value in mid)
  {
    && parent != mid[id].parent
    && (parent.Some? ==> id != parent.value && id !in mid[parent.value].path)
    && NameFree(mid, id, Repositioned(mid, id, parent))
  }

  /**
   * A move that fails its first checks changes nothing. Otherwise the new location is ensured,
   * giving `mid`; the move then goes through exactly if that worked and the project may go there,
   * and without it nothing more changes.
   */
  ghost predicate MoveStep(db: Store, maxDepth: nat, company: string, id: Id, newLocation: string,
                           r: Result<nat, Error>, mid: Store, ensured: Result<Option<Id>, Error>, db': Store)
  {
    var cp := CleanParts(newLocation);
    if !MoveFits(db, maxDepth, company, id, newLocation) then r.Err? && db' == db
    else
      && EnsureStep(db, company, newLocation, ensured, mid)
      && id in mid && (ensured.Ok? && ensured.value.Some? ==> ensured.value.value in mid)
      && (r.Ok? <==> ensured.Ok? && MoveAdmits(mid, id, ensured.value))
      && (r.Err? ==> db' == mid && Forest(db'))
      && (r.Ok? ==>
            && r.value == 1 + |Descendants(db, id)|
            && db' == Relocated(mid, id, Repositioned(mid, id, ensured.value), Descendants(db, id))
            && (Forest(db') <==> !BlankRoot(cp))
            && (!BlankRoot(cp) ==> Parts(db'[id].name) == DropBlank(cp) + [db[id].basename]))
      && (DepthAtMost(db, maxDepth) && !BlankRoot(cp) ==> DepthAtMost(db', maxDepth))
  }

  /** What ensuring the location leaves of the moved project, and of the depth. */
  lemma MidKeeps(db: Store, mid: Store, maxDepth: nat, company: string, id: Id, newLocation: string,
                 ensured: Result<Option<Id>, Error>)
    requires Forest(db) && MoveFits(db, maxDepth, company, id, newLocation)
    requires EnsureStep(db, company, newLocation, ensured, mid)
    ensures id in mid && mid[id] == db[id] && Extends(db, mid)
    ensures ensured.Ok? && ensured.value.Some? ==> ensured.value.value in mid
    ensures !BlankRoot(CleanParts(newLocation)) ==> Forest(mid)
    ensures BlankRoot(CleanParts(newLocation)) ==>
      && ensured.Ok? && ensured.value.Some? && MoveAdmits(mid, id, ensured.value)
    ensures DepthAtMost(db, maxDepth) ==> DepthAtMost(mid, maxDepth)
  {
    var cp := CleanParts(newLocation);
    NewDepth(db, mid, company, cp, ensured, maxDepth);
    if BlankRoot(cp) {
      BlankMoveHasNoClash(db, mid, id, cp, ensured.value);
      assert Linked(db, id);
    }
  }

  /** How the repositioning at the end of a move turns out. */
  lemma MoveEnds(db: Store, mid: Store, maxDepth: nat, company: string, id: Id, newLocation: string, parent: Option<Id>)
    requires Forest(db) && MoveFits(db, maxDepth, company, id, newLocation)
    requires EnsureStep(db, company, newLocation, Ok(parent), mid) && (parent.Some? ==> parent.value in mid)
    requires parent.Some? ==> id != parent.value && id !in mid[parent.value].path
    ensures id in mid && mid[id] == db[id] && id !in Descendants(db, id)
    ensures var root, D := Repositioned(mid, id, parent), Descendants(db, id);
      && Location(root.name, SEP) == (if parent.Some? then mid[parent.value].name else "")
      && (NameFree(mid, id, root) ==> NoClash(mid[id := root], D, root, mid[id]))
    ensures var cp, root, D := CleanParts(newLocation), Repositioned(mid, id, parent), Descendants(db, id);
      var now := Relocated(mid, id, root, D);
      NameFree(mid, id, root) ==>
        && (Forest(now) <==> !BlankRoot(cp))
        && (!BlankRoot(cp) ==> Parts(now[id].name) == DropBlank(cp) + [db[id].basename])
        && (DepthAtMost(db, maxDepth) && !BlankRoot(cp) ==> DepthAtMost(now, maxDepth))
  {
    var cp := CleanParts(newLocation);
    DescendantsAreBelow(db, id);
    if BlankRoot(cp) {
      BlankMoveHasNoClash(db, mid, id, cp, parent);
    } else {
      RepositionedLocation(mid, id, parent);
    }
    if NameFree(mid, id, Repositioned(mid, id, parent)) {
      MoveDone(db, mid, id, cp, parent, maxDepth);
      if !BlankRoot(cp) {
        MoveOutcome(db, mid, id, cp, parent);
      }
    }
  }

  /* ---------- Merge ---------- */

  /** A merge that stops: some children are moved, the next one at most with some of its own children. */
  ghost predicate Stopped(db: Store, s: Id, dest: Option<Id>, done: set<Id>, c: Id, part: set<Id>, db': Store)
    requires s in db && (dest.Some? ==> dest.value in db)
  {
    && done < Children(db, s) && c in Children(db, s) - done && part <= Children(db, c)
    && c in PartlyMerged(db, s, dest, done)
    && (|| db' == PartlyMerged(db, s, dest, done)
        || db' == Relocated(PartlyMerged(db, s, dest, done), c, Rehomed(db, s, dest, c), part))
  }

  /** The arguments of a merge, and the depth of what it moves. */
  ghost predicate MergeFits(db: Store, maxDepth: nat, company: string, s: Id, dest: Option<Id>) {
    && s in db && db[s].company == company && GoodDestination(db, s, dest)
    && (dest.Some? ==> forall i :: i in Descendants(db, s) ==>
          |db[i].path| - |db[s].path| + |db[dest.value].path| + 1 <= maxDepth)
  }

  /**
   * A merge that does not fit changes nothing. Otherwise it ends as specified or stops in the
   * middle; it ends only if the target names are free, and with nothing deep exactly then.
   */
  ghost predicate MergeOutcome(db: Store, maxDepth: nat, company: string, s: Id, dest: Option<Id>,
                               r: Result<nat, Error>, db': Store)
  {
    if !MergeFits(db, maxDepth, company, s, dest) then r.Err? && db' == db
    else
      && (r.Ok? ==> TargetsFree(db, s, dest, Children(db, s)))
      && (Shallow(db, s) && TargetsFree(db, s, dest, Children(db, s)) ==> r.Ok?)
      && (r.Ok? ==>
            && db' == Merged(db, s, dest) && r.value == |Children(db, s)|
            && (Forest(db') <==> Shallow(db, s)))
      && (r.Err? ==> exists done, c, part :: Stopped(db, s, dest, done, c, part, db'))
      && (Shallow(db, s) ==> Forest(db'))
      && (DepthAtMost(db, maxDepth) && (r.Ok? || Shallow(db, s)) ==> DepthAtMost(db', maxDepth))
  }

  /** Where a merge is when it moves the next child. */
  lemma StoppedHere(db: Store, s: Id, dest: Option<Id>, done: set<Id>, now: Store, c: Id)
    requires MergeStage(db, s, dest, done, now) && c in Children(db, s) && c !in done
    ensures c in now && (dest.Some? ==> dest.value in now)
    ensures Stopped(db, s, dest, done, c, {}, now)
    ensures forall part :: part <= Children(db, c) ==>
      Stopped(db, s, dest, done, c, part, Relocated(now, c, Repositioned(now, c, dest), part))
  {
    MergeStepRoot(db, s, dest, done, c);
  }

  /** How a merge turns out after its rounds. */
  lemma MergeEnds(db: Store, maxDepth: nat, company: string, s: Id, dest: Option<Id>, r: Result<nat, Error>,
                  done: set<Id>, now: Store)
    requires Forest(db) && MergeFits(db, maxDepth, company, s, dest)
    requires r.Ok? ==> MergeStage(db, s, dest, done, now) && done == Children(db, s) && r.value == |done|
    requires r.Err? ==> exists c, part :: Stopped(db, s, dest, done, c, part, now)
    requires r.Err? && Shallow(db, s) ==>
      MergeStage(db, s, dest, done, now) && !TargetsFree(db, s, dest, Children(db, s))
    ensures MergeOutcome(db, maxDepth, company, s, dest, r, if r.Ok? then now - {s} else now)
  {
    if r.Ok? || Shallow(db, s) {
      MergeKeeps(db, s, dest, done, now);
      if DepthAtMost(db, maxDepth) {
        MergedDepth(db, s, dest, done, maxDepth);
      }
    }
  }

  /* ---------- Steps ---------- */

  datatype Command =
    | Create(company: string, name: string)
    | Ensure(company: string, name: string)
    | Rename(company: string, id: Id, name: string)
    | Move(company: string, id: Id, location: string)
    | Merge(company: string, source: Id, destination: Option<Id>)

  /** What a caller can check beforehand: no `BlankRoot` name, and no merge of a deep project. */
  predicate Admissible(db: Store, maxDepth: nat, command: Command) {
    match command
    case Create(_, name) => !BlankRoot(CleanParts(name))
    case Ensure(_, name) => !BlankRoot(CleanParts(name)) && |CleanParts(name)| <= maxDepth
    case Rename(_, _, name) => !BlankRoot(CleanParts(name))
    case Move(_, _, location) => !BlankRoot(CleanParts(location))
    case Merge(_, source, _) => source in db ==> Shallow(db, source)
  }

  /** The collection after one command. */
  ghost predicate Step(db: Store, maxDepth: nat, command: Command, db': Store) {
    match command
    case Create(company, name) => exists r :: CreateStep(db, maxDepth, company, name, r, db')
    case Ensure(company, name) => exists r :: EnsureStep(db, company, name, r, db')
    case Rename(company, id, name) => exists r :: RenameStep(db, maxDepth, company, id, name, r, db')
    case Move(company, id, location) =>
      exists r, mid, ensured :: MoveStep(db, maxDepth, company, id, location, r, mid, ensured, db')
    case Merge(company, source, destination) =>
      exists r :: MergeOutcome(db, maxDepth, company, source, destination, r, db')
  }

  ghost predicate AdmissibleStep(db: Store, maxDepth: nat, command: Command, db': Store) {
    Admissible(db, maxDepth, command) && Step(db, maxDepth, command, db')
  }

  /** Every admissible command keeps the forest and the depth limit, whether it succeeds or fails. */
  lemma StepKeeps(db: Store, maxDepth: nat, command: Command, db': Store)
    requires AdmissibleStep(db, maxDepth, command, db') && Forest(db) && DepthAtMost(db, maxDepth)
    ensures Forest(db') && DepthAtMost(db', maxDepth)
  {
    match command
    case Create(_, _) =>
    case Ensure(company, name) =>
      var r :| EnsureStep(db, company, name, r, db');
      EnsuredDepth(db, db', company, CleanParts(name), r, maxDepth);
    case Rename(_, _, name) =>
      assert name == "" ==> Parts(name) == [""];
    case Move(company, id, location) =>
      var r, mid, ensured :| MoveStep(db, maxDepth, company, id, location, r, mid, ensured, db');
    case Merge(_, _, _) =>
  }

  /** A run: the collections before the first and after every command carried out. */
  ghost predicate IsRun(trace: seq<Store>, maxDepth: nat, commands: seq<Command>) {
    && |trace| == |commands| + 1
    && forall n :: 0 <= n < |commands| ==> AdmissibleStep(trace[n], maxDepth, commands[n], trace[n + 1])
  }

  lemma LongerRun(trace: seq<Store>, maxDepth: nat, commands: seq<Command>, n: nat, db: Store, db': Store)
    requires n < |commands| && IsRun(trace, maxDepth, commands[..n]) && trace[n] == db
    requires AdmissibleStep(db, maxDepth, commands[n], db')
    ensures IsRun(trace + [db'], maxDepth, commands[..n + 1])
  {
    var longer, front := trace + [db'], commands[..n];
    forall k | 0 <= k <= n ensures AdmissibleStep(longer[k], maxDepth, commands[..n + 1][k], longer[k + 1]) {
      if k < n {
        assert longer[k] == trace[k] && longer[k + 1] == trace[k + 1] && commands[..n + 1][k] == front[k];
        assert AdmissibleStep(trace[k], maxDepth, front[k], trace[k + 1]);
      } else {
        assert longer[k] == db && longer[k + 1] == db' && commands[..n + 1][k] == commands[n];
      }
    }
  }

  /** In every run of admissible commands every collection is a forest within the depth limit. */
  lemma {:induction false} RunKeeps(trace: seq<Store>, maxDepth: nat, commands: seq<Command>, n: nat)
    requires IsRun(trace, maxDepth, commands) && n < |trace|
    requires Forest(trace[0]) && DepthAtMost(trace[0], maxDepth)
    ensures Forest(trace[n]) && DepthAtMost(trace[n], maxDepth)
  {
    if n > 0 {
      RunKeeps(trace, maxDepth, commands, n - 1);
      StepKeeps(trace[n - 1], maxDepth, commands[n - 1], trace[n]);
    }
  }
}
