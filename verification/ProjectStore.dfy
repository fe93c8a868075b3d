/**
 * The operations on the stored projects, each a sequence of atomic saves and updates under the
 * unique index on (company, name). Every operation says what it leaves behind on success and on
 * every error.
 */
module ProjectStore {
  import opened Wrappers
  import opened Strings
  import opened ProjectForest
  import opened ProjectNames
  import opened ProjectMerge
  import opened ProjectMoves
  import opened ProjectEnsure
  import opened ProjectSteps

  class Projects {
    var projects: Store
    const maxDepth: nat

    constructor (maxDepth: nat)
      ensures projects == map[] && Forest(projects) && this.maxDepth == maxDepth
    {
      projects := map[];
      this.maxDepth := maxDepth;
    }

    /** A fresh random id. */
    method NewId() returns (id: Id)
      ensures id !in projects
    {
      FreshIdExists(projects);
      id :| id !in projects;
    }

    /** The members of a set in some order: the result list of a query. */
    method Listed(s: set<Id>) returns (xs: seq<Id>)
      ensures forall k :: 0 <= k < |xs| ==> xs[k] in s
      ensures SetOf(xs) == s && forall i :: i in xs <==> i in s
      ensures forall k, m :: 0 <= k < m < |xs| ==> xs[k] != xs[m]
      ensures |xs| == |s|
    {
      var rest := s;
      xs := [];
      while rest != {}
        invariant rest <= s && (forall i :: i in s <==> i in rest || i in xs)
        invariant forall k :: 0 <= k < |xs| ==> xs[k] in s
        invariant forall i :: i in rest ==> i !in xs
        invariant forall k, m :: 0 <= k < m < |xs| ==> xs[k] != xs[m]
        invariant |xs| + |rest| == |s|
        decreases rest
      {
        var x :| x in rest;
        xs := xs + [x];
        rest := rest - {x};
      }
    }

    /** Write one record under the unique index on company and name. */
    method Save(id: Id, p: Project) returns (ok: bool)
      modifies this
      ensures ok <==> NameFree(old(projects), id, p)
      ensures projects == if ok then old(projects)[id := p] else old(projects)
    {
      ok := !(exists j :: j in projects && j != id && projects[j].company == p.company && projects[j].name == p.name);
      if ok {
        projects := projects[id := p];
      }
    }

    /** Store `p` under the given parent or at the top, checking its location against the parent's name. */
    method SaveUnderParent(id: Id, p: Project, parent: Option<Id>) returns (r: Result<(), Error>)
      requires parent.Some? ==> parent.value in projects
      modifies this
      ensures r == Err(LocationMismatch) <==>
        Location(p.name, SEP) != (if parent.Some? then old(projects)[parent.value].name else "")
      ensures r.Err? ==> projects == old(projects) && r.error in {LocationMismatch, NotUnique}
      ensures r == Err(NotUnique) ==> !NameFree(old(projects), id, p)
      ensures r.Ok? ==>
        && projects == old(projects)[id := p.(parent := parent, path := DestPath(old(projects), parent))]
        && NameFree(old(projects), id, p)
    {
      var location := Location(p.name, SEP);
      var saved := p;
      if parent == None {
        if location != "" {
          return Err(LocationMismatch);
        }
        saved := p.(parent := None, path := []);
      } else {
        if location != projects[parent.value].name {
          return Err(LocationMismatch);
        }
        saved := p.(parent := parent, path := projects[parent.value].path + [parent.value]);
      }
      var ok := Save(id, saved);
      r := if ok then Ok(()) else Err(NotUnique);
    }

    /** Rewrite the names, and optionally the paths, of `children` after their base project changed. */
    method UpdateSubprojectNames(root: Project, children: seq<Id>, was: Project, updatePath: bool)
      returns (r: Result<nat, Error>)
      requires forall k :: 0 <= k < |children| ==> children[k] in projects
      requires forall k, m :: 0 <= k < m < |children| ==> children[k] != children[m]
      modifies this
      ensures r.Ok? ==>
        && projects == Followed(old(projects), SetOf(children), root, was, updatePath)
        && r.value == |children|
      ensures r.Err? ==> exists done ::
        done < SetOf(children) && projects == Followed(old(projects), done, root, was, updatePath)
      ensures NoClash(old(projects), SetOf(children), root, was) ==> r.Ok?
    {
      ghost var done: set<Id> := {};
      assert projects == Followed(projects, {}, root, was, updatePath);
      for n := 0 to |children|
        invariant done == SetOf(children[..n])
        invariant projects == Followed(old(projects), done, root, was, updatePath)
      {
        var c := children[n];
        SetOfPrefix(children, n);
        FollowedStep(old(projects), done, c, root, was, updatePath);
        var updated := projects[c].(name := NewName(root.name, was.name, projects[c].name));
        if updatePath {
          updated := updated.(path := root.path + From(projects[c].path, |was.path|));
        }
        if NoClash(old(projects), SetOf(children), root, was) {
          NoClashIsFree(old(projects), SetOf(children), done, c, root, was, updatePath);
        }
        var ok := Save(c, updated);
        if !ok {
          NotAll(children, n);
          return Err(NotUnique);
        }
        done := done + {c};
      }
      assert children[..|children|] == children;
      r := Ok(|children|);
    }

    /** Put a project under a new parent, at the top without one, and have `children` follow it. */
    method RepositionWithChildren(id: Id, children: seq<Id>, parent: Option<Id>) returns (r: Result<nat, Error>)
      requires id in projects && id !in children
      requires parent.Some? ==> parent.value in projects
      requires forall k :: 0 <= k < |children| ==> children[k] in projects
      requires forall k, m :: 0 <= k < m < |children| ==> children[k] != children[m]
      modifies this
      ensures r.Ok? ==>
        var root := Repositioned(old(projects), id, parent);
        && projects == Relocated(old(projects), id, root, SetOf(children))
        && r.value == 1 + |children|
        && Location(root.name, SEP) == (if parent.Some? then old(projects)[parent.value].name else "")
        && NameFree(old(projects), id, root)
      ensures var root := Repositioned(old(projects), id, parent);
        && NameFree(old(projects), id, root)
        && Location(root.name, SEP) == (if parent.Some? then old(projects)[parent.value].name else "")
        && NoClash(old(projects)[id := root], SetOf(children), root, old(projects)[id])
        ==> r.Ok?
      ensures var root := Repositioned(old(projects), id, parent);
        r.Err? && (NameFree(old(projects), id, root)
                   ==> NoClash(old(projects)[id := root], SetOf(children), root, old(projects)[id]))
        ==> projects == old(projects)
      ensures r.Err? ==>
        || projects == old(projects)
        || exists part :: part <= SetOf(children)
             && projects == Relocated(old(projects), id, Repositioned(old(projects), id, parent), part)
    {
      var was := projects[id];
      var location := if parent.Some? then projects[parent.value].name else "";
      var project := was.(name := NameUnder(location, was.name));
      var saved := SaveUnderParent(id, project, parent);
      if saved.Err? {
        return Err(saved.error);
      }
      var root := projects[id];
      assert root == Repositioned(old(projects), id, parent);
      var moved := UpdateSubprojectNames(root, children, was, true);
      if moved.Err? {
        ghost var part :| part < SetOf(children)
          && projects == Followed(old(projects)[id := root], part, root, was, true);
        FollowedIsRelocated(old(projects), id, root, part);
        return moved;
      }
      FollowedIsRelocated(old(projects), id, root, SetOf(children));
      r := Ok(1 + moved.value);
    }

    /** The company's own project of that name; a public one of that name is an error. */
    method GetWritableProjectFromName(company: string, name: string) returns (r: Result<Option<Id>, Error>)
      ensures r.Ok? && r.value.Some? ==>
        r.value.value in projects && projects[r.value.value].company == company && projects[r.value.value].name == name
      ensures r == Ok(None) ==>
        forall i :: i in projects && projects[i].company in {company, ""} ==> projects[i].name != name
      ensures r.Err? ==>
        && r.error == PublicProjectExists
        && (exists i :: i in projects && projects[i].company == "" && projects[i].name == name)
        && forall i :: i in projects && projects[i].company == company ==> projects[i].name != name
    {
      if i :| i in projects && projects[i].company == company && projects[i].name == name {
        return Ok(Some(i));
      }
      if i :| i in projects && projects[i].company == "" && projects[i].name == name {
        return Err(PublicProjectExists);
      }
      return Ok(None);
    }

    /**
     * Make sure a project of the given name exists, creating it and every missing ancestor.
     * For every name: nothing stored is touched, the outcome is a forest unless the name is a
     * `BlankRoot`, and then it is not.
     */
    method EnsureProject(company: string, name: string) returns (r: Result<Option<Id>, Error>)
      requires Forest(projects)
      modifies this
      ensures EnsureStep(old(projects), company, name, r, projects)
      decreases |CleanParts(name)|, 2
    {
      var clean := CleanName(name);
      EmptyName(name);
      CleanPartsMeans(name, CleanParts(name));
      if clean == "" {
        NothingNamed(projects, company, CleanParts(name));
        return Ok(None);
      }
      PartsOfCleanName(name);
      var found := GetWritableProjectFromName(company, clean);
      if found.Err? || found.value.Some? {
        ghost var i :| i in projects && projects[i].name == clean && (found.Err? || found.value.value == i)
          && projects[i].company == (if found.Err? then "" else company);
        FoundByName(projects, company, CleanParts(name), i, found);
        FoundAccounted(projects, company, CleanParts(name), i, found);
        return found;
      }
      r := AddMissing(company, name);
    }

    /** Save the missing project `p` if the project of its location has been ensured. */
    method SaveMissing(ghost db: Store, p: Project, ghost cleaned: seq<string>, location: Result<Option<Id>, Error>)
      returns (r: Result<Option<Id>, Error>)
      requires LocationReady(db, projects, p, cleaned, location)
      modifies this
      ensures EnsuredAs(db, p.company, Parts(p.name), r, projects)
      ensures r.Ok? ==> r.value.Some? && r.value.value !in db
    {
      if location.Err? {
        LocationRefused(db, projects, p.company, p.name, cleaned, location);
        return location;
      }
      var parent := location.value;
      // Ids are fresh whenever they are drawn.
      var id := NewId();
      MissingChecked(db, projects, p, cleaned, parent, id);
      if NoBlankPart(Parts(p.name)) || BlankRoot(Parts(p.name)) {
        MissingSaved(db, projects, p, cleaned, parent, id);
      } else {
        MissingRefused(db, projects, p, cleaned, parent, id);
      }
      var saved := SaveUnderParent(id, p, parent);
      r := if saved.Ok? then Ok(Some(id)) else Err(saved.error);
    }

    /** Save a project nobody has yet, after ensuring the project of its location. */
    method AddProject(p: Project, location: string) returns (r: Result<Option<Id>, Error>)
      requires Forest(projects) && p.basename == Parts(p.name)[|Parts(p.name)| - 1]
      requires (NoBlankPart(Parts(p.name)) ==> NormalPart(p.basename)) && !NoName(Parts(p.name))
      requires forall i :: i in projects && projects[i].company in {p.company, ""} ==> projects[i].name != p.name
      requires CleanParts(location) == DropBlank(Parts(p.name)[..|Parts(p.name)| - 1])
      modifies this
      ensures EnsuredAs(old(projects), p.company, Parts(p.name), r, projects)
      ensures r.Ok? ==> r.value.Some? && r.value.value !in old(projects)
      decreases |Parts(p.name)|, 0
    {
      if p.basename == "" {
        BasenameRefused(projects, p.company, Parts(p.name));
        return Err(ValidationError);
      }
      var parent := EnsureProject(p.company, location);
      r := SaveMissing(old(projects), p, CleanParts(location), parent);
    }

    /** Add the missing project of a requested name. */
    method AddMissing(company: string, name: string) returns (r: Result<Option<Id>, Error>)
      requires Forest(projects) && !NoName(CleanParts(name))
      requires forall i :: i in projects && projects[i].company in {company, ""} ==> projects[i].name != CleanName(name)
      modifies this
      ensures EnsureStep(old(projects), company, name, r, projects)
      ensures r.Ok? ==> r.value.Some? && r.value.value !in old(projects)
      decreases |CleanParts(name)|, 1
    {
      var cp := CleanParts(name);
      CleanedName(name);
      CleanPartsMeans(name, cp);
      r := AddProject(Project(company, CleanName(name), cp[|cp| - 1], None, []), Join(cp[..|cp| - 1], SEP));
    }

    /**
     * Create a new project with all its missing ancestors. On success the outcome is a forest if
     * and only if the name is no `BlankRoot`; no error breaks the forest or the depth limit.
     */
    method Create(company: string, name: string) returns (r: Result<Id, Error>)
      requires Forest(projects)
      modifies this
      ensures CreateStep(old(projects), maxDepth, company, name, r, projects)
    {
      if CountNonEmpty(Parts(name)) > maxDepth {
        return Err(ProjectPathExceedsMax);
      }
      if CleanParts(name) == [] {
        return Err(InvalidProjectName);
      }
      var found := GetWritableProjectFromName(company, CleanName(name));
      if found.Err? || found.value.Some? {
        NameTaken(projects, company, name, found);
        return Err(if found.Err? then found.error else ExpectedUniqueData);
      }
      var cp := CleanParts(name);
      if cp[|cp| - 1] == "" {
        return Err(ValidationError);
      }
      CleanPartsMeans(name, cp);
      var added := AddMissing(company, name);
      NewDepth(old(projects), projects, company, CleanParts(name), added, maxDepth);
      r := if added.Ok? then Ok(added.value.value) else Err(added.error);
    }

    /** The cleaned location of a stored project. */
    method LocationOf(id: Id) returns (location: string)
      requires Forest(projects) && id in projects
      ensures location == Location(projects[id].name, SEP)
    {
      StoredLocation(projects, id);
      var cp := CleanParts(projects[id].name);
      location := Join(cp[..|cp| - 1], SEP);
    }

    /** The checks of a new name's levels: some, in the same location, with a basename. */
    method CheckNewName(id: Id, cp: seq<string>) returns (stop: Option<Error>)
      requires Forest(projects) && id in projects
      ensures stop == None <==> InLocation(cp, projects[id].name)
    {
      if cp == [] {
        return Some(InvalidProjectName);
      }
      var oldLocation := LocationOf(id);
      if Join(cp[..|cp| - 1], SEP) != oldLocation {
        return Some(CannotUpdateProjectLocation);
      }
      if cp[|cp| - 1] == "" {
        return Some(ValidationError);
      }
      return None;
    }

    /** The checks before a rename, and the error that stops it. */
    method CheckRename(company: string, id: Id, newName: string) returns (stop: Option<Error>)
      requires Forest(projects)
      ensures stop == None <==> RenameFits(projects, company, id, newName)
    {
      if id !in projects || projects[id].company !in {company, ""} {
        return Some(InvalidProjectId);
      }
      if projects[id].company == "" {
        return Some(NoWritePermission);
      }
      if newName == "" {
        return None;
      }
      stop := CheckNewName(id, CleanParts(newName));
    }

    /** Store the new name, then those of the descendants. */
    method ApplyRename(id: Id, newName: string) returns (r: Result<(), Error>)
      requires Forest(projects) && id in projects && newName != ""
      requires RenameFits(projects, projects[id].company, id, newName)
      modifies this
      ensures r.Ok? <==> NameFree(old(projects), id, Renamed(old(projects)[id], newName))
      ensures r.Err? ==> projects == old(projects)
      ensures r.Ok? ==>
        && projects == Relocated(old(projects), id, Renamed(old(projects)[id], newName), Descendants(old(projects), id))
        && (Forest(projects) <==> !BlankRoot(CleanParts(newName))) && IsCleanUp(newName, Parts(projects[id].name))
        && forall i :: i in projects ==> i in old(projects) && |projects[i].path| == |old(projects)[i].path|
    {
      var was, cp := projects[id], CleanParts(newName);
      var root := was.(name := CleanName(newName), basename := cp[|cp| - 1]);
      var ok := Save(id, root);
      if !ok {
        return Err(NotUnique);
      }
      RenameOutcome(old(projects), id, newName);
      RenamedLevels(was, newName);
      SameDescendants(old(projects), id, root);
      var children := Listed(Descendants(projects, id));
      assert SetOf(children) == Descendants(old(projects), id);
      var _ := UpdateSubprojectNames(root, children, was, false);
      r := Ok(());
    }

    /** Rename a project in place; its descendants follow. */
    method Rename(company: string, id: Id, newName: string) returns (r: Result<(), Error>)
      requires Forest(projects)
      modifies this
      ensures RenameStep(old(projects), maxDepth, company, id, newName, r, projects)
    {
      var stop := CheckRename(company, id, newName);
      if stop.Some? {
        return Err(stop.value);
      }
      if newName == "" {
        return Ok(());
      }
      r := ApplyRename(id, newName);
    }

    /** No project may end deeper than the limit when the depth of its ancestor's parent changes. */
    method ValidateProjectsDepth(ids: seq<Id>, oldParentDepth: nat, newParentDepth: nat) returns (ok: bool)
      requires forall i :: i in ids ==> i in projects
      ensures ok <==> forall i :: i in ids ==> |projects[i].path| + 1 - oldParentDepth + newParentDepth <= maxDepth
    {
      for n := 0 to |ids|
        invariant forall i :: i in ids[..n] ==> |projects[i].path| + 1 - oldParentDepth + newParentDepth <= maxDepth
      {
        if |projects[ids[n]].path| + 1 - oldParentDepth + newParentDepth > maxDepth {
          return false;
        }
      }
      ok := true;
    }

    /** The checks before a move, and the descendants that will follow. */
    method CheckMove(company: string, id: Id, newLocation: string) returns (r: Result<seq<Id>, Error>)
      requires Forest(projects)
      ensures r.Ok? <==> MoveFits(projects, maxDepth, company, id, newLocation)
      ensures r.Ok? ==>
        && SetOf(r.value) == Descendants(projects, id) && |r.value| == |Descendants(projects, id)|
        && (forall k :: 0 <= k < |r.value| ==> r.value[k] in Descendants(projects, id))
        && (forall k, m :: 0 <= k < m < |r.value| ==> r.value[k] != r.value[m])
    {
      if id !in projects || projects[id].company != company {
        return Err(InvalidProjectId);
      }
      assert Linked(projects, id);
      var oldParent := projects[id].parent;
      if oldParent.Some? && projects[oldParent.value].company == "" {
        return Err(NoWritePermission);
      }
      var children := Listed(Descendants(projects, id));
      var ok := ValidateProjectsDepth([id] + children, |projects[id].path|, CountNonEmpty(Parts(newLocation)));
      assert ok <==> Fits(projects, id, |CleanParts(newLocation)|, maxDepth) by {
        assert id in [id] + children;
        assert forall i :: i in [id] + children <==> i == id || i in Descendants(projects, id);
      }
      r := if ok then Ok(children) else Err(ProjectPathExceedsMax);
    }

    /**
     * Move a project with all its descendants to another location, creating the location first.
     * `mid` is the collection after the location was ensured with the result `ensured`.
     */
    method Move(company: string, id: Id, newLocation: string)
      returns (r: Result<nat, Error>, ghost mid: Store, ghost ensured: Result<Option<Id>, Error>)
      requires Forest(projects)
      modifies this
      ensures MoveStep(old(projects), maxDepth, company, id, newLocation, r, mid, ensured, projects)
    {
      mid, ensured := projects, Ok(None);
      var checked := CheckMove(company, id, newLocation);
      if checked.Err? {
        r := Err(checked.error);
        return;
      }
      var oldParent := projects[id].parent;
      var newParent := EnsureProject(company, newLocation);
      mid, ensured := projects, newParent;
      MidKeeps(old(projects), mid, maxDepth, company, id, newLocation, newParent);
      if newParent.Err? {
        r := Err(newParent.error);
        return;
      }
      var parent := newParent.value;
      if oldParent == parent {
        r := Err(SourceAndDestinationAreTheSame);
        return;
      }
      if parent.Some? && (id == parent.value || id in projects[parent.value].path) {
        r := Err(ProjectCannotBeMovedUnderItself);
        return;
      }
      MoveEnds(old(projects), mid, maxDepth, company, id, newLocation, parent);
      r := RepositionWithChildren(id, checked.value, parent);
    }

    /** One round of a merge: reposition `c` together with those of the fetched records whose parent it is. */
    method MergeChild(source: Id, destination: Option<Id>, before: Store, below: seq<Id>, c: Id, ghost done: set<Id>)
      returns (r: Result<nat, Error>)
      requires MergeStage(before, source, destination, done, projects)
      requires SetOf(below) == Descendants(before, source) && c in Children(before, source) && c !in done
      modifies this
      ensures r.Ok? ==> MergeStage(before, source, destination, done + {c}, projects)
      ensures r.Err? ==> exists part :: Stopped(before, source, destination, done, c, part, projects)
      ensures r.Err? && Shallow(before, source) ==>
        projects == old(projects) && !NameFree(before, c, Rehomed(before, source, destination, c))
    {
      var own := Listed(set i | i in SetOf(below) && before[i].parent == Some(c));
      OwnChildren(before, source, c);
      assert SetOf(own) == Children(before, c);
      MergeNext(before, source, destination, done, projects, c);
      MergeNextTarget(before, source, destination, done, projects, c);
      StoppedHere(before, source, destination, done, projects, c);
      r := RepositionWithChildren(c, own, destination);
    }

    /** All rounds of a merge; the first error ends it. */
    method MergeChildren(source: Id, destination: Option<Id>, below: seq<Id>)
      returns (r: Result<nat, Error>, ghost done: set<Id>)
      requires Forest(projects) && source in projects && GoodDestination(projects, source, destination)
      requires SetOf(below) == Descendants(projects, source)
      modifies this
      ensures r.Ok? ==>
        && MergeStage(old(projects), source, destination, done, projects)
        && done == Children(old(projects), source) && r.value == |done|
      ensures r.Err? ==> exists c, part :: Stopped(old(projects), source, destination, done, c, part, projects)
      ensures r.Err? && Shallow(old(projects), source) ==>
        && MergeStage(old(projects), source, destination, done, projects)
        && !TargetsFree(old(projects), source, destination, Children(old(projects), source))
    {
      var before := projects;
      var children := Listed(Children(projects, source));
      done := {};
      MergeStart(before, source, destination);
      for n := 0 to |children|
        invariant MergeStage(before, source, destination, done, projects)
        invariant done == SetOf(children[..n])
      {
        var c := children[n];
        SetOfPrefix(children, n);
        r := MergeChild(source, destination, before, below, c, done);
        if r.Err? {
          if Shallow(before, source) {
            TakenTarget(before, source, destination, c);
          }
          return;
        }
        done := done + {c};
      }
      assert children[..|children|] == children;
      r := Ok(|children|);
    }

    /** The checks before a merge, and the descendants that may follow. */
    method CheckMerge(company: string, source: Id, destination: Option<Id>) returns (r: Result<seq<Id>, Error>)
      ensures r.Ok? <==> MergeFits(projects, maxDepth, company, source, destination)
      ensures r.Ok? ==> SetOf(r.value) == Descendants(projects, source)
    {
      if destination == Some(source) {
        return Err(SourceAndDestinationAreTheSame);
      }
      if source !in projects || projects[source].company != company {
        return Err(InvalidProjectId);
      }
      if destination.Some? {
        if destination.value !in projects || projects[destination.value].company != company {
          return Err(InvalidProjectId);
        }
        if source in projects[destination.value].path {
          return Err(ProjectCannotBeMergedIntoItsChild);
        }
      }
      var below := Listed(Descendants(projects, source));
      if destination.Some? {
        var ok := ValidateProjectsDepth(below, |projects[source].path| + 1, |projects[destination.value].path| + 1);
        if !ok {
          return Err(ProjectPathExceedsMax);
        }
      }
      r := Ok(below);
    }

    /**
     * Move the children of `source` under `destination`, or to the top without one, and delete
     * `source`. Each child is followed by its direct children only.
     */
    method Merge(company: string, source: Id, destination: Option<Id>) returns (r: Result<nat, Error>)
      requires Forest(projects)
      modifies this
      ensures MergeOutcome(old(projects), maxDepth, company, source, destination, r, projects)
    {
      var checked := CheckMerge(company, source, destination);
      if checked.Err? {
        return Err(checked.error);
      }
      ghost var done;
      r, done := MergeChildren(source, destination, checked.value);
      MergeEnds(old(projects), maxDepth, company, source, destination, r, done, projects);
      if r.Ok? {
        projects := projects - {source};
      }
    }

    /** Carry out one command. */
    method Execute(command: Command)
      requires Forest(projects)
      modifies this
      ensures Step(old(projects), maxDepth, command, projects)
    {
      match command
      case Create(company, name) =>
        var r := Create(company, name);
        assert CreateStep(old(projects), maxDepth, company, name, r, projects);
      case Ensure(company, name) =>
        var r := EnsureProject(company, name);
        assert EnsureStep(old(projects), company, name, r, projects);
      case Rename(company, id, name) =>
        var r := Rename(company, id, name);
        assert RenameStep(old(projects), maxDepth, company, id, name, r, projects);
      case Move(company, id, location) =>
        var r, mid, ensured := Move(company, id, location);
        assert MoveStep(old(projects), maxDepth, company, id, location, r, mid, ensured, projects);
      case Merge(company, source, destination) =>
        var r := Merge(company, source, destination);
        assert MergeOutcome(old(projects), maxDepth, company, source, destination, r, projects);
    }

    /**
     * Any run of commands, up to the first that is not admissible. The trace holds the collection
     * before the first and after every command carried out: each is a forest within the depth
     * limit, whether the commands succeed or fail.
     */
    method Run(commands: seq<Command>) returns (executed: nat, ghost trace: seq<Store>)
      requires Forest(projects) && DepthAtMost(projects, maxDepth)
      modifies this
      ensures executed <= |commands| && IsRun(trace, maxDepth, commands[..executed])
      ensures trace[0] == old(projects) && trace[executed] == projects
      ensures forall n :: 0 <= n <= executed ==> Forest(trace[n]) && DepthAtMost(trace[n], maxDepth)
      ensures executed < |commands| ==> !Admissible(projects, maxDepth, commands[executed])
    {
      executed, trace := 0, [projects];
      while executed < |commands| && Admissible(projects, maxDepth, commands[executed])
        invariant executed <= |commands| && IsRun(trace, maxDepth, commands[..executed])
        invariant trace[0] == old(projects) && trace[executed] == projects
        invariant Forest(projects) && DepthAtMost(projects, maxDepth)
      {
        ghost var before := projects;
        Execute(commands[executed]);
        LongerRun(trace, maxDepth, commands, executed, before, projects);
        StepKeeps(before, maxDepth, commands[executed], projects);
        executed, trace := executed + 1, trace + [projects];
      }
      forall n | 0 <= n <= executed ensures Forest(trace[n]) && DepthAtMost(trace[n], maxDepth) {
        RunKeeps(trace, maxDepth, commands[..executed], n);
      }
    }
  }
}
