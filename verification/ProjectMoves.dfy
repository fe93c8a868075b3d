/**
 * What a move, a rename and one step of a merge do to the collection, and why the unique index on
 * (company, name) never stops the update of a descendant.
 */
module ProjectMoves {
  import opened Wrappers
  import opened Strings
  import opened ProjectForest
  import opened ProjectNames
  import opened ProjectMerge

  datatype Error =
    | InvalidProjectId
    | InvalidProjectName
    | ValidationError
    | NoWritePermission
    | PublicProjectExists
    | ExpectedUniqueData
    | LocationMismatch
    | NotUnique
    | ProjectPathExceedsMax
    | SourceAndDestinationAreTheSame
    | ProjectCannotBeMergedIntoItsChild
    | ProjectCannotBeMovedUnderItself
    | CannotUpdateProjectLocation

  /** Nothing that was stored is touched; new records may appear. */
  ghost predicate Extends(db: Store, db': Store) {
    forall i :: i in db ==> i in db' && db'[i] == db[i]
  }

  /** The new name of a project placed under `parent`: `"/".join(filter(None, (location, last part)))`. */
  function NameUnder(location: string, name: string): string {
    var parts := Parts(name);
    Join(DropBlank([location, parts[|parts| - 1]]), SEP)
  }

  /** The records that name clashes can stop: `c` wants a name that somebody else has or will get. */
  ghost predicate NoClash(db: Store, children: set<Id>, root: Project, was: Project) {
    forall c, j :: c in children && c in db && j in db && j != c && db[j].company == db[c].company ==>
      && db[j].name != NewName(root.name, was.name, db[c].name)
      && (j in children ==>
          NewName(root.name, was.name, db[j].name) != NewName(root.name, was.name, db[c].name))
  }

  /** The records after the names, and optionally the paths, of `children` follow their base project. */
  function Followed(db: Store, children: set<Id>, root: Project, was: Project, updatePath: bool): Store {
    map i | i in db ::
      if i !in children then db[i]
      else if updatePath then NewRecord(db[i], was, root)
      else db[i].(name := NewName(root.name, was.name, db[i].name))
  }

  function SetOf(xs: seq<Id>): set<Id> { set i | i in xs }

  lemma SetOfPrefix(xs: seq<Id>, n: nat)
    requires n < |xs|
    ensures SetOf(xs[..n + 1]) == SetOf(xs[..n]) + {xs[n]}
    ensures n + 1 == |xs| ==> xs[..n + 1] == xs
  {
    assert xs[..n + 1] == xs[..n] + [xs[n]];
  }

  lemma NotAll(xs: seq<Id>, n: nat)
    requires n < |xs| && forall k, m :: 0 <= k < m < |xs| ==> xs[k] != xs[m]
    ensures SetOf(xs[..n]) < SetOf(xs)
  {
    assert xs[n] in SetOf(xs) && xs[n] !in SetOf(xs[..n]);
  }

  lemma FollowedIsRelocated(db: Store, id: Id, root: Project, children: set<Id>)
    requires id in db && id !in children
    ensures Followed(db[id := root], children, root, db[id], true) == Relocated(db, id, root, children)
  {
  }

  ghost function Above(s: set<nat>): (n: nat)
    ensures forall x :: x in s ==> x < n
  {
    if s == {} then 0
    else
      var x :| x in s;
      var m := Above(s - {x});
      assert forall y :: y in s ==> y == x || y in s - {x};
      if x < m then m else x + 1
  }

  lemma FreshIdExists(db: Store)
    ensures exists id: Id :: id !in db
  {
    var n := Above(db.Keys);
    assert n !in db;
  }

  /** The record of `id` after it moves under `parent`. */
  function Repositioned(db: Store, id: Id, parent: Option<Id>): Project
    requires id in db && (parent.Some? ==> parent.value in db)
  {
    db[id].(
      name := NameUnder(if parent.Some? then db[parent.value].name else "", db[id].name),
      parent := parent,
      path := DestPath(db, parent))
  }

  /** Nobody else in the company of `root` bears its name. */
  ghost predicate NameFree(db: Store, id: Id, root: Project) {
    forall j :: j in db && j != id && db[j].company == root.company ==> db[j].name != root.name
  }

  lemma DropBlankPair(location: string, last: string)
    requires last != ""
    ensures Join(DropBlank([location, last]), SEP) == if location == "" then last else location + [SEP] + last
  {
    assert [location, last][1..] == [last];
    assert DropBlank([last]) == [last];
    JoinPair(location, last, SEP);
  }

  lemma BelowHasName(db: Store, i: Id)
    requires Forest(db) && i in db
    ensures db[i].name != ""
  {
    NameSize(db, i);
    assert Linked(db, i);
  }

  lemma RepositionedName(db: Store, id: Id, parent: Option<Id>)
    requires Forest(db) && id in db && (parent.Some? ==> parent.value in db)
    ensures Repositioned(db, id, parent).name
         == if parent.Some? then db[parent.value].name + [SEP] + db[id].basename else db[id].basename
  {
    NameSize(db, id);
    assert Linked(db, id);
    if parent.Some? {
      BelowHasName(db, parent.value);
      DropBlankPair(db[parent.value].name, db[id].basename);
    } else {
      DropBlankPair("", db[id].basename);
    }
  }

  /** A project moved under a suitable parent with a free name there is an acceptable root. */
  lemma RepositionedIsGood(db: Store, id: Id, parent: Option<Id>)
    requires Forest(db) && id in db && GoodDestination(db, id, parent)
    requires NameFree(db, id, Repositioned(db, id, parent))
    ensures GoodRoot(db, id, Repositioned(db, id, parent))
  {
    RepositionedName(db, id, parent);
    assert Linked(db, id);
  }

  /** The names that following a root gives to its children, apart from each other and from all stored ones. */
  ghost predicate NamesApart(db: Store, id: Id, root: Project, children: set<Id>, c: Id, j: Id)
    requires id in db && c in db && j in db
  {
    var name := NewName(root.name, db[id].name, db[c].name);
    && db[id := root][j].name != name
    && (j in children ==> NewName(root.name, db[id].name, db[j].name) != name)
  }

  lemma ApartIsNoClash(db: Store, id: Id, root: Project, children: set<Id>)
    requires id in db && id !in children && children <= db.Keys && root.company == db[id].company
    requires forall c, j :: c in children && j in db && j != c && db[j].company == db[c].company ==>
      NamesApart(db, id, root, children, c, j)
    ensures NoClash(db[id := root], children, root, db[id])
  {
    var db' := db[id := root];
    forall c, j | c in children && c in db' && j in db' && j != c && db'[j].company == db'[c].company
      ensures db'[j].name != NewName(root.name, db[id].name, db'[c].name)
      ensures j in children ==>
        NewName(root.name, db[id].name, db'[j].name) != NewName(root.name, db[id].name, db'[c].name)
    {
      assert NamesApart(db, id, root, children, c, j);
    }
  }

  /** Under a good root no update of a descendant runs into the unique index. */
  lemma GoodRootHasNoClash(db: Store, r: Id, root: Project, children: set<Id>)
    requires Forest(db) && r in db && GoodRoot(db, r, root) && children <= Descendants(db, r)
    ensures NoClash(db[r := root], children, root, db[r])
  {
    DescendantsAreBelow(db, r);
    forall c, j | c in children && j in db && j != c && db[j].company == db[c].company
      ensures NamesApart(db, r, root, children, c, j)
    {
      NameBelow(db, c, r);
      NewNameApart(db, r, root, {}, c, j);
      NewNameApart(db, r, root, children, c, j);
    }
    ApartIsNoClash(db, r, root, children);
  }

  /** Storing one more linked record under a free name keeps the forest. */
  lemma AddedRecord(db: Store, id: Id, p: Project)
    requires Forest(db) && id !in db && Linked(db[id := p], id) && NameFree(db, id, p)
    ensures Forest(db[id := p])
  {
    var db' := db[id := p];
    forall i | i in db' ensures Linked(db', i) {
      if i != id {
        assert Linked(db, i);
      }
    }
  }

  /** Halfway through a merge the next child and the destination are still as they were. */
  lemma MergeStepRoot(db: Store, s: Id, dest: Option<Id>, done: set<Id>, c: Id)
    requires Forest(db) && s in db && GoodDestination(db, s, dest)
    requires done <= Children(db, s) && c in Children(db, s) && c !in done
    ensures var now := PartlyMerged(db, s, dest, done);
      && c in now && now[c] == db[c]
      && (dest.Some? ==> dest.value in now && now[dest.value] == db[dest.value])
      && Repositioned(now, c, dest) == Rehomed(db, s, dest, c)
  {
    ChildOfSource(db, s, c);
    DescendantsAreBelow(db, s);
    if c in Reached(db, done) {
      ChildOfSource(db, s, db[c].parent.value);
    }
    if dest.Some? && dest.value in Reached(db, done) {
      ReachedIsBelow(db, s, done, dest.value);
    }
    RepositionedName(db, c, dest);
    RehomedTop(db, s, dest, c);
  }

  lemma SameStore(left: Store, right: Store)
    requires left.Keys == right.Keys && forall i :: i in left && i in right ==> left[i] == right[i]
    ensures left == right
  {
  }

  lemma SameKeysMerged(db: Store, s: Id, dest: Option<Id>, done: set<Id>)
    requires s in db && (dest.Some? ==> dest.value in db)
    ensures PartlyMerged(db, s, dest, done).Keys == db.Keys
  {
  }

  lemma SameKeys(db: Store, r: Id, root: Project, children: set<Id>)
    requires r in db
    ensures Relocated(db, r, root, children).Keys == db.Keys
  {
  }

  lemma MergedGrandchild(db: Store, s: Id, dest: Option<Id>, done: set<Id>, c: Id, i: Id)
    requires Forest(db) && s in db && GoodDestination(db, s, dest)
    requires done <= Children(db, s) && c in Children(db, s) && c !in done && i in Children(db, c)
    ensures PartlyMerged(db, s, dest, done)[i] == db[i] && i != c
    ensures NewRecord(db[i], db[c], Rehomed(db, s, dest, c)) == Rehomed(db, s, dest, i)
  {
    ChildOfSource(db, s, c);
    ChildOfSource(db, c, i);
    DescendantsAreBelow(db, s);
    if i in done {
      ChildOfSource(db, s, i);
    }
    RehomedChild(db, s, dest, i);
    var root := Rehomed(db, s, dest, c);
    NewNameGrows(root.name, db[c].name, db[c].name, db[i].basename);
    assert From(db[i].path, |db[c].path|) == [c];
  }

  lemma ReachedGrows(db: Store, done: set<Id>, c: Id, i: Id)
    requires i in db && i !in Children(db, c) && c in db
    ensures i in Reached(db, done + {c}) <==> i == c || i in Reached(db, done)
  {
  }

  lemma MergeStepAt(db: Store, s: Id, dest: Option<Id>, done: set<Id>, c: Id, i: Id)
    requires Forest(db) && s in db && GoodDestination(db, s, dest)
    requires done <= Children(db, s) && c in Children(db, s) && c !in done && i in db
    requires c in PartlyMerged(db, s, dest, done) && PartlyMerged(db, s, dest, done)[c] == db[c]
    ensures Relocated(PartlyMerged(db, s, dest, done), c, Rehomed(db, s, dest, c), Children(db, c))[i]
         == PartlyMerged(db, s, dest, done + {c})[i]
  {
    if i in Children(db, c) {
      MergedGrandchild(db, s, dest, done, c, i);
      assert i in Reached(db, done + {c});
    } else {
      ReachedGrows(db, done, c, i);
    }
  }

  /** The merge of one more child is what repositioning that child with its own children does. */
  lemma MergeStep(db: Store, s: Id, dest: Option<Id>, done: set<Id>, c: Id)
    requires Forest(db) && s in db && GoodDestination(db, s, dest)
    requires done <= Children(db, s) && c in Children(db, s) && c !in done
    requires c in PartlyMerged(db, s, dest, done) && PartlyMerged(db, s, dest, done)[c] == db[c]
    ensures Relocated(PartlyMerged(db, s, dest, done), c, Rehomed(db, s, dest, c), Children(db, c))
         == PartlyMerged(db, s, dest, done + {c})
  {
    var left := Relocated(PartlyMerged(db, s, dest, done), c, Rehomed(db, s, dest, c), Children(db, c));
    var right := PartlyMerged(db, s, dest, done + {c});
    SameKeys(PartlyMerged(db, s, dest, done), c, Rehomed(db, s, dest, c), Children(db, c));
    SameKeysMerged(db, s, dest, done);
    SameKeysMerged(db, s, dest, done + {c});
    forall i | i in db ensures left[i] == right[i] {
      MergeStepAt(db, s, dest, done, c, i);
    }
    SameStore(left, right);
  }

  /** Nothing below the source already bears the target name of a child. */
  lemma BelowSourceIsNotTarget(db: Store, s: Id, dest: Option<Id>, c: Id, j: Id)
    requires Forest(db) && s in db && GoodDestination(db, s, dest)
    requires c in Children(db, s) && j in Descendants(db, s)
    ensures db[j].name != Rehomed(db, s, dest, c).name
  {
    RehomedTop(db, s, dest, c);
    ChildOfSource(db, s, c);
    assert Linked(db, j);
    var q := db[j].parent.value;
    if db[j].name == Rehomed(db, s, dest, c).name && dest.Some? {
      LocationOfConcat(db[q].name, db[j].basename, SEP);
      LocationOfConcat(db[dest.value].name, db[c].basename, SEP);
      PathThrough(db, j, s);
    }
  }

  /** A target that is free in the middle of the merge was free from the start. */
  lemma TargetWasFree(db: Store, s: Id, dest: Option<Id>, done: set<Id>, c: Id)
    requires Forest(db) && s in db && GoodDestination(db, s, dest)
    requires done <= Children(db, s) && c in Children(db, s) && c !in done
    requires NameFree(PartlyMerged(db, s, dest, done), c, Rehomed(db, s, dest, c))
    ensures NameFree(db, c, Rehomed(db, s, dest, c))
  {
    var now := PartlyMerged(db, s, dest, done);
    var root := Rehomed(db, s, dest, c);
    RehomedTop(db, s, dest, c);
    forall j | j in db && j != c && db[j].company == root.company ensures db[j].name != root.name {
      assert now[j].company == db[j].company;
      if db[j].name == root.name {
        assert j in Reached(db, done);
        ReachedIsBelow(db, s, done, j);
        BelowSourceIsNotTarget(db, s, dest, c, j);
      }
    }
  }

  /** And a target that is free at the start stays free. */
  lemma TargetStaysFree(db: Store, s: Id, dest: Option<Id>, done: set<Id>, c: Id)
    requires Forest(db) && s in db && GoodDestination(db, s, dest)
    requires done <= Children(db, s) && c in Children(db, s) && c !in done
    requires NameFree(db, c, Rehomed(db, s, dest, c))
    ensures NameFree(PartlyMerged(db, s, dest, done), c, Rehomed(db, s, dest, c))
  {
    var now := PartlyMerged(db, s, dest, done);
    var root := Rehomed(db, s, dest, c);
    ChildOfSource(db, s, c);
    NameBelow(db, c, s);
    forall j | j in now && j != c && now[j].company == root.company ensures now[j].name != root.name {
      if j in Reached(db, done) && now[j].name == root.name {
        ReachedIsBelow(db, s, done, j);
        NameBelow(db, j, s);
        RebaseDecides(DestName(db, dest), db[s].name, db[j].name, db[c].name);
      }
    }
  }

  /** The location of a repositioned project is the name of its parent. */
  lemma RepositionedLocation(db: Store, id: Id, parent: Option<Id>)
    requires Forest(db) && id in db && (parent.Some? ==> parent.value in db)
    ensures Location(Repositioned(db, id, parent).name, SEP) == if parent.Some? then db[parent.value].name else ""
  {
    RepositionedName(db, id, parent);
    assert Linked(db, id);
    if parent.Some? {
      LocationOfConcat(db[parent.value].name, db[id].basename, SEP);
    } else {
      LocationOfAtom(db[id].basename, SEP);
    }
  }

  lemma TakenTarget(db: Store, s: Id, dest: Option<Id>, c: Id)
    requires Forest(db) && s in db && GoodDestination(db, s, dest) && c in Children(db, s)
    requires !NameFree(db, c, Rehomed(db, s, dest, c))
    ensures !TargetsFree(db, s, dest, Children(db, s))
  {
    ChildOfSource(db, s, c);
  }

  lemma SameDescendants(db: Store, r: Id, root: Project)
    requires Forest(db) && r in db && root.path == db[r].path
    ensures Descendants(db[r := root], r) == Descendants(db, r)
  {
  }

  /** No project of a partly merged collection is deeper than the check on the descendants allows. */
  lemma MergedDepth(db: Store, s: Id, dest: Option<Id>, done: set<Id>, maxDepth: nat)
    requires Forest(db) && s in db && GoodDestination(db, s, dest) && DepthAtMost(db, maxDepth)
    requires done <= Children(db, s)
    requires dest.Some? ==> forall i :: i in Descendants(db, s) ==>
      |db[i].path| + 1 - (|db[s].path| + 1) + |db[dest.value].path| + 1 <= maxDepth
    ensures DepthAtMost(PartlyMerged(db, s, dest, done), maxDepth)
  {
    var now := PartlyMerged(db, s, dest, done);
    forall i | i in now ensures |now[i].path| + 1 <= maxDepth {
      if i in Reached(db, done) {
        ReachedIsBelow(db, s, done, i);
        PathThrough(db, i, s);
      }
    }
  }

  lemma DestinationIsAside(db: Store, s: Id, d: Id, c: Id)
    requires Forest(db) && d in db && d != s && s !in db[d].path && c in Children(db, s)
    ensures c !in db[d].path && c != d
  {
    ChildOfSource(db, s, c);
    if c in db[d].path {
      PathThrough(db, d, c);
    }
  }

  /** Why repositioning the next child of a merge is never stopped halfway when nothing is deep. */
  lemma MergeNoClash(db: Store, s: Id, dest: Option<Id>, done: set<Id>, c: Id)
    requires Forest(db) && s in db && GoodDestination(db, s, dest) && Shallow(db, s)
    requires done <= Children(db, s) && c in Children(db, s) && c !in done
    requires TargetsFree(db, s, dest, done)
    requires var now := PartlyMerged(db, s, dest, done);
      && c in now && now[c] == db[c]
      && (dest.Some? ==> dest.value in now && now[dest.value] == db[dest.value])
      && NameFree(now, c, Repositioned(now, c, dest))
    ensures var now := PartlyMerged(db, s, dest, done);
      NoClash(now[c := Repositioned(now, c, dest)], Children(db, c), Repositioned(now, c, dest), now[c])
  {
    var now := PartlyMerged(db, s, dest, done);
    PartlyMergedForest(db, s, dest, done);
    ChildOfSource(db, s, c);
    if dest.Some? {
      DestinationIsAside(db, s, dest.value, c);
    }
    RepositionedIsGood(now, c, dest);
    forall i | i in Children(db, c) ensures i in Descendants(now, c) {
      MergedGrandchild(db, s, dest, done, c, i);
      assert Linked(db, i);
    }
    GoodRootHasNoClash(now, c, Repositioned(now, c, dest), Children(db, c));
  }

  /** What the loop over the children of the source keeps. */
  ghost predicate MergeStage(db: Store, s: Id, dest: Option<Id>, done: set<Id>, now: Store) {
    && Forest(db) && s in db && GoodDestination(db, s, dest)
    && done <= Children(db, s)
    && now == PartlyMerged(db, s, dest, done)
    && TargetsFree(db, s, dest, done)
  }

  lemma MergeStart(db: Store, s: Id, dest: Option<Id>)
    requires Forest(db) && s in db && GoodDestination(db, s, dest)
    ensures MergeStage(db, s, dest, {}, db)
  {
    SameStore(db, PartlyMerged(db, s, dest, {}));
  }

  lemma MoreTargetsFree(db: Store, s: Id, dest: Option<Id>, done: set<Id>, c: Id)
    requires s in db && c in db && (dest.Some? ==> dest.value in db) && db[c].company == db[s].company
    requires TargetsFree(db, s, dest, done) && NameFree(db, c, Rehomed(db, s, dest, c))
    ensures TargetsFree(db, s, dest, done + {c})
  {
  }

  /** One more child: its repositioning goes through or, with nothing deep, changes nothing. */
  lemma MergeNext(db: Store, s: Id, dest: Option<Id>, done: set<Id>, now: Store, c: Id)
    requires MergeStage(db, s, dest, done, now) && c in Children(db, s) && c !in done
    ensures c in now && (dest.Some? ==> dest.value in now)
    ensures NameFree(now, c, Repositioned(now, c, dest)) ==>
      MergeStage(db, s, dest, done + {c}, Relocated(now, c, Repositioned(now, c, dest), Children(db, c)))
    ensures NameFree(now, c, Repositioned(now, c, dest)) && Shallow(db, s) ==>
      NoClash(now[c := Repositioned(now, c, dest)], Children(db, c), Repositioned(now, c, dest), now[c])
  {
    MergeStepRoot(db, s, dest, done, c);
    if NameFree(now, c, Repositioned(now, c, dest)) {
      MergeStep(db, s, dest, done, c);
      TargetWasFree(db, s, dest, done, c);
      ChildOfSource(db, s, c);
      MoreTargetsFree(db, s, dest, done, c);
      if Shallow(db, s) {
        MergeNoClash(db, s, dest, done, c);
      }
    }
  }

  /** Only a target name that was taken from the start can stop the next child. */
  lemma MergeNextTarget(db: Store, s: Id, dest: Option<Id>, done: set<Id>, now: Store, c: Id)
    requires MergeStage(db, s, dest, done, now) && c in Children(db, s) && c !in done
    ensures c in now && (dest.Some? ==> dest.value in now)
    ensures NameFree(db, c, Rehomed(db, s, dest, c)) ==> NameFree(now, c, Repositioned(now, c, dest))
    ensures Location(Repositioned(now, c, dest).name, SEP) == if dest.Some? then now[dest.value].name else ""
  {
    MergeStepRoot(db, s, dest, done, c);
    RepositionedLocation(db, c, dest);
    if NameFree(db, c, Rehomed(db, s, dest, c)) {
      TargetStaysFree(db, s, dest, done, c);
    }
  }

  /** Every stage of a merge, and its end. */
  lemma MergeKeeps(db: Store, s: Id, dest: Option<Id>, done: set<Id>, now: Store)
    requires MergeStage(db, s, dest, done, now)
    ensures Shallow(db, s) ==> Forest(now)
    ensures done == Children(db, s) ==>
      now - {s} == Merged(db, s, dest) && (Forest(now - {s}) <==> Shallow(db, s))
  {
    if Shallow(db, s) {
      PartlyMergedForest(db, s, dest, done);
    }
    if done == Children(db, s) {
      MergeExact(db, s, dest);
    }
  }

  /** Among the fetched descendants, those with parent `c` are all the children of `c`. */
  lemma OwnChildren(db: Store, s: Id, c: Id)
    requires Forest(db) && c in Children(db, s)
    ensures Children(db, c) <= Descendants(db, s) && c !in Children(db, c)
  {
    forall i | i in Children(db, c) ensures i in Descendants(db, s) && i != c {
      ChildOfSource(db, c, i);
      ChildOfSource(db, s, c);
    }
  }

  /** The update of one more child; without clashes the unique index lets it pass. */
  lemma FollowedStep(db: Store, done: set<Id>, c: Id, root: Project, was: Project, updatePath: bool)
    requires c in db && c !in done
    ensures var now := Followed(db, done, root, was, updatePath);
      && now[c] == db[c]
      && now[c := if updatePath then NewRecord(db[c], was, root)
                  else db[c].(name := NewName(root.name, was.name, db[c].name))]
         == Followed(db, done + {c}, root, was, updatePath)
  {
  }

  lemma NoClashIsFree(db: Store, children: set<Id>, done: set<Id>, c: Id, root: Project, was: Project, updatePath: bool)
    requires NoClash(db, children, root, was) && done <= children && c in children && c in db
    ensures NameFree(Followed(db, done, root, was, updatePath), c,
                     db[c].(name := NewName(root.name, was.name, db[c].name)))
  {
    var now := Followed(db, done, root, was, updatePath);
    forall j | j in now && j != c && now[j].company == db[c].company
      ensures now[j].name != NewName(root.name, was.name, db[c].name)
    {
      assert db[j].company == db[c].company;
    }
  }
}
