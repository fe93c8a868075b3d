/**
 * Merging a project into another one moves its children with their direct children only. This
 * module computes the outcome and proves that the forest survives exactly when nothing lies
 * deeper than two levels below the merged project.
 */
module ProjectMerge {
  import opened Wrappers
  import opened Strings
  import opened ProjectForest

  function Children(db: Store, s: Id): set<Id> {
    set i | i in db && db[i].parent == Some(s)
  }

  /** No project lies more than two levels below `s`. */
  predicate Shallow(db: Store, s: Id)
    requires s in db
  {
    forall i :: i in Descendants(db, s) ==> |db[i].path| <= |db[s].path| + 2
  }

  /** `dest` may receive the children of `s`. */
  predicate GoodDestination(db: Store, s: Id, dest: Option<Id>)
    requires s in db
  {
    dest.Some? ==>
      && dest.value in db && dest.value != s && s !in db[dest.value].path
      && db[dest.value].company == db[s].company
  }

  function Rebase(base: Option<string>, oldName: string, childName: string): string {
    match base
    case Some(b) => NewName(b, oldName, childName)
    case None => Join(From(Parts(childName), |Parts(oldName)|), SEP)
  }

  function DestName(db: Store, dest: Option<Id>): Option<string>
    requires dest.Some? ==> dest.value in db
  {
    if dest.Some? then Some(db[dest.value].name) else None
  }

  function DestPath(db: Store, dest: Option<Id>): seq<Id>
    requires dest.Some? ==> dest.value in db
  {
    if dest.Some? then db[dest.value].path + [dest.value] else []
  }

  /** The record of `i` with `s` taken out of its ancestors and `dest` put in its place. */
  function Rehomed(db: Store, s: Id, dest: Option<Id>, i: Id): Project
    requires s in db && i in db && (dest.Some? ==> dest.value in db)
  {
    db[i].(
      name := Rebase(DestName(db, dest), db[s].name, db[i].name),
      parent := if db[i].parent == Some(s) then dest else db[i].parent,
      path := DestPath(db, dest) + From(db[i].path, |db[s].path| + 1))
  }

  /** The given children of the merged project and their own children. */
  function Reached(db: Store, done: set<Id>): set<Id> {
    set i | i in db && (i in done || (db[i].parent.Some? && db[i].parent.value in done))
  }

  /** After the children in `done` have been moved. */
  function PartlyMerged(db: Store, s: Id, dest: Option<Id>, done: set<Id>): Store
    requires s in db && (dest.Some? ==> dest.value in db)
  {
    map i | i in db :: if i in Reached(db, done) then Rehomed(db, s, dest, i) else db[i]
  }

  /** The outcome of a merge that raises no error. */
  function Merged(db: Store, s: Id, dest: Option<Id>): Store
    requires s in db && (dest.Some? ==> dest.value in db)
  {
    PartlyMerged(db, s, dest, Children(db, s)) - {s}
  }

  /** The new names of the children in `done` belong to nobody else. */
  ghost predicate TargetsFree(db: Store, s: Id, dest: Option<Id>, done: set<Id>)
    requires s in db && (dest.Some? ==> dest.value in db)
  {
    forall c, j :: c in done && c in db && j in db && j != c && db[j].company == db[s].company ==>
      db[j].name != Rehomed(db, s, dest, c).name
  }

  lemma RebaseGrows(base: Option<string>, oldName: string, c: string, last: string)
    requires |Parts(oldName)| <= |Parts(c)| && Parts(c)[..|Parts(oldName)|] == Parts(oldName)
    requires SEP !in last
    ensures Rebase(base, oldName, c + [SEP] + last)
         == if |Parts(c)| == |Parts(oldName)| then (if base.Some? then base.value + [SEP] + last else last)
            else Rebase(base, oldName, c) + [SEP] + last
  {
    match base
    case Some(b) =>
      NewNameGrows(b, oldName, c, last);
    case None =>
      var n := |Parts(oldName)|;
      SplitConcat(c, last, SEP);
      SplitAtom(last, SEP);
      if |Parts(c)| == n {
        assert (Parts(c) + [last])[n..] == [last];
      } else {
        assert (Parts(c) + [last])[n..] == Parts(c)[n..] + [last];
        JoinConcat(Parts(c)[n..], [last], SEP);
      }
  }

  lemma RebaseDecides(base: Option<string>, oldName: string, c: string, d: string)
    requires |Parts(oldName)| < |Parts(c)| && Parts(c)[..|Parts(oldName)|] == Parts(oldName)
    requires |Parts(oldName)| < |Parts(d)| && Parts(d)[..|Parts(oldName)|] == Parts(oldName)
    requires Rebase(base, oldName, c) == Rebase(base, oldName, d)
    ensures c == d
  {
    match base
    case Some(b) => NewNameDecides(b, oldName, c, d);
    case None => SuffixDecides(c, d, |Parts(oldName)|, SEP);
  }

  lemma ChildOfSource(db: Store, s: Id, c: Id)
    requires Forest(db) && c in Children(db, s)
    ensures s in db && c in Descendants(db, s) && c != s
    ensures db[c].name == db[s].name + [SEP] + db[c].basename && SEP !in db[c].basename
    ensures db[c].path == db[s].path + [s] && db[c].company == db[s].company
  {
    assert Linked(db, c);
    DescendantsAreBelow(db, s);
  }

  /** A moved child lands directly under the destination, or at the top without one. */
  lemma RehomedTop(db: Store, s: Id, dest: Option<Id>, c: Id)
    requires Forest(db) && c in Children(db, s) && s in db && GoodDestination(db, s, dest)
    ensures Rehomed(db, s, dest, c).name
         == if dest.Some? then db[dest.value].name + [SEP] + db[c].basename else db[c].basename
    ensures Rehomed(db, s, dest, c).path == DestPath(db, dest)
  {
    ChildOfSource(db, s, c);
    RebaseGrows(DestName(db, dest), db[s].name, db[s].name, db[c].basename);
    assert From(db[c].path, |db[s].path| + 1) == [];
  }

  lemma FromSnoc(path: seq<Id>, q: Id, n: nat)
    requires n <= |path|
    ensures From(path + [q], n) == From(path, n) + [q]
  {
  }

  lemma RehomedChildPath(db: Store, s: Id, i: Id, q: Id)
    requires Forest(db) && s in db && i in db && q in Descendants(db, s) && db[i].path == db[q].path + [q]
    ensures From(db[i].path, |db[s].path| + 1) == From(db[q].path, |db[s].path| + 1) + [q]
  {
    PathThrough(db, q, s);
    FromSnoc(db[q].path, q, |db[s].path| + 1);
  }

  lemma RehomedChildName(db: Store, s: Id, dest: Option<Id>, i: Id, q: Id)
    requires Forest(db) && s in db && GoodDestination(db, s, dest)
    requires i in db && q in Descendants(db, s)
    requires db[i].name == db[q].name + [SEP] + db[i].basename && NormalPart(db[i].basename)
    ensures Rehomed(db, s, dest, i).name == Rehomed(db, s, dest, q).name + [SEP] + db[i].basename
  {
    NameBelow(db, q, s);
    RebaseGrows(DestName(db, dest), db[s].name, db[q].name, db[i].basename);
  }

  /** Below a child of the merged project, new names keep extending the new name of the parent. */
  lemma RehomedChild(db: Store, s: Id, dest: Option<Id>, i: Id)
    requires Forest(db) && s in db && GoodDestination(db, s, dest)
    requires i in Descendants(db, s) && db[i].parent != Some(s)
    ensures db[i].parent.Some? && db[i].parent.value in Descendants(db, s)
    ensures var q := db[i].parent.value;
      && Rehomed(db, s, dest, i).name == Rehomed(db, s, dest, q).name + [SEP] + db[i].basename
      && Rehomed(db, s, dest, i).path == Rehomed(db, s, dest, q).path + [q]
  {
    assert Linked(db, i);
    var q := db[i].parent.value;
    assert s in db[q].path;
    RehomedChildPath(db, s, i, q);
    RehomedChildName(db, s, dest, i, q);
    var n := |db[s].path| + 1;
    assert DestPath(db, dest) + (From(db[q].path, n) + [q]) == DestPath(db, dest) + From(db[q].path, n) + [q];
  }

  /** With nothing deep below `s`, the reached projects are the children in `done` and all below them. */
  lemma ReachedWhenShallow(db: Store, s: Id, done: set<Id>, c: Id, i: Id)
    requires Forest(db) && s in db && Shallow(db, s)
    requires done <= Children(db, s) && c in done && i in Descendants(db, c)
    ensures i in Reached(db, done) && db[i].parent == Some(c)
  {
    ChildOfSource(db, s, c);
    PathThrough(db, i, c);
    assert db[i].path[|db[s].path|] == s;
    assert i in Descendants(db, s);
    assert Linked(db, i);
    assert |db[i].path| == |db[s].path| + 2;
  }

  lemma ReachedIsBelow(db: Store, s: Id, done: set<Id>, i: Id)
    requires Forest(db) && done <= Children(db, s) && i in Reached(db, done)
    ensures s in db && i in Descendants(db, s) && i != s
  {
    if i in done {
      ChildOfSource(db, s, i);
    } else {
      ChildOfSource(db, s, db[i].parent.value);
      assert Linked(db, i);
      DescendantsAreBelow(db, s);
    }
  }

  /** A name taken by the merge belongs to no project that the merge has not reached. */
  lemma RehomedApart(db: Store, s: Id, dest: Option<Id>, done: set<Id>, i: Id, j: Id)
    requires Forest(db) && s in db && GoodDestination(db, s, dest) && Shallow(db, s)
    requires done <= Children(db, s) && TargetsFree(db, s, dest, done)
    requires i in Reached(db, done) && j in db && j !in Reached(db, done) && db[j].company == db[s].company
    ensures db[j].name != Rehomed(db, s, dest, i).name
  {
    if i !in done {
      var c := db[i].parent.value;
      ChildOfSource(db, s, c);
      ReachedIsBelow(db, s, done, i);
      DescendantsAreBelow(db, s);
      RehomedChild(db, s, dest, i);
      if db[j].name == Rehomed(db, s, dest, i).name {
        var a := NamedAncestor(db, j, Rehomed(db, s, dest, c).name, db[i].basename);
        assert a == c;
        ReachedWhenShallow(db, s, done, c, j);
      }
    }
  }

  lemma PartlyMergedUnique(db: Store, s: Id, dest: Option<Id>, done: set<Id>)
    requires Forest(db) && s in db && GoodDestination(db, s, dest) && Shallow(db, s)
    requires done <= Children(db, s) && TargetsFree(db, s, dest, done)
    ensures UniqueNames(PartlyMerged(db, s, dest, done))
  {
    var db' := PartlyMerged(db, s, dest, done);
    var R := Reached(db, done);
    forall i, j | i in db' && j in db' && db'[i].company == db'[j].company && db'[i].name == db'[j].name
      ensures i == j
    {
      if i in R {
        ReachedIsBelow(db, s, done, i);
        NameBelow(db, i, s);
      }
      if j in R {
        ReachedIsBelow(db, s, done, j);
        NameBelow(db, j, s);
      }
      if i in R && j in R {
        RebaseDecides(DestName(db, dest), db[s].name, db[i].name, db[j].name);
      } else if i in R {
        RehomedApart(db, s, dest, done, i, j);
      } else if j in R {
        RehomedApart(db, s, dest, done, j, i);
      }
    }
  }

  lemma PartlyMergedLinked(db: Store, s: Id, dest: Option<Id>, done: set<Id>, i: Id)
    requires Forest(db) && s in db && GoodDestination(db, s, dest) && Shallow(db, s)
    requires done <= Children(db, s) && i in db
    ensures Linked(PartlyMerged(db, s, dest, done), i)
  {
    var db' := PartlyMerged(db, s, dest, done);
    var R := Reached(db, done);
    assert Linked(db, i);
    if i in R {
      ReachedIsBelow(db, s, done, i);
      if i in done {
        RehomedTop(db, s, dest, i);
        if dest.Some? && dest.value in R {
          ReachedIsBelow(db, s, done, dest.value);
        }
      } else {
        ChildOfSource(db, s, db[i].parent.value);
        RehomedChild(db, s, dest, i);
      }
    } else if db[i].parent.Some? {
      var q := db[i].parent.value;
      if q in R {
        var c := db[q].parent.value;
        assert q !in done;
        assert Linked(db, q);
        ReachedWhenShallow(db, s, done, c, i);
      }
    }
  }

  /** Every stage of a merge with nothing deep below the source is a forest. */
  lemma PartlyMergedForest(db: Store, s: Id, dest: Option<Id>, done: set<Id>)
    requires Forest(db) && s in db && GoodDestination(db, s, dest) && Shallow(db, s)
    requires done <= Children(db, s) && TargetsFree(db, s, dest, done)
    ensures Forest(PartlyMerged(db, s, dest, done))
  {
    PartlyMergedUnique(db, s, dest, done);
    forall i | i in db ensures Linked(PartlyMerged(db, s, dest, done), i) {
      PartlyMergedLinked(db, s, dest, done, i);
    }
  }

  /** What lies three levels below the source keeps naming it, although it is gone. */
  lemma DeepProjectIsLeftBehind(db: Store, s: Id, dest: Option<Id>, e: Id)
    requires Forest(db) && s in db && GoodDestination(db, s, dest)
    requires e in Descendants(db, s) && |db[e].path| > |db[s].path| + 2
    ensures e in Merged(db, s, dest) && Merged(db, s, dest)[e] == db[e]
    ensures !Forest(Merged(db, s, dest))
  {
    var db' := Merged(db, s, dest);
    DescendantsAreBelow(db, s);
    assert e !in Reached(db, Children(db, s)) by {
      if db[e].parent.Some? {
        assert Linked(db, e);
        var q := db[e].parent.value;
        if q in Children(db, s) {
          ChildOfSource(db, s, q);
        }
      }
    }
    if Forest(db') {
      PathThrough(db', e, s);
    }
  }

  lemma ShallowReach(db: Store, s: Id)
    requires Forest(db) && s in db && Shallow(db, s)
    ensures Reached(db, Children(db, s)) == Descendants(db, s)
  {
    var K := Children(db, s);
    forall i | i in Reached(db, K) ensures i in Descendants(db, s) {
      ReachedIsBelow(db, s, K, i);
    }
    forall i | i in Descendants(db, s) ensures i in Reached(db, K) {
      PathThrough(db, i, s);
      assert Linked(db, i);
      var q := db[i].parent.value;
      if q != s {
        assert Linked(db, q) by { assert q in db; }
        assert s in db[q].path;
        PathThrough(db, q, s);
        assert |db[q].path| == |db[s].path| + 1;
        assert db[q].parent == Some(s);
      }
    }
  }

  /** Deleting a project without children keeps the forest. */
  lemma LeafRemoved(db: Store, s: Id)
    requires Forest(db) && Children(db, s) == {}
    ensures Forest(db - {s})
  {
    forall i | i in db && i != s ensures Linked(db - {s}, i) {
      assert Linked(db, i);
      assert i !in Children(db, s);
    }
    assert UniqueNames(db - {s});
  }

  /**
   * The merge keeps the forest if and only if no project lies more than two levels below the
   * source. When it does, every descendant is re-homed.
   */
  lemma MergeExact(db: Store, s: Id, dest: Option<Id>)
    requires Forest(db) && s in db && GoodDestination(db, s, dest)
    requires TargetsFree(db, s, dest, Children(db, s))
    ensures Forest(Merged(db, s, dest)) <==> Shallow(db, s)
    ensures Shallow(db, s) ==> Reached(db, Children(db, s)) == Descendants(db, s)
  {
    var K := Children(db, s);
    if Shallow(db, s) {
      ShallowReach(db, s);
      PartlyMergedForest(db, s, dest, K);
      LeafRemoved(PartlyMerged(db, s, dest, K), s);
    } else {
      var e :| e in Descendants(db, s) && |db[e].path| > |db[s].path| + 2;
      DeepProjectIsLeftBehind(db, s, dest, e);
    }
  }

  /** A chain of four projects: each the only child of the one before. */
  function Chain(): Store {
    map[
      0 := Project("c", "s", "s", None, []),
      1 := Project("c", "s/a", "a", Some(0), [0]),
      2 := Project("c", "s/a/b", "b", Some(1), [0, 1]),
      3 := Project("c", "s/a/b/e", "e", Some(2), [0, 1, 2])]
  }

  lemma ChainLinked(i: Id)
    requires i in Chain()
    ensures Linked(Chain(), i)
  {
    var db := Chain();
    if i > 0 {
      assert db[i].name == db[i - 1].name + [SEP] + db[i].basename;
      assert db[i].path == db[i - 1].path + [i - 1];
    }
  }

  lemma ChainLength(i: Id)
    requires i in Chain()
    ensures |Chain()[i].name| == 2 * i + 1
  {
  }

  lemma ChainIsForest()
    ensures Forest(Chain())
  {
    forall i | i in Chain() ensures Linked(Chain(), i) {
      ChainLinked(i);
    }
    forall i, j | i in Chain() && j in Chain() && Chain()[i].name == Chain()[j].name ensures i == j {
      ChainLength(i);
      ChainLength(j);
    }
  }

  lemma ChainChildren()
    ensures Children(Chain(), 0) == {1} && 3 in Descendants(Chain(), 0)
    ensures forall j :: j in Chain() ==> Chain()[j].name != "" && Chain()[j].name[0] == 's'
  {
  }

  lemma ChainTargets()
    ensures TargetsFree(Chain(), 0, None, {1})
  {
    ChainIsForest();
    ChainChildren();
    RehomedTop(Chain(), 0, None, 1);
    var target := Rehomed(Chain(), 0, None, 1).name;
    assert target == "a";
    forall j | j in Chain() ensures Chain()[j].name != target {
      assert Chain()[j].name[0] == 's' && target[0] == 'a';
    }
  }

  /** Merging the top of the chain into nothing raises no error, and breaks the forest. */
  lemma MergeFails()
    ensures Forest(Chain()) && GoodDestination(Chain(), 0, None)
    ensures TargetsFree(Chain(), 0, None, Children(Chain(), 0))
    ensures !Forest(Merged(Chain(), 0, None))
  {
    ChainIsForest();
    ChainChildren();
    ChainTargets();
    DeepProjectIsLeftBehind(Chain(), 0, None, 3);
  }
}
