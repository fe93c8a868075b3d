/**
 * The project forest as stored: every record carries its parent, the full list of its ancestors
 * and its slash-joined name. This module says when the three agree and what moving, renaming and
 * merging subtrees does to a whole collection of records.
 */
module ProjectForest {
  import opened Wrappers
  import opened Strings

  type Id = nat

  datatype Project = Project(
    company: string,
    name: string,
    basename: string,
    parent: Option<Id>,
    path: seq<Id>)

  type Store = map<Id, Project>

  const SEP := '/'

  function Parts(name: string): seq<string> { Split(name, SEP) }

  /** One level of a cleaned-up project name. */
  predicate NormalPart(s: string) {
    s != "" && SEP !in s && Strip(s) == s
  }

  /** Record `i` agrees with the record of its parent. */
  predicate Linked(db: Store, i: Id)
    requires i in db
  {
    var p := db[i];
    && NormalPart(p.basename)
    && match p.parent
       case None => p.path == [] && p.name == p.basename
       case Some(q) =>
         && q in db
         && p.company == db[q].company
         && p.path == db[q].path + [q]
         && p.name == db[q].name + [SEP] + p.basename
  }

  /** No two projects of one company share a name. */
  ghost predicate UniqueNames(db: Store) {
    forall i, j :: i in db && j in db && db[i].company == db[j].company && db[i].name == db[j].name ==> i == j
  }

  /** The forest invariant. */
  ghost predicate Forest(db: Store) {
    && (forall i :: i in db ==> Linked(db, i))
    && UniqueNames(db)
  }

  /** No project lies deeper than `maxDepth` levels. */
  ghost predicate DepthAtMost(db: Store, maxDepth: nat) {
    forall i :: i in db ==> |db[i].path| + 1 <= maxDepth
  }

  /** The projects whose stored path mentions `r`: what a query on `path` returns. */
  function Descendants(db: Store, r: Id): set<Id> {
    set i | i in db && r in db[i].path
  }

  /* ---------- What the invariant gives: the stored path is the chain of parents ---------- */

  /** The `k`-th ancestor by parent pointers alone; `None` above the top. */
  function Ancestor(db: Store, i: Id, k: nat): Option<Id>
    decreases k
  {
    if k == 0 then Some(i)
    else if i in db && db[i].parent.Some? then Ancestor(db, db[i].parent.value, k - 1)
    else None
  }

  lemma PartsOfChild(db: Store, i: Id)
    requires i in db && Linked(db, i) && db[i].parent.Some?
    ensures Parts(db[i].name) == Parts(db[db[i].parent.value].name) + [db[i].basename]
  {
    SplitConcat(db[db[i].parent.value].name, db[i].basename, SEP);
    SplitAtom(db[i].basename, SEP);
  }

  /** A name has one part for each ancestor and one for the project itself. */
  lemma {:induction false} NameSize(db: Store, i: Id)
    requires Forest(db) && i in db
    ensures |Parts(db[i].name)| == |db[i].path| + 1
    ensures Parts(db[i].name)[|db[i].path|] == db[i].basename
    decreases |db[i].path|
  {
    assert Linked(db, i);
    if db[i].parent.Some? {
      NameSize(db, db[i].parent.value);
      PartsOfChild(db, i);
    } else {
      SplitAtom(db[i].basename, SEP);
    }
  }

  /** Every element of a path is a stored project whose own path and name are the matching prefixes. */
  lemma {:induction false} PathElement(db: Store, i: Id, k: nat)
    requires Forest(db) && i in db && k < |db[i].path|
    ensures var a := db[i].path[k];
      && a in db
      && db[a].company == db[i].company
      && db[a].path == db[i].path[..k]
      && |Parts(db[i].name)| == |db[i].path| + 1
      && Parts(db[a].name) == Parts(db[i].name)[..k + 1]
    decreases |db[i].path|
  {
    assert Linked(db, i);
    var q := db[i].parent.value;
    NameSize(db, i);
    PartsOfChild(db, i);
    NameSize(db, q);
    if k < |db[q].path| {
      PathElement(db, q, k);
    }
  }

  /** A descendant's path runs through its ancestor at the depth of that ancestor. */
  lemma PathThrough(db: Store, i: Id, r: Id)
    requires Forest(db) && i in db && r in db[i].path
    ensures r in db && db[r].company == db[i].company
    ensures |db[r].path| < |db[i].path| && db[i].path[|db[r].path|] == r
    ensures db[i].path[..|db[r].path|] == db[r].path
    ensures |Parts(db[i].name)| == |db[i].path| + 1
    ensures Parts(db[i].name)[..|db[r].path| + 1] == Parts(db[r].name)
  {
    var k :| 0 <= k < |db[i].path| && db[i].path[k] == r;
    PathElement(db, i, k);
  }

  lemma PathTransitive(db: Store, i: Id, p: Id, a: Id)
    requires Forest(db) && i in db && p in db[i].path && p in db && a in db[p].path
    ensures a in db[i].path
  {
    PathThrough(db, i, p);
    assert a in db[i].path[..|db[p].path|];
  }

  /** `a` is reached from `i` by following at least `least` parents. */
  ghost predicate IsAncestor(db: Store, i: Id, a: Id, least: nat) {
    exists k: nat :: k >= least && Ancestor(db, i, k) == Some(a)
  }

  /** The path of `i` is its chain of parents, so path queries answer exactly the ancestor question. */
  lemma {:induction false} PathIsParentChain(db: Store, i: Id, a: Id)
    requires Forest(db) && i in db
    ensures a in db[i].path <==> IsAncestor(db, i, a, 1)
    decreases |db[i].path|
  {
    assert Linked(db, i);
    if db[i].parent == None {
      forall k: nat | k >= 1 ensures Ancestor(db, i, k) == None {
      }
    } else {
      var q := db[i].parent.value;
      PathIsParentChain(db, q, a);
      assert a in db[i].path <==> a in db[q].path || a == q;
      if a in db[q].path {
        var k: nat :| k >= 1 && Ancestor(db, q, k) == Some(a);
        assert Ancestor(db, i, k + 1) == Some(a);
      } else if a == q {
        assert Ancestor(db, q, 0) == Some(a);
        assert Ancestor(db, i, 1) == Some(a);
      } else {
        forall k: nat | k >= 1 ensures Ancestor(db, i, k) != Some(a) {
          assert Ancestor(db, i, k) == Ancestor(db, q, k - 1);
          assert k == 1 ==> Ancestor(db, q, k - 1) == Some(q);
        }
      }
    }
  }

  /** There is no cycle of parents: no project is among its own ancestors. */
  lemma NoCycle(db: Store, i: Id, k: nat)
    requires Forest(db) && i in db && k > 0
    ensures Ancestor(db, i, k) != Some(i)
  {
    if Ancestor(db, i, k) == Some(i) {
      PathIsParentChain(db, i, i);
      assert k >= 1 && Ancestor(db, i, k) == Some(i);
      PathThrough(db, i, i);
    }
  }

  /** Names are closed under prefixes: a project named below `n` has an ancestor named `n`. */
  lemma NamedAncestor(db: Store, j: Id, n: string, rest: string) returns (a: Id)
    requires Forest(db) && j in db && db[j].name == n + [SEP] + rest
    ensures a in db && a in db[j].path && db[a].name == n && db[a].company == db[j].company
  {
    SplitConcat(n, rest, SEP);
    NameSize(db, j);
    var k := |Parts(n)| - 1;
    a := db[j].path[k];
    PathElement(db, j, k);
    assert Parts(db[j].name)[..k + 1] == Parts(n);
    SplitInjective(db[a].name, n, SEP);
  }

  /* ---------- Relocating a subtree ---------- */

  /** Python's `xs[n..]`, which is empty when `n` is past the end. */
  function From<T>(xs: seq<T>, n: nat): seq<T> {
    if n <= |xs| then xs[n..] else []
  }

  /** The new name of a record below a base project that goes from `oldName` to `newName`. */
  function NewName(newName: string, oldName: string, childName: string): string {
    Join([newName, Join(From(Parts(childName), |Parts(oldName)|), SEP)], SEP)
  }

  function NewRecord(child: Project, was: Project, root: Project): Project {
    child.(name := NewName(root.name, was.name, child.name),
           path := root.path + From(child.path, |was.path|))
  }

  /** The collection after `r` becomes `root` and the records in `children` follow it. */
  function Relocated(db: Store, r: Id, root: Project, children: set<Id>): Store
    requires r in db
  {
    map i | i in db ::
      if i == r then root
      else if i in children then NewRecord(db[i], db[r], root)
      else db[i]
  }

  /** `root` is an acceptable new record for `r`: linked outside the subtree, under a free name. */
  ghost predicate GoodRoot(db: Store, r: Id, root: Project)
    requires r in db
  {
    && root.company == db[r].company
    && NormalPart(root.basename)
    && (forall j :: j in db && j != r && db[j].company == root.company ==> db[j].name != root.name)
    && match root.parent
       case None => root.path == [] && root.name == root.basename
       case Some(q) =>
         && q in db && q != r && r !in db[q].path
         && root.company == db[q].company
         && root.path == db[q].path + [q]
         && root.name == db[q].name + [SEP] + root.basename
  }

  /** A name that properly extends `oldName` keeps its last levels under the new base. */
  lemma NewNameForm(newName: string, oldName: string, childName: string)
    requires |Parts(oldName)| < |Parts(childName)|
    ensures NewName(newName, oldName, childName)
         == newName + [SEP] + Join(Parts(childName)[|Parts(oldName)|..], SEP)
  {
    JoinPair(newName, Join(Parts(childName)[|Parts(oldName)|..], SEP), SEP);
  }

  lemma NewNameDecides(newName: string, oldName: string, c: string, d: string)
    requires |Parts(oldName)| < |Parts(c)| && Parts(c)[..|Parts(oldName)|] == Parts(oldName)
    requires |Parts(oldName)| < |Parts(d)| && Parts(d)[..|Parts(oldName)|] == Parts(oldName)
    requires NewName(newName, oldName, c) == NewName(newName, oldName, d)
    ensures c == d
  {
    var n := |Parts(oldName)|;
    NewNameForm(newName, oldName, c);
    NewNameForm(newName, oldName, d);
    PrefixCancels(newName + [SEP], Join(Parts(c)[n..], SEP), Join(Parts(d)[n..], SEP));
    SuffixDecides(c, d, n, SEP);
  }

  /** A name moved under its own old base does not change. */
  lemma NewNameSame(oldName: string, c: string)
    requires |Parts(oldName)| < |Parts(c)| && Parts(c)[..|Parts(oldName)|] == Parts(oldName)
    ensures NewName(oldName, oldName, c) == c
  {
    var n := |Parts(oldName)|;
    NewNameForm(oldName, oldName, c);
    JoinOfSplit(c, SEP);
    JoinOfSplit(oldName, SEP);
    assert Parts(c) == Parts(c)[..n] + Parts(c)[n..];
    JoinConcat(Parts(c)[..n], Parts(c)[n..], SEP);
  }

  /** Relocation commutes with adding one level. */
  lemma NewNameGrows(newName: string, oldName: string, c: string, last: string)
    requires |Parts(oldName)| <= |Parts(c)| && Parts(c)[..|Parts(oldName)|] == Parts(oldName)
    requires SEP !in last
    ensures NewName(newName, oldName, c + [SEP] + last)
         == (if |Parts(c)| == |Parts(oldName)| then newName else NewName(newName, oldName, c)) + [SEP] + last
  {
    var n := |Parts(oldName)|;
    SplitConcat(c, last, SEP);
    SplitAtom(last, SEP);
    NewNameForm(newName, oldName, c + [SEP] + last);
    if |Parts(c)| == n {
      assert (Parts(c) + [last])[n..] == [last];
    } else {
      NewNameForm(newName, oldName, c);
      assert (Parts(c) + [last])[n..] == Parts(c)[n..] + [last];
      JoinConcat(Parts(c)[n..], [last], SEP);
    }
  }

  lemma NameBelow(db: Store, c: Id, r: Id)
    requires Forest(db) && c in Descendants(db, r)
    ensures r in db && db[c].company == db[r].company && r != c
    ensures |Parts(db[r].name)| < |Parts(db[c].name)|
    ensures Parts(db[c].name)[..|Parts(db[r].name)|] == Parts(db[r].name)
  {
    PathThrough(db, c, r);
    NameSize(db, r);
  }

  /** Within a subtree, new names collide only if the old ones did. */
  lemma NewNameInjective(db: Store, r: Id, root: Project, c: Id, d: Id)
    requires Forest(db) && c in Descendants(db, r) && d in Descendants(db, r) && r in db
    requires NewName(root.name, db[r].name, db[c].name) == NewName(root.name, db[r].name, db[d].name)
    ensures c == d
  {
    NameBelow(db, c, r);
    NameBelow(db, d, r);
    NewNameDecides(root.name, db[r].name, db[c].name, db[d].name);
  }

  /** The new name of a descendant is free as soon as the new name of the root is. */
  lemma NewNameFree(db: Store, r: Id, root: Project, c: Id, j: Id)
    requires Forest(db) && r in db && GoodRoot(db, r, root)
    requires c in Descendants(db, r) && j in db && j != c && db[j].company == root.company
    ensures db[j].name != NewName(root.name, db[r].name, db[c].name)
  {
    NameBelow(db, c, r);
    NewNameForm(root.name, db[r].name, db[c].name);
    var suffix := Join(Parts(db[c].name)[|Parts(db[r].name)|..], SEP);
    if db[j].name == root.name + [SEP] + suffix {
      var a := NamedAncestor(db, j, root.name, suffix);
      assert a == r;
      // The root keeps its name, hence so does `c`, and `j` already bears it.
      NewNameSame(db[r].name, db[c].name);
    }
  }

  /** A relocated record's name differs from every other name of its company. */
  lemma NewNameApart(db: Store, r: Id, root: Project, children: set<Id>, c: Id, j: Id)
    requires Forest(db) && r in db && GoodRoot(db, r, root)
    requires children <= Descendants(db, r)
    requires c in Descendants(db, r) && j in db && j != c && db[j].company == root.company
    ensures Relocated(db, r, root, children)[j].name != NewName(root.name, db[r].name, db[c].name)
  {
    NameBelow(db, c, r);
    NewNameForm(root.name, db[r].name, db[c].name);
    NewNameFree(db, r, root, c, j);
    var name := NewName(root.name, db[r].name, db[c].name);
    if j != r && j in children && NewName(root.name, db[r].name, db[j].name) == name {
      NewNameInjective(db, r, root, c, j);
    }
  }

  lemma DescendantsAreBelow(db: Store, r: Id)
    requires Forest(db)
    ensures r !in Descendants(db, r)
  {
    if r in Descendants(db, r) {
      PathThrough(db, r, r);
    }
  }

  /** Relocating any part of a subtree under a free name keeps names unique. */
  lemma RelocatedUnique(db: Store, r: Id, root: Project, children: set<Id>)
    requires Forest(db) && r in db && GoodRoot(db, r, root)
    requires children <= Descendants(db, r)
    ensures UniqueNames(Relocated(db, r, root, children))
  {
    var db' := Relocated(db, r, root, children);
    DescendantsAreBelow(db, r);
    forall i, j | i in db' && j in db' && db'[i].company == db'[j].company && db'[i].name == db'[j].name
      ensures i == j
    {
      if i != j {
        if i in children {
          PathThrough(db, i, r);
          NewNameApart(db, r, root, children, i, j);
        } else if j in children {
          PathThrough(db, j, r);
          NewNameApart(db, r, root, children, j, i);
        }
      }
    }
  }

  lemma RelocatedPath(db: Store, r: Id, root: Project, i: Id, q: Id)
    requires Forest(db) && r in db && i in Descendants(db, r) && db[i].parent == Some(q)
    ensures q in db && (q == r || q in Descendants(db, r))
    ensures root.path + From(db[i].path, |db[r].path|)
         == (if q == r then root.path else root.path + From(db[q].path, |db[r].path|)) + [q]
  {
    assert Linked(db, i);
    PathThrough(db, i, r);
    var n := |db[r].path|;
    if q == r {
      assert db[i].path[n..] == [r];
    } else {
      assert r in db[q].path;
      PathThrough(db, q, r);
      assert db[i].path[n..] == db[q].path[n..] + [q];
    }
  }

  lemma RelocatedChild(db: Store, r: Id, root: Project, i: Id)
    requires Forest(db) && r in db && GoodRoot(db, r, root) && i in Descendants(db, r)
    ensures var db' := Relocated(db, r, root, Descendants(db, r));
      && db[i].parent.Some?
      && db[i].parent.value in db
      && db'[i].path == db'[db[i].parent.value].path + [db[i].parent.value]
      && db'[i].name == db'[db[i].parent.value].name + [SEP] + db[i].basename
  {
    assert Linked(db, i);
    var q := db[i].parent.value;
    DescendantsAreBelow(db, r);
    NameBelow(db, i, r);
    RelocatedPath(db, r, root, i, q);
    if q == r {
      NewNameGrows(root.name, db[r].name, db[q].name, db[i].basename);
    } else {
      NameBelow(db, q, r);
      NewNameGrows(root.name, db[r].name, db[q].name, db[i].basename);
    }
  }

  /** After relocation every descendant still agrees with its parent. */
  lemma RelocatedLinked(db: Store, r: Id, root: Project, i: Id)
    requires Forest(db) && r in db && GoodRoot(db, r, root) && i in db
    ensures Linked(Relocated(db, r, root, Descendants(db, r)), i)
  {
    var D := Descendants(db, r);
    var db' := Relocated(db, r, root, D);
    DescendantsAreBelow(db, r);
    if i != r {
      assert Linked(db, i);
      if i in D {
        RelocatedChild(db, r, root, i);
      } else if db[i].parent.Some? {
        assert db'[db[i].parent.value] == db[db[i].parent.value];
      }
    }
  }

  /**
   * Moving or renaming a project together with all its descendants keeps the forest, whatever
   * the depth of the subtree; nothing outside the subtree changes.
   */
  lemma RelocationKeepsForest(db: Store, r: Id, root: Project)
    requires Forest(db) && r in db && GoodRoot(db, r, root)
    ensures Forest(Relocated(db, r, root, Descendants(db, r)))
    ensures forall i ::
              i in db && i != r && r !in db[i].path ==> Relocated(db, r, root, Descendants(db, r))[i] == db[i]
    ensures forall i ::
              i in Descendants(db, r) ==>
                |Relocated(db, r, root, Descendants(db, r))[i].path| == |db[i].path| - |db[r].path| + |root.path|
  {
    var D := Descendants(db, r);
    RelocatedUnique(db, r, root, D);
    forall i | i in db ensures Linked(Relocated(db, r, root, D), i) {
      RelocatedLinked(db, r, root, i);
    }
    DescendantsAreBelow(db, r);
    forall i | i in D ensures |Relocated(db, r, root, D)[i].path| == |db[i].path| - |db[r].path| + |root.path| {
      PathThrough(db, i, r);
    }
  }
}
