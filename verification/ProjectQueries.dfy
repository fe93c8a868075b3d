/**
 * The queries on stored paths answer the questions about parents, and an aggregate over a subtree
 * is the aggregate of its parts.
 */
module ProjectQueries {
  import opened Wrappers
  import opened ProjectForest
  import opened ProjectMerge

  /** For each requested project, its sub-projects of all levels. */
  function SubProjects(db: Store, ids: set<Id>): map<Id, set<Id>> {
    var subprojects := set s | s in db && exists q :: q in db[s].path && q in ids;
    map pid | pid in ids :: set s | s in subprojects && pid in db[s].path
  }

  /** The requested projects with all their ancestors. */
  function IdsWithParents(db: Store, ids: set<Id>): set<Id> {
    (set i | i in ids && i in db) + (set i, a | i in ids && i in db && a in db[i].path :: a)
  }

  /** The requested projects with all their descendants. */
  function IdsWithChildren(db: Store, ids: set<Id>): set<Id> {
    ids + set i | i in db && exists a :: a in ids && a in db[i].path
  }

  lemma SelfOrAbove(db: Store, i: Id, a: Id)
    ensures IsAncestor(db, i, a, 0) <==> i == a || IsAncestor(db, i, a, 1)
  {
    assert Ancestor(db, i, 0) == Some(i);
    if IsAncestor(db, i, a, 0) && i != a {
      var k: nat :| k >= 0 && Ancestor(db, i, k) == Some(a);
      assert k >= 1 && Ancestor(db, i, k) == Some(a);
    } else if IsAncestor(db, i, a, 1) {
      var k: nat :| k >= 1 && Ancestor(db, i, k) == Some(a);
      assert k >= 0 && Ancestor(db, i, k) == Some(a);
    }
  }

  /** The three path queries return exactly the transitive descendants and ancestors. */
  lemma QueriesFollowParents(db: Store, ids: set<Id>)
    requires Forest(db)
    ensures SubProjects(db, ids).Keys == ids
    ensures forall pid, s :: pid in ids ==>
              (s in SubProjects(db, ids)[pid] <==> s in db && IsAncestor(db, s, pid, 1))
    ensures forall x :: x in IdsWithParents(db, ids) <==>
              exists i :: i in ids && i in db && IsAncestor(db, i, x, 0)
    ensures forall x :: x in IdsWithChildren(db, ids) <==>
              x in ids || (x in db && exists a :: a in ids && IsAncestor(db, x, a, 1))
  {
    forall i, a | i in db
      ensures a in db[i].path <==> IsAncestor(db, i, a, 1)
      ensures IsAncestor(db, i, a, 0) <==> i == a || a in db[i].path
    {
      PathIsParentChain(db, i, a);
      SelfOrAbove(db, i, a);
    }
  }

  /* ---------- Aggregation ---------- */

  ghost predicate Commutative<T(!new)>(f: (T, T) -> T) {
    forall x, y :: f(x, y) == f(y, x)
  }

  ghost predicate Associative<T(!new)>(f: (T, T) -> T) {
    forall x, y, z :: f(f(x, y), z) == f(x, f(y, z))
  }

  /** `f` with "no data" as its unit. */
  function Combine<T>(f: (T, T) -> T, a: Option<T>, b: Option<T>): Option<T> {
    match (a, b)
    case (None, _) => b
    case (_, None) => a
    case (Some(x), Some(y)) => Some(f(x, y))
  }

  /** `reduce(f, xs)`, from the left; `None` when there is nothing to reduce. */
  function Reduce<T>(f: (T, T) -> T, xs: seq<T>): Option<T> {
    if xs == [] then None else Combine(f, Reduce(f, xs[..|xs| - 1]), Some(xs[|xs| - 1]))
  }

  /** The data of the relevant projects, in the order of the data. */
  function Relevant<T>(data: seq<(Id, T)>, projects: set<Id>): seq<T> {
    if data == [] then []
    else
      var rest := Relevant(data[..|data| - 1], projects);
      if data[|data| - 1].0 in projects then rest + [data[|data| - 1].1] else rest
  }

  /** Where the data of some projects stand. */
  ghost function Positions<T>(data: seq<(Id, T)>, projects: set<Id>): set<int> {
    set k | 0 <= k < |data| && data[k].0 in projects
  }

  lemma PositionsSnoc<T>(data: seq<(Id, T)>, projects: set<Id>)
    requires data != []
    ensures var n := |data| - 1;
      Positions(data, projects) == Positions(data[..n], projects) + if data[n].0 in projects then {n} else {}
  {
  }

  lemma {:induction false} RelevantSize<T>(data: seq<(Id, T)>, projects: set<Id>)
    ensures |Relevant(data, projects)| == |Positions(data, projects)|
  {
    if data != [] {
      RelevantSize(data[..|data| - 1], projects);
      PositionsSnoc(data, projects);
    }
  }

  /** Each datum of the projects is there once, in its order, and there is nothing else. */
  lemma {:induction false} RelevantMeans<T>(data: seq<(Id, T)>, projects: set<Id>, k: int)
    requires k in Positions(data, projects)
    ensures |Relevant(data, projects)| == |Positions(data, projects)|
    ensures var n := |Positions(data[..k], projects)|;
      n < |Relevant(data, projects)| && Relevant(data, projects)[n] == data[k].1
  {
    var last := |data| - 1;
    RelevantSize(data, projects);
    RelevantSize(data[..last], projects);
    if k < last {
      assert k in Positions(data[..last], projects);
      assert data[..last][..k] == data[..k];
      RelevantMeans(data[..last], projects, k);
    }
  }

  /** The aggregate of one project: its own data and that of all its sub-projects. */
  function Aggregate<T>(f: (T, T) -> T, db: Store, pid: Id, data: seq<(Id, T)>): Option<T> {
    Reduce(f, Relevant(data, Descendants(db, pid) + {pid}))
  }

  lemma SubProjectsOf(db: Store, ids: set<Id>, pid: Id)
    requires pid in ids
    ensures SubProjects(db, ids)[pid] == Descendants(db, pid)
  {
    assert forall s :: s in Descendants(db, pid) ==> pid in db[s].path;
  }

  lemma ReduceNone<T>(f: (T, T) -> T, xs: seq<T>)
    ensures Reduce(f, xs) == None <==> xs == []
  {
  }

  /** The aggregates of the requested projects that have any data, each from its sub-projects of all levels. */
  method AggregateProjectData<T>(f: (T, T) -> T, projectIds: seq<Id>, childProjects: map<Id, set<Id>>,
                                 data: seq<(Id, T)>, ghost db: Store)
    returns (aggregated: map<Id, T>)
    requires childProjects == SubProjects(db, set i | i in projectIds)
    ensures forall pid :: pid in aggregated <==> pid in projectIds && Aggregate(f, db, pid, data).Some?
    ensures forall pid :: pid in aggregated ==> Aggregate(f, db, pid, data) == Some(aggregated[pid])
  {
    aggregated := map[];
    for n := 0 to |projectIds|
      invariant forall pid :: pid in aggregated <==> pid in projectIds[..n] && Aggregate(f, db, pid, data).Some?
      invariant forall pid :: pid in aggregated ==> Aggregate(f, db, pid, data) == Some(aggregated[pid])
    {
      var pid := projectIds[n];
      assert projectIds[..n + 1] == projectIds[..n] + [pid];
      SubProjectsOf(db, (set i | i in projectIds), pid);
      var relevant := Relevant(data, childProjects[pid] + {pid});
      ReduceNone(f, relevant);
      if relevant != [] {
        aggregated := aggregated[pid := Reduce(f, relevant).value];
      }
    }
    assert projectIds[..|projectIds|] == projectIds;
  }

  /** The aggregates of several projects, combined. */
  function AggregateAll<T>(f: (T, T) -> T, db: Store, pids: seq<Id>, data: seq<(Id, T)>): Option<T> {
    if pids == [] then None
    else Combine(f, AggregateAll(f, db, pids[..|pids| - 1], data), Aggregate(f, db, pids[|pids| - 1], data))
  }

  lemma CombineLaws<T(!new)>(f: (T, T) -> T, a: Option<T>, b: Option<T>, c: Option<T>)
    requires Commutative(f) && Associative(f)
    ensures Combine(f, Combine(f, a, b), c) == Combine(f, a, Combine(f, b, c))
    ensures Combine(f, Combine(f, a, b), c) == Combine(f, Combine(f, a, c), b)
  {
    if a.Some? && b.Some? && c.Some? {
      assert f(f(a.value, b.value), c.value) == f(a.value, f(b.value, c.value));
      assert f(f(a.value, c.value), b.value) == f(a.value, f(c.value, b.value));
    }
  }

  lemma ReduceSnoc<T>(f: (T, T) -> T, xs: seq<T>, x: T)
    ensures Reduce(f, xs + [x]) == Combine(f, Reduce(f, xs), Some(x))
  {
    assert (xs + [x])[..|xs|] == xs;
  }

  /** The data of disjoint sets of projects can be reduced apart. */
  lemma {:induction false} ReduceDisjoint<T(!new)>(f: (T, T) -> T, data: seq<(Id, T)>, s: set<Id>, u: set<Id>)
    requires Commutative(f) && Associative(f) && s !! u
    ensures Reduce(f, Relevant(data, s + u))
         == Combine(f, Reduce(f, Relevant(data, s)), Reduce(f, Relevant(data, u)))
  {
    if data != [] {
      var front, last := data[..|data| - 1], data[|data| - 1];
      ReduceDisjoint(f, front, s, u);
      var a, b := Reduce(f, Relevant(front, s)), Reduce(f, Relevant(front, u));
      ReduceSnoc(f, Relevant(front, s + u), last.1);
      ReduceSnoc(f, Relevant(front, s), last.1);
      ReduceSnoc(f, Relevant(front, u), last.1);
      CombineLaws(f, a, b, Some(last.1));
    }
  }

  /** The subtrees of two different children of one project have nothing in common. */
  lemma SiblingsApart(db: Store, pid: Id, c: Id, d: Id)
    requires Forest(db) && c in Children(db, pid) && d in Children(db, pid) && c != d
    ensures (Descendants(db, c) + {c}) !! (Descendants(db, d) + {d})
  {
    ChildOfSource(db, pid, c);
    ChildOfSource(db, pid, d);
    forall i | i in Descendants(db, c) + {c} && i in Descendants(db, d) + {d} ensures false {
      if i in Descendants(db, c) {
        PathThrough(db, i, c);
      }
      if i in Descendants(db, d) {
        PathThrough(db, i, d);
      }
    }
  }

  ghost function Subtrees(db: Store, pids: seq<Id>): set<Id> {
    set i, p | p in pids && i in Descendants(db, p) + {p} :: i
  }

  lemma Siblings(db: Store, pid: Id, cs: seq<Id>)
    requires cs != [] && forall k :: 0 <= k < |cs| ==> cs[k] in Children(db, pid)
    requires forall k, m :: 0 <= k < m < |cs| ==> cs[k] != cs[m]
    ensures var front, last := cs[..|cs| - 1], cs[|cs| - 1];
      && cs == front + [last] && last in Children(db, pid) && last !in front
      && forall c :: c in front ==> c in Children(db, pid)
  {
  }

  lemma SubtreesApart(db: Store, pid: Id, front: seq<Id>, last: Id)
    requires Forest(db) && last in Children(db, pid) && last !in front
    requires forall c :: c in front ==> c in Children(db, pid)
    ensures Subtrees(db, front) !! (Descendants(db, last) + {last})
  {
    forall i | i in Subtrees(db, front) ensures i !in Descendants(db, last) + {last} {
      var p :| p in front && i in Descendants(db, p) + {p};
      SiblingsApart(db, pid, p, last);
    }
  }

  lemma SubtreesSplit(db: Store, front: seq<Id>, last: Id)
    ensures Subtrees(db, front + [last]) == Subtrees(db, front) + (Descendants(db, last) + {last})
  {
    forall i
      ensures i in Subtrees(db, front + [last]) <==> i in Subtrees(db, front) + (Descendants(db, last) + {last})
    {
      if i in Descendants(db, last) + {last} {
        assert last in front + [last];
      } else if i in Subtrees(db, front) {
        var p :| p in front && i in Descendants(db, p) + {p};
        assert p in front + [last];
      }
    }
  }

  lemma {:induction false} NothingRelevant<T>(data: seq<(Id, T)>)
    ensures Relevant(data, {}) == []
  {
    if data != [] {
      NothingRelevant(data[..|data| - 1]);
    }
  }

  lemma {:induction false} AggregateOfSubtrees<T(!new)>(f: (T, T) -> T, db: Store, pid: Id, cs: seq<Id>,
                                                        data: seq<(Id, T)>)
    requires Forest(db) && Commutative(f) && Associative(f)
    requires forall k :: 0 <= k < |cs| ==> cs[k] in Children(db, pid)
    requires forall k, m :: 0 <= k < m < |cs| ==> cs[k] != cs[m]
    ensures Reduce(f, Relevant(data, Subtrees(db, cs))) == AggregateAll(f, db, cs, data)
  {
    if cs == [] {
      NothingRelevant(data);
      assert Subtrees(db, cs) == {};
    } else {
      var front, last := cs[..|cs| - 1], cs[|cs| - 1];
      AggregateOfSubtrees(f, db, pid, front, data);
      Siblings(db, pid, cs);
      SubtreesSplit(db, front, last);
      SubtreesApart(db, pid, front, last);
      ReduceDisjoint(f, data, Subtrees(db, front), Descendants(db, last) + {last});
    }
  }

  lemma ChildOnTheWay(db: Store, pid: Id, i: Id)
    requires Forest(db) && i in Descendants(db, pid)
    ensures exists c :: c in Children(db, pid) && i in Descendants(db, c) + {c}
    decreases |db[i].path|
  {
    assert Linked(db, i);
    var q := db[i].parent.value;
    if q == pid {
      assert i in Children(db, pid);
    } else {
      assert q in Descendants(db, pid);
      ChildOnTheWay(db, pid, q);
      var c :| c in Children(db, pid) && q in Descendants(db, c) + {c};
      assert i in Descendants(db, c);
    }
  }

  lemma DescendantsByChild(db: Store, pid: Id, cs: seq<Id>)
    requires Forest(db) && forall i :: i in cs <==> i in Children(db, pid)
    ensures Subtrees(db, cs) == Descendants(db, pid)
  {
    forall i | i in Descendants(db, pid) ensures i in Subtrees(db, cs) {
      ChildOnTheWay(db, pid, i);
    }
    forall i, p | p in cs && i in Descendants(db, p) + {p} ensures i in Descendants(db, pid) {
      ChildOfSource(db, pid, p);
      if i != p {
        PathTransitive(db, i, p, pid);
      }
    }
  }

  /**
   * For an associative and commutative function, the aggregate of a project is its own data
   * combined with the aggregates of its direct children, in whatever order they are listed.
   */
  lemma AggregateIsRecursive<T(!new)>(f: (T, T) -> T, db: Store, pid: Id, cs: seq<Id>, data: seq<(Id, T)>)
    requires Forest(db) && Commutative(f) && Associative(f)
    requires forall i :: i in cs <==> i in Children(db, pid)
    requires forall k, m :: 0 <= k < m < |cs| ==> cs[k] != cs[m]
    ensures Aggregate(f, db, pid, data)
         == Combine(f, Reduce(f, Relevant(data, {pid})), AggregateAll(f, db, cs, data))
  {
    AggregateOfSubtrees(f, db, pid, cs, data);
    DescendantsAreBelow(db, pid);
    DescendantsByChild(db, pid, cs);
    ReduceDisjoint(f, data, {pid}, Descendants(db, pid));
    assert Descendants(db, pid) + {pid} == {pid} + Descendants(db, pid);
  }
}
