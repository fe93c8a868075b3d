/**
 * The task queue: a stored list of entries changed by atomic updates, each guarded by its own
 * query. Methods read the list before they update it, so the steps of different callers interleave.
 */
module TaskQueue {
  import opened Wrappers

  type TaskId = nat

  datatype Entry = Entry(task: TaskId, added: int)

  datatype Error = TaskAlreadyQueued | TaskNotQueued | Failed

  /** Where an operation raises an exception: nowhere, before its update (no such queue), or after it (metrics). */
  datatype Fault = NoFault | BeforeUpdate | AfterUpdate

  datatype Move = ToFirst | ToLast | By(count: int)

  predicate Queued(entries: seq<Entry>, task: TaskId) {
    exists k :: 0 <= k < |entries| && entries[k].task == task
  }

  /** No task is queued twice. */
  ghost predicate DistinctTasks(entries: seq<Entry>) {
    forall i, j :: 0 <= i < j < |entries| ==> entries[i].task != entries[j].task
  }

  function Without(entries: seq<Entry>, task: TaskId): seq<Entry> {
    if entries == [] then []
    else (if entries[0].task == task then [] else [entries[0]]) + Without(entries[1..], task)
  }

  function Only(entries: seq<Entry>, task: TaskId): seq<Entry> {
    if entries == [] then []
    else (if entries[0].task == task then [entries[0]] else []) + Only(entries[1..], task)
  }

  /** `$pullAll`: drop the entries equal to one of the given ones. */
  function Dropped(entries: seq<Entry>, gone: set<Entry>): seq<Entry> {
    if entries == [] then []
    else (if entries[0] in gone then [] else [entries[0]]) + Dropped(entries[1..], gone)
  }

  function IndexOf(entries: seq<Entry>, task: TaskId): (k: nat)
    requires Queued(entries, task)
    ensures k < |entries| && entries[k].task == task
    ensures forall i :: 0 <= i < k ==> entries[i].task != task
  {
    if entries[0].task == task then 0
    else
      assert entries == [entries[0]] + entries[1..];
      1 + IndexOf(entries[1..], task)
  }

  /** The update pipeline of a reposition: take the task out and put it back at its new position. */
  function Repositioned(entries: seq<Entry>, task: TaskId, move: Move): seq<Entry>
    requires Queued(entries, task)
  {
    var without, entry := Without(entries, task), Only(entries, task);
    match move
    case ToFirst => entry + without
    case ToLast => without + entry
    case By(count) =>
      var newPos := IndexOf(entries, task) + count;
      if newPos <= 0 then entry + without
      else if newPos >= |without| then without + entry
      else without[..newPos] + entry + without[newPos..]
  }

  /* ---------- Reposition ---------- */

  lemma {:induction false} NotQueued(entries: seq<Entry>, task: TaskId)
    requires !Queued(entries, task)
    ensures Only(entries, task) == [] && Without(entries, task) == entries
  {
    if entries != [] {
      assert entries[0].task != task;
      assert !Queued(entries[1..], task) by {
        forall k | 0 <= k < |entries[1..]| ensures entries[1..][k].task != task {
          assert entries[k + 1].task != task;
        }
      }
      NotQueued(entries[1..], task);
      assert entries == [entries[0]] + entries[1..];
    }
  }

  /** Around the only entry of a task, the list falls into what is before and what is behind. */
  lemma {:induction false} Around(entries: seq<Entry>, task: TaskId)
    requires DistinctTasks(entries) && Queued(entries, task)
    ensures var k := IndexOf(entries, task);
      && Only(entries, task) == [entries[k]]
      && Without(entries, task) == entries[..k] + entries[k + 1..]
  {
    var k := IndexOf(entries, task);
    var tail := entries[1..];
    assert entries == [entries[0]] + tail;
    if k == 0 {
      NotQueued(tail, task);
      assert entries[..0] == [];
    } else {
      assert Queued(tail, task) by { assert tail[k - 1].task == task; }
      Around(tail, task);
      assert entries[..k] == [entries[0]] + tail[..k - 1];
      assert entries[k + 1..] == tail[k..];
    }
  }

  function Clamp(x: int, hi: nat): nat {
    if x < 0 then 0 else if x > hi then hi else x
  }

  /** Where a reposition must put the task. */
  function NewPosition(entries: seq<Entry>, task: TaskId, move: Move): nat
    requires Queued(entries, task)
  {
    match move
    case ToFirst => 0
    case ToLast => |entries| - 1
    case By(count) => Clamp(IndexOf(entries, task) + count, |entries| - 1)
  }

  lemma AroundIsRest(entries: seq<Entry>, k: nat)
    requires DistinctTasks(entries) && k < |entries|
    ensures var w := entries[..k] + entries[k + 1..];
      && DistinctTasks(w) && (forall i :: 0 <= i < |w| ==> w[i].task != entries[k].task)
      && multiset(w) + multiset{entries[k]} == multiset(entries)
  {
    var w := entries[..k] + entries[k + 1..];
    assert entries == entries[..k] + [entries[k]] + entries[k + 1..];
    forall i | 0 <= i < |w| ensures w[i] == entries[if i < k then i else i + 1] {
    }
  }

  /** An entry put between two stretches of the list without it. */
  lemma Between(a: seq<Entry>, x: Entry, b: seq<Entry>)
    requires DistinctTasks(a + b) && forall i :: 0 <= i < |a + b| ==> (a + b)[i].task != x.task
    ensures var r := a + [x] + b;
      && DistinctTasks(r) && Queued(r, x.task) && IndexOf(r, x.task) == |a|
  {
    var r, w := a + [x] + b, a + b;
    assert r[|a|] == x;
    forall i | 0 <= i < |r| && i != |a| ensures r[i] == w[if i < |a| then i else i - 1] {
    }
  }

  lemma BetweenIsMore(a: seq<Entry>, x: Entry, b: seq<Entry>)
    ensures var r := a + [x] + b;
      multiset(r) == multiset(a + b) + multiset{x} && r[..|a|] + r[|a| + 1..] == a + b
  {
  }

  lemma PutBack(entries: seq<Entry>, task: TaskId, a: seq<Entry>, b: seq<Entry>)
    requires DistinctTasks(entries) && Queued(entries, task)
    requires a + b == Without(entries, task)
    ensures var r := a + Only(entries, task) + b;
      && multiset(r) == multiset(entries) && DistinctTasks(r)
      && Without(r, task) == Without(entries, task)
      && Queued(r, task) && IndexOf(r, task) == |a|
  {
    var k := IndexOf(entries, task);
    Around(entries, task);
    AroundIsRest(entries, k);
    Between(a, entries[k], b);
    BetweenIsMore(a, entries[k], b);
    Around(a + [entries[k]] + b, task);
  }

  lemma AtTheEnds(w: seq<Entry>, e: seq<Entry>, p: nat)
    requires p <= |w|
    ensures p == 0 ==> w[..p] + e + w[p..] == e + w
    ensures p == |w| ==> w[..p] + e + w[p..] == w + e
  {
  }

  /** The pipeline puts the task's entry at its clamped new position among the others. */
  lemma RepositionedAt(entries: seq<Entry>, task: TaskId, move: Move)
    requires DistinctTasks(entries) && Queued(entries, task)
    ensures var w, p := Without(entries, task), NewPosition(entries, task, move);
      p <= |w| && Repositioned(entries, task, move) == w[..p] + Only(entries, task) + w[p..]
  {
    Around(entries, task);
    var w, p, e := Without(entries, task), NewPosition(entries, task, move), Only(entries, task);
    assert |w| == |entries| - 1;
    AtTheEnds(w, e, p);
  }

  /**
   * A reposition permutes the entries, keeps the relative order of all other tasks and puts the
   * task at its clamped new position.
   */
  lemma RepositionLands(entries: seq<Entry>, task: TaskId, move: Move)
    requires DistinctTasks(entries) && Queued(entries, task)
    ensures var r := Repositioned(entries, task, move);
      && multiset(r) == multiset(entries) && DistinctTasks(r)
      && Without(r, task) == Without(entries, task)
      && Queued(r, task) && IndexOf(r, task) == NewPosition(entries, task, move)
  {
    var w, p := Without(entries, task), NewPosition(entries, task, move);
    RepositionedAt(entries, task, move);
    assert w[..p] + w[p..] == w;
    PutBack(entries, task, w[..p], w[p..]);
  }

  lemma BackTogether(entries: seq<Entry>, k: nat)
    requires k < |entries|
    ensures var w := entries[..k] + entries[k + 1..];
      w[..k] + [entries[k]] + w[k..] == entries
  {
  }

  lemma SamePlace(entries: seq<Entry>, task: TaskId, move: Move)
    requires DistinctTasks(entries) && Queued(entries, task)
    requires NewPosition(entries, task, move) == IndexOf(entries, task)
    ensures Repositioned(entries, task, move) == entries
  {
    var k := IndexOf(entries, task);
    RepositionedAt(entries, task, move);
    Around(entries, task);
    BackTogether(entries, k);
  }

  /* ---------- Atomic steps of all callers ---------- */

  /** One atomic update of the stored list. */
  datatype Step =
    | Push(entry: Entry)
    | Pop(expected: Option<TaskId>)
    | Pull(task: TaskId, gone: set<Entry>)
    | Clear
    | Reposition(task: TaskId, move: Move)

  /** The list with the history of everything pushed to it and popped from it. */
  datatype History = History(entries: seq<Entry>, pushed: seq<Entry>, popped: seq<Entry>)

  /** The guarded push: nothing happens if the task is already queued. */
  function Pushed(entries: seq<Entry>, e: Entry): seq<Entry> {
    if Queued(entries, e.task) then entries else entries + [e]
  }

  /** An update applies only if its query still matches. */
  function Apply(h: History, step: Step): History {
    match step
    case Push(e) =>
      h.(entries := Pushed(h.entries, e), pushed := if Queued(h.entries, e.task) then h.pushed else h.pushed + [e])
    case Pop(expected) =>
      if h.entries == [] || (expected.Some? && h.entries[0].task != expected.value) then h
      else h.(entries := h.entries[1..], popped := h.popped + [h.entries[0]])
    case Pull(task, gone) =>
      if Queued(h.entries, task) then h.(entries := Dropped(h.entries, gone)) else h
    case Clear => h.(entries := [])
    case Reposition(task, move) =>
      if Queued(h.entries, task) then h.(entries := Repositioned(h.entries, task, move)) else h
  }

  /** The list after a step, whatever its history. */
  ghost predicate StepTo(entries: seq<Entry>, step: Step, entries': seq<Entry>) {
    forall h: History :: h.entries == entries ==> Apply(h, step).entries == entries'
  }

  /** `d` is what a step adds to the list, and `e` what it takes off its head. */
  ghost predicate Moves(h: History, step: Step, h': History, d: seq<Entry>, e: seq<Entry>) {
    && h'.pushed == h.pushed + d && h'.popped == h.popped + e
    && (if step.Push? then h'.entries == h.entries + d else d == [])
    && (if step.Pop? then h.entries == e + h'.entries else e == [])
  }

  /** Exactly what a push adds to the list is pushed, and what a pop takes off its head is popped. */
  lemma HistoryFollows(h: History, step: Step)
    ensures exists d, e :: Moves(h, step, Apply(h, step), d, e)
  {
    var h' := Apply(h, step);
    var d := if step.Push? && !Queued(h.entries, step.entry.task) then [step.entry] else [];
    var e := if step.Pop? && h' != h then [h.entries[0]] else [];
    assert Moves(h, step, h', d, e);
  }

  function Run(h: History, steps: seq<Step>): History
    decreases |steps|
  {
    if steps == [] then h else Run(Apply(h, steps[0]), steps[1..])
  }

  /** `xs` arises from `ys` by leaving out elements. */
  predicate Subsequence<T(==)>(xs: seq<T>, ys: seq<T>) {
    if xs == [] then true
    else if ys == [] then false
    else if xs[|xs| - 1] == ys[|ys| - 1] then Subsequence(xs[..|xs| - 1], ys[..|ys| - 1])
    else Subsequence(xs, ys[..|ys| - 1])
  }

  lemma {:induction false} SubsequenceRefl<T>(xs: seq<T>)
    ensures Subsequence(xs, xs)
  {
    if xs != [] {
      SubsequenceRefl(xs[..|xs| - 1]);
    }
  }

  /** Matching greedily from the end never hurts. */
  lemma {:induction false} SubsequenceFront<T>(xs: seq<T>, ys: seq<T>)
    requires xs != [] && Subsequence(xs, ys)
    ensures Subsequence(xs[..|xs| - 1], ys)
    ensures ys != [] && Subsequence(xs[..|xs| - 1], ys[..|ys| - 1])
  {
    var x, y := xs[|xs| - 1], ys[|ys| - 1];
    var front := xs[..|xs| - 1];
    if x == y {
      assert Subsequence(front, ys[..|ys| - 1]);
      if front != [] && front[|front| - 1] == y {
        SubsequenceFront(front, ys[..|ys| - 1]);
      }
    } else {
      SubsequenceFront(xs, ys[..|ys| - 1]);
      if front != [] && front[|front| - 1] == y {
        SubsequenceFront(front, ys[..|ys| - 1]);
      }
    }
  }

  lemma {:induction false} SubsequenceTransitive<T>(xs: seq<T>, ys: seq<T>, zs: seq<T>)
    requires Subsequence(xs, ys) && Subsequence(ys, zs)
    ensures Subsequence(xs, zs)
    decreases |ys| + |zs|
  {
    if xs != [] {
      var fx, fy, fz := xs[..|xs| - 1], ys[..|ys| - 1], zs[..|zs| - 1];
      if xs[|xs| - 1] == zs[|zs| - 1] {
        if xs[|xs| - 1] == ys[|ys| - 1] {
          SubsequenceTransitive(fx, fy, fz);
        } else {
          SubsequenceFront(xs, ys);
          SubsequenceTransitive(fx, ys, fz);
        }
      } else if ys[|ys| - 1] == zs[|zs| - 1] {
        SubsequenceTransitive(xs, fy, fz);
      } else {
        SubsequenceTransitive(xs, ys, fz);
      }
    }
  }

  lemma SubsequenceSnoc<T>(xs: seq<T>, ys: seq<T>, x: T)
    requires Subsequence(xs, ys)
    ensures Subsequence(xs + [x], ys + [x])
  {
    assert (xs + [x])[..|xs|] == xs && (ys + [x])[..|ys|] == ys;
  }

  lemma {:induction false} SubsequenceAfter<T>(xs: seq<T>, ys: seq<T>, a: seq<T>)
    requires Subsequence(xs, ys)
    ensures Subsequence(a + xs, a + ys)
  {
    if ys == [] {
      SubsequenceRefl(a);
      assert a + xs == a && a + ys == a;
    } else if xs == [] {
      SubsequenceAfter([], ys[..|ys| - 1], a);
      assert (a + ys)[..|a + ys| - 1] == a + ys[..|ys| - 1];
      assert a + [] == a;
      if a != [] && a[|a| - 1] == ys[|ys| - 1] {
        SubsequenceFront(a, a + ys[..|ys| - 1]);
      }
    } else {
      assert (a + ys)[..|a + ys| - 1] == a + ys[..|ys| - 1];
      assert (a + xs)[..|a + xs| - 1] == a + xs[..|xs| - 1];
      if xs[|xs| - 1] == ys[|ys| - 1] {
        SubsequenceAfter(xs[..|xs| - 1], ys[..|ys| - 1], a);
      } else {
        SubsequenceAfter(xs, ys[..|ys| - 1], a);
      }
    }
  }

  lemma {:induction false} SubsequenceTail<T>(xs: seq<T>, ys: seq<T>)
    requires xs != [] && Subsequence(xs, ys)
    ensures Subsequence(xs[1..], ys)
    decreases |ys|
  {
    if |xs| > 1 {
      var fy := ys[..|ys| - 1];
      if xs[|xs| - 1] == ys[|ys| - 1] {
        SubsequenceTail(xs[..|xs| - 1], fy);
        assert xs[1..][..|xs| - 2] == xs[..|xs| - 1][1..];
      } else {
        SubsequenceTail(xs, fy);
      }
    }
  }

  lemma {:induction false} DroppedIsSubsequence(entries: seq<Entry>, gone: set<Entry>)
    ensures Subsequence(Dropped(entries, gone), entries)
  {
    if entries != [] {
      var tail := entries[1..];
      var rest := Dropped(tail, gone);
      assert entries == [entries[0]] + tail;
      DroppedIsSubsequence(tail, gone);
      SubsequenceAfter(rest, tail, [entries[0]]);
      if entries[0] in gone {
        SubsequenceTail([entries[0]] + rest, entries);
        assert ([entries[0]] + rest)[1..] == rest && [] + rest == rest;
      }
    }
  }

  lemma {:induction false} DroppedFewer(entries: seq<Entry>, gone: set<Entry>)
    ensures multiset(Dropped(entries, gone)) <= multiset(entries)
    ensures forall e :: e in Dropped(entries, gone) ==> e in entries
  {
    if entries != [] {
      assert entries == [entries[0]] + entries[1..];
      DroppedFewer(entries[1..], gone);
    }
  }

  lemma {:induction false} DroppedKeepsDistinct(entries: seq<Entry>, gone: set<Entry>)
    requires DistinctTasks(entries)
    ensures DistinctTasks(Dropped(entries, gone))
  {
    if entries != [] {
      var first, rest := entries[0], Dropped(entries[1..], gone);
      assert DistinctTasks(entries[1..]);
      DroppedKeepsDistinct(entries[1..], gone);
      DroppedFewer(entries[1..], gone);
      forall k | 0 <= k < |rest| ensures rest[k].task != first.task {
        assert rest[k] in rest;
        var i :| 0 <= i < |entries[1..]| && entries[1..][i] == rest[k];
        assert entries[i + 1] == rest[k];
      }
    }
  }

  /** What every step keeps, for every interleaving of the callers. */
  ghost predicate Sound(h: History) {
    && DistinctTasks(h.entries)
    && multiset(h.popped) + multiset(h.entries) <= multiset(h.pushed)
  }

  /** First in, first out: what was popped and what is still queued follow the order of pushing. */
  ghost predicate InOrder(h: History) {
    Subsequence(h.popped + h.entries, h.pushed)
  }

  lemma FirstMoves(popped: seq<Entry>, entries: seq<Entry>)
    requires entries != []
    ensures multiset(popped + [entries[0]]) + multiset(entries[1..]) == multiset(popped) + multiset(entries)
  {
    assert entries == [entries[0]] + entries[1..];
  }

  lemma StepKeepsSound(h: History, step: Step)
    requires Sound(h)
    ensures Sound(Apply(h, step))
  {
    match step
    case Push(e) =>
    case Pop(_) =>
      if h.entries != [] {
        FirstMoves(h.popped, h.entries);
      }
    case Pull(_, gone) =>
      DroppedKeepsDistinct(h.entries, gone);
      DroppedFewer(h.entries, gone);
    case Clear =>
    case Reposition(task, move) =>
      if Queued(h.entries, task) {
        RepositionLands(h.entries, task, move);
      }
  }

  lemma StepKeepsOrder(h: History, step: Step)
    requires InOrder(h) && !step.Reposition?
    ensures InOrder(Apply(h, step))
  {
    match step
    case Push(e) =>
      SubsequenceSnoc(h.popped + h.entries, h.pushed, e);
      assert h.popped + (h.entries + [e]) == (h.popped + h.entries) + [e];
    case Pop(_) =>
      if h.entries != [] {
        assert (h.popped + [h.entries[0]]) + h.entries[1..] == h.popped + h.entries;
      }
    case Pull(_, gone) =>
      DroppedIsSubsequence(h.entries, gone);
      SubsequenceAfter(Dropped(h.entries, gone), h.entries, h.popped);
      SubsequenceTransitive(h.popped + Dropped(h.entries, gone), h.popped + h.entries, h.pushed);
    case Clear =>
      SubsequenceAfter([], h.entries, h.popped);
      SubsequenceTransitive(h.popped + [], h.popped + h.entries, h.pushed);
  }

  /**
   * Over every interleaving of atomic steps: no task is queued twice, nothing is popped that was
   * not pushed, and nothing is popped more often than it was pushed.
   */
  lemma {:induction false} RunKeepsSound(h: History, steps: seq<Step>)
    requires Sound(h)
    ensures Sound(Run(h, steps))
    decreases |steps|
  {
    if steps != [] {
      StepKeepsSound(h, steps[0]);
      RunKeepsSound(Apply(h, steps[0]), steps[1..]);
    }
  }

  /** Without repositions, entries are popped in the order in which they were pushed. */
  lemma {:induction false} RunIsFifo(h: History, steps: seq<Step>)
    requires InOrder(h) && forall s :: s in steps ==> !s.Reposition?
    ensures InOrder(Run(h, steps))
    ensures Subsequence(Run(h, steps).popped, Run(h, steps).pushed)
    decreases |steps|
  {
    if steps != [] {
      StepKeepsOrder(h, steps[0]);
      RunIsFifo(Apply(h, steps[0]), steps[1..]);
    } else {
      SubsequenceAfter([], h.entries, h.popped);
      SubsequenceTransitive(h.popped + [], h.popped + h.entries, h.pushed);
      assert h.popped + [] == h.popped;
    }
  }

  /* ---------- The operations of one caller ---------- */

  lemma {:induction false} OnlyIsQueued(entries: seq<Entry>, task: TaskId)
    ensures forall e :: e in Only(entries, task) <==> e in entries && e.task == task
    ensures Queued(entries, task) ==> |Only(entries, task)| >= 1
  {
    if entries != [] {
      OnlyIsQueued(entries[1..], task);
      assert entries == [entries[0]] + entries[1..];
    }
    if Queued(entries, task) {
      var k :| 0 <= k < |entries| && entries[k].task == task;
      assert entries[k] in Only(entries, task);
    }
  }

  lemma {:induction false} DroppedOnly(entries: seq<Entry>, task: TaskId, gone: set<Entry>)
    requires forall e :: e in entries ==> (e in gone <==> e.task == task)
    ensures Dropped(entries, gone) == Without(entries, task)
  {
    if entries != [] {
      assert entries == [entries[0]] + entries[1..];
      DroppedOnly(entries[1..], task, gone);
    }
  }

  /** The query of a pop matches: always, or if the expected task is first. */
  predicate IsNext(entries: seq<Entry>, expected: Option<TaskId>) {
    expected == None || (entries != [] && entries[0].task == expected.value)
  }

  class Queue {
    var entries: seq<Entry>

    constructor ()
      ensures entries == []
    {
      entries := [];
    }

    /** Add a task at the end, if it is not queued yet and nothing fails. */
    method AddTask(task: TaskId, now: int, fault: Fault) returns (r: Result<(), Error>)
      modifies this
      ensures r.Ok? <==> fault == NoFault && !Queued(old(entries), task)
      ensures entries == if fault == BeforeUpdate then old(entries) else Pushed(old(entries), Entry(task, now))
      ensures fault != BeforeUpdate ==> StepTo(old(entries), Push(Entry(task, now)), entries)
      ensures DistinctTasks(old(entries)) ==> DistinctTasks(entries)
    {
      if fault == BeforeUpdate {
        return Err(Failed);
      }
      if exists k :: 0 <= k < |entries| && entries[k].task == task {
        return Err(TaskAlreadyQueued);
      }
      entries := entries + [Entry(task, now)];
      r := if fault == AfterUpdate then Err(Failed) else Ok(());
    }

    /**
     * Pop the first entry; with an expected task only if that task is first. An exception after
     * the update loses the entry.
     */
    method GetNextTask(expected: Option<TaskId>, fault: Fault) returns (r: Result<Option<Entry>, Error>)
      modifies this
      ensures fault == BeforeUpdate ==> r == Err(Failed) && entries == old(entries)
      ensures fault != BeforeUpdate ==> StepTo(old(entries), Pop(expected), entries)
      ensures fault != BeforeUpdate ==>
        var was := old(entries);
        if expected.Some? && (was == [] || was[0].task != expected.value) then r == Ok(None) && entries == was
        else if was == [] then entries == [] && r == (if fault == NoFault then Ok(None) else Err(Failed))
        else was == [was[0]] + entries && r == if fault == NoFault then Ok(Some(was[0])) else Err(Failed)
    {
      if fault == BeforeUpdate {
        return Err(Failed);
      }
      if !IsNext(entries, expected) {
        return Ok(None);
      }
      var popped := entries;
      if entries != [] {
        entries := entries[1..];
      }
      if fault == AfterUpdate {
        return Err(Failed);
      }
      r := Ok(if popped == [] then None else Some(popped[0]));
    }

    /** Remove the entries of a task and say how many they were. */
    method RemoveTask(task: TaskId, fault: Fault) returns (r: Result<nat, Error>)
      modifies this
      ensures r.Ok? <==> fault == NoFault && Queued(old(entries), task)
      ensures entries == if fault == BeforeUpdate then old(entries) else Without(old(entries), task)
      ensures fault != BeforeUpdate ==>
        StepTo(old(entries), Pull(task, set e | e in Only(old(entries), task)), entries)
      ensures r.Ok? ==> r.value == |Only(old(entries), task)| >= 1
    {
      if fault == BeforeUpdate {
        return Err(Failed);
      }
      if !(exists k :: 0 <= k < |entries| && entries[k].task == task) {
        NotQueued(entries, task);
        return Err(TaskNotQueued);
      }
      var remove := Only(entries, task);
      OnlyIsQueued(entries, task);
      DroppedOnly(entries, task, set e | e in remove);
      entries := Dropped(entries, set e | e in remove);
      r := if fault == AfterUpdate then Err(Failed) else Ok(|remove|);
    }

    method ClearQueue()
      modifies this
      ensures entries == []
    {
      entries := [];
    }

    /** Move a task within the queue; the answer is its position afterwards. */
    method RepositionTask(task: TaskId, move: Move) returns (r: Result<int, Error>)
      requires DistinctTasks(entries)
      modifies this
      ensures r.Err? <==> !Queued(old(entries), task)
      ensures r.Err? ==> entries == old(entries)
      ensures StepTo(old(entries), Reposition(task, move), entries)
      ensures r.Ok? ==>
        && multiset(entries) == multiset(old(entries))
        && DistinctTasks(entries)
        && Without(entries, task) == Without(old(entries), task)
        && Queued(entries, task)
        && r.value == IndexOf(entries, task) == NewPosition(old(entries), task, move)
    {
      if !(exists k :: 0 <= k < |entries| && entries[k].task == task) {
        return Err(TaskNotQueued);
      }
      var position := IndexOf(entries, task);
      var newPosition :=
        match move
        case ToFirst => 0
        case ToLast => |entries| - 1
        case By(count) => position + count;
      if newPosition == position {
        SamePlace(entries, task, move);
        return Ok(newPosition);
      }
      RepositionLands(entries, task, move);
      entries := Repositioned(entries, task, move);
      r := Ok(IndexOf(entries, task));
    }
  }

  lemma TakenOut(entries: seq<Entry>, task: TaskId)
    requires DistinctTasks(entries) && Queued(entries, task)
    ensures DistinctTasks(Without(entries, task)) && !Queued(Without(entries, task), task)
    ensures |Only(entries, task)| == 1
  {
    Around(entries, task);
    AroundIsRest(entries, IndexOf(entries, task));
  }

  lemma TaskAtEnd(entries: seq<Entry>, e: Entry)
    ensures Queued(entries + [e], e.task)
    ensures DistinctTasks(entries) && !Queued(entries, e.task) ==> DistinctTasks(entries + [e])
  {
    assert (entries + [e])[|entries|].task == e.task;
  }

  /** The points of failure at which a move loses its task. */
  predicate Loses(removing: Fault, adding: Fault, returning: Fault) {
    removing == AfterUpdate || (removing == NoFault && adding == BeforeUpdate && returning == BeforeUpdate)
  }

  /** The points of failure at which a move leaves its task in both queues. */
  predicate Doubles(removing: Fault, adding: Fault, returning: Fault) {
    removing == NoFault && adding == AfterUpdate && returning != BeforeUpdate
  }

  /**
   * Move a task to another queue, or the same one. When adding fails the task goes back to the end
   * of the source; an exception while it is removed ends the move at once. The task is lost exactly
   * when removing fails after its update, or when adding and returning both fail before theirs; it
   * ends up in both queues exactly when adding fails after its update and returning happens.
   */
  method MoveTaskToQueue(source: Queue, target: Queue, task: TaskId, now: int, removing: Fault, adding: Fault,
                         returning: Fault)
    returns (r: Result<nat, Error>)
    requires DistinctTasks(source.entries) && DistinctTasks(target.entries)
    modifies source, target
    ensures DistinctTasks(source.entries) && DistinctTasks(target.entries)
    ensures r == Ok(1) || r.Err?
    ensures !Queued(old(source.entries), task) || removing == BeforeUpdate ==>
      r.Err? && source.entries == old(source.entries) && target.entries == old(target.entries)
    ensures Queued(old(source.entries), task) && removing == AfterUpdate ==>
      && r.Err? && source.entries == Without(old(source.entries), task)
      && (source != target ==> target.entries == old(target.entries))
    ensures Queued(old(source.entries), task) && removing == NoFault && source != target ==>
      && (r.Ok? <==> adding == NoFault && !Queued(old(target.entries), task))
      && target.entries == (if adding == BeforeUpdate then old(target.entries)
                            else Pushed(old(target.entries), Entry(task, now)))
      && source.entries == Without(old(source.entries), task)
           + if r.Ok? || returning == BeforeUpdate then [] else [Entry(task, now)]
    ensures Queued(old(source.entries), task) && removing == NoFault && source == target ==>
      && (r.Ok? <==> adding == NoFault)
      && source.entries == Without(old(source.entries), task)
           + if adding == BeforeUpdate && returning == BeforeUpdate then [] else [Entry(task, now)]
    ensures Queued(old(source.entries), task) && (source == target || !Queued(old(target.entries), task)) ==>
      && (Loses(removing, adding, returning) <==> !Queued(source.entries, task) && !Queued(target.entries, task))
      && (source != target ==>
            (Doubles(removing, adding, returning) <==> Queued(source.entries, task) && Queued(target.entries, task)))
  {
    var removed := source.RemoveTask(task, removing);
    if Queued(old(source.entries), task) {
      TakenOut(old(source.entries), task);
    } else {
      NotQueued(old(source.entries), task);
    }
    if removed.Err? {
      return removed;
    }
    TaskAtEnd(source.entries, Entry(task, now));
    assert Without(old(source.entries), task) + [] == Without(old(source.entries), task);
    TaskAtEnd(target.entries, Entry(task, now));
    var added := target.AddTask(task, now, adding);
    if added.Err? {
      var _ := source.AddTask(task, now, returning);
      return Err(added.error);
    }
    r := Ok(1);
  }

  function Tasks(entries: seq<Entry>): seq<TaskId> {
    seq(|entries|, k requires 0 <= k < |entries| => entries[k].task)
  }

  /** The compensation restores the order of the source exactly when the task was last in it. */
  lemma CompensationRestores(entries: seq<Entry>, task: TaskId, now: int)
    requires DistinctTasks(entries) && Queued(entries, task)
    ensures Tasks(Without(entries, task) + [Entry(task, now)]) == Tasks(entries)
      <==> entries[|entries| - 1].task == task
  {
    Around(entries, task);
    var k := IndexOf(entries, task);
    var back := Without(entries, task) + [Entry(task, now)];
    assert |back| == |entries|;
    assert Tasks(back)[|entries| - 1] == task;
    assert Tasks(entries)[|entries| - 1] == entries[|entries| - 1].task;
    if entries[|entries| - 1].task == task {
      assert k == |entries| - 1;
      forall i | 0 <= i < |entries| ensures Tasks(back)[i] == Tasks(entries)[i] {
      }
    }
  }
}
