/**
 * The job that deletes stored files: passes over the pending records, with retries. The storage
 * is arbitrary: what it answers to its n-th call is any function of n and of the question. The
 * ghost log holds the calls and their true answers, and every contract says that the records are
 * exactly what those answers make of them.
 */
module UrlDeletion {
  import opened Wrappers

  type Id = nat
  type Base = nat
  type Path = string
  type Time = int
  type Size = x: nat | x > 0 witness 1

  datatype Status = Created | Retrying | Failed

  datatype StorageType = Fileserver | S3 | Azure | GoogleStorage | Unknown

  datatype UrlRecord = UrlRecord(
    company: string,
    storageType: StorageType,
    retryCount: nat,
    status: Status,
    lastFailureTime: Option<Time>)

  type Store = map<Id, UrlRecord>

  const BATCH := 10000

  /* ---------- The storage ---------- */

  /** The paths reported as deleted, and for each reason the paths that failed. */
  datatype Reply = Reply(deleted: seq<Path>, errors: seq<(string, seq<Path>)>)

  /**
   * All answers a storage will ever give, by the number of the call: the account or bucket of a
   * record if its url can be resolved, a client known by its chunk size, the path of a record,
   * and the reply to a deletion. `Err` stands for an exception.
   */
  datatype Storage = Storage(
    base: (nat, Id) -> Option<Base>,
    client: (nat, Base) -> Result<Size, string>,
    path: (nat, Id) -> Result<Path, string>,
    reply: (nat, seq<Path>) -> Result<Reply, string>)

  /**
   * One call with its answer, made for a group of records whose base was resolved together at
   * number `at`: no base at all, a client or an exception, or the paths of a chunk of the group
   * and, if there are any, the answer to their deletion.
   */
  datatype Call =
    | Unresolved(at: nat, group: set<Id>)
    | Connected(at: nat, group: set<Id>, base: Base, client: Result<Size, string>)
    | Chunk(at: nat, group: set<Id>, base: Base, paths: map<Id, Result<Path, string>>, asked: seq<Path>,
            answer: Option<Result<Reply, string>>)

  function BaseOf(call: Call): Option<Base> {
    if call.Unresolved? then None else Some(call.base)
  }

  /** Call number `n` holds what the storage answers. */
  ghost predicate TrueAnswer(storage: Storage, n: nat, call: Call) {
    && call.at <= n && (forall i :: i in call.group ==> storage.base(call.at, i) == BaseOf(call))
    && match call
       case Unresolved(_, _) => true
       case Connected(_, _, base, client) => client == storage.client(n, base)
       case Chunk(_, group, _, paths, asked, answer) =>
         && (forall i :: i in paths ==> i in group && paths[i] == storage.path(n, i))
         && (forall p :: p in asked <==> exists i :: i in paths && paths[i] == Ok(p))
         && answer == if asked == [] then None else Some(storage.reply(n, asked))
  }

  ghost predicate Truthful(storage: Storage, log: seq<Call>) {
    forall n :: 0 <= n < |log| ==> TrueAnswer(storage, n, log[n])
  }

  /* ---------- What a call means for a record ---------- */

  /** The path of the record is among those reported as deleted. */
  predicate DeletedBy(reply: Reply, paths: map<Id, Result<Path, string>>, i: Id) {
    i in paths && paths[i].Ok? && paths[i].value in reply.deleted
  }

  /** The storage gave the record a path and reported that path as deleted. */
  predicate ReportedBy(call: Call, i: Id) {
    call.Chunk? && call.answer.Some? && call.answer.value.Ok? && DeletedBy(call.answer.value.value, call.paths, i)
  }

  /** The storage gave the record no base or no path. */
  predicate LostBy(call: Call, i: Id) {
    || (call.Unresolved? && i in call.group)
    || (call.Chunk? && i in call.paths && call.paths[i].Err?)
  }

  /** The number of reasons under which a path is reported as failed. */
  function Errors(errors: seq<(string, seq<Path>)>, p: Path): nat {
    if errors == [] then 0
    else Errors(errors[..|errors| - 1], p) + if p in errors[|errors| - 1].1 then 1 else 0
  }

  /** The reasons under which the path of a record is reported as failed. */
  function ErrorsOf(errors: seq<(string, seq<Path>)>, paths: map<Id, Result<Path, string>>, i: Id): nat {
    if i in paths && paths[i].Ok? then Errors(errors, paths[i].value) else 0
  }

  /** A reported error costs one try for each reason, a path in neither list costs one. */
  function TriesByReply(reply: Reply, paths: map<Id, Result<Path, string>>, i: Id): nat {
    if ErrorsOf(reply.errors, paths, i) > 0 then ErrorsOf(reply.errors, paths, i)
    else if i in paths && paths[i].Ok? && paths[i].value !in reply.deleted then 1
    else 0
  }

  /** The tries a call costs a record: a failing client or deletion costs its whole group one. */
  function TriesBy(call: Call, i: Id): nat {
    match call
    case Unresolved(_, _) => 0
    case Connected(_, group, _, client) => if client.Err? && i in group then 1 else 0
    case Chunk(_, group, _, paths, _, answer) =>
      match answer
      case None => 0
      case Some(Err(_)) => if i in group then 1 else 0
      case Some(Ok(reply)) => TriesByReply(reply, paths, i)
  }

  predicate Concerns(call: Call, i: Id) {
    ReportedBy(call, i) || LostBy(call, i) || TriesBy(call, i) > 0
  }

  ghost predicate Reported(calls: seq<Call>, i: Id) {
    exists k :: 0 <= k < |calls| && ReportedBy(calls[k], i)
  }

  ghost predicate Lost(calls: seq<Call>, i: Id) {
    exists k :: 0 <= k < |calls| && LostBy(calls[k], i)
  }

  function Tries(calls: seq<Call>, i: Id): nat {
    if calls == [] then 0 else Tries(calls[..|calls| - 1], i) + TriesBy(calls[|calls| - 1], i)
  }

  ghost predicate Concerned(calls: seq<Call>, i: Id) {
    exists k :: 0 <= k < |calls| && Concerns(calls[k], i)
  }

  lemma {:induction false} TriesConcat(a: seq<Call>, b: seq<Call>, i: Id)
    ensures Tries(a + b, i) == Tries(a, i) + Tries(b, i)
  {
    if b == [] {
      assert a + b == a;
    } else {
      assert (a + b)[..|a + b| - 1] == a + b[..|b| - 1];
      TriesConcat(a, b[..|b| - 1], i);
    }
  }

  lemma MeaningConcat(a: seq<Call>, b: seq<Call>, i: Id)
    ensures Reported(a + b, i) <==> Reported(a, i) || Reported(b, i)
    ensures Lost(a + b, i) <==> Lost(a, i) || Lost(b, i)
    ensures Concerned(a + b, i) <==> Concerned(a, i) || Concerned(b, i)
  {
    forall k | 0 <= k < |b| ensures (a + b)[|a| + k] == b[k] {
    }
    forall k | 0 <= k < |a| ensures (a + b)[k] == a[k] {
    }
  }

  lemma MeaningOne(call: Call, i: Id)
    ensures Reported([call], i) <==> ReportedBy(call, i)
    ensures Lost([call], i) <==> LostBy(call, i)
    ensures Tries([call], i) == TriesBy(call, i)
    ensures Concerned([call], i) <==> Concerns(call, i)
  {
    assert [call][..0] == [] && [call][0] == call;
  }

  /** A record is concerned when it is reported, lost, or charged with a try. */
  lemma {:induction false} ConcernedMeans(calls: seq<Call>, i: Id)
    ensures Concerned(calls, i) <==> Reported(calls, i) || Lost(calls, i) || Tries(calls, i) > 0
  {
    if calls != [] {
      var front, last := calls[..|calls| - 1], calls[|calls| - 1];
      assert calls == front + [last];
      ConcernedMeans(front, i);
      MeaningConcat(front, [last], i);
      MeaningOne(last, i);
    }
  }

  /* ---------- What the calls make of the records ---------- */

  /** Tries are counted; a record fails for good when it is lost or its tries used up. */
  ghost predicate Charged(u: UrlRecord, u': UrlRecord, tries: nat, lost: bool, maxRetries: nat) {
    && u'.company == u.company && u'.storageType == u.storageType
    && u'.retryCount == u.retryCount + tries
    && u'.status == (if lost || (tries > 0 && u'.retryCount >= maxRetries) then Failed else u.status)
    && if lost || tries > 0 then u'.lastFailureTime.Some? else u' == u
  }

  /** The record after it was reported, lost or charged with tries. */
  ghost predicate Becomes(db: Store, db': Store, i: Id, tries: nat, lost: bool, gone: bool, maxRetries: nat)
    requires i in db
  {
    && (i in db' <==> !gone)
    && (i in db' ==> Charged(db[i], db'[i], tries, lost, maxRetries))
  }

  lemma ChargedTwice(u: UrlRecord, v: UrlRecord, w: UrlRecord, m: nat, n: nat, lost: bool, lostToo: bool,
                     maxRetries: nat)
    requires Charged(u, v, m, lost, maxRetries) && Charged(v, w, n, lostToo, maxRetries)
    ensures Charged(u, w, m + n, lost || lostToo, maxRetries)
  {
  }

  /** The records are exactly what the answers to the calls make of them; none are added. */
  ghost predicate Follows(db: Store, db': Store, calls: seq<Call>, maxRetries: nat) {
    && db'.Keys <= db.Keys
    && forall i :: i in db ==>
         Becomes(db, db', i, Tries(calls, i), Lost(calls, i), Reported(calls, i), maxRetries)
  }

  lemma FollowsThen(a: Store, b: Store, c: Store, calls: seq<Call>, more: seq<Call>, maxRetries: nat)
    requires Follows(a, b, calls, maxRetries) && Follows(b, c, more, maxRetries)
    ensures Follows(a, c, calls + more, maxRetries)
  {
    forall i | i in a
      ensures Becomes(a, c, i, Tries(calls + more, i), Lost(calls + more, i), Reported(calls + more, i), maxRetries)
    {
      TriesConcat(calls, more, i);
      MeaningConcat(calls, more, i);
      if i in c {
        ChargedTwice(a[i], b[i], c[i], Tries(calls, i), Tries(more, i), Lost(calls, i), Lost(more, i), maxRetries);
      }
    }
  }

  /** Only records of `ids` are concerned by the calls. */
  ghost predicate Within(calls: seq<Call>, ids: set<Id>) {
    forall i :: Concerned(calls, i) ==> i in ids
  }

  /** All records of `ids` are concerned by the calls. */
  ghost predicate Covers(calls: seq<Call>, ids: set<Id>) {
    forall i :: i in ids ==> Concerned(calls, i)
  }

  /** What every part of the job keeps over records of `ids`, with the calls it has made since. */
  ghost predicate Progress(db: Store, calls: seq<Call>, db': Store, calls': seq<Call>, ids: set<Id>, maxRetries: nat) {
    && calls <= calls'
    && Follows(db, db', calls'[|calls|..], maxRetries)
    && Within(calls'[|calls|..], ids)
  }

  lemma LogGrows(a: seq<Call>, b: seq<Call>, c: seq<Call>)
    requires a <= b <= c
    ensures a <= c && c[|a|..] == b[|a|..] + c[|b|..]
  {
  }

  lemma NothingCalled(db: Store, calls: seq<Call>, ids: set<Id>, maxRetries: nat)
    ensures Progress(db, calls, db, calls, ids, maxRetries)
  {
    assert calls[|calls|..] == [];
  }

  lemma ConcernedThen(calls: seq<Call>, more: seq<Call>, group: set<Id>, done: set<Id>, ids: set<Id>)
    requires Within(calls, group) && Within(more, group) && Covers(calls, done) && Covers(more, ids)
    ensures Within(calls + more, group) && Covers(calls + more, done + ids)
  {
    forall i ensures Concerned(calls + more, i) <==> Concerned(calls, i) || Concerned(more, i) {
      MeaningConcat(calls, more, i);
    }
  }

  /** A further part over some of the records; what either part covered is covered. */
  lemma ProgressThen(a: Store, ca: seq<Call>, b: Store, cb: seq<Call>, c: Store, cc: seq<Call>,
                     some: set<Id>, ids: set<Id>, done: set<Id>, more: set<Id>, maxRetries: nat)
    requires Progress(a, ca, b, cb, ids, maxRetries) && Progress(b, cb, c, cc, some, maxRetries) && some <= ids
    requires Covers(cb[|ca|..], done) && Covers(cc[|cb|..], more)
    ensures Progress(a, ca, c, cc, ids, maxRetries)
    ensures Covers(cc[|ca|..], done + more)
  {
    LogGrows(ca, cb, cc);
    FollowsThen(a, b, c, cb[|ca|..], cc[|cb|..], maxRetries);
    ConcernedThen(cb[|ca|..], cc[|cb|..], ids, done, more);
  }

  /* ---------- What follows for the records ---------- */

  /** Records that are not failed still have tries left. */
  ghost predicate Sound(db: Store, maxRetries: nat) {
    forall i :: i in db && db[i].status != Failed ==> db[i].retryCount < maxRetries
  }

  /** A pending record that was concerned is gone, has failed for good, or has used up a try. */
  ghost predicate Handled(db: Store, db': Store, i: Id) {
    i in db && i in db' ==> db'[i].status == Failed || db'[i].retryCount > db[i].retryCount
  }

  /**
   * Records disappear exactly when they are reported as deleted, and fail for good only when they
   * cannot be placed or are out of tries; failed records stay failed, pending ones keep tries.
   */
  lemma FollowsIsSafe(db: Store, db': Store, calls: seq<Call>, maxRetries: nat)
    requires Follows(db, db', calls, maxRetries)
    ensures forall i :: i in db ==> (i !in db' <==> Reported(calls, i))
    ensures forall i :: i in db' ==> i in db && (db[i].status == Failed ==> db'[i].status == Failed)
    ensures forall i :: i in db' && db[i].status != Failed && db'[i].status == Failed ==>
      Lost(calls, i) || db'[i].retryCount >= maxRetries
    ensures forall i :: i in db' && !Concerned(calls, i) ==> db'[i] == db[i]
    ensures forall i :: i in db && Concerned(calls, i) ==> Handled(db, db', i)
    ensures Sound(db, maxRetries) ==> Sound(db', maxRetries)
  {
    forall i | i in db
      ensures Becomes(db, db', i, Tries(calls, i), Lost(calls, i), Reported(calls, i), maxRetries)
      ensures Concerned(calls, i) <==> Reported(calls, i) || Lost(calls, i) || Tries(calls, i) > 0
    {
      ConcernedMeans(calls, i);
    }
  }

  /* ---------- The budget of tries ---------- */

  function Weight(db: Store, i: Id, maxRetries: nat): nat {
    if i in db && db[i].status != Failed && db[i].retryCount < maxRetries then maxRetries - db[i].retryCount else 0
  }

  ghost function WeightOf(keys: set<Id>, db: Store, maxRetries: nat): nat {
    if keys == {} then 0
    else
      var i :| i in keys;
      Weight(db, i, maxRetries) + WeightOf(keys - {i}, db, maxRetries)
  }

  /** The tries that are left over all pending records. */
  ghost function Budget(db: Store, maxRetries: nat): nat {
    WeightOf(db.Keys, db, maxRetries)
  }

  lemma {:induction false} WeightSplit(keys: set<Id>, db: Store, maxRetries: nat, x: Id)
    requires x in keys
    ensures WeightOf(keys, db, maxRetries) == Weight(db, x, maxRetries) + WeightOf(keys - {x}, db, maxRetries)
    decreases keys
  {
    var i :| i in keys
      && WeightOf(keys, db, maxRetries) == Weight(db, i, maxRetries) + WeightOf(keys - {i}, db, maxRetries);
    if i != x {
      WeightSplit(keys - {i}, db, maxRetries, x);
      WeightSplit(keys - {x}, db, maxRetries, i);
      assert keys - {i} - {x} == keys - {x} - {i};
    }
  }

  /** Every member of `sel` loses at least one unit, nothing gains. */
  lemma {:induction false} WeightFalls(keys: set<Id>, db: Store, db': Store, maxRetries: nat, sel: set<Id>)
    requires sel <= keys
    requires forall i :: i in keys ==> Weight(db', i, maxRetries) <= Weight(db, i, maxRetries)
    requires forall i :: i in sel ==> Weight(db', i, maxRetries) < Weight(db, i, maxRetries)
    ensures WeightOf(keys, db', maxRetries) + |sel| <= WeightOf(keys, db, maxRetries)
    decreases keys
  {
    if keys == {} {
      assert sel == {};
    } else {
      var x :| x in keys;
      WeightSplit(keys, db, maxRetries, x);
      WeightSplit(keys, db', maxRetries, x);
      WeightFalls(keys - {x}, db, db', maxRetries, sel - {x});
      assert |sel - {x}| == |sel| - if x in sel then 1 else 0;
    }
  }

  lemma {:induction false} WeightOfMore(keys: set<Id>, db: Store, maxRetries: nat)
    requires db.Keys <= keys
    ensures WeightOf(keys, db, maxRetries) == Budget(db, maxRetries)
    decreases keys
  {
    if keys != db.Keys {
      var x :| x in keys && x !in db;
      WeightSplit(keys, db, maxRetries, x);
      WeightOfMore(keys - {x}, db, maxRetries);
    }
  }

  /** Calls that concern the selected records use up at least one try of each of them. */
  lemma BudgetFalls(db: Store, db': Store, calls: seq<Call>, maxRetries: nat, sel: set<Id>)
    requires Sound(db, maxRetries) && Follows(db, db', calls, maxRetries)
    requires Covers(calls, sel) && forall i :: i in sel ==> i in db && db[i].status != Failed
    ensures Budget(db', maxRetries) + |sel| <= Budget(db, maxRetries)
  {
    FollowsIsSafe(db, db', calls, maxRetries);
    forall i | i in db ensures Weight(db', i, maxRetries) <= Weight(db, i, maxRetries) {
      assert Becomes(db, db', i, Tries(calls, i), Lost(calls, i), Reported(calls, i), maxRetries);
    }
    forall i | i in sel ensures Weight(db', i, maxRetries) < Weight(db, i, maxRetries) {
      assert Handled(db, db', i);
    }
    WeightFalls(db.Keys, db, db', maxRetries, sel);
    WeightOfMore(db.Keys, db', maxRetries);
  }

  /* ---------- The records of a pass ---------- */

  function SetOf<T(==)>(xs: seq<T>): set<T> { set x | x in xs }

  lemma SetOfConcat<T>(xs: seq<T>, ys: seq<T>)
    ensures SetOf(xs + ys) == SetOf(xs) + SetOf(ys)
  {
  }

  lemma SetOfPrefix<T>(xs: seq<T>, n: nat)
    requires n < |xs|
    ensures SetOf(xs[..n + 1]) == SetOf(xs[..n]) + {xs[n]}
    ensures xs[n] in SetOf(xs)
  {
    assert xs[..n + 1] == xs[..n] + [xs[n]];
  }

  /** Not failed for good, with tries left, and rested since the last failure. */
  ghost predicate Ready(u: UrlRecord, now: Time, maxRetries: nat, retryTimeout: int) {
    && u.status in {Created, Retrying}
    && maxRetries - u.retryCount > 0
    && forall t :: u.lastFailureTime == Some(t) ==> now - t > retryTimeout
  }

  /** What the selection query of a pass asks for. */
  predicate Eligible(u: UrlRecord, now: Time, maxRetries: nat, retryTimeout: int)
    ensures Eligible(u, now, maxRetries, retryTimeout) <==> Ready(u, now, maxRetries, retryTimeout)
  {
    && u.status != Failed
    && u.retryCount < maxRetries
    && (u.lastFailureTime.None? || u.lastFailureTime.value < now - retryTimeout)
  }

  /** The query of one pass: eligible records of one company and kind of storage. */
  predicate Wanted(u: UrlRecord, company: string, storageType: StorageType, now: Time,
                   maxRetries: nat, retryTimeout: int)
  {
    Eligible(u, now, maxRetries, retryTimeout) && u.company == company && u.storageType == storageType
  }

  ghost predicate ReadyFor(u: UrlRecord, company: string, storageType: StorageType, now: Time,
                           maxRetries: nat, retryTimeout: int)
  {
    u.company == company && u.storageType == storageType && Ready(u, now, maxRetries, retryTimeout)
  }

  /** At most a batch of the ready records of one company and kind of storage; all of them if they are fewer. */
  ghost predicate Selects(db: Store, ids: set<Id>, company: string, storageType: StorageType, now: Time,
                          maxRetries: nat, retryTimeout: int)
  {
    && |ids| <= BATCH
    && (forall i :: i in ids ==> i in db && ReadyFor(db[i], company, storageType, now, maxRetries, retryTimeout))
    && (|ids| < BATCH ==>
          forall i :: i in db && ReadyFor(db[i], company, storageType, now, maxRetries, retryTimeout) ==> i in ids)
  }

  /** The members of `ids` that resolve to one base. */
  function GroupOf(storage: Storage, at: nat, ids: set<Id>, base: Option<Base>): set<Id> {
    set i | i in ids && storage.base(at, i) == base
  }

  /** All calls belong to one pass over `ids`: each is made for a whole group of them. */
  ghost predicate OnePass(storage: Storage, at: nat, ids: set<Id>, calls: seq<Call>) {
    forall k :: 0 <= k < |calls| ==>
      calls[k].at == at && calls[k].group == GroupOf(storage, at, ids, BaseOf(calls[k]))
  }

  /* ---------- Chunks ---------- */

  ghost predicate NoRepeats<T>(xs: seq<T>) {
    forall k, m :: 0 <= k < m < |xs| ==> xs[k] != xs[m]
  }

  /**
   * Call `k` goes by the client of call `j`, after full chunks only: it has some records, and
   * neither more records nor more paths than the client takes at once.
   */
  ghost predicate Serves(calls: seq<Call>, j: int, k: int)
    requires 0 <= j < k < |calls| && calls[k].Chunk?
  {
    && calls[j].Connected? && calls[j].base == calls[k].base && calls[j].client.Ok?
    && (forall m :: j < m < k ==>
          calls[m].Chunk? && calls[m].base == calls[k].base && |calls[m].paths| == calls[j].client.value)
    && 0 < |calls[k].paths| <= calls[j].client.value && |calls[k].asked| <= calls[j].client.value
  }

  ghost predicate FitsClient(calls: seq<Call>, k: int)
    requires 0 <= k < |calls|
  {
    calls[k].Chunk? ==> exists j :: 0 <= j < k && Serves(calls, j, k)
  }

  /** No record is in two chunks, and no base is connected or found missing twice. */
  ghost predicate Apart(calls: seq<Call>, j: int, k: int)
    requires 0 <= j < k < |calls|
  {
    && (calls[j].Chunk? && calls[k].Chunk? ==> calls[j].paths.Keys !! calls[k].paths.Keys)
    && (!calls[j].Chunk? && !calls[k].Chunk? ==> BaseOf(calls[j]) != BaseOf(calls[k]))
  }

  ghost predicate AllApart(calls: seq<Call>) {
    forall j, k {:trigger Apart(calls, j, k)} :: 0 <= j < k < |calls| ==> Apart(calls, j, k)
  }

  /**
   * The chunks of a pass fit the client of their base, all but the last one of a base are full, no
   * record is in two of them, and every base is connected once.
   */
  ghost predicate Chunked(calls: seq<Call>) {
    && (forall k {:trigger FitsClient(calls, k)} :: 0 <= k < |calls| ==> FitsClient(calls, k))
    && AllApart(calls)
  }

  /** All records in chunks are among `ids`. */
  ghost predicate ChunksWithin(calls: seq<Call>, ids: set<Id>) {
    forall k :: 0 <= k < |calls| && calls[k].Chunk? ==> calls[k].paths.Keys <= ids
  }

  ghost predicate BasesWithin(calls: seq<Call>, bases: set<Option<Base>>) {
    forall k :: 0 <= k < |calls| ==> BaseOf(calls[k]) in bases
  }

  lemma FitsLater(calls: seq<Call>, more: seq<Call>, k: int)
    requires 0 <= k < |more| && FitsClient(more, k)
    ensures FitsClient(calls + more, |calls| + k)
  {
    var all := calls + more;
    if more[k].Chunk? {
      var j :| 0 <= j < k && Serves(more, j, k);
      forall m | |calls| + j <= m <= |calls| + k ensures all[m] == more[m - |calls|] {
      }
      assert Serves(all, |calls| + j, |calls| + k);
    }
  }

  lemma FitsEarlier(calls: seq<Call>, more: seq<Call>, k: int)
    requires 0 <= k < |calls| && FitsClient(calls, k)
    ensures FitsClient(calls + more, k)
  {
    var all := calls + more;
    if calls[k].Chunk? {
      var j :| 0 <= j < k && Serves(calls, j, k);
      forall m | j <= m <= k ensures all[m] == calls[m] {
      }
      assert Serves(all, j, k);
    }
  }

  /** The calls for further bases and other records follow. */
  lemma ChunkedThen(calls: seq<Call>, more: seq<Call>, done: set<Id>, ids: set<Id>, bases: set<Option<Base>>,
                    base: Option<Base>)
    requires Chunked(calls) && ChunksWithin(calls, done) && BasesWithin(calls, bases)
    requires Chunked(more) && ChunksWithin(more, ids) && BasesWithin(more, {base})
    requires done !! ids && base !in bases
    ensures Chunked(calls + more) && ChunksWithin(calls + more, done + ids) && BasesWithin(calls + more, bases + {base})
  {
    var all := calls + more;
    forall k | 0 <= k < |all| ensures FitsClient(all, k) {
      if k < |calls| {
        FitsEarlier(calls, more, k);
      } else {
        FitsLater(calls, more, k - |calls|);
      }
    }
    forall j, k | 0 <= j < k < |all| ensures Apart(all, j, k) {
      if k < |calls| {
        assert Apart(calls, j, k);
      } else if |calls| <= j {
        assert Apart(more, j - |calls|, k - |calls|);
      }
    }
  }

  lemma ChunkedLater(a: seq<Call>, b: seq<Call>, c: seq<Call>, done: set<Id>, ids: set<Id>,
                     bases: set<Option<Base>>, base: Option<Base>)
    requires a <= b <= c && Chunked(b[|a|..]) && ChunksWithin(b[|a|..], done) && BasesWithin(b[|a|..], bases)
    requires Chunked(c[|b|..]) && ChunksWithin(c[|b|..], ids) && BasesWithin(c[|b|..], {base})
    requires done !! ids && base !in bases
    ensures Chunked(c[|a|..]) && ChunksWithin(c[|a|..], done + ids) && BasesWithin(c[|a|..], bases + {base})
  {
    LogGrows(a, b, c);
    ChunkedThen(b[|a|..], c[|b|..], done, ids, bases, base);
  }

  /** Call `k` is for a chunk of the records `ids`, a full one unless it is the last. */
  ghost predicate ChunkAt(calls: seq<Call>, k: int, ids: set<Id>, base: Base, size: nat)
    requires 0 <= k < |calls|
  {
    && calls[k].Chunk? && calls[k].base == base && calls[k].paths.Keys <= ids
    && 0 < |calls[k].paths| <= size && |calls[k].asked| <= size
    && (k < |calls| - 1 ==> |calls[k].paths| == size)
  }

  /** Full chunks but for the last one, of different records. */
  ghost predicate ChunkRun(calls: seq<Call>, ids: set<Id>, base: Base, size: nat) {
    && (forall k {:trigger ChunkAt(calls, k, ids, base, size)} :: 0 <= k < |calls| ==>
          ChunkAt(calls, k, ids, base, size))
    && AllApart(calls)
  }

  ghost predicate EndsFull(calls: seq<Call>, size: nat) {
    calls != [] ==> calls[|calls| - 1].Chunk? && |calls[|calls| - 1].paths| == size
  }

  lemma ChunkRunMore(calls: seq<Call>, call: Call, ids: set<Id>, more: set<Id>, base: Base, size: nat)
    requires ChunkRun(calls, ids, base, size) && EndsFull(calls, size)
    requires call.Chunk? && call.base == base && call.paths.Keys == more && ids !! more
    requires 0 < |more| <= size && |call.asked| <= size
    ensures ChunkRun(calls + [call], ids + more, base, size)
    ensures |more| == size ==> EndsFull(calls + [call], size)
  {
    var all := calls + [call];
    assert |call.paths| == |call.paths.Keys|;
    forall k | 0 <= k < |all| ensures ChunkAt(all, k, ids + more, base, size) {
      assert k < |calls| ==> ChunkAt(calls, k, ids, base, size);
    }
    forall j, k | 0 <= j < k < |all| ensures Apart(all, j, k) {
      assert ChunkAt(calls, j, ids, base, size);
      assert k < |calls| ==> Apart(calls, j, k);
    }
  }

  /** A connection and the chunks that go by it. */
  lemma RunIsChunked(call: Call, calls: seq<Call>, ids: set<Id>, base: Base, size: nat)
    requires call.Connected? && call.base == base && (calls != [] ==> call.client.Ok? && call.client.value == size)
    requires ChunkRun(calls, ids, base, size)
    ensures Chunked([call] + calls) && ChunksWithin([call] + calls, ids) && BasesWithin([call] + calls, {Some(base)})
  {
    var all := [call] + calls;
    forall k | 0 <= k < |all|
      ensures FitsClient(all, k) && BaseOf(all[k]) == Some(base)
      ensures k > 0 ==> all[k].Chunk? && all[k].paths.Keys <= ids
    {
      if k > 0 {
        forall m | 0 < m <= k ensures all[m] == calls[m - 1] && ChunkAt(calls, m - 1, ids, base, size) {
        }
        assert Serves(all, 0, k);
      }
    }
    forall j, k | 0 <= j < k < |all| ensures Apart(all, j, k) {
      assert all[k] == calls[k - 1] && ChunkAt(calls, k - 1, ids, base, size);
      assert j > 0 ==> Apart(calls, j - 1, k - 1) && all[j] == calls[j - 1];
    }
  }

  /** A base without chunks. */
  lemma OneIsChunked(call: Call, ids: set<Id>)
    requires !call.Chunk?
    ensures Chunked([call]) && ChunksWithin([call], ids) && BasesWithin([call], {BaseOf(call)})
  {
  }

  lemma NoRepeatsSize<T>(xs: seq<T>)
    requires NoRepeats(xs)
    ensures |SetOf(xs)| == |xs|
  {
    if xs != [] {
      var front, last := xs[..|xs| - 1], xs[|xs| - 1];
      NoRepeatsSize(front);
      assert forall x :: x in xs <==> x in front || x == last;
      assert SetOf(xs) == SetOf(front) + {last};
    }
  }

  lemma NextChunk<T>(xs: seq<T>, start: nat, end: nat, chunk: seq<T>)
    requires NoRepeats(xs) && start <= end <= |xs| && chunk == xs[start..end]
    ensures |SetOf(chunk)| == |chunk| == end - start
    ensures SetOf(xs[..start]) !! SetOf(chunk) && SetOf(chunk) <= SetOf(xs)
    ensures SetOf(xs[..end]) == SetOf(xs[..start]) + SetOf(chunk)
  {
    assert xs[..end] == xs[..start] + chunk;
    SetOfConcat(xs[..start], chunk);
    NoRepeatsSize(chunk);
  }

  /* ---------- Groups ---------- */

  /** The members of `ids` with the given key, in order. */
  function Keyed(ids: seq<Id>, key: Id -> Option<Base>, base: Option<Base>): seq<Id> {
    if ids == [] then []
    else
      var rest := Keyed(ids[..|ids| - 1], key, base);
      if key(ids[|ids| - 1]) == base then rest + [ids[|ids| - 1]] else rest
  }

  lemma {:induction false} KeyedMembers(ids: seq<Id>, key: Id -> Option<Base>, base: Option<Base>)
    ensures forall i :: i in Keyed(ids, key, base) <==> i in ids && key(i) == base
  {
    if ids != [] {
      KeyedMembers(ids[..|ids| - 1], key, base);
      assert ids == ids[..|ids| - 1] + [ids[|ids| - 1]];
    }
  }

  lemma {:induction false} KeyedNoRepeats(ids: seq<Id>, key: Id -> Option<Base>, base: Option<Base>)
    requires NoRepeats(ids)
    ensures NoRepeats(Keyed(ids, key, base))
  {
    if ids != [] {
      KeyedNoRepeats(ids[..|ids| - 1], key, base);
      KeyedMembers(ids[..|ids| - 1], key, base);
    }
  }

  /** The keys of some members. */
  function KeysOf(ids: seq<Id>, key: Id -> Option<Base>): set<Option<Base>> { set i | i in ids :: key(i) }

  lemma KeyedStep(ids: seq<Id>, key: Id -> Option<Base>, n: nat)
    requires n < |ids|
    ensures forall b ::
      Keyed(ids[..n + 1], key, b) == Keyed(ids[..n], key, b) + if key(ids[n]) == b then [ids[n]] else []
    ensures KeysOf(ids[..n + 1], key) == KeysOf(ids[..n], key) + {key(ids[n])}
    ensures key(ids[n]) !in KeysOf(ids[..n], key) ==> Keyed(ids[..n], key, key(ids[n])) == []
  {
    assert ids[..n + 1] == ids[..n] + [ids[n]];
    assert ids[..n + 1][..n] == ids[..n];
    KeyedMembers(ids[..n], key, key(ids[n]));
    var keyed := Keyed(ids[..n], key, key(ids[n]));
    assert keyed != [] ==> keyed[0] in keyed;
  }

  /** `bucketize(ids, key)`: the keys in order of first appearance, each with its members in order. */
  method Bucketize(ids: seq<Id>, key: Id -> Option<Base>)
    returns (bases: seq<Option<Base>>, groups: map<Option<Base>, seq<Id>>)
    ensures groups.Keys == SetOf(bases) == KeysOf(ids, key)
    ensures forall b :: b in groups ==> groups[b] == Keyed(ids, key, b)
    ensures forall k, m :: 0 <= k < m < |bases| ==> bases[k] != bases[m]
  {
    bases, groups := [], map[];
    for n := 0 to |ids|
      invariant groups.Keys == SetOf(bases) == KeysOf(ids[..n], key)
      invariant forall b :: b in groups ==> groups[b] == Keyed(ids[..n], key, b)
      invariant forall k, m :: 0 <= k < m < |bases| ==> bases[k] != bases[m]
    {
      var b := key(ids[n]);
      KeyedStep(ids, key, n);
      if b !in groups {
        SetOfConcat(bases, [b]);
        bases := bases + [b];
        groups := groups[b := [ids[n]]];
      } else {
        groups := groups[b := groups[b] + [ids[n]]];
      }
    }
    assert ids[..|ids|] == ids;
  }

  /* ---------- One chunk ---------- */

  /** Everybody is still there, charged with some tries and perhaps lost. */
  ghost predicate AllCharged(db: Store, db': Store, tries: Id -> nat, lost: Id -> bool, maxRetries: nat) {
    db'.Keys == db.Keys && forall i :: i in db ==> Charged(db[i], db'[i], tries(i), lost(i), maxRetries)
  }

  function Never(): Id -> bool { i => false }

  function Free(): Id -> nat { i => 0 }

  function OneTry(ids: set<Id>): Id -> nat { i => if i in ids then 1 else 0 }

  function Among(ids: set<Id>): Id -> bool { i => i in ids }

  lemma AllChargedTwice(a: Store, b: Store, c: Store, m: Id -> nat, n: Id -> nat, all: Id -> nat,
                        lost: Id -> bool, lostToo: Id -> bool, allLost: Id -> bool, maxRetries: nat)
    requires AllCharged(a, b, m, lost, maxRetries) && AllCharged(b, c, n, lostToo, maxRetries)
    requires forall i :: i in a ==> all(i) == m(i) + n(i) && (allLost(i) <==> lost(i) || lostToo(i))
    ensures AllCharged(a, c, all, allLost, maxRetries)
  {
    forall i | i in a ensures Charged(a[i], c[i], all(i), allLost(i), maxRetries) {
      ChargedTwice(a[i], b[i], c[i], m(i), n(i), lost(i), lostToo(i), maxRetries);
    }
  }

  /** The records of `ids` after one more failed try; those out of tries are failed for good. */
  function Retried(db: Store, ids: set<Id>, now: Time, maxRetries: nat): Store {
    map i | i in db ::
      if i in ids then
        db[i].(
          retryCount := db[i].retryCount + 1,
          lastFailureTime := Some(now),
          status := if db[i].retryCount + 1 >= maxRetries then Failed else db[i].status)
      else db[i]
  }

  function MarkedFailed(db: Store, ids: set<Id>, now: Time): Store {
    map i | i in db :: if i in ids then db[i].(status := Failed, lastFailureTime := Some(now)) else db[i]
  }

  lemma RetriedIsCharged(db: Store, ids: set<Id>, now: Time, maxRetries: nat)
    ensures AllCharged(db, Retried(db, ids, now, maxRetries), OneTry(ids), Never(), maxRetries)
    ensures AllCharged(db, MarkedFailed(db, ids, now), Free(), Among(ids), maxRetries)
  {
  }

  lemma UnchangedIsCharged(db: Store, maxRetries: nat)
    ensures AllCharged(db, db, Free(), Never(), maxRetries)
  {
  }

  /** The ids without a path. */
  function PathLess(paths: map<Id, Result<Path, string>>): set<Id> { set i | i in paths && paths[i].Err? }

  /** The ids that got a path. */
  function WithPath(paths: map<Id, Result<Path, string>>): set<Id> { set i | i in paths && paths[i].Ok? }

  /** The ids behind some paths: `chain.from_iterable(mapping.get(p, []) for p in paths)`. */
  function IdsBehind(mapping: map<Path, seq<Id>>, paths: seq<Path>): (ids: set<Id>)
    ensures forall i :: i in ids <==> exists p :: p in paths && p in mapping && i in mapping[p]
  {
    set p, i | p in paths && p in mapping && i in mapping[p] :: i
  }

  /** The mapping files every id under the path it got, and under no other. */
  ghost predicate Files(mapping: map<Path, seq<Id>>, paths: map<Id, Result<Path, string>>) {
    && (forall p :: p in mapping ==> mapping[p] != [])
    && (forall p, i :: p in mapping && i in mapping[p] ==> i in paths && paths[i] == Ok(p))
    && forall i :: i in paths && paths[i].Ok? ==> paths[i].value in mapping && i in mapping[paths[i].value]
  }

  lemma FilesOne(was: map<Path, seq<Id>>, paths: map<Id, Result<Path, string>>, id: Id, p: Path)
    requires Files(was, paths) && (id in paths ==> paths[id] == Ok(p))
    ensures var now := was[p := (if p in was then was[p] else []) + [id]];
      Files(now, paths[id := Ok(p)])
  {
    var now := was[p := (if p in was then was[p] else []) + [id]];
    assert id in now[p];
  }

  lemma FilesNone(mapping: map<Path, seq<Id>>, paths: map<Id, Result<Path, string>>, id: Id, error: string)
    requires Files(mapping, paths) && (id in paths ==> paths[id] == Err(error))
    ensures Files(mapping, paths[id := Err(error)])
  {
  }

  lemma BehindIsDeleted(mapping: map<Path, seq<Id>>, paths: map<Id, Result<Path, string>>, reply: Reply)
    requires Files(mapping, paths)
    ensures forall i :: i in IdsBehind(mapping, reply.deleted) <==> DeletedBy(reply, paths, i)
  {
  }

  lemma BehindIsError(mapping: map<Path, seq<Id>>, paths: map<Id, Result<Path, string>>,
                      errors: seq<(string, seq<Path>)>, n: nat)
    requires Files(mapping, paths) && n < |errors|
    ensures var ids := IdsBehind(mapping, errors[n].1);
      forall i :: ErrorsOf(errors[..n + 1], paths, i) == ErrorsOf(errors[..n], paths, i) + OneTry(ids)(i)
  {
    assert errors[..n + 1][..n] == errors[..n];
  }

  /** The asked paths are those the ids are filed under. */
  lemma AskedPaths(mapping: map<Path, seq<Id>>, paths: map<Id, Result<Path, string>>, asked: seq<Path>)
    requires Files(mapping, paths) && SetOf(asked) == mapping.Keys
    ensures forall p :: p in asked <==> exists i :: i in paths && paths[i] == Ok(p)
    ensures asked == [] <==> forall i :: i in paths ==> paths[i].Err?
  {
    forall p | p in asked ensures exists i :: i in paths && paths[i] == Ok(p) {
      assert p in mapping;
      var i := mapping[p][0];
      assert i in mapping[p];
      assert i in paths && paths[i] == Ok(p);
    }
    assert asked != [] ==> asked[0] in asked;
  }

  lemma OnePathMore(a: Store, b: Store, c: Store, seen: map<Id, Result<Path, string>>,
                    paths: map<Id, Result<Path, string>>, id: Id, maxRetries: nat)
    requires AllCharged(a, b, Free(), Among(PathLess(seen)), maxRetries)
    requires AllCharged(b, c, Free(), Among(PathLess(paths) * {id}), maxRetries)
    requires id in paths && paths == seen[id := paths[id]] && (id in seen ==> seen[id] == paths[id])
    ensures AllCharged(a, c, Free(), Among(PathLess(paths)), maxRetries)
  {
    AllChargedTwice(a, b, c, Free(), Free(), Free(),
                    Among(PathLess(seen)), Among(PathLess(paths) * {id}), Among(PathLess(paths)), maxRetries);
  }

  /** What the reply to a chunk makes of its records. */
  lemma ReplyFollows(db: Store, mid: Store, db': Store, call: Call, reply: Reply, maxRetries: nat)
    requires call.Chunk? && call.answer == Some(Ok(reply))
    requires AllCharged(db, mid, Free(), Among(PathLess(call.paths)), maxRetries)
    requires db'.Keys <= mid.Keys
    requires forall i :: i in mid ==>
      Becomes(mid, db', i, TriesByReply(reply, call.paths, i), false, DeletedBy(reply, call.paths, i), maxRetries)
    ensures Follows(db, db', [call], maxRetries)
  {
    forall i | i in db
      ensures Becomes(db, db', i, Tries([call], i), Lost([call], i), Reported([call], i), maxRetries)
    {
      MeaningOne(call, i);
      if i in db' {
        ChargedTwice(db[i], mid[i], db'[i], 0, TriesByReply(reply, call.paths, i),
                     i in PathLess(call.paths), false, maxRetries);
      }
    }
  }

  /** What a call without a reply makes of its records. */
  lemma ChargedFollows(db: Store, db': Store, call: Call, tries: Id -> nat, lost: Id -> bool, maxRetries: nat)
    requires AllCharged(db, db', tries, lost, maxRetries)
    requires forall i :: i in db ==>
      !ReportedBy(call, i) && TriesBy(call, i) == tries(i) && (LostBy(call, i) <==> lost(i))
    ensures Follows(db, db', [call], maxRetries)
  {
    forall i | i in db
      ensures Becomes(db, db', i, Tries([call], i), Lost([call], i), Reported([call], i), maxRetries)
    {
      MeaningOne(call, i);
    }
  }

  /** A true call concerns only records of its group, and a chunk concerns all of its records. */
  lemma CallConcerns(storage: Storage, n: nat, call: Call)
    requires TrueAnswer(storage, n, call)
    ensures Within([call], call.group)
    ensures call.Unresolved? || (call.Connected? && call.client.Err?) ==> Covers([call], call.group)
    ensures call.Chunk? ==> Covers([call], call.paths.Keys)
  {
    forall i ensures Concerned([call], i) <==> Concerns(call, i) {
      MeaningOne(call, i);
    }
    if call.Chunk? {
      forall i | i in call.paths ensures Concerns(call, i) {
        if call.paths[i].Ok? {
          assert call.paths[i].value in call.asked;
        }
      }
    }
  }

  lemma OneCallMore(db: Store, log: seq<Call>, db': Store, call: Call, ids: set<Id>, maxRetries: nat)
    requires Follows(db, db', [call], maxRetries) && Within([call], ids)
    ensures Progress(db, log, db', log + [call], ids, maxRetries)
    ensures (log + [call])[|log|..] == [call]
  {
  }

  /** Errors first, then deletions, then the missing ones. */
  lemma Settled(db: Store, db1: Store, db2: Store, db': Store, errors: Id -> nat, missing: set<Id>, reply: Reply,
                paths: map<Id, Result<Path, string>>, maxRetries: nat)
    requires AllCharged(db, db1, errors, Never(), maxRetries)
    requires forall i :: errors(i) == ErrorsOf(reply.errors, paths, i)
    requires db2.Keys <= db1.Keys && forall i :: i in db1 ==> (i in db2 <==> !DeletedBy(reply, paths, i))
    requires forall i :: i in db2 ==> db2[i] == db1[i]
    requires AllCharged(db2, db', OneTry(missing), Never(), maxRetries)
    requires forall i :: i in missing <==> i in WithPath(paths) && !DeletedBy(reply, paths, i) && errors(i) == 0
    ensures forall i :: i in db ==>
      Becomes(db, db', i, TriesByReply(reply, paths, i), false, DeletedBy(reply, paths, i), maxRetries)
  {
    forall i | i in db
      ensures Becomes(db, db', i, TriesByReply(reply, paths, i), false, DeletedBy(reply, paths, i), maxRetries)
    {
      if i in db' {
        ChargedTwice(db[i], db1[i], db'[i], errors(i), OneTry(missing)(i), false, false, maxRetries);
      }
    }
  }

  /** All calls are made for one group. */
  ghost predicate SameGroup(calls: seq<Call>, at: nat, group: set<Id>, base: Option<Base>) {
    forall k :: 0 <= k < |calls| ==> calls[k].at == at && calls[k].group == group && BaseOf(calls[k]) == base
  }

  lemma SameGroupMore(a: seq<Call>, b: seq<Call>, c: seq<Call>, at: nat, group: set<Id>, base: Option<Base>)
    requires a <= b <= c && SameGroup(b[|a|..], at, group, base) && SameGroup(c[|b|..], at, group, base)
    ensures SameGroup(c[|a|..], at, group, base)
  {
    LogGrows(a, b, c);
  }

  /** What the answer to a deletion makes of the records; nothing without a deletion. */
  ghost predicate Answered(db: Store, db': Store, group: set<Id>, paths: map<Id, Result<Path, string>>,
                           answer: Option<Result<Reply, string>>, maxRetries: nat)
  {
    match answer
    case None => db' == db
    case Some(Err(_)) => AllCharged(db, db', OneTry(group), Never(), maxRetries)
    case Some(Ok(reply)) =>
      && db'.Keys <= db.Keys
      && forall i :: i in db ==>
           Becomes(db, db', i, TriesByReply(reply, paths, i), false, DeletedBy(reply, paths, i), maxRetries)
  }

  /** What a chunk makes of its group. */
  lemma ChunkFollows(db: Store, mid: Store, db': Store, call: Call, maxRetries: nat)
    requires call.Chunk? && AllCharged(db, mid, Free(), Among(PathLess(call.paths)), maxRetries)
    requires Answered(mid, db', call.group, call.paths, call.answer, maxRetries)
    ensures Follows(db, db', [call], maxRetries)
  {
    var lost := Among(PathLess(call.paths));
    match call.answer
    case None =>
      ChargedFollows(db, db', call, Free(), lost, maxRetries);
    case Some(Err(_)) =>
      AllChargedTwice(db, mid, db', Free(), OneTry(call.group), OneTry(call.group), lost, Never(), lost, maxRetries);
      ChargedFollows(db, db', call, OneTry(call.group), lost, maxRetries);
    case Some(Ok(reply)) =>
      ReplyFollows(db, mid, db', call, reply, maxRetries);
  }

  /** A true chunk, once it is noted. */
  lemma ChunkDone(storage: Storage, db: Store, mid: Store, db': Store, log: seq<Call>, call: Call,
                  mapping: map<Path, seq<Id>>, maxRetries: nat)
    requires call.Chunk? && call.at <= |log| && call.paths.Keys <= call.group
    requires forall i :: i in call.group ==> storage.base(call.at, i) == Some(call.base)
    requires forall i :: i in call.paths ==> call.paths[i] == storage.path(|log|, i)
    requires Files(mapping, call.paths) && SetOf(call.asked) == mapping.Keys
    requires call.answer == if call.asked == [] then None else Some(storage.reply(|log|, call.asked))
    requires AllCharged(db, mid, Free(), Among(PathLess(call.paths)), maxRetries)
    requires Answered(mid, db', call.group, call.paths, call.answer, maxRetries)
    ensures Progress(db, log, db', log + [call], call.group, maxRetries)
    ensures TrueAnswer(storage, |log|, call) && (log + [call])[|log|..] == [call]
    ensures Covers([call], call.paths.Keys) && SameGroup([call], call.at, call.group, Some(call.base))
  {
    AskedPaths(mapping, call.paths, call.asked);
    ChunkFollows(db, mid, db', call, maxRetries);
    CallConcerns(storage, |log|, call);
    OneCallMore(db, log, db', call, call.group, maxRetries);
  }

  /** A true call without a reply, once it is noted. */
  lemma CallDone(storage: Storage, db: Store, db': Store, log: seq<Call>, call: Call, tries: Id -> nat,
                 lost: Id -> bool, maxRetries: nat)
    requires !call.Chunk? && TrueAnswer(storage, |log|, call) && AllCharged(db, db', tries, lost, maxRetries)
    requires forall i :: i in db ==> TriesBy(call, i) == tries(i) && (LostBy(call, i) <==> lost(i))
    ensures Progress(db, log, db', log + [call], call.group, maxRetries)
    ensures (log + [call])[|log|..] == [call]
    ensures call.Unresolved? || call.client.Err? ==> Covers([call], call.group)
  {
    ChargedFollows(db, db', call, tries, lost, maxRetries);
    CallConcerns(storage, |log|, call);
    OneCallMore(db, log, db', call, call.group, maxRetries);
  }

  lemma Regroup(a: seq<Call>, b: seq<Call>, c: seq<Call>)
    ensures a + b + c == a + (b + c)
  {
  }

  lemma SameGroupThen(calls: seq<Call>, call: Call, at: nat, group: set<Id>, base: Option<Base>)
    requires SameGroup(calls, at, group, base) && SameGroup([call], at, group, base)
    ensures SameGroup(calls + [call], at, group, base)
  {
    assert [call][0] == call;
  }

  /** What the calls for the chunks of `done` have made of the records of a group. */
  ghost predicate ChunksDone(db: Store, db': Store, calls: seq<Call>, group: set<Id>, done: set<Id>, at: nat,
                             base: Base, size: nat, maxRetries: nat)
  {
    && Follows(db, db', calls, maxRetries) && Within(calls, group) && Covers(calls, done)
    && SameGroup(calls, at, group, Some(base)) && ChunkRun(calls, done, base, size)
  }

  lemma NothingDone(db: Store, group: set<Id>, at: nat, base: Base, size: nat, maxRetries: nat)
    ensures ChunksDone(db, db, [], group, {}, at, base, size, maxRetries)
  {
  }

  /** One chunk more. */
  lemma OneChunkMore(a: Store, b: Store, c: Store, calls: seq<Call>, call: Call, group: set<Id>, done: set<Id>,
                     more: set<Id>, at: nat, base: Base, size: nat, full: bool, maxRetries: nat)
    requires ChunksDone(a, b, calls, group, done, at, base, size, maxRetries) && EndsFull(calls, size)
    requires Follows(b, c, [call], maxRetries) && Within([call], group) && Covers([call], more)
    requires SameGroup([call], at, group, Some(base))
    requires call.Chunk? && call.base == base && call.paths.Keys == more && |call.asked| <= size
    requires done !! more && 0 < |more| <= size && (full ==> |more| == size)
    ensures ChunksDone(a, c, calls + [call], group, done + more, at, base, size, maxRetries)
    ensures full ==> EndsFull(calls + [call], size)
  {
    FollowsThen(a, b, c, calls, [call], maxRetries);
    ConcernedThen(calls, [call], group, done, more);
    SameGroupThen(calls, call, at, group, Some(base));
    ChunkRunMore(calls, call, done, more, base, size);
  }

  lemma SameGroupIsOnePass(storage: Storage, calls: seq<Call>, at: nat, group: set<Id>, base: Option<Base>,
                           ids: set<Id>)
    requires SameGroup(calls, at, group, base) && group == GroupOf(storage, at, ids, base)
    ensures OnePass(storage, at, ids, calls)
  {
  }

  lemma OnePassMore(storage: Storage, at: nat, ids: set<Id>, a: seq<Call>, b: seq<Call>, c: seq<Call>)
    requires a <= b <= c && OnePass(storage, at, ids, b[|a|..]) && OnePass(storage, at, ids, c[|b|..])
    ensures OnePass(storage, at, ids, c[|a|..])
  {
    LogGrows(a, b, c);
  }

  /* ---------- What the storage must have said ---------- */

  /** Call number `n` asked to delete the path the storage gave the record, which was reported as deleted. */
  ghost predicate DeletedAt(storage: Storage, n: nat, call: Call, i: Id) {
    && call.Chunk? && i in call.paths && call.paths[i] == storage.path(n, i) && storage.path(n, i).Ok?
    && storage.path(n, i).value in call.asked
    && storage.reply(n, call.asked).Ok? && storage.path(n, i).value in storage.reply(n, call.asked).value.deleted
  }

  /** In call number `n` the storage gave the record no base or no path. */
  ghost predicate UnplacedAt(storage: Storage, n: nat, call: Call, i: Id) {
    || (call.Unresolved? && i in call.group && storage.base(call.at, i) == None)
    || (call.Chunk? && i in call.paths && storage.path(n, i).Err?)
  }

  /**
   * Since call `from` of the log: a record disappeared only if a call asked to delete its path and
   * the storage reported it as deleted, and failed for good only out of tries or if the storage
   * could not place it when a call asked.
   */
  ghost predicate Safe(storage: Storage, from: nat, log: seq<Call>, db: Store, db': Store, maxRetries: nat) {
    && db'.Keys <= db.Keys
    && (forall i :: i in db && i !in db' ==> exists n :: from <= n < |log| && DeletedAt(storage, n, log[n], i))
    && (forall i :: i in db' && db[i].status == Failed ==> db'[i].status == Failed)
    && forall i :: i in db' && db[i].status != Failed && db'[i].status == Failed ==>
         db'[i].retryCount >= maxRetries || exists n :: from <= n < |log| && UnplacedAt(storage, n, log[n], i)
  }

  lemma ReportedIsDeleted(storage: Storage, log: seq<Call>, from: nat, i: Id)
    requires from <= |log| && Truthful(storage, log) && Reported(log[from..], i)
    ensures exists n :: from <= n < |log| && DeletedAt(storage, n, log[n], i)
  {
    var k :| 0 <= k < |log[from..]| && ReportedBy(log[from..][k], i);
    var n: nat := from + k;
    var call := log[n];
    assert call == log[from..][k] && TrueAnswer(storage, n, call);
    assert call.paths[i].value in call.asked;
    assert DeletedAt(storage, n, call, i);
  }

  lemma LostIsUnplaced(storage: Storage, log: seq<Call>, from: nat, i: Id)
    requires from <= |log| && Truthful(storage, log) && Lost(log[from..], i)
    ensures exists n :: from <= n < |log| && UnplacedAt(storage, n, log[n], i)
  {
    var k :| 0 <= k < |log[from..]| && LostBy(log[from..][k], i);
    var n: nat := from + k;
    assert log[n] == log[from..][k] && TrueAnswer(storage, n, log[n]);
    assert UnplacedAt(storage, n, log[n], i);
  }

  /** Following the true answers is safe. */
  lemma ProgressIsSafe(storage: Storage, db: Store, log: seq<Call>, db': Store, log': seq<Call>, ids: set<Id>,
                       maxRetries: nat)
    requires Truthful(storage, log') && Progress(db, log, db', log', ids, maxRetries)
    ensures Safe(storage, |log|, log', db, db', maxRetries)
  {
    var calls := log'[|log|..];
    FollowsIsSafe(db, db', calls, maxRetries);
    forall i | i in db && i !in db'
      ensures exists n :: |log| <= n < |log'| && DeletedAt(storage, n, log'[n], i)
    {
      ReportedIsDeleted(storage, log', |log|, i);
    }
    forall i | i in db' && Lost(calls, i)
      ensures exists n :: |log| <= n < |log'| && UnplacedAt(storage, n, log'[n], i)
    {
      LostIsUnplaced(storage, log', |log|, i);
    }
  }

  /* ---------- Runs of the loop ---------- */

  /** There is no eligible record of a known kind of storage. */
  ghost predicate NothingDue(db: Store, now: Time, maxRetries: nat, retryTimeout: int) {
    forall i :: i in db && Ready(db[i], now, maxRetries, retryTimeout) ==> db[i].storageType == Unknown
  }

  /** An eligible record of a known kind of storage with the fewest tries behind it. */
  ghost predicate IsNext(db: Store, i: Id, now: Time, maxRetries: nat, retryTimeout: int) {
    && i in db && Ready(db[i], now, maxRetries, retryTimeout) && db[i].storageType != Unknown
    && forall j :: j in db && Ready(db[j], now, maxRetries, retryTimeout) && db[j].storageType != Unknown ==>
         db[i].retryCount <= db[j].retryCount
  }

  /** One round of the loop: the records before and after, what was selected and which calls were made. */
  datatype Round = Round(before: Store, at: nat, now: Time, selected: set<Id>, calls: seq<Call>, after: Store)

  /**
   * An idle round without an eligible record; otherwise one pass over the records of the company
   * and kind of storage of the next record, every one of which is handled.
   */
  ghost predicate IsRound(storage: Storage, r: Round, maxRetries: nat, retryTimeout: int) {
    && (NothingDue(r.before, r.now, maxRetries, retryTimeout) <==> r.selected == {})
    && (r.selected != {} ==> exists i ::
          && IsNext(r.before, i, r.now, maxRetries, retryTimeout)
          && Selects(r.before, r.selected, r.before[i].company, r.before[i].storageType, r.now,
                     maxRetries, retryTimeout))
    && Follows(r.before, r.after, r.calls, maxRetries)
    && Within(r.calls, r.selected) && Covers(r.calls, r.selected)
    && OnePass(storage, r.at, r.selected, r.calls) && Chunked(r.calls)
  }

  /** The rounds follow each other, from the records and calls at the start to those at the end. */
  ghost predicate Ran(storage: Storage, first: Store, at: nat, rounds: seq<Round>, last: Store, log: seq<Call>,
                      maxRetries: nat, retryTimeout: int)
  {
    if rounds == [] then last == first && |log| == at
    else
      var r := rounds[|rounds| - 1];
      && |r.calls| <= |log| && r.calls == log[|log| - |r.calls|..] && r.at == |log| - |r.calls|
      && Ran(storage, first, at, rounds[..|rounds| - 1], r.before, log[..r.at], maxRetries, retryTimeout)
      && IsRound(storage, r, maxRetries, retryTimeout) && r.after == last
  }

  function Times(rounds: seq<Round>): seq<Time> {
    seq(|rounds|, k requires 0 <= k < |rounds| => rounds[k].now)
  }

  lemma ClockTicks(clock: seq<Time>, n: nat)
    requires n < |clock|
    ensures clock[..n + 1] == clock[..n] + [clock[n]]
  {
  }

  /** The tries taken in all rounds. */
  function Attempts(rounds: seq<Round>): nat {
    if rounds == [] then 0 else Attempts(rounds[..|rounds| - 1]) + |rounds[|rounds| - 1].selected|
  }

  /** The rounds with an eligible record. */
  ghost function Busy(rounds: seq<Round>, maxRetries: nat, retryTimeout: int): nat {
    if rounds == [] then 0
    else
      var r := rounds[|rounds| - 1];
      Busy(rounds[..|rounds| - 1], maxRetries, retryTimeout)
        + if NothingDue(r.before, r.now, maxRetries, retryTimeout) then 0 else 1
  }

  lemma RoundUsesBudget(storage: Storage, r: Round, maxRetries: nat, retryTimeout: int)
    requires IsRound(storage, r, maxRetries, retryTimeout) && Sound(r.before, maxRetries)
    ensures Budget(r.after, maxRetries) + |r.selected| <= Budget(r.before, maxRetries) && Sound(r.after, maxRetries)
    ensures !NothingDue(r.before, r.now, maxRetries, retryTimeout) ==> |r.selected| > 0
  {
    BudgetFalls(r.before, r.after, r.calls, maxRetries, r.selected);
    FollowsIsSafe(r.before, r.after, r.calls, maxRetries);
  }

  /** The tries taken in a run are paid for by the budget, so it bounds the busy rounds of any run. */
  lemma {:induction false} RunUsesBudget(storage: Storage, first: Store, at: nat, rounds: seq<Round>, last: Store,
                                         log: seq<Call>, maxRetries: nat, retryTimeout: int)
    requires Ran(storage, first, at, rounds, last, log, maxRetries, retryTimeout) && Sound(first, maxRetries)
    ensures Budget(last, maxRetries) + Attempts(rounds) <= Budget(first, maxRetries)
    ensures Busy(rounds, maxRetries, retryTimeout) <= Attempts(rounds) && Sound(last, maxRetries)
  {
    if rounds != [] {
      var r := rounds[|rounds| - 1];
      RunUsesBudget(storage, first, at, rounds[..|rounds| - 1], r.before, log[..r.at], maxRetries, retryTimeout);
      RoundUsesBudget(storage, r, maxRetries, retryTimeout);
    }
  }

  lemma LongerRun(storage: Storage, first: Store, at: nat, rounds: seq<Round>, r: Round, log: seq<Call>,
                  log': seq<Call>, maxRetries: nat, retryTimeout: int)
    requires Ran(storage, first, at, rounds, r.before, log, maxRetries, retryTimeout)
    requires IsRound(storage, r, maxRetries, retryTimeout) && log' == log + r.calls && r.at == |log|
    ensures Ran(storage, first, at, rounds + [r], r.after, log', maxRetries, retryTimeout)
    ensures Times(rounds + [r]) == Times(rounds) + [r.now]
  {
    assert (rounds + [r])[..|rounds|] == rounds;
    assert log'[..r.at] == log && log'[|log| ..] == r.calls;
  }

  /** What was safe over the beginning of the log, and then over the rest of it, is safe over all of it. */
  lemma SafeThen(storage: Storage, a: Store, b: Store, c: Store, from: nat, early: seq<Call>, log: seq<Call>,
                 maxRetries: nat)
    requires from <= |early| && early <= log
    requires Safe(storage, from, early, a, b, maxRetries) && Safe(storage, |early|, log, b, c, maxRetries)
    requires forall i :: i in c ==> c[i].retryCount >= b[i].retryCount
    ensures Safe(storage, from, log, a, c, maxRetries)
  {
    forall i | i in a && i !in c ensures exists n :: from <= n < |log| && DeletedAt(storage, n, log[n], i) {
      if i !in b {
        var n :| from <= n < |early| && DeletedAt(storage, n, early[n], i);
        assert log[n] == early[n];
      }
    }
    forall i | i in c && a[i].status != Failed && c[i].status == Failed && c[i].retryCount < maxRetries
      ensures exists n :: from <= n < |log| && UnplacedAt(storage, n, log[n], i)
    {
      if b[i].status == Failed {
        var n :| from <= n < |early| && UnplacedAt(storage, n, early[n], i);
        assert log[n] == early[n];
      }
    }
  }

  lemma RoundIsSafe(storage: Storage, r: Round, log: seq<Call>, maxRetries: nat, retryTimeout: int)
    requires IsRound(storage, r, maxRetries, retryTimeout) && Truthful(storage, log)
    requires r.at == |log| - |r.calls| && r.at <= |log| && r.calls == log[r.at..]
    ensures Safe(storage, r.at, log, r.before, r.after, maxRetries)
    ensures forall i :: i in r.after ==> i in r.before && r.after[i].retryCount >= r.before[i].retryCount
  {
    assert log[..r.at] <= log && |log[..r.at]| == r.at;
    ProgressIsSafe(storage, r.before, log[..r.at], r.after, log, r.selected, maxRetries);
    forall i | i in r.before
      ensures Becomes(r.before, r.after, i, Tries(r.calls, i), Lost(r.calls, i), Reported(r.calls, i), maxRetries)
    {
    }
  }

  lemma RoundMoreIsSafe(storage: Storage, first: Store, at: nat, r: Round, log: seq<Call>, maxRetries: nat,
                        retryTimeout: int)
    requires IsRound(storage, r, maxRetries, retryTimeout) && Truthful(storage, log)
    requires r.at == |log| - |r.calls| && at <= r.at <= |log| && r.calls == log[r.at..]
    requires Safe(storage, at, log[..r.at], first, r.before, maxRetries)
    ensures Safe(storage, at, log, first, r.after, maxRetries)
  {
    RoundIsSafe(storage, r, log, maxRetries, retryTimeout);
    SafeThen(storage, first, r.before, r.after, at, log[..r.at], log, maxRetries);
  }

  lemma TruthfulFront(storage: Storage, log: seq<Call>, n: nat)
    requires Truthful(storage, log) && n <= |log|
    ensures Truthful(storage, log[..n])
  {
  }

  /** Every run is safe. */
  lemma {:induction false} RunIsSafe(storage: Storage, first: Store, at: nat, rounds: seq<Round>, last: Store,
                                     log: seq<Call>, maxRetries: nat, retryTimeout: int)
    requires Ran(storage, first, at, rounds, last, log, maxRetries, retryTimeout) && Truthful(storage, log)
    ensures at <= |log| && Safe(storage, at, log, first, last, maxRetries)
  {
    if rounds != [] {
      var r := rounds[|rounds| - 1];
      TruthfulFront(storage, log, r.at);
      RunIsSafe(storage, first, at, rounds[..|rounds| - 1], r.before, log[..r.at], maxRetries, retryTimeout);
      RoundMoreIsSafe(storage, first, at, r, log, maxRetries, retryTimeout);
    }
  }

  /** When nothing is due although all timeouts have passed, every pending record is of no known storage. */
  lemma AllSettled(db: Store, now: Time, db': Store, calls: seq<Call>, maxRetries: nat, retryTimeout: int)
    requires NothingDue(db, now, maxRetries, retryTimeout) && Sound(db, maxRetries)
    requires forall i :: i in db && db[i].lastFailureTime.Some? ==> db[i].lastFailureTime.value < now - retryTimeout
    requires Follows(db, db', calls, maxRetries) && Within(calls, {})
    ensures forall i :: i in db' ==> db'[i].status == Failed || db'[i].storageType == Unknown
  {
    FollowsIsSafe(db, db', calls, maxRetries);
  }

  /** The next record is among those a pass over its company and kind of storage selects. */
  lemma SelectsNext(db: Store, i: Id, ids: set<Id>, now: Time, maxRetries: nat, retryTimeout: int)
    requires IsNext(db, i, now, maxRetries, retryTimeout)
    requires Selects(db, ids, db[i].company, db[i].storageType, now, maxRetries, retryTimeout)
    ensures ids != {} && !NothingDue(db, now, maxRetries, retryTimeout)
  {
    assert ReadyFor(db[i], db[i].company, db[i].storageType, now, maxRetries, retryTimeout);
    assert ids == {} ==> |ids| < BATCH;
  }

  /* ---------- The job ---------- */

  class Job {
    var urls: Store
    /** The number of calls to the storage so far. */
    var calls: nat
    const maxRetries: nat
    const retryTimeout: int
    const storage: Storage
    /** The calls and their answers. */
    ghost var log: seq<Call>

    /** The log holds all calls and their true answers. */
    ghost predicate Valid()
      reads this
    {
      calls == |log| && Truthful(storage, log)
    }

    constructor (urls: Store, maxRetries: nat, retryTimeout: int, storage: Storage)
      ensures this.urls == urls && this.maxRetries == maxRetries && this.retryTimeout == retryTimeout
      ensures this.storage == storage && log == [] && Valid()
    {
      this.urls := urls;
      this.calls := 0;
      this.maxRetries := maxRetries;
      this.retryTimeout := retryTimeout;
      this.storage := storage;
      log := [];
    }

    method UtcNow() returns (now: Time) {
      now := *;
    }

    /** Count one more failed try, then fail the records that have none left. */
    method MarkRetryFailed(ids: set<Id>)
      modifies this`urls
      ensures exists now :: urls == Retried(old(urls), ids, now, maxRetries)
      ensures AllCharged(old(urls), urls, OneTry(ids), Never(), maxRetries)
    {
      var now := UtcNow();
      urls := map i | i in urls ::
        if i in ids then urls[i].(retryCount := urls[i].retryCount + 1, lastFailureTime := Some(now)) else urls[i];
      urls := map i | i in urls ::
        if i in ids && urls[i].retryCount >= maxRetries then urls[i].(status := Failed) else urls[i];
      assert urls == Retried(old(urls), ids, now, maxRetries);
      RetriedIsCharged(old(urls), ids, now, maxRetries);
    }

    method MarkFailed(ids: set<Id>)
      modifies this`urls
      ensures exists now :: urls == MarkedFailed(old(urls), ids, now)
      ensures AllCharged(old(urls), urls, Free(), Among(ids), maxRetries)
    {
      var now := UtcNow();
      urls := map i | i in urls ::
        if i in ids then urls[i].(status := Failed, lastFailureTime := Some(now)) else urls[i];
      assert urls == MarkedFailed(old(urls), ids, now);
      RetriedIsCharged(old(urls), ids, now, maxRetries);
    }

    /** The path of one record, under which it is filed; without one the record fails for good. */
    method GetPath(id: Id, asked: seq<Path>, mapping: map<Path, seq<Id>>, idsToDelete: set<Id>,
                   ghost paths: map<Id, Result<Path, string>>)
      returns (asked': seq<Path>, mapping': map<Path, seq<Id>>, idsToDelete': set<Id>,
               ghost paths': map<Id, Result<Path, string>>)
      requires forall i :: i in paths ==> paths[i] == storage.path(calls, i)
      requires Files(mapping, paths) && SetOf(asked) == mapping.Keys && idsToDelete == WithPath(paths)
      modifies this`urls
      ensures paths' == paths[id := storage.path(calls, id)]
      ensures Files(mapping', paths') && SetOf(asked') == mapping'.Keys && idsToDelete' == WithPath(paths')
      ensures |asked'| <= |asked| + 1
      ensures AllCharged(old(urls), urls, Free(), Among(PathLess(paths') * {id}), maxRetries)
    {
      asked', mapping', idsToDelete', paths' := asked, mapping, idsToDelete, paths[id := storage.path(calls, id)];
      var path := storage.path(calls, id);
      if path.Err? {
        FilesNone(mapping, paths, id, path.error);
        MarkFailed({id});
      } else {
        var p := path.value;
        FilesOne(mapping, paths, id, p);
        SetOfConcat(asked, [p]);
        asked' := asked + [p];
        mapping' := mapping[p := (if p in mapping then mapping[p] else []) + [id]];
        idsToDelete' := idsToDelete + {id};
        UnchangedIsCharged(urls, maxRetries);
      }
    }

    /** The paths of one chunk; records without a path fail for good. */
    method GetPaths(chunk: seq<Id>)
      returns (asked: seq<Path>, mapping: map<Path, seq<Id>>, idsToDelete: set<Id>,
               ghost paths: map<Id, Result<Path, string>>)
      modifies this`urls
      ensures paths.Keys == SetOf(chunk) && forall i :: i in paths ==> paths[i] == storage.path(calls, i)
      ensures Files(mapping, paths) && SetOf(asked) == mapping.Keys && idsToDelete == WithPath(paths)
      ensures |asked| <= |chunk|
      ensures AllCharged(old(urls), urls, Free(), Among(PathLess(paths)), maxRetries)
    {
      asked, mapping, idsToDelete, paths := [], map[], {}, map[];
      UnchangedIsCharged(urls, maxRetries);
      for n := 0 to |chunk|
        invariant paths.Keys == SetOf(chunk[..n]) && forall i :: i in paths ==> paths[i] == storage.path(calls, i)
        invariant Files(mapping, paths) && SetOf(asked) == mapping.Keys && idsToDelete == WithPath(paths)
        invariant |asked| <= n
        invariant AllCharged(old(urls), urls, Free(), Among(PathLess(paths)), maxRetries)
      {
        SetOfPrefix(chunk, n);
        ghost var before, seen := urls, paths;
        asked, mapping, idsToDelete, paths := GetPath(chunk[n], asked, mapping, idsToDelete, paths);
        OnePathMore(old(urls), before, urls, seen, paths, chunk[n], maxRetries);
      }
      assert chunk[..|chunk|] == chunk;
    }

    /** Count a failed try for the ids behind each reported error. */
    method MarkErrors(mapping: map<Path, seq<Id>>, errors: seq<(string, seq<Path>)>,
                      ghost paths: map<Id, Result<Path, string>>)
      returns (failed: set<Id>)
      requires Files(mapping, paths)
      modifies this`urls
      ensures forall i :: i in failed <==> ErrorsOf(errors, paths, i) > 0
      ensures AllCharged(old(urls), urls, i => ErrorsOf(errors, paths, i), Never(), maxRetries)
    {
      failed := {};
      UnchangedIsCharged(urls, maxRetries);
      for n := 0 to |errors|
        invariant forall i :: i in failed <==> ErrorsOf(errors[..n], paths, i) > 0
        invariant AllCharged(old(urls), urls, i => ErrorsOf(errors[..n], paths, i), Never(), maxRetries)
      {
        var ids := IdsBehind(mapping, errors[n].1);
        BehindIsError(mapping, paths, errors, n);
        ghost var before := urls;
        MarkRetryFailed(ids);
        AllChargedTwice(old(urls), before, urls,
                        i => ErrorsOf(errors[..n], paths, i), OneTry(ids), i => ErrorsOf(errors[..n + 1], paths, i),
                        Never(), Never(), Never(), maxRetries);
        failed := failed + ids;
      }
      assert errors[..|errors|] == errors;
    }

    /** Settle the reply for a chunk: errors, deletions, and the ids mentioned in neither. */
    method Settle(mapping: map<Path, seq<Id>>, idsToDelete: set<Id>, reply: Reply,
                  ghost paths: map<Id, Result<Path, string>>)
      requires Files(mapping, paths) && idsToDelete == WithPath(paths)
      modifies this`urls
      ensures urls.Keys <= old(urls).Keys
      ensures forall i :: i in old(urls) ==>
        Becomes(old(urls), urls, i, TriesByReply(reply, paths, i), false, DeletedBy(reply, paths, i), maxRetries)
    {
      var failed := MarkErrors(mapping, reply.errors, paths);
      ghost var errors: Id -> nat := i => ErrorsOf(reply.errors, paths, i);
      ghost var db1 := urls;
      var deleted := IdsBehind(mapping, reply.deleted);
      BehindIsDeleted(mapping, paths, reply);
      urls := urls - deleted;
      var missing := idsToDelete - deleted - failed;
      ghost var db2 := urls;
      if missing != {} {
        MarkRetryFailed(missing);
      } else {
        RetriedIsCharged(urls, {}, 0, maxRetries);
        UnchangedIsCharged(urls, maxRetries);
      }
      Settled(old(urls), db1, db2, urls, errors, missing, reply, paths, maxRetries);
    }

    /** Note a call and its answer. */
    method Note(ghost call: Call)
      requires Valid() && TrueAnswer(storage, calls, call)
      modifies this`calls, this`log
      ensures Valid() && log == old(log) + [call]
    {
      calls := calls + 1;
      log := log + [call];
    }

    /** Delete the asked paths, if there are any, and settle the answer. */
    method DeleteAsked(group: set<Id>, asked: seq<Path>, mapping: map<Path, seq<Id>>, idsToDelete: set<Id>,
                       ghost paths: map<Id, Result<Path, string>>)
      returns (answer: Option<Result<Reply, string>>)
      requires Files(mapping, paths) && idsToDelete == WithPath(paths)
      modifies this`urls
      ensures answer == if asked == [] then None else Some(storage.reply(calls, asked))
      ensures Answered(old(urls), urls, group, paths, answer, maxRetries)
    {
      if asked == [] {
        return None;
      }
      var reply := storage.reply(calls, asked);
      if reply.Err? {
        MarkRetryFailed(group);
      } else {
        Settle(mapping, idsToDelete, reply.value, paths);
      }
      answer := Some(reply);
    }

    /** Delete the files of one chunk of a group: one call for the group. */
    method DeleteChunk(base: Base, group: seq<Id>, chunk: seq<Id>, ghost at: nat) returns (ghost call: Call)
      requires Valid() && SetOf(chunk) <= SetOf(group)
      requires at <= calls && forall i :: i in group ==> storage.base(at, i) == Some(base)
      modifies this
      ensures Valid() && log == old(log) + [call]
      ensures Follows(old(urls), urls, [call], maxRetries) && Within([call], SetOf(group))
      ensures Covers([call], SetOf(chunk)) && SameGroup([call], at, SetOf(group), Some(base))
      ensures call.Chunk? && call.base == base && call.paths.Keys == SetOf(chunk) && |call.asked| <= |chunk|
    {
      var asked, mapping, idsToDelete, paths := GetPaths(chunk);
      ghost var mid := urls;
      var answer := DeleteAsked(SetOf(group), asked, mapping, idsToDelete, paths);
      call := Chunk(at, SetOf(group), base, paths, asked, answer);
      ChunkDone(storage, old(urls), mid, urls, log, call, mapping, maxRetries);
      Note(call);
    }

    /** One chunk more, after the calls for the chunks of the records `done`. */
    method DeleteNextChunk(ghost first: Store, ghost run: seq<Call>, base: Base, group: seq<Id>, chunk: seq<Id>,
                           ghost size: nat, ghost done: set<Id>, ghost at: nat)
      returns (ghost call: Call)
      requires Valid() && ChunksDone(first, urls, run, SetOf(group), done, at, base, size, maxRetries)
      requires at <= calls && forall i :: i in group ==> storage.base(at, i) == Some(base)
      requires SetOf(chunk) <= SetOf(group) && done !! SetOf(chunk) && 0 < |SetOf(chunk)| == |chunk| <= size
      requires EndsFull(run, size)
      modifies this
      ensures Valid() && log == old(log) + [call]
      ensures ChunksDone(first, urls, run + [call], SetOf(group), done + SetOf(chunk), at, base, size, maxRetries)
      ensures |chunk| == size ==> EndsFull(run + [call], size)
    {
      call := DeleteChunk(base, group, chunk, at);
      OneChunkMore(first, old(urls), urls, run, call, SetOf(group), done, SetOf(chunk), at, base, size,
                   |chunk| == size, maxRetries);
    }

    /** `for chunk in chunked_iter(group, chunk_size)`. */
    method DeleteChunks(base: Base, group: seq<Id>, chunkSize: Size, ghost at: nat) returns (ghost run: seq<Call>)
      requires Valid() && NoRepeats(group)
      requires at <= calls && forall i :: i in group ==> storage.base(at, i) == Some(base)
      modifies this
      ensures Valid() && log == old(log) + run
      ensures ChunksDone(old(urls), urls, run, SetOf(group), SetOf(group), at, base, chunkSize, maxRetries)
    {
      var start := 0;
      run := [];
      NothingDone(urls, SetOf(group), at, base, chunkSize, maxRetries);
      while start < |group|
        invariant 0 <= start <= |group| && at <= calls
        invariant Valid() && log == old(log) + run
        invariant ChunksDone(old(urls), urls, run, SetOf(group), SetOf(group[..start]), at, base, chunkSize, maxRetries)
        invariant start < |group| ==> EndsFull(run, chunkSize)
      {
        var end := if start + chunkSize < |group| then start + chunkSize else |group|;
        var chunk := group[start..end];
        NextChunk(group, start, end, chunk);
        ghost var call :=
          DeleteNextChunk(old(urls), run, base, group, chunk, chunkSize, SetOf(group[..start]), at);
        Regroup(old(log), run, [call]);
        run, start := run + [call], end;
      }
      assert group[..start] == group;
    }

    /** Delete the files of one group, if it has a base and a client. */
    method DeleteGroup(base: Option<Base>, group: seq<Id>, ghost at: nat)
      requires Valid() && at <= calls && NoRepeats(group) && forall i :: i in group ==> storage.base(at, i) == base
      modifies this
      ensures Valid() && Progress(old(urls), old(log), urls, log, SetOf(group), maxRetries)
      ensures Covers(log[|old(log)|..], SetOf(group)) && SameGroup(log[|old(log)|..], at, SetOf(group), base)
      ensures Chunked(log[|old(log)|..]) && ChunksWithin(log[|old(log)|..], SetOf(group))
      ensures BasesWithin(log[|old(log)|..], {base})
    {
      var G := SetOf(group);
      if base == None {
        MarkFailed(G);
        CallDone(storage, old(urls), urls, log, Unresolved(at, G), Free(), Among(G), maxRetries);
        OneIsChunked(Unresolved(at, G), G);
        Note(Unresolved(at, G));
        return;
      }
      var client := storage.client(calls, base.value);
      ghost var call := Connected(at, G, base.value, client);
      if client.Err? {
        MarkRetryFailed(G);
        CallDone(storage, old(urls), urls, log, call, OneTry(G), Never(), maxRetries);
        OneIsChunked(call, G);
        Note(call);
        return;
      }
      UnchangedIsCharged(urls, maxRetries);
      CallDone(storage, urls, urls, log, call, Free(), Never(), maxRetries);
      Note(call);
      ghost var connected := log;
      ghost var run := DeleteChunks(base.value, group, client.value, at);
      assert log[|connected|..] == run;
      RunIsChunked(call, run, G, base.value, client.value);
      LogGrows(old(log), connected, log);
      ProgressThen(old(urls), old(log), old(urls), connected, urls, log, G, G, {}, G, maxRetries);
      SameGroupMore(old(log), connected, log, at, G, base);
    }

    /** The first records, at most a batch of them, that a pass takes up; in any order. */
    method Select(company: string, storageType: StorageType, now: Time) returns (ids: seq<Id>)
      ensures Selects(urls, SetOf(ids), company, storageType, now, maxRetries, retryTimeout) && NoRepeats(ids)
    {
      var all := set i | i in urls && Wanted(urls[i], company, storageType, now, maxRetries, retryTimeout);
      var rest := all;
      ids := [];
      while rest != {} && |ids| < BATCH
        invariant forall i :: i in ids || i in rest <==> i in all
        invariant (forall i :: i in ids ==> i !in rest) && |ids| <= BATCH && NoRepeats(ids)
        decreases rest
      {
        var i :| i in rest;
        ids := ids + [i];
        rest := rest - {i};
      }
      NoRepeatsSize(ids);
    }

    /** One group more, after those with the given bases, which are those of the records `done`. */
    method DeleteNextGroup(ghost first: Store, ghost begun: seq<Call>, ghost selected: set<Id>, base: Option<Base>,
                           group: seq<Id>, ghost done: set<Id>, ghost bases: set<Option<Base>>, ghost at: nat)
      requires Valid() && at <= calls && Progress(first, begun, urls, log, selected, maxRetries) && NoRepeats(group)
      requires SetOf(group) == GroupOf(storage, at, selected, base) && done !! SetOf(group) && base !in bases
      requires Covers(log[|begun|..], done) && OnePass(storage, at, selected, log[|begun|..])
      requires Chunked(log[|begun|..]) && ChunksWithin(log[|begun|..], done) && BasesWithin(log[|begun|..], bases)
      modifies this
      ensures Valid() && at <= calls && Progress(first, begun, urls, log, selected, maxRetries)
      ensures Covers(log[|begun|..], done + SetOf(group)) && OnePass(storage, at, selected, log[|begun|..])
      ensures Chunked(log[|begun|..]) && ChunksWithin(log[|begun|..], done + SetOf(group))
      ensures BasesWithin(log[|begun|..], bases + {base})
    {
      ghost var before, seen := urls, log;
      assert forall i :: i in group ==> i in SetOf(group);
      DeleteGroup(base, group, at);
      ProgressThen(first, begun, before, seen, urls, log, SetOf(group), selected, done, SetOf(group), maxRetries);
      SameGroupIsOnePass(storage, log[|seen|..], at, SetOf(group), base, selected);
      OnePassMore(storage, at, selected, begun, seen, log);
      ChunkedLater(begun, seen, log, done, SetOf(group), bases, base);
    }

    /** Delete the files of the selected records, group by group. */
    method DeleteSelected(selected: seq<Id>)
      requires Valid() && NoRepeats(selected)
      modifies this
      ensures Valid() && Progress(old(urls), old(log), urls, log, SetOf(selected), maxRetries)
      ensures Covers(log[|old(log)|..], SetOf(selected))
      ensures OnePass(storage, old(calls), SetOf(selected), log[|old(log)|..]) && Chunked(log[|old(log)|..])
    {
      var at := calls;
      var key := (i: Id) => storage.base(at, i);
      var bases, groups := Bucketize(selected, key);
      ghost var done: set<Id> := {};
      NothingCalled(urls, log, SetOf(selected), maxRetries);
      for n := 0 to |bases|
        invariant at <= calls && Valid() && Progress(old(urls), old(log), urls, log, SetOf(selected), maxRetries)
        invariant Covers(log[|old(log)|..], done) && OnePass(storage, at, SetOf(selected), log[|old(log)|..])
        invariant forall i :: i in done <==> i in selected && key(i) in SetOf(bases[..n])
        invariant Chunked(log[|old(log)|..]) && ChunksWithin(log[|old(log)|..], done)
        invariant BasesWithin(log[|old(log)|..], SetOf(bases[..n]))
      {
        var group := groups[bases[n]];
        KeyedMembers(selected, key, bases[n]);
        KeyedNoRepeats(selected, key, bases[n]);
        SetOfPrefix(bases, n);
        DeleteNextGroup(old(urls), old(log), SetOf(selected), bases[n], group, done, SetOf(bases[..n]), at);
        done := done + SetOf(group);
      }
      assert bases[..|bases|] == bases;
      assert forall i :: i in selected ==> key(i) in KeysOf(selected, key);
      assert SetOf(selected) <= done;
    }

    /**
     * One pass. The records become exactly what the storage's answers make of them; all calls
     * concern selected records only and every selected record is concerned, so it is deleted,
     * failed for good, or has used up a try, whatever the storage answers.
     */
    method DeleteUrls(company: string, storageType: StorageType, now: Time) returns (ghost selected: set<Id>)
      requires Valid()
      modifies this
      ensures Selects(old(urls), selected, company, storageType, now, maxRetries, retryTimeout)
      ensures Valid() && Progress(old(urls), old(log), urls, log, selected, maxRetries)
      ensures Covers(log[|old(log)|..], selected) && OnePass(storage, old(calls), selected, log[|old(log)|..])
      ensures Chunked(log[|old(log)|..])
      ensures forall i :: i in selected ==> Handled(old(urls), urls, i)
      ensures Safe(storage, old(calls), log, old(urls), urls, maxRetries)
    {
      var toDelete := Select(company, storageType, now);
      selected := SetOf(toDelete);
      if toDelete != [] {
        DeleteSelected(toDelete);
      } else {
        NothingCalled(urls, log, selected, maxRetries);
      }
      FollowsIsSafe(old(urls), urls, log[|old(log)|..], maxRetries);
      ProgressIsSafe(storage, old(urls), old(log), urls, log, selected, maxRetries);
    }

    /** The eligible record with the fewest tries behind it, among the known kinds of storage. */
    method FirstByRetryCount(now: Time) returns (r: Option<Id>)
      ensures r == None <==> NothingDue(urls, now, maxRetries, retryTimeout)
      ensures r.Some? ==> IsNext(urls, r.value, now, maxRetries, retryTimeout)
    {
      var all := set i |
        i in urls && Eligible(urls[i], now, maxRetries, retryTimeout) && urls[i].storageType != Unknown;
      var rest := all;
      r := None;
      while rest != {}
        invariant rest <= all && (r == None <==> rest == all)
        invariant r.Some? ==> r.value in all
        invariant r.Some? ==> forall i :: i in all - rest ==> urls[r.value].retryCount <= urls[i].retryCount
        decreases rest
      {
        var i :| i in rest;
        if r == None || urls[i].retryCount < urls[r.value].retryCount {
          r := Some(i);
        }
        rest := rest - {i};
      }
      assert r == None ==>
        forall i :: i in urls && Ready(urls[i], now, maxRetries, retryTimeout) ==>
          i in all || urls[i].storageType == Unknown;
    }

    /** One round of the loop: idle without an eligible record, otherwise a pass. */
    method OneRound(now: Time) returns (busy: bool, ghost r: Round)
      requires Valid()
      modifies this
      ensures IsRound(storage, r, maxRetries, retryTimeout) && (busy <==> r.selected != {})
      ensures r.before == old(urls) && r.after == urls && r.at == old(calls) && r.now == now
      ensures Valid() && log == old(log) + r.calls && Progress(old(urls), old(log), urls, log, r.selected, maxRetries)
    {
      var next := FirstByRetryCount(now);
      if next == None {
        NothingCalled(urls, log, {}, maxRetries);
        assert log + [] == log;
        r := Round(urls, calls, now, {}, [], urls);
        return false, r;
      }
      var u := urls[next.value];
      ghost var selected := DeleteUrls(u.company, u.storageType, now);
      r := Round(old(urls), old(calls), now, selected, log[|old(log)|..], urls);
      SelectsNext(old(urls), next.value, selected, now, maxRetries, retryTimeout);
      busy := true;
    }

    /**
     * Any run of the loop, for any clock and any storage: one round for each time on the clock.
     * The tries taken are paid for by the budget, so it bounds the rounds that are not idle.
     */
    method RunLoop(clock: seq<Time>) returns (ghost rounds: seq<Round>)
      requires Valid() && Sound(urls, maxRetries)
      modifies this
      ensures Valid() && Ran(storage, old(urls), old(calls), rounds, urls, log, maxRetries, retryTimeout)
      ensures Times(rounds) == clock
      ensures Budget(urls, maxRetries) + Attempts(rounds) <= Budget(old(urls), maxRetries)
      ensures Busy(rounds, maxRetries, retryTimeout) <= Attempts(rounds) && Sound(urls, maxRetries)
      ensures Safe(storage, old(calls), log, old(urls), urls, maxRetries)
    {
      rounds := [];
      for n := 0 to |clock|
        invariant Valid() && Ran(storage, old(urls), old(calls), rounds, urls, log, maxRetries, retryTimeout)
        invariant Times(rounds) == clock[..n]
      {
        ghost var seen := log;
        ClockTicks(clock, n);
        var _, r := OneRound(clock[n]);
        LongerRun(storage, old(urls), old(calls), rounds, r, seen, log, maxRetries, retryTimeout);
        rounds := rounds + [r];
      }
      assert clock[..|clock|] == clock;
      RunUsesBudget(storage, old(urls), old(calls), rounds, urls, log, maxRetries, retryTimeout);
      RunIsSafe(storage, old(urls), old(calls), rounds, urls, log, maxRetries, retryTimeout);
    }

    /** A time by which every retry timeout has passed. */
    method WaitForTimeouts() returns (now: Time)
      ensures forall i :: i in urls && urls[i].lastFailureTime.Some? ==>
        urls[i].lastFailureTime.value < now - retryTimeout
    {
      var rest := urls.Keys;
      now := 0;
      while rest != {}
        invariant rest <= urls.Keys
        invariant forall i :: i in urls && i !in rest && urls[i].lastFailureTime.Some? ==>
          urls[i].lastFailureTime.value < now - retryTimeout
        decreases rest
      {
        var i :| i in rest;
        if urls[i].lastFailureTime.Some? && urls[i].lastFailureTime.value >= now - retryTimeout {
          now := urls[i].lastFailureTime.value + retryTimeout + 1;
        }
        rest := rest - {i};
      }
    }

    /**
     * If every round waits for the retry timeouts, the loop drains: after finitely many rounds,
     * no more than the initial budget, every record of a known kind of storage is gone or failed.
     */
    method Drain() returns (ghost rounds: seq<Round>)
      requires Valid() && Sound(urls, maxRetries)
      modifies this
      ensures forall i :: i in urls ==> urls[i].status == Failed || urls[i].storageType == Unknown
      ensures Valid() && Ran(storage, old(urls), old(calls), rounds, urls, log, maxRetries, retryTimeout)
      ensures |rounds| <= Budget(old(urls), maxRetries) + 1
      ensures Safe(storage, old(calls), log, old(urls), urls, maxRetries)
    {
      rounds := [];
      while true
        invariant Valid() && Ran(storage, old(urls), old(calls), rounds, urls, log, maxRetries, retryTimeout)
        invariant Sound(urls, maxRetries) && Budget(urls, maxRetries) + |rounds| <= Budget(old(urls), maxRetries)
        decreases Budget(urls, maxRetries)
      {
        var now := WaitForTimeouts();
        ghost var before, seen := urls, log;
        var busy, r := OneRound(now);
        LongerRun(storage, old(urls), old(calls), rounds, r, seen, log, maxRetries, retryTimeout);
        RoundUsesBudget(storage, r, maxRetries, retryTimeout);
        rounds := rounds + [r];
        if !busy {
          AllSettled(before, now, urls, log[|seen|..], maxRetries, retryTimeout);
          RunIsSafe(storage, old(urls), old(calls), rounds, urls, log, maxRetries, retryTimeout);
          return;
        }
      }
    }
  }
}
