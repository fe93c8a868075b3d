/**
 * The lock that several processes share: a key that only one of them can set, that expires by
 * itself, and that whoever leaves its section deletes, whoever set it.
 */
module DistributedLock {
  import opened Wrappers

  type Client = nat

  /** The key with its expiry if it is set, and who is in the protected section since when. */
  datatype State = State(now: int, expiry: Option<int>, inside: map<Client, int>)

  datatype Step = Wait(seconds: nat) | Acquire(client: Client) | Release(client: Client)

  /** The key is there and has not expired. */
  predicate Held(s: State) {
    s.expiry.Some? && s.now < s.expiry.value
  }

  /** A client can set the key only while it is not held, and leave only when it is inside. */
  predicate Enabled(s: State, step: Step) {
    match step
    case Wait(_) => true
    case Acquire(c) => !Held(s) && c !in s.inside
    case Release(c) => c in s.inside
  }

  function Apply(s: State, step: Step, timeout: int): State {
    match step
    case Wait(seconds) => s.(now := s.now + seconds)
    case Acquire(c) => s.(expiry := Some(s.now + timeout), inside := s.inside[c := s.now])
    case Release(c) => s.(expiry := None, inside := s.inside - {c})
  }

  /** Nobody has been inside for as long as the key lives. */
  predicate Timely(s: State, timeout: int) {
    forall c :: c in s.inside ==> s.now < s.inside[c] + timeout
  }

  /** At most one client is inside. */
  ghost predicate Exclusive(s: State) {
    forall c, d :: c in s.inside && d in s.inside ==> c == d
  }

  /** The key is that of the client inside. */
  ghost predicate Guarded(s: State, timeout: int) {
    && Exclusive(s)
    && (forall c :: c in s.inside ==> s.expiry == Some(s.inside[c] + timeout))
    && (s.inside == map[] ==> s.expiry == None)
  }

  /** While everybody is timely the key keeps all others out. */
  lemma StepKeepsGuarded(s: State, step: Step, timeout: int)
    requires Guarded(s, timeout) && Timely(s, timeout) && Enabled(s, step)
    ensures Guarded(Apply(s, step, timeout), timeout)
  {
    match step
    case Wait(_) =>
    case Acquire(_) =>
      assert forall d :: d in s.inside ==> Held(s);
    case Release(c) =>
      assert forall d :: d in s.inside ==> d == c;
  }

  ghost predicate IsRun(trace: seq<State>, steps: seq<Step>, timeout: int) {
    && |trace| == |steps| + 1
    && forall n :: 0 <= n < |steps| ==>
         Enabled(trace[n], steps[n]) && trace[n + 1] == Apply(trace[n], steps[n], timeout)
  }

  /** In every run in which nobody stays as long as the key lives, at most one client is inside at any time. */
  lemma {:induction false} TimelyRunsExclude(trace: seq<State>, steps: seq<Step>, timeout: int, n: nat)
    requires IsRun(trace, steps, timeout) && n < |trace| && Guarded(trace[0], timeout)
    requires forall k :: 0 <= k < n ==> Timely(trace[k], timeout)
    ensures Guarded(trace[n], timeout)
  {
    if n > 0 {
      TimelyRunsExclude(trace, steps, timeout, n - 1);
      StepKeepsGuarded(trace[n - 1], steps[n - 1], timeout);
    }
  }

  /** However the time passes, another client can enter exactly when the whole life of the key is over. */
  lemma HeldForItsLife(s: State, timeout: int, c: Client, d: Client, a: nat, b: nat)
    requires Enabled(s, Acquire(c)) && d != c && d !in s.inside
    ensures var later := Apply(Apply(Apply(s, Acquire(c), timeout), Wait(a), timeout), Wait(b), timeout);
      && later.inside == s.inside[c := s.now]
      && (Enabled(later, Acquire(d)) <==> a + b >= timeout)
  {
  }

  /** Another client can enter beside the one inside if and only if that one has stayed for as long as the key lives. */
  lemma EntersBeside(s: State, timeout: int, c: Client, d: Client)
    requires Guarded(s, timeout) && c in s.inside && d != c
    ensures Enabled(s, Acquire(d)) <==> !Timely(s, timeout)
    ensures !Exclusive(Apply(s, Acquire(d), timeout))
  {
    assert forall e :: e in s.inside ==> e == c;
    var after := Apply(s, Acquire(d), timeout);
    assert c in after.inside && d in after.inside;
  }

  /** A client that leaves too late takes the key of the one that came after it, so a third can enter at once. */
  lemma LateReleaseUnlocks(s: State, timeout: int, late: Client, owner: Client, third: Client)
    requires late in s.inside && owner in s.inside && late != owner && third !in s.inside
    ensures var released := Apply(s, Release(late), timeout);
      && Enabled(s, Release(late)) && owner in released.inside && Enabled(released, Acquire(third))
      && !Exclusive(Apply(released, Acquire(third), timeout))
  {
    var both := Apply(Apply(s, Release(late), timeout), Acquire(third), timeout);
    assert owner in both.inside && third in both.inside;
  }

  function FailingSteps(): seq<Step> {
    [Acquire(1), Wait(10), Acquire(2), Release(1), Acquire(3)]
  }

  function FailingTrace(): seq<State> {
    [ State(0, None, map[]),
      State(0, Some(10), map[1 := 0]),
      State(10, Some(10), map[1 := 0]),
      State(10, Some(20), map[1 := 0, 2 := 10]),
      State(10, None, map[2 := 10]),
      State(10, Some(20), map[2 := 10, 3 := 10])]
  }

  lemma FailingStep(n: nat)
    requires n < 5
    ensures Enabled(FailingTrace()[n], FailingSteps()[n])
    ensures FailingTrace()[n + 1] == Apply(FailingTrace()[n], FailingSteps()[n], 10)
  {
    if n == 3 {
      assert map[1 := 0, 2 := 10] - {1} == map[2 := 10];
    }
  }

  /** Three clients and a key that lives ten seconds: at the end two of them are inside, both of them in time. */
  lemma LockFails()
    ensures IsRun(FailingTrace(), FailingSteps(), 10)
    ensures Timely(FailingTrace()[5], 10) && !Exclusive(FailingTrace()[5])
  {
    forall n | 0 <= n < |FailingSteps()|
      ensures Enabled(FailingTrace()[n], FailingSteps()[n])
      ensures FailingTrace()[n + 1] == Apply(FailingTrace()[n], FailingSteps()[n], 10)
    {
      FailingStep(n);
    }
    assert 2 in FailingTrace()[5].inside && 3 in FailingTrace()[5].inside;
  }
}
