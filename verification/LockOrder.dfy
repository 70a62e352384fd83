/** The lock order on its own: threads that request, acquire and release the mutexes of the router
    one at a time, nesting them only as `MayRequest` says. Nobody waits in a circle. That the
    router's threads nest them so is proved in `FineRouter`. */
module LockOrder {
  import opened Options

  datatype Mutex = SessionMutex(h: nat) | RegistryMutex | ReadQueueMutex | WriteQueueMutex
  datatype Mode = Shared | Exclusive
  datatype Lock = Lock(mutex: Mutex, mode: Mode)
  datatype Role = Reader | Writer | Listener

  /** A thread: what it holds, innermost last, and what it is waiting for. */
  datatype Thread = Thread(role: Role, held: seq<Lock>, wants: Option<Lock>)

  type Threads = seq<Thread>

  /** The nesting the source allows: nothing is requested under a registry or queue mutex, and a
      session mutex is requested with empty hands. */
  predicate MayRequest(role: Role, held: seq<Lock>, want: Lock) {
    if held == [] then
      match want.mutex
      case SessionMutex(_) => role != Listener && want.mode == Exclusive
      case RegistryMutex => role == Listener ==> want.mode == Exclusive
      case ReadQueueMutex => role != Writer && want.mode == Exclusive
      case WriteQueueMutex => role == Writer && want.mode == Exclusive
    else
      && |held| == 1 && held[0].mutex.SessionMutex?
      && match want.mutex
         case SessionMutex(_) => false
         case RegistryMutex => role == Reader || (role == Writer && want.mode == Exclusive)
         case ReadQueueMutex => false
         case WriteQueueMutex => role == Reader && want.mode == Exclusive
  }

  predicate Conflict(a: Lock, b: Lock) {
    a.mutex == b.mutex && (a.mode == Exclusive || b.mode == Exclusive)
  }

  predicate HoldsAgainst(th: Thread, want: Lock) {
    exists i :: 0 <= i < |th.held| && Conflict(th.held[i], want)
  }

  predicate Free(s: Threads, want: Lock) {
    forall u :: 0 <= u < |s| ==> !HoldsAgainst(s[u], want)
  }

  datatype Step = Request(t: nat, want: Lock) | Acquire(t: nat) | Release(t: nat)

  predicate Enabled(s: Threads, step: Step) {
    step.t < |s| &&
    var th := s[step.t];
    match step
    case Request(_, want) => th.wants.None? && MayRequest(th.role, th.held, want)
    case Acquire(_) => th.wants.Some? && Free(s, th.wants.value)
    case Release(_) => th.wants.None? && th.held != []
  }

  function Apply(s: Threads, step: Step): Threads
    requires Enabled(s, step)
  {
    var th := s[step.t];
    match step
    case Request(t, want) => s[t := th.(wants := Some(want))]
    case Acquire(t) => s[t := th.(held := th.held + [th.wants.value], wants := None)]
    case Release(t) => s[t := th.(held := th.held[..|th.held| - 1])]
  }

  ghost predicate ValidRun(s: Threads, steps: seq<Step>)
    decreases |steps|
  {
    steps == [] || (Enabled(s, steps[0]) && ValidRun(Apply(s, steps[0]), steps[1..]))
  }

  ghost function Run(s: Threads, steps: seq<Step>): Threads
    requires ValidRun(s, steps)
    decreases |steps|
  {
    if steps == [] then s else Run(Apply(s, steps[0]), steps[1..])
  }

  predicate Initial(s: Threads) {
    forall t :: 0 <= t < |s| ==> s[t].held == [] && s[t].wants.None?
  }

  // ---------------------------------------------------------------- the discipline holds

  predicate Nested(held: seq<Lock>) {
    |held| <= 2 && (|held| == 2 ==> held[0].mutex.SessionMutex? && !held[1].mutex.SessionMutex?)
  }

  predicate Disciplined(th: Thread) {
    Nested(th.held) && (th.wants.Some? ==> MayRequest(th.role, th.held, th.wants.value))
  }

  /** No two threads hold the same mutex in conflicting modes. */
  ghost predicate Exclusion(s: Threads) {
    forall t, u, i, j :: 0 <= t < |s| && 0 <= u < |s| && t != u && 0 <= i < |s[t].held| && 0 <= j < |s[u].held|
      ==> !Conflict(s[t].held[i], s[u].held[j])
  }

  ghost predicate Inv(s: Threads) {
    (forall t :: 0 <= t < |s| ==> Disciplined(s[t])) && Exclusion(s)
  }

  lemma AcquireKeepsExclusion(s: Threads, t: nat)
    requires Exclusion(s) && Enabled(s, Acquire(t))
    ensures Exclusion(Apply(s, Acquire(t)))
  {
    var s' := Apply(s, Acquire(t));
    var want := s[t].wants.value;
    forall a, b, i, j | 0 <= a < |s'| && 0 <= b < |s'| && a != b && 0 <= i < |s'[a].held| && 0 <= j < |s'[b].held|
      ensures !Conflict(s'[a].held[i], s'[b].held[j])
    {
      if a == t && i == |s[t].held| {
        assert !HoldsAgainst(s[b], want);
      } else if b == t && j == |s[t].held| {
        assert !HoldsAgainst(s[a], want);
      } else {
        assert s'[a].held[i] == s[a].held[i] && s'[b].held[j] == s[b].held[j];
      }
    }
  }

  lemma StepKeepsInv(s: Threads, step: Step)
    requires Inv(s) && Enabled(s, step)
    ensures Inv(Apply(s, step))
  {
    assert Disciplined(s[step.t]);
    if step.Acquire? {
      AcquireKeepsExclusion(s, step.t);
    }
  }

  lemma {:induction false} RunKeepsInv(s: Threads, steps: seq<Step>)
    requires Inv(s) && ValidRun(s, steps)
    ensures Inv(Run(s, steps))
    decreases |steps|
  {
    if steps != [] {
      StepKeepsInv(s, steps[0]);
      RunKeepsInv(Apply(s, steps[0]), steps[1..]);
    }
  }

  // ---------------------------------------------------------------- nobody waits in a circle

  predicate WaitsFor(s: Threads, t: nat, u: nat) {
    t < |s| && u < |s| && s[t].wants.Some? && HoldsAgainst(s[u], s[t].wants.value)
  }

  function Rank(m: Mutex): nat { if m.SessionMutex? then 0 else 1 }

  /** Along the waits-for relation the rank of what is wanted goes up. */
  lemma RankGrows(s: Threads, t: nat, u: nat)
    requires Inv(s) && WaitsFor(s, t, u) && s[u].wants.Some?
    ensures Rank(s[t].wants.value.mutex) < Rank(s[u].wants.value.mutex)
  {
    assert Disciplined(s[u]);
    var i :| 0 <= i < |s[u].held| && Conflict(s[u].held[i], s[t].wants.value);
  }

  ghost predicate Chain(s: Threads, path: seq<nat>) {
    forall i :: 0 <= i < |path| - 1 ==> WaitsFor(s, path[i], path[i + 1])
  }

  lemma {:induction false} ChainClimbs(s: Threads, path: seq<nat>)
    requires Inv(s) && Chain(s, path) && |path| >= 2
    requires path[|path| - 1] < |s| && s[path[|path| - 1]].wants.Some?
    ensures path[0] < |s| && s[path[0]].wants.Some?
    ensures Rank(s[path[0]].wants.value.mutex) < Rank(s[path[|path| - 1]].wants.value.mutex)
    decreases |path|
  {
    assert WaitsFor(s, path[0], path[1]);
    if |path| == 2 {
      RankGrows(s, path[0], path[1]);
    } else {
      var rest := path[1..];
      forall i | 0 <= i < |rest| - 1 ensures WaitsFor(s, rest[i], rest[i + 1]) {
        assert WaitsFor(s, path[i + 1], path[i + 2]);
      }
      ChainClimbs(s, rest);
      RankGrows(s, path[0], path[1]);
    }
  }

  /** In every reachable state, for any number of threads, the waits-for relation has no cycle. */
  lemma WaitsForIsAcyclic(s: Threads, steps: seq<Step>, path: seq<nat>)
    requires Initial(s) && ValidRun(s, steps) && |path| >= 2 && Chain(Run(s, steps), path)
    ensures path[0] != path[|path| - 1]
  {
    RunKeepsInv(s, steps);
    var q := Run(s, steps);
    assert WaitsFor(q, path[0], path[1]);
    if path[0] == path[|path| - 1] { ChainClimbs(q, path); }
  }

  /** A thread that holds a mutex and is not blocked. */
  predicate CanGoOn(s: Threads, u: nat) {
    u < |s| && s[u].held != [] && (Enabled(s, Release(u)) || Enabled(s, Acquire(u)))
  }

  /** The chain of waiting that starts at `t` ends with a thread that can go on. */
  ghost predicate ChainToRunnable(s: Threads, t: nat, path: seq<nat>) {
    && |path| >= 2 && path[0] == t && Chain(s, path)
    && CanGoOn(s, path[|path| - 1])
  }

  /** A thread that waits and cannot acquire. */
  predicate Blocked(s: Threads, t: nat) {
    t < |s| && s[t].wants.Some? && !Enabled(s, Acquire(t))
  }

  lemma BlockedWaits(s: Threads, t: nat) returns (u: nat)
    requires Blocked(s, t)
    ensures WaitsFor(s, t, u) && s[u].held != [] && (Blocked(s, u) || CanGoOn(s, u))
  {
    u :| u < |s| && HoldsAgainst(s[u], s[t].wants.value);
  }

  lemma TopIsNotBlocked(s: Threads, t: nat, u: nat, v: nat)
    requires Inv(s) && WaitsFor(s, t, u) && s[u].wants.Some? && WaitsFor(s, u, v)
    ensures s[v].wants.None?
  {
    hide Inv, HoldsAgainst;
    RankGrows(s, t, u);
    if s[v].wants.Some? { RankGrows(s, u, v); }
  }

  /** And whenever a thread is blocked, whoever holds what it waits for, or whoever holds what
      that one waits for, can go on. */
  lemma BlockedChain(s: Threads, t: nat) returns (path: seq<nat>)
    requires Inv(s) && Blocked(s, t)
    ensures ChainToRunnable(s, t, path)
  {
    var u := BlockedWaits(s, t);
    path := [t, u];
    if Blocked(s, u) {
      var v := BlockedWaits(s, u);
      TopIsNotBlocked(s, t, u, v);
      path := [t, u, v];
    }
    hide Inv, Blocked, CanGoOn, WaitsFor;
    assert forall i :: 0 <= i < |path| - 1 ==> WaitsFor(s, path[i], path[i + 1]);
  }

  lemma SomebodyCanGoOn(s: Threads, steps: seq<Step>, t: nat)
    requires Initial(s) && ValidRun(s, steps) && Blocked(Run(s, steps), t)
    ensures exists path :: ChainToRunnable(Run(s, steps), t, path)
  {
    RunKeepsInv(s, steps);
    hide Run, ValidRun, ChainToRunnable, Blocked;
    var path := BlockedChain(Run(s, steps), t);
  }

  /** The branch of `accept_client` that calls `removeSession` would break this: a thread that
      holds the registry and requests it waits for itself. The discipline forbids it, and
      the router never comes to it. */
  lemma SelfLockIsACycle(s: Threads, t: nat)
    requires t < |s| && s[t].held == [Lock(RegistryMutex, Exclusive)]
    requires s[t].wants == Some(Lock(RegistryMutex, Exclusive))
    ensures WaitsFor(s, t, t) && !Enabled(s, Acquire(t)) && !Disciplined(s[t])
  {
    assert Conflict(s[t].held[0], s[t].wants.value);
    assert HoldsAgainst(s[t], s[t].wants.value);
  }
}
