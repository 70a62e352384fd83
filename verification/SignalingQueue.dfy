/** `SignalingQueue<T>`: a blocking queue with a mutex, a condition variable, and a push that may
    be skipped when it repeats the back. One step is one critical section. */
module SignalingQueue {
  import opened Options

  /** Where a consumer stands: not in `pop`; asleep on the condition variable; picked by
      `notify_one` and not yet run; awake with no notification and not yet run. */
  datatype Consumer = Outside | Waiting | Notified | Stirred

  /** The queue, its consumers, and what was asked of it so far. */
  datatype State<T> = State(items: seq<T>, consumers: seq<Consumer>, pushes: seq<T>, popped: seq<T>)

  predicate Skips<T(==)>(items: seq<T>, x: T, skipIfRepeated: bool) {
    skipIfRepeated && items != [] && items[|items| - 1] == x
  }

  /** The contents after `push`. */
  function Offer<T(==)>(items: seq<T>, x: T, skipIfRepeated: bool): seq<T> {
    if Skips(items, x, skipIfRepeated) then items else items + [x]
  }

  predicate SomeWaiting(cs: seq<Consumer>) { Waiting in cs }

  /** `notify_one`: some sleeper, the system's choice, is picked; without sleepers nothing. */
  predicate MayWake(cs: seq<Consumer>, wake: nat) {
    SomeWaiting(cs) ==> wake < |cs| && cs[wake] == Waiting
  }

  function Wake(cs: seq<Consumer>, wake: nat): seq<Consumer>
    requires MayWake(cs, wake)
  {
    if SomeWaiting(cs) then cs[wake := Notified] else cs
  }

  datatype Step<T> = Push(item: T, skipIfRepeated: bool, wake: nat)
                   | Pop(consumer: nat)
                   | Stir(consumer: nat)

  predicate Enabled<T(==)>(s: State<T>, step: Step<T>) {
    match step
    case Push(x, skip, wake) => Skips(s.items, x, skip) || MayWake(s.consumers, wake)
    case Pop(c) => c < |s.consumers| && s.consumers[c] != Waiting
    case Stir(c) => c < |s.consumers| && s.consumers[c] == Waiting
  }

  /** `Pop(c)` is a call of `pop`, or its resumption after a wakeup: under the mutex the predicate
      is tested, and the consumer takes the front or goes (back) to sleep. */
  function Apply<T(==)>(s: State<T>, step: Step<T>): State<T>
    requires Enabled(s, step)
  {
    match step
    case Push(x, skip, wake) =>
      if Skips(s.items, x, skip) then s.(pushes := s.pushes + [x])
      else s.(items := Offer(s.items, x, skip), consumers := Wake(s.consumers, wake), pushes := s.pushes + [x])
    case Pop(c) =>
      if s.items == [] then s.(consumers := s.consumers[c := Waiting])
      else s.(items := s.items[1..], consumers := s.consumers[c := Outside], popped := s.popped + [s.items[0]])
    case Stir(c) => s.(consumers := s.consumers[c := Stirred])
  }

  predicate ValidRun<T(==)>(s: State<T>, steps: seq<Step<T>>)
    decreases |steps|
  {
    steps == [] || (Enabled(s, steps[0]) && ValidRun(Apply(s, steps[0]), steps[1..]))
  }

  function Run<T(==)>(s: State<T>, steps: seq<Step<T>>): State<T>
    requires ValidRun(s, steps)
    decreases |steps|
  {
    if steps == [] then s else Run(Apply(s, steps[0]), steps[1..])
  }

  /** An empty queue, with any number of consumers that have not called yet. */
  predicate Initial<T(==)>(s: State<T>) {
    s.items == [] && s.pushes == [] && s.popped == [] && forall c :: 0 <= c < |s.consumers| ==> s.consumers[c] == Outside
  }

  // ---------------------------------------------------------------- no lost wakeup

  function CountNotified(cs: seq<Consumer>): nat {
    if cs == [] then 0 else CountNotified(cs[1..]) + (if cs[0] == Notified then 1 else 0)
  }

  lemma {:induction false} CountAfterUpdate(cs: seq<Consumer>, c: nat, x: Consumer)
    requires c < |cs|
    ensures CountNotified(cs[c := x]) ==
      CountNotified(cs) - (if cs[c] == Notified then 1 else 0) + (if x == Notified then 1 else 0)
  {
    if c > 0 {
      assert cs[c := x][1..] == cs[1..][c - 1 := x];
      CountAfterUpdate(cs[1..], c - 1, x);
    } else {
      assert cs[c := x][1..] == cs[1..];
    }
  }

  lemma {:induction false} CountPositive(cs: seq<Consumer>)
    requires CountNotified(cs) > 0
    ensures Notified in cs
  {
    if cs[0] != Notified { CountPositive(cs[1..]); }
  }

  /** While anyone sleeps, every queued item has a notified consumer on its way. */
  ghost predicate WakeupsCover<T>(s: State<T>) {
    SomeWaiting(s.consumers) ==> |s.items| <= CountNotified(s.consumers)
  }

  lemma StepKeepsCover<T>(s: State<T>, step: Step<T>)
    requires Enabled(s, step) && WakeupsCover(s)
    ensures WakeupsCover(Apply(s, step))
  {
    match step
    case Push(x, skip, wake) =>
      if !Skips(s.items, x, skip) && SomeWaiting(s.consumers) {
        CountAfterUpdate(s.consumers, wake, Notified);
      }
    case Pop(c) =>
      CountAfterUpdate(s.consumers, c, if s.items == [] then Waiting else Outside);
      if s.items != [] && SomeWaiting(s.consumers[c := Outside]) {
        OtherWaiting(s.consumers, c, Outside);
      }
    case Stir(c) =>
      CountAfterUpdate(s.consumers, c, Stirred);
  }

  lemma OtherWaiting(cs: seq<Consumer>, c: nat, x: Consumer)
    requires c < |cs| && x != Waiting && SomeWaiting(cs[c := x])
    ensures SomeWaiting(cs)
  {
    var i :| 0 <= i < |cs| && cs[c := x][i] == Waiting;
    assert cs[i] == Waiting;
  }

  /** In every run, with any number of consumers, spurious wakeups, stolen items and skipped
      pushes: if somebody sleeps, the queue is no longer than the number of notified consumers
      that have not yet run; so items never lie in a queue whose consumers are all asleep. */
  lemma {:induction false} NoLostWakeup<T>(s: State<T>, steps: seq<Step<T>>)
    requires WakeupsCover(s) && ValidRun(s, steps)
    ensures var t := Run(s, steps);
      && (SomeWaiting(t.consumers) ==> |t.items| <= CountNotified(t.consumers))
      && (SomeWaiting(t.consumers) && t.items != [] ==> Notified in t.consumers)
    decreases |steps|
  {
    if steps == [] {
      if SomeWaiting(s.consumers) && s.items != [] { CountPositive(s.consumers); }
    } else {
      StepKeepsCover(s, steps[0]);
      NoLostWakeup(Apply(s, steps[0]), steps[1..]);
    }
  }

  // ---------------------------------------------------------------- what a skipped push preserves

  /** A sequence without its immediate repetitions. */
  function Destutter<T(==)>(s: seq<T>): (r: seq<T>)
    ensures r == [] <==> s == []
    ensures s != [] ==> r[|r| - 1] == s[|s| - 1]
  {
    if s == [] then []
    else
      var n := |s| - 1;
      var r := Destutter(s[..n]);
      if n > 0 && s[n - 1] == s[n] then r else r + [s[n]]
  }

  ghost predicate Subsequence<T>(a: seq<T>, b: seq<T>) {
    if a == [] then true
    else if b == [] then false
    else Subsequence(a, b[..|b| - 1])
         || (a[|a| - 1] == b[|b| - 1] && Subsequence(a[..|a| - 1], b[..|b| - 1]))
  }

  predicate NoRepetition<T(==)>(s: seq<T>) {
    forall i :: 0 <= i < |s| - 1 ==> s[i] != s[i + 1]
  }

  lemma DestutterPush<T>(s: seq<T>, x: T)
    ensures Destutter(s + [x]) == if s != [] && s[|s| - 1] == x then Destutter(s) else Destutter(s) + [x]
  {
    assert (s + [x])[..|s|] == s;
  }

  lemma SubsequencePush<T>(a: seq<T>, b: seq<T>, x: T)
    requires Subsequence(a, b)
    ensures Subsequence(a, b + [x]) && Subsequence(a + [x], b + [x])
  {
    assert (b + [x])[..|b|] == b && (a + [x])[..|a|] == a;
  }

  lemma {:induction false} SubsequenceSelf<T>(a: seq<T>)
    ensures Subsequence(a, a)
  {
    if a != [] { SubsequenceSelf(a[..|a| - 1]); }
  }

  lemma {:induction false} SubsequenceLonger<T>(a: seq<T>, b: seq<T>, c: seq<T>)
    requires Subsequence(a, b)
    ensures Subsequence(a, b + c)
    decreases |c|
  {
    if c == [] {
      assert b + c == b;
    } else {
      var n := |c| - 1;
      SubsequenceLonger(a, b, c[..n]);
      assert (b + c)[..|b| + n] == b + c[..n];
    }
  }

  lemma {:induction false} SubsequenceChain<T>(a: seq<T>, b: seq<T>, c: seq<T>)
    requires Subsequence(a, b) && Subsequence(b, c)
    ensures Subsequence(a, c)
    decreases |c|
  {
    if a != [] && b != [] {
      var c', b' := c[..|c| - 1], b[..|b| - 1];
      if Subsequence(b, c') {
        SubsequenceChain(a, b, c');
      } else if Subsequence(a, b') {
        SubsequenceChain(a, b', c');
      } else {
        SubsequenceChain(a[..|a| - 1], b', c');
      }
    }
  }

  /** Everything taken out or still inside, oldest first. */
  function Flow<T>(s: State<T>): seq<T> { s.popped + s.items }

  ghost predicate Faithful<T>(s: State<T>) {
    Destutter(Flow(s)) == Destutter(s.pushes) && Subsequence(Flow(s), s.pushes)
  }

  lemma StepIsFaithful<T>(s: State<T>, step: Step<T>)
    requires Enabled(s, step) && Faithful(s)
    ensures Faithful(Apply(s, step))
  {
    hide Destutter, Subsequence;
    var t := Apply(s, step);
    match step
    case Push(x, skip, wake) =>
      DestutterPush(s.pushes, x);
      DestutterPush(Flow(s), x);
      SubsequencePush(Flow(s), s.pushes, x);
      if Skips(s.items, x, skip) {
        assert Flow(s)[|Flow(s)| - 1] == x;
      } else {
        assert Flow(t) == Flow(s) + [x];
      }
    case Pop(c) =>
      assert Flow(t) == Flow(s);
    case Stir(c) =>
  }

  /** For any mix of skipping and plain pushes: what leaves or is still queued is what was pushed,
      up to immediate repetitions, and nothing is reordered or made up. */
  lemma {:induction false} CoalescingKeepsChanges<T>(s: State<T>, steps: seq<Step<T>>)
    requires Faithful(s) && ValidRun(s, steps)
    ensures var t := Run(s, steps);
      Destutter(Flow(t)) == Destutter(t.pushes) && Subsequence(Flow(t), t.pushes)
    decreases |steps|
  {
    if steps != [] {
      StepIsFaithful(s, steps[0]);
      CoalescingKeepsChanges(Apply(s, steps[0]), steps[1..]);
    }
  }

  /** When every push may be skipped, as the listener's are, the queue never repeats itself. */
  lemma {:induction false} CoalescedQueueHasNoRepetition<T>(s: State<T>, steps: seq<Step<T>>)
    requires NoRepetition(s.items) && ValidRun(s, steps)
    requires forall i :: 0 <= i < |steps| && steps[i].Push? ==> steps[i].skipIfRepeated
    ensures NoRepetition(Run(s, steps).items)
    decreases |steps|
  {
    if steps != [] {
      var t := Apply(s, steps[0]);
      assert NoRepetition(t.items);
      CoalescedQueueHasNoRepetition(t, steps[1..]);
    }
  }

  /** When no push may be skipped, as the forwarded frames are, the queue is exactly first in,
      first out. */
  lemma {:induction false} PlainPushesAreFifo<T>(s: State<T>, steps: seq<Step<T>>)
    requires Flow(s) == s.pushes && ValidRun(s, steps)
    requires forall i :: 0 <= i < |steps| && steps[i].Push? ==> !steps[i].skipIfRepeated
    ensures Flow(Run(s, steps)) == Run(s, steps).pushes
    decreases |steps|
  {
    if steps != [] {
      var t := Apply(s, steps[0]);
      assert Flow(t) == t.pushes;
      PlainPushesAreFifo(t, steps[1..]);
    }
  }

  // ---------------------------------------------------------------- the object

  class Queue<T(==)> {
    var items: seq<T>
    var consumers: seq<Consumer>
    ghost var pushes: seq<T>
    ghost var popped: seq<T>

    ghost function View(): State<T>
      reads this
    {
      State(items, consumers, pushes, popped)
    }

    constructor (consumerCount: nat)
      ensures Initial(View()) && |consumers| == consumerCount
      ensures WakeupsCover(View()) && Faithful(View())
    {
      items, pushes, popped := [], [], [];
      consumers := seq(consumerCount, _ => Outside);
    }

    /** `push`. The pushed item is at the back afterwards in either case. */
    method Push(item: T, skipIfRepeated: bool)
      modifies this
      ensures exists wake: nat ::
        Enabled(old(View()), Step.Push(item, skipIfRepeated, wake)) &&
        View() == Apply(old(View()), Step.Push(item, skipIfRepeated, wake))
      ensures items == Offer(old(items), item, skipIfRepeated)
      ensures items != [] && items[|items| - 1] == item
      ensures popped == old(popped)
    {
      ghost var before := View();
      pushes := pushes + [item];
      if skipIfRepeated && |items| > 0 {
        if items[|items| - 1] == item {
          assert View() == Apply(before, Step.Push(item, skipIfRepeated, 0));
          return;
        }
      }
      items := items + [item];
      if wake :| 0 <= wake < |consumers| && consumers[wake] == Waiting {
        assert consumers[wake] in consumers;
        consumers := consumers[wake := Notified];
        assert View() == Apply(before, Step.Push(item, skipIfRepeated, wake));
      } else {
        assert View() == Apply(before, Step.Push(item, skipIfRepeated, 0));
      }
    }

    /** One turn of `pop` under the mutex: take the front, or sleep. */
    method TryPop(consumer: nat) returns (item: Option<T>)
      requires consumer < |consumers| && consumers[consumer] != Waiting
      modifies this
      ensures View() == Apply(old(View()), Step.Pop(consumer))
      ensures item == if old(items) == [] then None else Some(old(items)[0])
      ensures pushes == old(pushes)
    {
      if items == [] {
        consumers := consumers[consumer := Waiting];
        return None;
      }
      item := Some(items[0]);
      popped := popped + [items[0]];
      items := items[1..];
      consumers := consumers[consumer := Outside];
    }
  }
}
