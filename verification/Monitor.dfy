/** The mutex with its recorded holder, and condition variables, as steps of any number of threads. */
module Monitor {

  /** A thread id; 0 stands for no thread. */
  type Tid = t: int | 0 < t witness 1

  /**
   * Where a thread stands: outside; between acquiring the mutex and recording itself as the holder; inside the
   * critical section; between clearing the holder and releasing; the same on the way into a wait; blocked in the
   * wait; and back from it with the mutex, but not yet recorded as the holder.
   */
  datatype Phase = Outside | Acquired | Inside | Leaving | Parking | Parked | Returning

  datatype Mutex = Mutex(owner: int, holder: int, phases: map<Tid, Phase>)

  datatype Event =
    | Acquire(tid: Tid) | Assign(tid: Tid) | Unassign(tid: Tid) | Release(tid: Tid)
    | UnassignGuard(tid: Tid) | Sleep(tid: Tid) | Reacquire(tid: Tid) | Reassign(tid: Tid)

  const FREE := Mutex(0, 0, map[])

  function PhaseOf(m: Mutex, t: Tid): Phase {
    if t in m.phases then m.phases[t] else Outside
  }

  predicate Holds(p: Phase) {
    p != Outside && p != Parked
  }

  predicate Enabled(m: Mutex, e: Event) {
    var p := PhaseOf(m, e.tid);
    match e
    case Acquire(_) => p == Outside && m.owner == 0
    case Assign(_) => p == Acquired
    case Unassign(_) => p == Inside
    case Release(_) => p == Leaving
    case UnassignGuard(_) => p == Inside
    case Sleep(_) => p == Parking
    case Reacquire(_) => p == Parked && m.owner == 0
    case Reassign(_) => p == Returning
  }

  function Next(m: Mutex, e: Event): Mutex
    requires Enabled(m, e)
  {
    var t := e.tid;
    match e
    case Acquire(_) => Mutex(t, m.holder, m.phases[t := Acquired])
    case Assign(_) => Mutex(m.owner, t, m.phases[t := Inside])
    case Unassign(_) => Mutex(m.owner, 0, m.phases[t := Leaving])
    case Release(_) => Mutex(0, m.holder, m.phases[t := Outside])
    case UnassignGuard(_) => Mutex(m.owner, 0, m.phases[t := Parking])
    case Sleep(_) => Mutex(0, m.holder, m.phases[t := Parked])
    case Reacquire(_) => Mutex(t, m.holder, m.phases[t := Returning])
    case Reassign(_) => Mutex(m.owner, t, m.phases[t := Inside])
  }

  ghost predicate Inv(m: Mutex) {
    && 0 <= m.owner && 0 <= m.holder
    && (forall t: Tid :: Holds(PhaseOf(m, t)) <==> m.owner == t)
    && (forall t: Tid :: PhaseOf(m, t) == Inside <==> m.holder == t)
  }

  lemma StepKeeps(m: Mutex, e: Event)
    requires Inv(m) && Enabled(m, e)
    ensures Inv(Next(m, e))
  {
    var n := Next(m, e);
    forall t: Tid
      ensures Holds(PhaseOf(n, t)) <==> n.owner == t
      ensures PhaseOf(n, t) == Inside <==> n.holder == t
    {
      assert Holds(PhaseOf(m, t)) <==> m.owner == t;
      assert PhaseOf(m, t) == Inside <==> m.holder == t;
      assert Holds(PhaseOf(m, e.tid)) <==> m.owner == e.tid;
      assert PhaseOf(m, e.tid) == Inside <==> m.holder == e.tid;
    }
  }

  /** Any interleaving of the threads' steps; one that is not possible, such as acquiring a taken mutex, does nothing. */
  function After(m: Mutex, events: seq<Event>): Mutex {
    if |events| == 0 then m
    else
      var n := After(m, events[..|events| - 1]);
      var e := events[|events| - 1];
      if Enabled(n, e) then Next(n, e) else n
  }

  lemma {:induction false} RunKeeps(m: Mutex, events: seq<Event>)
    requires Inv(m)
    ensures Inv(After(m, events))
  {
    if |events| > 0 {
      var n, e := After(m, events[..|events| - 1]), events[|events| - 1];
      RunKeeps(m, events[..|events| - 1]);
      if Enabled(n, e) {
        StepKeeps(n, e);
      }
    }
  }

  /**
   * The recorded holder is exact in every run: a thread sees itself as the holder just when it is inside the
   * critical section, after a wait too, no two threads are inside, and nobody is recorded once nobody is inside.
   */
  lemma HolderIsExact(events: seq<Event>, t: Tid, u: Tid)
    ensures var m := After(FREE, events);
      && (m.holder == t <==> PhaseOf(m, t) == Inside)
      && (PhaseOf(m, t) == Inside && PhaseOf(m, u) == Inside ==> t == u)
      && (m.holder == 0 <==> forall v: Tid :: PhaseOf(m, v) != Inside)
  {
    RunKeeps(FREE, events);
    var m := After(FREE, events);
    if m.holder != 0 {
      assert PhaseOf(m, m.holder) == Inside;
    }
  }

  /**
   * While one thread holds the mutex, no run of the others changes it or lets another thread in. A critical
   * section, up to a wait or its end, is therefore one atomic step for everything the mutex guards.
   */
  lemma {:induction false} OthersLeaveAlone(m: Mutex, t: Tid, events: seq<Event>)
    requires Inv(m) && Holds(PhaseOf(m, t))
    requires forall i :: 0 <= i < |events| ==> events[i].tid != t
    ensures var n := After(m, events);
      && n.owner == t && n.holder == m.holder && PhaseOf(n, t) == PhaseOf(m, t)
      && forall u: Tid :: u != t ==> !Holds(PhaseOf(n, u))
  {
    RunKeeps(m, events);
    if |events| > 0 {
      var init := events[..|events| - 1];
      forall i | 0 <= i < |init| ensures init[i].tid != t {
        assert init[i] == events[i];
      }
      OthersLeaveAlone(m, t, init);
      var n, e := After(m, init), events[|events| - 1];
      assert !Holds(PhaseOf(n, e.tid));
    }
  }

  class MutexLock {
    var owner: int
    var holder: int
    ghost var phases: map<Tid, Phase>

    constructor ()
      ensures Value() == FREE
    {
      owner, holder, phases := 0, 0, map[];
    }

    ghost function Value(): Mutex
      reads this
    {
      Mutex(owner, holder, phases)
    }

    method IsLockedByThisThread(t: Tid) returns (locked: bool)
      requires Inv(Value())
      ensures locked <==> PhaseOf(Value(), t) == Inside
    {
      locked := holder == t;
    }

    method Lock(t: Tid)
      requires Enabled(Value(), Acquire(t))
      modifies this
      ensures Value() == After(old(Value()), [Acquire(t), Assign(t)])
    {
      TwoSteps(Value(), Acquire(t), Assign(t));
      owner, phases := t, phases[t := Acquired];
      holder, phases := t, phases[t := Inside];
    }

    method Unlock(t: Tid)
      requires Enabled(Value(), Unassign(t))
      modifies this
      ensures Value() == After(old(Value()), [Unassign(t), Release(t)])
    {
      TwoSteps(Value(), Unassign(t), Release(t));
      holder, phases := 0, phases[t := Leaving];
      owner, phases := 0, phases[t := Outside];
    }
  }

  lemma TwoSteps(m: Mutex, e: Event, f: Event)
    requires Enabled(m, e) && Enabled(Next(m, e), f)
    ensures After(m, [e, f]) == Next(Next(m, e), f)
  {
    assert [e, f][..1] == [e] && [e][..0] == [];
    assert After(m, [e]) == Next(m, e);
  }

  // ---- What a class guarded by the mutex sees ----

  /** The threads other than t are parked in a wait, or away from the mutex. */
  ghost predicate Placed(m: Mutex, t: int, inWait: set<Tid>) {
    forall u: Tid :: u != t ==> PhaseOf(m, u) == if u in inWait then Parked else Outside
  }

  /** Between critical sections the mutex is free. */
  ghost predicate Free(m: Mutex, inWait: set<Tid>) {
    m.owner == 0 && m.holder == 0 && Placed(m, 0, inWait)
  }

  ghost predicate HeldBy(m: Mutex, t: Tid, inWait: set<Tid>) {
    m.owner == t && m.holder == t && PhaseOf(m, t) == Inside && t !in inWait && Placed(m, t, inWait)
  }

  lemma LockSteps(m: Mutex, t: Tid, inWait: set<Tid>)
    requires Free(m, inWait) && t !in inWait
    ensures Enabled(m, Acquire(t)) && HeldBy(After(m, [Acquire(t), Assign(t)]), t, inWait)
  {
    TwoSteps(m, Acquire(t), Assign(t));
  }

  lemma UnlockSteps(m: Mutex, t: Tid, inWait: set<Tid>)
    requires HeldBy(m, t, inWait)
    ensures Enabled(m, Unassign(t)) && Free(After(m, [Unassign(t), Release(t)]), inWait)
  {
    TwoSteps(m, Unassign(t), Release(t));
  }

  lemma WaitSteps(m: Mutex, t: Tid, inWait: set<Tid>)
    requires HeldBy(m, t, inWait)
    ensures Enabled(m, UnassignGuard(t)) && Free(After(m, [UnassignGuard(t), Sleep(t)]), inWait + {t})
  {
    TwoSteps(m, UnassignGuard(t), Sleep(t));
  }

  lemma ReturnSteps(m: Mutex, t: Tid, inWait: set<Tid>)
    requires Free(m, inWait) && t in inWait
    ensures Enabled(m, Reacquire(t)) && HeldBy(After(m, [Reacquire(t), Reassign(t)]), t, inWait - {t})
  {
    TwoSteps(m, Reacquire(t), Reassign(t));
  }

  // ---- Condition variables ----

  /** Threads in a wait: those still blocked, and those woken that have yet to get the mutex back. */
  datatype Waiters = Waiters(waiting: set<Tid>, signalled: set<Tid>)

  const NOBODY := Waiters({}, {})

  function Both(w: Waiters): set<Tid> {
    w.waiting + w.signalled
  }

  /** A notification wakes some of the waiting threads, at least one if there are any. */
  predicate Wakes(w: Waiters, woken: set<Tid>) {
    woken <= w.waiting && (w.waiting != {} ==> woken != {})
  }

  function Notified(w: Waiters, woken: set<Tid>): Waiters {
    Waiters(w.waiting - woken, w.signalled + woken)
  }

  function Blocked(w: Waiters, t: Tid): Waiters {
    Waiters(w.waiting + {t}, w.signalled - {t})
  }

  function Returned(w: Waiters, t: Tid): Waiters {
    Waiters(w.waiting, w.signalled - {t})
  }

  predicate Apart(w: Waiters) {
    w.waiting !! w.signalled
  }

  /** Waiting threads imply that enough threads are already woken for what is available. */
  predicate Served(w: Waiters, available: nat) {
    w.waiting != {} ==> |w.signalled| >= available
  }

  lemma Removed(a: set<Tid>, t: Tid)
    ensures |a - {t}| == if t in a then |a| - 1 else |a|
  {
    if t !in a {
      assert a - {t} == a;
    }
  }

  lemma {:induction false} Grown(a: set<Tid>, b: set<Tid>)
    requires a !! b
    ensures |a + b| == |a| + |b|
  {
  }

  /** Nothing woken is lost: one more item and its notification keep the waiting threads served. */
  lemma NotifyServes(w: Waiters, woken: set<Tid>, available: nat)
    requires Apart(w) && Wakes(w, woken) && Served(w, available)
    ensures Apart(Notified(w, woken)) && Served(Notified(w, woken), available + 1)
    ensures Both(Notified(w, woken)) == Both(w)
  {
    Grown(w.signalled, woken);
    if w.waiting != {} {
      var t :| t in woken;
      Removed(woken, t);
    }
  }

  /** A woken thread that returns from its wait and uses up one of the available items. */
  lemma ReturnServes(w: Waiters, t: Tid, available: nat)
    requires Apart(w) && Served(w, available)
    ensures Apart(Returned(w, t)) && (available > 0 ==> Served(Returned(w, t), available - 1))
    ensures t !in w.waiting ==> Both(Returned(w, t)) == Both(w) - {t}
  {
    Removed(w.signalled, t);
  }

  lemma BlockServes(w: Waiters, t: Tid)
    requires Apart(w) && t !in w.waiting
    ensures Apart(Blocked(w, t)) && Both(Blocked(w, t)) == Both(w) + {t} && Served(Blocked(w, t), 0)
  {
  }

  lemma SpuriousServes(w: Waiters, t: Tid, available: nat)
    requires Apart(w) && Served(w, available) && t in w.waiting
    ensures Apart(Notified(w, {t})) && Served(Notified(w, {t}), available) && Both(Notified(w, {t})) == Both(w)
  {
    NotifyServes(w, {t}, available);
  }

  /** What a woken thread changes by blocking again, and by returning. */
  lemma WokenCounts(w: Waiters, t: Tid)
    requires Apart(w) && t in w.signalled
    ensures |Both(Blocked(w, t))| == |Both(w)| && |Blocked(w, t).signalled| == |w.signalled| - 1
    ensures |Both(Returned(w, t))| == |Both(w)| - 1
  {
    var a, b := w.waiting, w.signalled;
    Removed(b, t);
    Removed(a + b, t);
    assert (a + {t}) + (b - {t}) == a + b;
    assert a + (b - {t}) == (a + b) - {t};
  }

  // ---- Histories of what threads did ----

  function Values<T>(history: seq<(Tid, T)>): (r: seq<T>)
    ensures |r| == |history|
  {
    seq(|history|, i requires 0 <= i < |history| => history[i].1)
  }

  /** The values of one thread, in order. */
  function Of<T>(history: seq<(Tid, T)>, t: Tid): seq<T> {
    if |history| == 0 then []
    else
      var init, last := Of(history[..|history| - 1], t), history[|history| - 1];
      if last.0 == t then init + [last.1] else init
  }

  lemma OfOne<T>(history: seq<(Tid, T)>, u: Tid, x: T, t: Tid)
    ensures Of(history + [(u, x)], t) == if t == u then Of(history, t) + [x] else Of(history, t)
  {
    assert (history + [(u, x)])[..|history|] == history;
  }

  lemma ValuesOne<T>(history: seq<(Tid, T)>, u: Tid, x: T)
    ensures Values(history + [(u, x)]) == Values(history) + [x]
  {
  }

  class Condition {
    const mutex: MutexLock
    var waiters: Waiters

    constructor (mutex: MutexLock)
      ensures this.mutex == mutex && waiters == NOBODY
    {
      this.mutex := mutex;
      waiters := NOBODY;
    }

    /** The first half of a wait: the holder is cleared, and the thread blocks and gives up the mutex. */
    method Wait(t: Tid)
      requires Enabled(mutex.Value(), UnassignGuard(t))
      modifies this, mutex
      ensures waiters == Blocked(old(waiters), t)
      ensures mutex.Value() == After(old(mutex.Value()), [UnassignGuard(t), Sleep(t)])
    {
      TwoSteps(mutex.Value(), UnassignGuard(t), Sleep(t));
      mutex.holder, mutex.phases := 0, mutex.phases[t := Parking];
      mutex.owner, mutex.phases := 0, mutex.phases[t := Parked];
      waiters := Blocked(waiters, t);
    }

    /** The second half: a woken thread gets the mutex back and is recorded as the holder again. */
    method Return(t: Tid)
      requires Enabled(mutex.Value(), Reacquire(t)) && t in waiters.signalled
      modifies this, mutex
      ensures waiters == Returned(old(waiters), t)
      ensures mutex.Value() == After(old(mutex.Value()), [Reacquire(t), Reassign(t)])
    {
      TwoSteps(mutex.Value(), Reacquire(t), Reassign(t));
      mutex.owner, mutex.phases := t, mutex.phases[t := Returning];
      mutex.holder, mutex.phases := t, mutex.phases[t := Inside];
      waiters := Returned(waiters, t);
    }

    /** Which of the waiting threads wake is the scheduler's choice. */
    method Notify(woken: set<Tid>)
      requires Wakes(waiters, woken)
      modifies this
      ensures waiters == Notified(old(waiters), woken)
    {
      waiters := Notified(waiters, woken);
    }

    method NotifyAll()
      modifies this
      ensures waiters == Notified(old(waiters), old(waiters.waiting))
    {
      waiters := Notified(waiters, waiters.waiting);
    }
  }
}
