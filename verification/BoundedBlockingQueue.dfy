/** The bounded queue with its two condition variables: producers and consumers as atomic critical sections. */
module BoundedBlockingQueueSpec {
  import opened CInt
  import opened Monitor

  /**
   * The queue, the threads blocked in its two waits, the values that blocked producers still hold, and three
   * histories: the calls of put, the values put into the queue (each with its thread), and the values taken.
   */
  datatype State<T> = State(
    capacity: nat, queue: seq<T>, notEmpty: Waiters, notFull: Waiters, pending: map<Tid, T>,
    calls: seq<(Tid, T)>, puts: seq<(Tid, T)>, taken: seq<T>)

  /**
   * A call of put or take runs until it completes or blocks; Again is a woken thread that gets the mutex back
   * and tests its condition once more; Spurious is a wakeup without any notification.
   */
  datatype Event<T> =
    | Put(tid: Tid, x: T, woken: set<Tid>) | PutAgain(tid: Tid, woken: set<Tid>)
    | Take(tid: Tid, woken: set<Tid>) | TakeAgain(tid: Tid, woken: set<Tid>)
    | Spurious(tid: Tid)

  function Initial<T>(capacity: nat): State<T> {
    State(capacity, [], NOBODY, NOBODY, map[], [], [], [])
  }

  function InWait<T>(s: State<T>): set<Tid> {
    Both(s.notEmpty) + Both(s.notFull)
  }

  predicate Enabled<T>(s: State<T>, e: Event<T>) {
    match e
    case Put(t, _, woken) => t !in InWait(s) && Wakes(s.notEmpty, woken)
    case PutAgain(t, woken) => t in s.notFull.signalled && t in s.pending && Wakes(s.notEmpty, woken)
    case Take(t, woken) => t !in InWait(s) && Wakes(s.notFull, woken)
    case TakeAgain(t, woken) => t in s.notEmpty.signalled && Wakes(s.notFull, woken)
    case Spurious(t) => t in s.notEmpty.waiting || t in s.notFull.waiting
  }

  function PutBody<T>(s: State<T>, t: Tid, x: T, woken: set<Tid>): State<T> {
    if |s.queue| == s.capacity then
      s.(notFull := Blocked(s.notFull, t), pending := s.pending[t := x])
    else
      s.(queue := s.queue + [x], notFull := Returned(s.notFull, t), pending := s.pending - {t},
         puts := s.puts + [(t, x)], notEmpty := Notified(s.notEmpty, woken))
  }

  function TakeBody<T>(s: State<T>, t: Tid, woken: set<Tid>): State<T> {
    if |s.queue| == 0 then
      s.(notEmpty := Blocked(s.notEmpty, t))
    else
      s.(queue := s.queue[1..], notEmpty := Returned(s.notEmpty, t),
         taken := s.taken + [s.queue[0]], notFull := Notified(s.notFull, woken))
  }

  function Next<T>(s: State<T>, e: Event<T>): State<T>
    requires Enabled(s, e)
  {
    match e
    case Put(t, x, woken) => PutBody(s.(calls := s.calls + [(t, x)]), t, x, woken)
    case PutAgain(t, woken) => PutBody(s, t, s.pending[t], woken)
    case Take(t, woken) => TakeBody(s, t, woken)
    case TakeAgain(t, woken) => TakeBody(s, t, woken)
    case Spurious(t) =>
      if t in s.notEmpty.waiting then s.(notEmpty := Notified(s.notEmpty, {t}))
      else s.(notFull := Notified(s.notFull, {t}))
  }

  // ---- The invariant ----

  predicate WaitInv<T>(s: State<T>) {
    && |s.queue| <= s.capacity
    && Apart(s.notEmpty) && Apart(s.notFull) && Both(s.notEmpty) !! Both(s.notFull)
    && s.pending.Keys == Both(s.notFull)
    && Served(s.notEmpty, |s.queue|)
    && Served(s.notFull, s.capacity - |s.queue|)
  }

  /** First in, first out. */
  ghost predicate OrderInv<T>(s: State<T>) {
    s.taken + s.queue == Values(s.puts)
  }

  /** Each thread's calls of put have entered its values in order, all but the one that is blocked. */
  ghost predicate CallsInv<T>(s: State<T>) {
    forall t: Tid :: Of(s.calls, t) == Of(s.puts, t) + (if t in s.pending then [s.pending[t]] else [])
  }

  ghost predicate Inv<T>(s: State<T>) {
    WaitInv(s) && OrderInv(s) && CallsInv(s)
  }

  lemma PutWaits<T>(s: State<T>, t: Tid, x: T, woken: set<Tid>)
    requires WaitInv(s) && t !in s.notFull.waiting && t !in Both(s.notEmpty) && Wakes(s.notEmpty, woken)
    ensures WaitInv(PutBody(s, t, x, woken))
  {
    hide Notified, Blocked, Returned, Both, Apart, Wakes, Served;
    if |s.queue| == s.capacity {
      BlockServes(s.notFull, t);
    } else {
      NotifyServes(s.notEmpty, woken, |s.queue|);
      ReturnServes(s.notFull, t, s.capacity - |s.queue|);
    }
  }

  lemma TakeWaits<T>(s: State<T>, t: Tid, woken: set<Tid>)
    requires WaitInv(s) && t !in s.notEmpty.waiting && t !in Both(s.notFull) && Wakes(s.notFull, woken)
    ensures WaitInv(TakeBody(s, t, woken))
  {
    hide Notified, Blocked, Returned, Both, Apart, Wakes, Served;
    if |s.queue| == 0 {
      BlockServes(s.notEmpty, t);
    } else {
      NotifyServes(s.notFull, woken, s.capacity - |s.queue|);
      ReturnServes(s.notEmpty, t, |s.queue|);
    }
  }

  lemma PutCalls<T>(s: State<T>, t: Tid, x: T, woken: set<Tid>)
    requires OrderInv(s)
    requires forall u: Tid :: u != t ==> Of(s.calls, u) == Of(s.puts, u) + (if u in s.pending then [s.pending[u]] else [])
    requires Of(s.calls, t) == Of(s.puts, t) + [x]
    ensures OrderInv(PutBody(s, t, x, woken)) && CallsInv(PutBody(s, t, x, woken))
  {
    hide Of, Values, Blocked, Notified, Returned;
    var n := PutBody(s, t, x, woken);
    forall u: Tid
      ensures Of(n.calls, u) == Of(n.puts, u) + (if u in n.pending then [n.pending[u]] else [])
    {
      OfOne(s.puts, t, x, u);
    }
    ValuesOne(s.puts, t, x);
    assert |s.queue| != s.capacity ==> n.taken + n.queue == (s.taken + s.queue) + [x];
  }

  lemma PutKeeps<T>(s: State<T>, e: Event<T>)
    requires Inv(s) && Enabled(s, e) && e.Put?
    ensures Inv(Next(s, e))
  {
    hide Of, Values, Served, Apart, Blocked, Notified, Returned, Wakes;
    var n := s.(calls := s.calls + [(e.tid, e.x)]);
    NewCaller(s, e.tid);
    PutWaits(n, e.tid, e.x, e.woken);
    forall u: Tid ensures Of(n.calls, u) == if u == e.tid then Of(s.calls, u) + [e.x] else Of(s.calls, u) {
      OfOne(s.calls, e.tid, e.x, u);
    }
    PutCalls(n, e.tid, e.x, e.woken);
  }

  lemma NewCaller<T>(s: State<T>, t: Tid)
    requires WaitInv(s) && t !in InWait(s)
    ensures t !in s.pending && t !in s.notFull.waiting && t !in Both(s.notEmpty)
    ensures Of<T>([], t) == []
  {
  }

  lemma TakeKeeps<T>(s: State<T>, t: Tid, woken: set<Tid>)
    requires Inv(s) && t !in s.notEmpty.waiting && t !in Both(s.notFull) && Wakes(s.notFull, woken)
    ensures Inv(TakeBody(s, t, woken))
  {
    TakeWaits(s, t, woken);
    hide WaitInv, CallsInv, Of, Both, Wakes;
    var n := TakeBody(s, t, woken);
    if |s.queue| > 0 {
      HandOver(s.taken, s.queue);
    }
    hide Blocked, Returned, Notified, Values, Apart;
    CallsOnly(s, n);
  }

  lemma HandOver<T>(taken: seq<T>, queue: seq<T>)
    requires |queue| > 0
    ensures (taken + [queue[0]]) + queue[1..] == taken + queue
  {
  }

  lemma CallsOnly<T>(s: State<T>, n: State<T>)
    requires CallsInv(s) && n.calls == s.calls && n.puts == s.puts && n.pending == s.pending
    ensures CallsInv(n)
  {
  }

  lemma PutAgainKeeps<T>(s: State<T>, t: Tid, woken: set<Tid>)
    requires Inv(s) && Enabled(s, PutAgain(t, woken))
    ensures Inv(PutBody(s, t, s.pending[t], woken))
  {
    PutWaits(s, t, s.pending[t], woken);
    PutCalls(s, t, s.pending[t], woken);
    hide OrderInv, CallsInv, WaitInv;
  }

  lemma SpuriousKeeps<T>(s: State<T>, t: Tid)
    requires Inv(s) && Enabled(s, Spurious(t))
    ensures Inv(Next(s, Spurious(t)))
  {
    hide Notified, Both, Apart, Served, Of;
    if t in s.notEmpty.waiting {
      SpuriousServes(s.notEmpty, t, |s.queue|);
    } else {
      SpuriousServes(s.notFull, t, s.capacity - |s.queue|);
    }
    CallsOnly(s, Next(s, Spurious(t)));
  }

  lemma StepKeeps<T>(s: State<T>, e: Event<T>)
    requires Inv(s) && Enabled(s, e)
    ensures Inv(Next(s, e))
  {
    match e
    case Put(_, _, _) => PutKeeps(s, e);
    case PutAgain(t, woken) => PutAgainKeeps(s, t, woken);
    case Take(t, woken) => TakeKeeps(s, t, woken);
    case TakeAgain(t, woken) => TakeKeeps(s, t, woken);
    case Spurious(t) => SpuriousKeeps(s, t);
  }

  // ---- Whole runs ----

  function AfterFrom<T>(s: State<T>, events: seq<Event<T>>): State<T> {
    if |events| == 0 then s
    else
      var n := AfterFrom(s, events[..|events| - 1]);
      var e := events[|events| - 1];
      if Enabled(n, e) then Next(n, e) else n
  }

  function After<T>(capacity: nat, events: seq<Event<T>>): State<T> {
    AfterFrom(Initial(capacity), events)
  }

  lemma {:induction false} RunKeepsFrom<T>(s: State<T>, events: seq<Event<T>>)
    requires Inv(s)
    ensures Inv(AfterFrom(s, events)) && AfterFrom(s, events).capacity == s.capacity
  {
    if |events| > 0 {
      var n, e := AfterFrom(s, events[..|events| - 1]), events[|events| - 1];
      RunKeepsFrom(s, events[..|events| - 1]);
      if Enabled(n, e) {
        StepKeeps(n, e);
      }
    }
  }

  lemma RunKeeps<T>(capacity: nat, events: seq<Event<T>>)
    ensures Inv(After(capacity, events)) && After(capacity, events).capacity == capacity
  {
    RunKeepsFrom(Initial<T>(capacity), events);
  }

  /**
   * No wakeup is lost, for any number of threads: a blocked, unwoken consumer means at least as many woken
   * consumers as queued values, and a blocked, unwoken producer at least as many woken producers as free slots.
   */
  lemma NoLostWakeup<T>(capacity: nat, events: seq<Event<T>>)
    ensures var s := After(capacity, events);
      && (s.notEmpty.waiting != {} ==> |s.notEmpty.signalled| >= |s.queue|)
      && (s.notFull.waiting != {} ==> |s.notFull.signalled| >= capacity - |s.queue|)
  {
    RunKeeps(capacity, events);
  }

  /** The queue stays within its capacity and hands out the values first in, first out. */
  lemma FirstInFirstOut<T>(capacity: nat, events: seq<Event<T>>)
    ensures var s := After(capacity, events);
      |s.queue| <= capacity && s.taken + s.queue == Values(s.puts)
  {
    RunKeeps(capacity, events);
  }

  /** Each value given to put enters the queue once, in the order of its thread's calls, or is held by that thread. */
  lemma EachPutEntersOnce<T>(capacity: nat, events: seq<Event<T>>, t: Tid)
    ensures var s := After(capacity, events);
      && Of(s.calls, t) == Of(s.puts, t) + (if t in s.pending then [s.pending[t]] else [])
      && (t in s.pending <==> t in s.notFull.waiting || t in s.notFull.signalled)
  {
    RunKeeps(capacity, events);
  }

  /** A producer and a consumer blocked, and nobody on the way to be woken. */
  predicate Stuck<T>(s: State<T>) {
    && s.notEmpty.waiting != {} && s.notFull.waiting != {}
    && s.notEmpty.signalled == {} && s.notFull.signalled == {}
  }

  /** Some run gets stuck exactly if the queue has no capacity at all. */
  lemma StuckWithoutCapacity<T>(capacity: nat, x: T)
    ensures (exists events: seq<Event<T>> :: Stuck(After(capacity, events))) <==> capacity == 0
  {
    forall events: seq<Event<T>> | Stuck(After(capacity, events)) ensures capacity == 0 {
      NoLostWakeup(capacity, events);
    }
    if capacity == 0 {
      var events: seq<Event<T>> := [Put(1, x, {}), Take(2, {1})];
      assert events[..1] == [Put(1, x, {})] && events[..1][..0] == [];
      assert AfterFrom(Initial<T>(0), events[..1]) == Next(Initial<T>(0), Put(1, x, {}));
      assert AfterFrom(Initial<T>(0), events) == Next(AfterFrom(Initial<T>(0), events[..1]), Take(2, {1}));
      assert 1 in After(capacity, events).notFull.waiting && 2 in After(capacity, events).notEmpty.waiting;
      assert Stuck(After(capacity, events));
    }
  }

  /** Wherever values and a blocked consumer meet, some woken consumer takes one; and the same for free slots. */
  lemma BlockedMeansProgress<T>(s: State<T>, woken: set<Tid>)
    requires Inv(s)
    ensures Both(s.notEmpty) != {} && |s.queue| > 0 && Wakes(s.notFull, woken) ==>
      exists t :: Enabled(s, TakeAgain(t, woken)) && |Next(s, TakeAgain(t, woken)).taken| == |s.taken| + 1
    ensures Both(s.notFull) != {} && |s.queue| < s.capacity && Wakes(s.notEmpty, woken) ==>
      exists t :: Enabled(s, PutAgain(t, woken)) && |Next(s, PutAgain(t, woken)).puts| == |s.puts| + 1
  {
    if Both(s.notEmpty) != {} && |s.queue| > 0 && Wakes(s.notFull, woken) {
      assert s.notEmpty.signalled != {};
      var t :| t in s.notEmpty.signalled;
      assert Enabled(s, TakeAgain(t, woken)) && |Next(s, TakeAgain(t, woken)).taken| == |s.taken| + 1;
    }
    if Both(s.notFull) != {} && |s.queue| < s.capacity && Wakes(s.notEmpty, woken) {
      assert s.notFull.signalled != {};
      var t :| t in s.notFull.signalled;
      assert t in s.pending;
      assert Enabled(s, PutAgain(t, woken)) && |Next(s, PutAgain(t, woken)).puts| == |s.puts| + 1;
    }
  }

  predicate Woken<T>(e: Event<T>) {
    e.PutAgain? || e.TakeAgain?
  }

  /** How much the woken threads can still do: first the blocked calls, then the woken ones among them. */
  function Calls<T>(s: State<T>): nat {
    |Both(s.notEmpty)| + |Both(s.notFull)|
  }

  function Signals<T>(s: State<T>): nat {
    |s.notEmpty.signalled| + |s.notFull.signalled|
  }

  /** Each step of a woken thread completes a blocked call, or puts the thread back to sleep. */
  lemma WokenStepsEnd<T>(s: State<T>, e: Event<T>)
    requires Inv(s) && Enabled(s, e) && Woken(e)
    ensures var n := Next(s, e); Calls(n) < Calls(s) || (Calls(n) == Calls(s) && Signals(n) < Signals(s))
  {
    hide Blocked, Returned, Notified, Served, OrderInv, CallsInv;
    if e.TakeAgain? {
      WokenCounts(s.notEmpty, e.tid);
      NotifyServes(s.notFull, e.woken, s.capacity - |s.queue|);
    } else {
      WokenCounts(s.notFull, e.tid);
      NotifyServes(s.notEmpty, e.woken, |s.queue|);
    }
  }

  /** No consumer is blocked unless the queue is empty, and no producer unless it is full. */
  predicate AllServed<T>(s: State<T>) {
    && (Both(s.notEmpty) != {} ==> |s.queue| == 0)
    && (Both(s.notFull) != {} ==> |s.queue| == s.capacity)
  }

  lemma RestServes<T>(s: State<T>)
    requires Inv(s) && Signals(s) == 0
    ensures AllServed(s)
  {
  }

  lemma NextWoken<T>(s: State<T>) returns (e: Event<T>)
    requires Inv(s) && Signals(s) > 0
    ensures Enabled(s, e) && Woken(e)
  {
    if s.notEmpty.signalled != {} {
      var t :| t in s.notEmpty.signalled;
      e := TakeAgain(t, s.notFull.waiting);
    } else {
      var t :| t in s.notFull.signalled;
      assert t in s.pending;
      e := PutAgain(t, s.notEmpty.waiting);
    }
  }

  /** What the woken threads can still do, at most: quadratic in the blocked calls, for each may wake the others. */
  function Budget<T>(s: State<T>): nat {
    Calls(s) * Calls(s) + Signals(s)
  }

  lemma BudgetFalls<T>(s: State<T>, e: Event<T>)
    requires Inv(s) && Enabled(s, e) && Woken(e)
    ensures Budget(Next(s, e)) < Budget(s)
  {
    var n := Next(s, e);
    WokenStepsEnd(s, e);
    StepKeeps(s, e);
    SignalsAreCalls(s);
    SignalsAreCalls(n);
    hide Next, Calls, Signals, Inv;
    Squares(Calls(n), Signals(n), Calls(s), Signals(s));
  }

  lemma Squares(c: nat, g: nat, c': nat, g': nat)
    requires g <= c && g' <= c' && (c < c' || (c == c' && g < g'))
    ensures c * c + g < c' * c' + g'
  {
    if c < c' {
      Multiples(c, c', c);
      Multiples(c, c', c');
    }
  }

  lemma SignalsAreCalls<T>(s: State<T>)
    requires Inv(s)
    ensures Signals(s) <= Calls(s)
  {
    Grown(s.notEmpty.waiting, s.notEmpty.signalled);
    Grown(s.notFull.waiting, s.notFull.signalled);
  }

  /** Each event is a woken thread's, and possible when its turn comes. */
  predicate WokenRun<T>(s: State<T>, events: seq<Event<T>>)
    decreases events
  {
    |events| == 0 ||
    (Woken(events[0]) && Enabled(s, events[0]) && WokenRun(Next(s, events[0]), events[1..]))
  }

  /** A state at rest: no woken thread has a step to take. */
  ghost predicate AtRest<T>(s: State<T>) {
    forall t: Tid, woken: set<Tid> :: !Enabled(s, PutAgain(t, woken)) && !Enabled(s, TakeAgain(t, woken))
  }

  lemma RestIsNoSignals<T>(s: State<T>)
    requires Inv(s)
    ensures AtRest(s) <==> Signals(s) == 0
  {
    if Signals(s) > 0 {
      var e := NextWoken(s);
    }
  }

  /**
   * With no new calls, in whatever order the woken threads run and whomever they wake: their run is bounded, and
   * where it can go no further everyone who could be served has been.
   */
  lemma {:induction false} EveryWokenRunRests<T>(s: State<T>, events: seq<Event<T>>)
    requires Inv(s) && WokenRun(s, events)
    ensures |events| + Budget(AfterFrom(s, events)) <= Budget(s)
    ensures AtRest(AfterFrom(s, events)) ==> AllServed(AfterFrom(s, events))
    decreases events
  {
    hide Inv, Next, Enabled, Budget, AllServed, AtRest;
    if |events| == 0 {
      EndOfRun(s);
    } else {
      BudgetFalls(s, events[0]);
      StepKeeps(s, events[0]);
      EveryWokenRunRests(Next(s, events[0]), events[1..]);
      OneMore(s, events[0], events[1..]);
      assert [events[0]] + events[1..] == events;
    }
  }

  lemma EndOfRun<T>(s: State<T>)
    requires Inv(s)
    ensures AtRest(s) ==> AllServed(s)
  {
    RestIsNoSignals(s);
    hide AtRest;
    if AtRest(s) {
      RestServes(s);
    }
  }

  /** And a run that gets to rest exists. */
  lemma {:induction false} ComesToRest<T>(s: State<T>) returns (events: seq<Event<T>>)
    requires Inv(s)
    ensures WokenRun(s, events) && AtRest(AfterFrom(s, events))
    decreases Budget(s)
  {
    hide Inv, Next, Enabled, Budget, AtRest;
    RestIsNoSignals(s);
    if AtRest(s) {
      events := [];
    } else {
      var e := NextWoken(s);
      StepKeeps(s, e);
      BudgetFalls(s, e);
      var rest := ComesToRest(Next(s, e));
      events := [e] + rest;
      assert events[1..] == rest;
      OneMore(s, e, rest);
    }
  }

  lemma {:induction false} OneMore<T>(s: State<T>, e: Event<T>, rest: seq<Event<T>>)
    requires Enabled(s, e)
    ensures AfterFrom(s, [e] + rest) == AfterFrom(Next(s, e), rest)
  {
    var events := [e] + rest;
    if |rest| == 0 {
      assert events[..0] == [] && events[0] == e;
      assert AfterFrom(s, events[..|events| - 1]) == s;
    } else {
      OneMore(s, e, rest[..|rest| - 1]);
      assert events[..|events| - 1] == [e] + rest[..|rest| - 1];
    }
  }
}

/** The queue as the class that its users see, one method per critical section. */
module BoundedBlockingQueue {
  import opened Monitor
  import S = BoundedBlockingQueueSpec

  class BoundedBlockingQueue<T(==)> {
    const mutex: MutexLock
    const notEmpty: Condition
    const notFull: Condition
    const capacity: nat
    var queue: seq<T>
    /** The argument of each call of put that is blocked, which is on its thread's stack. */
    var pending: map<Tid, T>
    ghost var calls: seq<(Tid, T)>
    ghost var puts: seq<(Tid, T)>
    ghost var taken: seq<T>

    ghost function Value(): S.State<T>
      reads this, notEmpty, notFull
    {
      S.State(capacity, queue, notEmpty.waiters, notFull.waiters, pending, calls, puts, taken)
    }

    ghost predicate Wired()
      reads this, notEmpty, notFull
    {
      notEmpty != notFull && notEmpty.mutex == mutex && notFull.mutex == mutex
    }

    ghost predicate Free()
      reads this, mutex, notEmpty, notFull
    {
      Wired() && Monitor.Free(mutex.Value(), S.InWait(Value()))
    }

    ghost predicate Valid()
      reads this, mutex, notEmpty, notFull
    {
      Free() && S.Inv(Value())
    }

    /** The mutex is held by t alone. */
    ghost predicate Locked(t: Tid)
      reads this, mutex, notEmpty, notFull
    {
      Wired() && HeldBy(mutex.Value(), t, S.InWait(Value()))
    }

    constructor (maxSize: nat)
      ensures Valid() && Value() == S.Initial(maxSize)
      ensures fresh(mutex) && fresh(notEmpty) && fresh(notFull)
    {
      var m := new MutexLock();
      mutex := m;
      notEmpty := new Condition(m);
      notFull := new Condition(m);
      capacity, queue, pending, calls, puts, taken := maxSize, [], map[], [], [], [];
    }

    /** The guard of put's lock, then its loop; done tells that the call completed. */
    method Put(t: Tid, x: T, woken: set<Tid>) returns (done: bool)
      requires Valid() && S.Enabled(Value(), S.Put(t, x, woken))
      modifies this, mutex, notEmpty, notFull
      ensures Valid() && Value() == S.Next(old(Value()), S.Put(t, x, woken))
      ensures done <==> t !in S.InWait(Value())
    {
      hide Monitor.Free, HeldBy, S.Inv, S.InWait, Wakes, S.PutBody;
      QueueFits(Value());
      S.StepKeeps(Value(), S.Put(t, x, woken));
      LockSteps(mutex.Value(), t, S.InWait(Value()));
      mutex.Lock(t);
      calls := calls + [(t, x)];
      SameWait(old(Value()), Value());
      done := PutLoop(t, x, woken);
    }

    /** A woken producer gets the mutex back and goes on in its loop. */
    method PutAgain(t: Tid, woken: set<Tid>) returns (done: bool)
      requires Valid() && S.Enabled(Value(), S.PutAgain(t, woken))
      modifies this, mutex, notEmpty, notFull
      ensures Valid() && Value() == S.Next(old(Value()), S.PutAgain(t, woken))
      ensures done <==> t !in S.InWait(Value())
    {
      hide Monitor.Free, HeldBy, S.Inv, S.InWait, Wakes, S.PutBody, Returned;
      ghost var s := Value();
      QueueFits(s);
      S.StepKeeps(s, S.PutAgain(t, woken));
      ProducerReturns(s, t);
      ReturnSteps(mutex.Value(), t, S.InWait(s));
      notFull.Return(t);
      PutAfterReturn(s, t, s.pending[t], woken);
      done := PutLoop(t, pending[t], woken);
    }

    /** One pass of put's loop with the mutex held: block once more, or enter the value and leave. */
    method PutLoop(t: Tid, x: T, woken: set<Tid>) returns (done: bool)
      requires Locked(t) && Wakes(notEmpty.waiters, woken) && |queue| <= capacity
      modifies this, mutex, notEmpty, notFull
      ensures Free() && Value() == S.PutBody(old(Value()), t, x, woken)
      ensures done <==> t !in S.InWait(Value())
    {
      hide Monitor.Free, HeldBy, S.InWait, Both, Returned, Notified, Blocked;
      ghost var s := Value();
      PutWaits(s, mutex.Value(), t, x, woken);
      if |queue| == capacity {
        WaitSteps(mutex.Value(), t, S.InWait(s));
        notFull.Wait(t);
        pending := pending[t := x];
        done := false;
      } else {
        assert |queue| < capacity;
        queue := queue + [x];
        notEmpty.Notify(woken);
        pending, puts := pending - {t}, puts + [(t, x)];
        UnlockSteps(mutex.Value(), t, S.InWait(s));
        mutex.Unlock(t);
        done := true;
      }
    }

    method Take(t: Tid, woken: set<Tid>) returns (front: seq<T>)
      requires Valid() && S.Enabled(Value(), S.Take(t, woken))
      modifies this, mutex, notEmpty, notFull
      ensures Valid() && Value() == S.Next(old(Value()), S.Take(t, woken))
      ensures taken == old(taken) + front && (front == [] <==> t in S.InWait(Value()))
    {
      hide Monitor.Free, HeldBy, S.Inv, S.InWait, Wakes, S.TakeBody;
      S.StepKeeps(Value(), S.Take(t, woken));
      LockSteps(mutex.Value(), t, S.InWait(Value()));
      mutex.Lock(t);
      front := TakeLoop(t, woken);
    }

    method TakeAgain(t: Tid, woken: set<Tid>) returns (front: seq<T>)
      requires Valid() && S.Enabled(Value(), S.TakeAgain(t, woken))
      modifies this, mutex, notEmpty, notFull
      ensures Valid() && Value() == S.Next(old(Value()), S.TakeAgain(t, woken))
      ensures taken == old(taken) + front && (front == [] <==> t in S.InWait(Value()))
    {
      hide Monitor.Free, HeldBy, S.Inv, S.InWait, Wakes, S.TakeBody, Returned;
      ghost var s := Value();
      S.StepKeeps(s, S.TakeAgain(t, woken));
      ConsumerReturns(s, t);
      ReturnSteps(mutex.Value(), t, S.InWait(s));
      notEmpty.Return(t);
      TakeAfterReturn(s, t, woken);
      front := TakeLoop(t, woken);
    }

    /** One pass of take's loop with the mutex held; the front value is none while the thread blocks. */
    method TakeLoop(t: Tid, woken: set<Tid>) returns (front: seq<T>)
      requires Locked(t) && Wakes(notFull.waiters, woken)
      modifies this, mutex, notEmpty, notFull
      ensures Free() && Value() == S.TakeBody(old(Value()), t, woken)
      ensures taken == old(taken) + front && (front == [] <==> t in S.InWait(Value()))
    {
      hide Monitor.Free, HeldBy, S.InWait, Both, Returned, Notified, Blocked;
      ghost var s := Value();
      TakeWaits(s, mutex.Value(), t, woken);
      if |queue| == 0 {
        WaitSteps(mutex.Value(), t, S.InWait(s));
        notEmpty.Wait(t);
        front := [];
      } else {
        front, queue := [queue[0]], queue[1..];
        notFull.Notify(woken);
        taken := taken + front;
        UnlockSteps(mutex.Value(), t, S.InWait(s));
        mutex.Unlock(t);
      }
    }

    method Empty() returns (empty: bool)
      ensures empty <==> queue == []
    {
      empty := |queue| == 0;
    }

    method Full() returns (full: bool)
      ensures full <==> |queue| == capacity
    {
      full := |queue| == capacity;
    }
  }

  // ---- Who is in a wait ----

  lemma QueueFits<T>(s: S.State<T>)
    requires S.Inv(s)
    ensures |s.queue| <= s.capacity
  {
  }

  lemma SameWait<T>(s: S.State<T>, n: S.State<T>)
    requires s.notEmpty == n.notEmpty && s.notFull == n.notFull
    ensures S.InWait(s) == S.InWait(n)
  {
  }

  lemma ProducerReturns<T>(s: S.State<T>, t: Tid)
    requires S.Inv(s) && t in s.notFull.signalled
    ensures t in S.InWait(s) && S.InWait(s.(notFull := Returned(s.notFull, t))) == S.InWait(s) - {t}
  {
  }

  lemma ConsumerReturns<T>(s: S.State<T>, t: Tid)
    requires S.Inv(s) && t in s.notEmpty.signalled
    ensures t in S.InWait(s) && S.InWait(s.(notEmpty := Returned(s.notEmpty, t))) == S.InWait(s) - {t}
  {
  }

  lemma PutWaits<T>(s: S.State<T>, m: Mutex, t: Tid, x: T, woken: set<Tid>)
    requires HeldBy(m, t, S.InWait(s)) && Wakes(s.notEmpty, woken)
    ensures S.InWait(S.PutBody(s, t, x, woken)) == if |s.queue| == s.capacity then S.InWait(s) + {t} else S.InWait(s)
    ensures t !in S.InWait(s) && Returned(s.notFull, t) == s.notFull
  {
  }

  lemma TakeWaits<T>(s: S.State<T>, m: Mutex, t: Tid, woken: set<Tid>)
    requires HeldBy(m, t, S.InWait(s)) && Wakes(s.notFull, woken)
    ensures S.InWait(S.TakeBody(s, t, woken)) == if |s.queue| == 0 then S.InWait(s) + {t} else S.InWait(s)
    ensures t !in S.InWait(s) && Returned(s.notEmpty, t) == s.notEmpty
  {
  }

  /** A thread that left the signalled set on its return acts as one that is still in it. */
  lemma PutAfterReturn<T>(s: S.State<T>, t: Tid, x: T, woken: set<Tid>)
    ensures S.PutBody(s.(notFull := Returned(s.notFull, t)), t, x, woken) == S.PutBody(s, t, x, woken)
  {
  }

  lemma TakeAfterReturn<T>(s: S.State<T>, t: Tid, woken: set<Tid>)
    ensures S.TakeBody(s.(notEmpty := Returned(s.notEmpty, t)), t, woken) == S.TakeBody(s, t, woken)
  {
  }
}
