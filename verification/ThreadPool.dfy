/** The thread pool as atomic steps of its workers, its callers and its owner. */
module ThreadPoolSpec {
  import opened Monitor
  import opened Seqs

  /** A task is an empty function object, or work to be done. */
  datatype Task = NoTask | Job(id: nat)

  /**
   * Where a worker stands in its loop: at the test of running, about to take or in the wait of take, back from
   * take with the task that was taken as the k-th or with none, executing it, or out of the loop.
   */
  datatype Pc = Top | Taking | Got(k: nat) | GotNone | Executing(k: nat) | Exited

  /**
   * The pool's fields and threads, the tasks that blocked callers of run still hold, and the histories: the
   * tasks entered into the queue (each with its caller), those taken (each with its worker), the positions among
   * the taken whose worker went on to execute the task unless it is empty, the tasks that run executed itself
   * (each with its caller), and for each worker how many tasks it started since the pool was stopped.
   */
  datatype State = State(
    maxQueueSize: nat, running: bool, workers: map<Tid, Pc>,
    queue: seq<Task>, notEmpty: Waiters, notFull: Waiters, pending: map<Tid, Task>,
    submitted: seq<(Tid, Task)>, taken: seq<(Tid, Task)>, begun: seq<nat>, direct: seq<(Tid, Task)>, late: map<Tid, nat>)

  datatype Event =
    | Start(threads: set<Tid>) | Stop
    | Run(tid: Tid, task: Task, woken: set<Tid>) | RunAgain(tid: Tid, woken: set<Tid>)
    | Test(tid: Tid) | Take(tid: Tid, woken: set<Tid>) | TakeAgain(tid: Tid, woken: set<Tid>)
    | Begin(tid: Tid) | Finish(tid: Tid)
    | Spurious(tid: Tid)

  function Initial(maxQueueSize: nat): State {
    State(maxQueueSize, false, map[], [], NOBODY, NOBODY, map[], [], [], [], [], map[])
  }

  function InWait(s: State): set<Tid> {
    Both(s.notEmpty) + Both(s.notFull)
  }

  predicate IsFull(s: State) {
    s.maxQueueSize > 0 && |s.queue| >= s.maxQueueSize
  }

  /** Whether t may call run: a worker only from within a task. */
  predicate MayRun(s: State, t: Tid) {
    t !in InWait(s) && (t in s.workers ==> s.workers[t].Executing?)
  }

  predicate At(s: State, t: Tid, pc: Pc) {
    t in s.workers && s.workers[t] == pc
  }

  predicate Enabled(s: State, e: Event) {
    match e
    case Start(threads) => s.workers == map[] && threads !! InWait(s)
    case Stop => true
    case Run(t, _, woken) => MayRun(s, t) && Wakes(s.notEmpty, woken)
    case RunAgain(t, woken) => t in s.notFull.signalled && t in s.pending && Wakes(s.notEmpty, woken)
    case Test(t) => At(s, t, Top)
    case Take(t, woken) => At(s, t, Taking) && t !in InWait(s) && Wakes(s.notFull, woken)
    case TakeAgain(t, woken) => At(s, t, Taking) && t in s.notEmpty.signalled && Wakes(s.notFull, woken)
    case Begin(t) => t in s.workers && (s.workers[t] == GotNone || (s.workers[t].Got? && s.workers[t].k < |s.taken|))
    case Finish(t) => t in s.workers && s.workers[t].Executing? && t !in InWait(s)
    case Spurious(t) => t in s.notEmpty.waiting || t in s.notFull.waiting
  }

  function RunBody(s: State, t: Tid, task: Task, woken: set<Tid>): State {
    if IsFull(s) then
      s.(notFull := Blocked(s.notFull, t), pending := s.pending[t := task])
    else
      s.(queue := s.queue + [task], notFull := Returned(s.notFull, t), pending := s.pending - {t},
         submitted := s.submitted + [(t, task)], notEmpty := Notified(s.notEmpty, woken))
  }

  function TakeBody(s: State, t: Tid, woken: set<Tid>): State {
    if |s.queue| == 0 then
      if s.running then s.(notEmpty := Blocked(s.notEmpty, t))
      else s.(notEmpty := Returned(s.notEmpty, t), workers := s.workers[t := GotNone])
    else
      s.(queue := s.queue[1..], notEmpty := Returned(s.notEmpty, t), workers := s.workers[t := Got(|s.taken|)],
         taken := s.taken + [(t, s.queue[0])],
         notFull := if s.maxQueueSize > 0 then Notified(s.notFull, woken) else s.notFull)
  }

  function BeginBody(s: State, t: Tid): State
    requires Enabled(s, Begin(t))
  {
    match s.workers[t]
    case Got(k) =>
      if s.taken[k].1.Job? then
        s.(workers := s.workers[t := Executing(k)], begun := s.begun + [k],
           late := if s.running then s.late else s.late[t := Late(s, t) + 1])
      else s.(workers := s.workers[t := Top], begun := s.begun + [k])
    case _ => s.(workers := s.workers[t := Top])
  }

  function Late(s: State, t: Tid): nat {
    if t in s.late then s.late[t] else 0
  }

  function Next(s: State, e: Event): State
    requires Enabled(s, e)
  {
    match e
    case Start(threads) => s.(running := true, workers := map t | t in threads :: Top)
    case Stop => s.(running := false, notEmpty := Notified(s.notEmpty, s.notEmpty.waiting))
    case Run(t, task, woken) =>
      if s.workers == map[] then s.(direct := s.direct + [(t, task)]) else RunBody(s, t, task, woken)
    case RunAgain(t, woken) => RunBody(s, t, s.pending[t], woken)
    case Test(t) => s.(workers := s.workers[t := if s.running then Taking else Exited])
    case Take(t, woken) => TakeBody(s, t, woken)
    case TakeAgain(t, woken) => TakeBody(s, t, woken)
    case Begin(t) => BeginBody(s, t)
    case Finish(t) => s.(workers := s.workers[t := Top])
    case Spurious(t) =>
      if t in s.notEmpty.waiting then s.(notEmpty := Notified(s.notEmpty, {t}))
      else s.(notFull := Notified(s.notFull, {t}))
  }

  // ---- The invariant ----

  predicate SleepInv(s: State) {
    && Apart(s.notEmpty) && Apart(s.notFull) && Both(s.notEmpty) !! Both(s.notFull)
    && s.pending.Keys == Both(s.notFull)
    && Served(s.notEmpty, |s.queue|)
    && (!s.running ==> s.notEmpty.waiting == {})
    && (s.maxQueueSize > 0 ==> |s.queue| <= s.maxQueueSize && Served(s.notFull, s.maxQueueSize - |s.queue|))
    && (s.maxQueueSize == 0 ==> s.notFull == NOBODY)
  }

  /** Only workers at take wait for tasks; a worker in the other wait called run from a task. */
  predicate PlaceInv(s: State) {
    && (forall t :: t in Both(s.notEmpty) ==> At(s, t, Taking))
    && (forall t :: t in Both(s.notFull) && t in s.workers ==> s.workers[t].Executing?)
    && (s.workers == map[] ==> InWait(s) == {} && s.queue == [] && s.late == map[])
  }

  predicate OrderInv(s: State) {
    Values(s.submitted) == Values(s.taken) + s.queue
  }

  predicate Has(workers: map<Tid, Pc>, t: Tid, k: int) {
    t in workers && workers[t].Got? && workers[t].k == k
  }

  /** Every task taken was begun, once, by the worker that took it, or is in that worker's hands. */
  ghost predicate Hands(workers: map<Tid, Pc>, taken: seq<(Tid, Task)>, begun: seq<nat>) {
    && (forall t: Tid, k: nat :: Has(workers, t, k) ==> k < |taken| && taken[k].0 == t && k !in begun)
    && (forall k :: 0 <= k < |taken| && k !in begun ==> Has(workers, taken[k].0, k))
    && (forall i :: 0 <= i < |begun| ==> begun[i] < |taken|)
    && (forall i, j :: 0 <= i < j < |begun| ==> begun[i] != begun[j])
  }

  ghost predicate HandsInv(s: State) {
    Hands(s.workers, s.taken, s.begun)
  }

  /** Whether the worker can still start a task after stop. */
  function Allowance(s: State, t: Tid): nat {
    if t in s.workers && (s.workers[t] == Taking || s.workers[t].Got?) then 1 else 0
  }

  predicate LateOk(s: State, t: Tid) {
    if s.running then Late(s, t) == 0 else Late(s, t) + Allowance(s, t) <= 1
  }

  ghost predicate LateInv(s: State) {
    forall t: Tid :: LateOk(s, t)
  }

  ghost predicate Inv(s: State) {
    SleepInv(s) && PlaceInv(s) && OrderInv(s) && HandsInv(s) && LateInv(s)
  }

  // ---- Every step keeps it ----

  lemma RunSleeps(s: State, t: Tid, task: Task, woken: set<Tid>)
    requires SleepInv(s) && t !in s.notFull.waiting && t !in Both(s.notEmpty) && Wakes(s.notEmpty, woken)
    ensures SleepInv(RunBody(s, t, task, woken))
    ensures Both(RunBody(s, t, task, woken).notEmpty) == Both(s.notEmpty)
    ensures IsFull(s) ==> Both(RunBody(s, t, task, woken).notFull) == Both(s.notFull) + {t}
    ensures !IsFull(s) ==> Both(RunBody(s, t, task, woken).notFull) == Both(s.notFull) - {t}
  {
    hide Notified, Blocked, Returned, Both, Apart, Wakes, Served;
    if IsFull(s) {
      BlockServes(s.notFull, t);
    } else {
      NotifyServes(s.notEmpty, woken, |s.queue|);
      NobodyWaits(s.notEmpty, woken);
      if s.maxQueueSize > 0 {
        ReturnServes(s.notFull, t, s.maxQueueSize - |s.queue|);
      } else {
        ReturnServes(s.notFull, t, 0);
        ReturnOfNobody(t);
      }
    }
  }

  lemma NobodyWaits(w: Waiters, woken: set<Tid>)
    ensures w.waiting == {} ==> Notified(w, woken).waiting == {}
    ensures Notified(w, w.waiting).waiting == {}
  {
  }

  lemma ReturnOfNobody(t: Tid)
    ensures Returned(NOBODY, t) == NOBODY && Apart(NOBODY)
    ensures Served(NOBODY, 0)
  {
  }

  lemma TakeSleeps(s: State, t: Tid, woken: set<Tid>)
    requires SleepInv(s) && t !in s.notEmpty.waiting && t !in Both(s.notFull) && Wakes(s.notFull, woken)
    ensures SleepInv(TakeBody(s, t, woken))
    ensures Both(TakeBody(s, t, woken).notFull) == Both(s.notFull)
    ensures |s.queue| == 0 && s.running ==> Both(TakeBody(s, t, woken).notEmpty) == Both(s.notEmpty) + {t}
    ensures |s.queue| > 0 || !s.running ==> Both(TakeBody(s, t, woken).notEmpty) == Both(s.notEmpty) - {t}
  {
    hide Notified, Blocked, Returned, Both, Apart, Wakes, Served;
    if |s.queue| == 0 && s.running {
      BlockServes(s.notEmpty, t);
    } else {
      ReturnServes(s.notEmpty, t, |s.queue|);
      ReturnWaits(s.notEmpty, t);
      if s.maxQueueSize > 0 {
        NotifyServes(s.notFull, woken, s.maxQueueSize - |s.queue|);
      }
    }
  }

  lemma ReturnWaits(w: Waiters, t: Tid)
    ensures Returned(w, t).waiting == w.waiting
    ensures w.waiting == {} ==> Served(Returned(w, t), 0)
  {
  }

  lemma StopSleeps(s: State)
    requires SleepInv(s)
    ensures SleepInv(Next(s, Stop)) && Both(Next(s, Stop).notEmpty) == Both(s.notEmpty)
  {
    NotifyServes(s.notEmpty, s.notEmpty.waiting, |s.queue|);
    NobodyWaits(s.notEmpty, {});
    hide Notified, Both, Apart, Wakes;
  }

  lemma SpuriousSleeps(s: State, t: Tid)
    requires SleepInv(s) && Enabled(s, Spurious(t))
    ensures SleepInv(Next(s, Spurious(t)))
    ensures Both(Next(s, Spurious(t)).notEmpty) == Both(s.notEmpty)
    ensures Both(Next(s, Spurious(t)).notFull) == Both(s.notFull)
  {
    hide Both, Apart, Served;
    NobodyWaits(s.notEmpty, {t});
    if t in s.notEmpty.waiting {
      SpuriousServes(s.notEmpty, t, |s.queue|);
    } else {
      SpuriousServes(s.notFull, t, if s.maxQueueSize > 0 then s.maxQueueSize - |s.queue| else 0);
    }
  }

  /** What a step leaves alone: tasks in hand, their order, and the counts since stop. */
  predicate SameHands(s: State, n: State) {
    && n.workers == s.workers && n.taken == s.taken && n.begun == s.begun && n.late == s.late
  }

  lemma HandsStay(s: State, n: State)
    requires SameHands(s, n) && HandsInv(s)
    ensures HandsInv(n)
    ensures LateInv(s) && (s.running || !n.running) ==> LateInv(n)
  {
    if LateInv(s) && (s.running || !n.running) {
      forall t: Tid ensures LateOk(n, t) {
        assert LateOk(s, t);
      }
    }
  }

  lemma PlacesStay(s: State, n: State)
    requires PlaceInv(s) && SameHands(s, n) && s.workers != map[]
    requires Both(n.notEmpty) == Both(s.notEmpty)
    requires forall t :: t in Both(n.notFull) && t !in Both(s.notFull) && t in s.workers ==> s.workers[t].Executing?
    ensures PlaceInv(n)
  {
  }

  lemma RunKeeps(s: State, t: Tid, task: Task, woken: set<Tid>)
    requires Inv(s) && s.workers != map[] && t !in s.notFull.waiting && t !in Both(s.notEmpty)
    requires t in s.workers ==> s.workers[t].Executing?
    requires Wakes(s.notEmpty, woken)
    ensures Inv(RunBody(s, t, task, woken))
  {
    hide SleepInv, PlaceInv, HandsInv, LateInv, Both, Wakes, Notified, Blocked, Returned, Values;
    var n := RunBody(s, t, task, woken);
    RunSleeps(s, t, task, woken);
    HandsStay(s, n);
    PlacesStay(s, n);
    ValuesOne(s.submitted, t, task);
    Associates(Values(s.taken), s.queue, [task]);
  }

  /** A step of one worker from one place to another, all waits and histories as they were. */
  lemma MoveKeeps(s: State, t: Tid, pc: Pc)
    requires Inv(s) && t in s.workers && !s.workers[t].Got? && !pc.Got? && t !in InWait(s)
    requires !s.running ==> pc != Taking
    ensures Inv(s.(workers := s.workers[t := pc]))
  {
    var n := s.(workers := s.workers[t := pc]);
    MoveHands(s.workers, s.taken, s.begun, t, pc);
    MoveLate(s, t, pc);
    hide HandsInv, LateInv, OrderInv, Both, Apart, Served;
    assert t in n.workers;
  }

  lemma MoveHands(workers: map<Tid, Pc>, taken: seq<(Tid, Task)>, begun: seq<nat>, t: Tid, pc: Pc)
    requires Hands(workers, taken, begun) && (t in workers ==> !workers[t].Got?) && !pc.Got?
    ensures Hands(workers[t := pc], taken, begun)
  {
    var moved := workers[t := pc];
    assert forall u: Tid, k: nat :: Has(moved, u, k) <==> Has(workers, u, k);
  }

  lemma MoveLate(s: State, t: Tid, pc: Pc)
    requires LateInv(s) && !pc.Got? && (!s.running ==> pc != Taking)
    ensures LateInv(s.(workers := s.workers[t := pc]))
  {
    var n := s.(workers := s.workers[t := pc]);
    forall u: Tid ensures LateOk(n, u) {
      assert LateOk(s, u);
    }
  }

  lemma TakeHands(workers: map<Tid, Pc>, taken: seq<(Tid, Task)>, begun: seq<nat>, t: Tid, x: Task)
    requires Hands(workers, taken, begun) && t in workers && !workers[t].Got?
    ensures Hands(workers[t := Got(|taken|)], taken + [(t, x)], begun)
  {
    var moved := workers[t := Got(|taken|)];
    assert forall u: Tid, k: nat :: k < |taken| ==> (Has(moved, u, k) <==> Has(workers, u, k));
    assert forall u: Tid, k: nat :: Has(moved, u, k) ==> Has(workers, u, k) || (u == t && k == |taken|);
    assert Has(moved, t, |taken|);
  }

  lemma TakeLate(s: State, n: State, t: Tid, pc: Pc)
    requires LateInv(s) && At(s, t, Taking) && n.late == s.late && n.running == s.running
    requires n.workers == s.workers[t := pc]
    ensures LateInv(n)
  {
    forall u: Tid ensures LateOk(n, u) {
      assert LateOk(s, u);
    }
  }

  lemma TakePlaces(s: State, n: State, t: Tid, pc: Pc)
    requires PlaceInv(s) && At(s, t, Taking) && Both(n.notFull) == Both(s.notFull) && n.workers == s.workers[t := pc]
    requires Both(n.notEmpty) == if pc == Taking then Both(s.notEmpty) + {t} else Both(s.notEmpty) - {t}
    ensures PlaceInv(n)
  {
    hide Both;
    assert t in n.workers && t !in Both(s.notFull);
  }

  lemma TakeKeeps(s: State, t: Tid, woken: set<Tid>)
    requires Inv(s) && At(s, t, Taking) && t !in s.notEmpty.waiting && t !in Both(s.notFull) && Wakes(s.notFull, woken)
    ensures Inv(TakeBody(s, t, woken))
  {
    hide SleepInv, PlaceInv, Hands, LateInv, Both, Wakes, Notified, Blocked, Returned, At, Values;
    var n := TakeBody(s, t, woken);
    TakeSleeps(s, t, woken);
    var pc := if |s.queue| > 0 then Got(|s.taken|) else if s.running then Taking else GotNone;
    TakingStays(s, t);
    TakeLate(s, n, t, pc);
    TakePlaces(s, n, t, pc);
    if |s.queue| > 0 {
      TakeHands(s.workers, s.taken, s.begun, t, s.queue[0]);
      TakeOrder(s.taken, t, s.queue);
    } else {
      MoveHands(s.workers, s.taken, s.begun, t, pc);
    }
  }

  lemma TakingStays(s: State, t: Tid)
    requires At(s, t, Taking)
    ensures t in s.workers && s.workers[t] == Taking && s.workers == s.workers[t := Taking]
  {
  }

  lemma TakeOrder(taken: seq<(Tid, Task)>, t: Tid, queue: seq<Task>)
    requires |queue| > 0
    ensures Values(taken + [(t, queue[0])]) + queue[1..] == Values(taken) + queue
  {
  }

  lemma BeginKeeps(s: State, t: Tid)
    requires Inv(s) && Enabled(s, Begin(t))
    ensures Inv(BeginBody(s, t))
  {
    hide PlaceInv, Hands, LateInv, Values, Both, Apart, Served;
    NotWaiting(s, t);
    if s.workers[t] == GotNone {
      MoveKeeps(s, t, Top);
    } else {
      BeginHands(s.workers, s.taken, s.begun, t, s.workers[t].k, BeginBody(s, t).workers[t]);
      BeginLate(s, t);
      BeginPlaces(s, t);
    }
  }

  lemma NotWaiting(s: State, t: Tid)
    requires SleepInv(s) && PlaceInv(s) && t in s.workers && s.workers[t] != Taking && !s.workers[t].Executing?
    ensures t !in InWait(s)
  {
  }

  lemma BeginPlaces(s: State, t: Tid)
    requires PlaceInv(s) && Enabled(s, Begin(t)) && t !in InWait(s)
    ensures PlaceInv(BeginBody(s, t))
  {
    hide Both;
    assert t in BeginBody(s, t).workers;
  }

  lemma BeginHands(workers: map<Tid, Pc>, taken: seq<(Tid, Task)>, begun: seq<nat>, t: Tid, k: nat, pc: Pc)
    requires Hands(workers, taken, begun) && Has(workers, t, k) && !pc.Got?
    ensures Hands(workers[t := pc], taken, begun + [k]) && k !in begun
  {
    var moved, more := workers[t := pc], begun + [k];
    assert forall u: Tid, j: nat :: Has(moved, u, j) <==> Has(workers, u, j) && u != t;
    assert forall j :: j in more <==> j in begun || j == k;
    forall j | 0 <= j < |taken| && j !in more ensures Has(moved, taken[j].0, j) {
      assert Has(workers, taken[j].0, j);
    }
    forall u: Tid, j: nat | Has(moved, u, j) ensures j < |taken| && taken[j].0 == u && j !in more {
      assert Has(workers, u, j);
    }
  }

  lemma BeginLate(s: State, t: Tid)
    requires LateInv(s) && Enabled(s, Begin(t)) && s.workers[t].Got?
    ensures LateInv(BeginBody(s, t))
  {
    var n := BeginBody(s, t);
    assert Allowance(s, t) == 1;
    forall u: Tid ensures LateOk(n, u) {
      assert LateOk(s, u);
    }
  }

  lemma StartKeeps(s: State, threads: set<Tid>)
    requires Inv(s) && Enabled(s, Start(threads))
    ensures Inv(Next(s, Start(threads)))
  {
    var n := Next(s, Start(threads));
    assert forall t: Tid, k: nat :: !Has(s.workers, t, k);
    assert forall t: Tid, k: nat :: !Has(n.workers, t, k);
    assert forall t: Tid :: Late(n, t) == 0;
    assert forall t :: t in threads <==> t in n.workers;
  }

  lemma StopKeeps(s: State)
    requires Inv(s)
    ensures Inv(Next(s, Stop))
  {
    StopSleeps(s);
    HandsStay(s, Next(s, Stop));
    hide SleepInv, HandsInv, LateInv, Both, Notified, Values;
  }

  lemma AgainPlaces(s: State)
    requires PlaceInv(s)
    ensures s.notEmpty.waiting != {} || s.notFull.waiting != {} ==> s.workers != map[]
  {
  }

  lemma SpuriousKeeps(s: State, t: Tid)
    requires Inv(s) && Enabled(s, Spurious(t))
    ensures Inv(Next(s, Spurious(t)))
  {
    hide SleepInv, PlaceInv, HandsInv, LateInv, Both, Notified, Values;
    var n := Next(s, Spurious(t));
    AgainPlaces(s);
    SpuriousSleeps(s, t);
    HandsStay(s, n);
    PlacesStay(s, n);
  }

  lemma DirectKeeps(s: State, t: Tid, task: Task)
    requires Inv(s)
    ensures Inv(s.(direct := s.direct + [(t, task)]))
  {
    HandsStay(s, s.(direct := s.direct + [(t, task)]));
    hide HandsInv, LateInv, Both, Values;
  }

  lemma AgainApart(s: State, t: Tid)
    requires Inv(s)
    ensures t in s.notFull.signalled ==>
      && t !in s.notFull.waiting && t !in Both(s.notEmpty) && s.workers != map[]
      && (t in s.workers ==> s.workers[t].Executing?)
    ensures t in s.notEmpty.signalled ==> t !in s.notEmpty.waiting && t !in Both(s.notFull)
  {
    if t in s.notFull.signalled {
      assert t in Both(s.notFull);
      assert t in InWait(s);
    }
  }

  lemma StepKeeps(s: State, e: Event)
    requires Inv(s) && Enabled(s, e)
    ensures Inv(Next(s, e))
    ensures LoopInv(s) ==> LoopInv(Next(s, e))
  {
    hide Inv, LoopInv, RunBody, TakeBody, BeginBody;
    if LoopInv(s) {
      LoopStep(s, e);
    }
    match e
    case Start(threads) => StartKeeps(s, threads);
    case Stop => StopKeeps(s);
    case Run(t, task, woken) => if s.workers == map[] { DirectKeeps(s, t, task); } else { RunKeeps(s, t, task, woken); }
    case RunAgain(t, woken) => AgainApart(s, t); RunKeeps(s, t, s.pending[t], woken);
    case Test(t) => TestKeeps(s, t);
    case Take(t, woken) => TakeKeeps(s, t, woken);
    case TakeAgain(t, woken) => AgainApart(s, t); TakeKeeps(s, t, woken);
    case Begin(t) => BeginKeeps(s, t);
    case Finish(t) => MoveKeeps(s, t, Top);
    case Spurious(t) => SpuriousKeeps(s, t);
  }

  lemma TestKeeps(s: State, t: Tid)
    requires Inv(s) && Enabled(s, Test(t))
    ensures Inv(Next(s, Test(t)))
  {
    NotWaiting(s, t);
    MoveKeeps(s, t, if s.running then Taking else Exited);
  }

  // ---- Whole runs ----

  function AfterFrom(s: State, events: seq<Event>): State {
    if |events| == 0 then s
    else
      var n := AfterFrom(s, events[..|events| - 1]);
      var e := events[|events| - 1];
      if Enabled(n, e) then Next(n, e) else n
  }

  function After(maxQueueSize: nat, events: seq<Event>): State {
    AfterFrom(Initial(maxQueueSize), events)
  }

  lemma InitialKeeps(maxQueueSize: nat)
    ensures Inv(Initial(maxQueueSize))
  {
  }

  lemma MaxStays(s: State, e: Event)
    requires Enabled(s, e)
    ensures Next(s, e).maxQueueSize == s.maxQueueSize
  {
  }

  lemma {:induction false} RunKeepsFrom(s: State, events: seq<Event>)
    requires Inv(s)
    ensures Inv(AfterFrom(s, events)) && AfterFrom(s, events).maxQueueSize == s.maxQueueSize
  {
    hide Inv, Next, Enabled;
    if |events| > 0 {
      var n, e := AfterFrom(s, events[..|events| - 1]), events[|events| - 1];
      RunKeepsFrom(s, events[..|events| - 1]);
      if Enabled(n, e) {
        StepKeeps(n, e);
        MaxStays(n, e);
      }
    }
  }

  lemma PoolKeeps(maxQueueSize: nat, events: seq<Event>)
    ensures Inv(After(maxQueueSize, events)) && After(maxQueueSize, events).maxQueueSize == maxQueueSize
  {
    InitialKeeps(maxQueueSize);
    RunKeepsFrom(Initial(maxQueueSize), events);
  }

  /** In every run the tasks taken are a prefix of those submitted, the rest is queued, and a positive limit holds. */
  lemma TakenIsAPrefix(maxQueueSize: nat, events: seq<Event>)
    ensures var s := After(maxQueueSize, events);
      && Values(s.submitted) == Values(s.taken) + s.queue && Values(s.taken) <= Values(s.submitted)
      && (maxQueueSize > 0 ==> |s.queue| <= maxQueueSize)
  {
    PoolKeeps(maxQueueSize, events);
  }

  /** Every task taken is begun at most once, by its taker, and not yet only while it is in its taker's hands. */
  lemma EachTaskBeginsOnce(maxQueueSize: nat, events: seq<Event>, k: nat)
    requires k < |After(maxQueueSize, events).taken|
    ensures var s := After(maxQueueSize, events);
      && multiset(s.begun)[k] == (if Has(s.workers, s.taken[k].0, k) then 0 else 1)
      && forall t: Tid :: Has(s.workers, t, k) ==> t == s.taken[k].0
  {
    PoolKeeps(maxQueueSize, events);
    OnceEach(After(maxQueueSize, events).begun, k);
  }

  lemma {:induction false} OnceEach(a: seq<nat>, k: nat)
    requires forall i, j :: 0 <= i < j < |a| ==> a[i] != a[j]
    ensures multiset(a)[k] == if k in a then 1 else 0
  {
    if |a| > 0 {
      var n := |a| - 1;
      OnceEach(a[..n], k);
      assert a == a[..n] + [a[n]];
    }
  }

  /** A sleeping worker means a running pool and at least as many woken workers as queued tasks. */
  lemma NoLostWakeup(maxQueueSize: nat, events: seq<Event>)
    ensures var s := After(maxQueueSize, events);
      && (s.notEmpty.waiting != {} ==> s.running && |s.notEmpty.signalled| >= |s.queue|)
      && (s.notFull.waiting != {} ==> maxQueueSize > 0 && |s.notFull.signalled| >= maxQueueSize - |s.queue|)
  {
    PoolKeeps(maxQueueSize, events);
  }

  // ---- Shutdown ----

  /** How many steps the worker has left once the pool is stopped. */
  function Left(s: State, t: Tid): nat {
    if t !in s.workers then 0
    else match s.workers[t]
      case Taking => 4
      case Got(_) => 3
      case GotNone => 2
      case Executing(_) => 2
      case Top => 1
      case Exited => 0
  }

  predicate StepOf(e: Event, t: Tid) {
    (e.Test? || e.Take? || e.TakeAgain? || e.Begin? || e.Finish?) && e.tid == t
  }

  /** The steps that worker t really takes in a run. */
  function StepsOf(s: State, events: seq<Event>, t: Tid): nat {
    if |events| == 0 then 0
    else
      var init, e := events[..|events| - 1], events[|events| - 1];
      StepsOf(s, init, t) + if Enabled(AfterFrom(s, init), e) && StepOf(e, t) then 1 else 0
  }

  lemma StoppedStep(s: State, e: Event, t: Tid)
    requires !s.running && s.workers != map[] && t in s.workers && Enabled(s, e)
    ensures var n := Next(s, e);
      && !n.running && n.workers != map[] && t in n.workers
      && Left(n, t) + (if StepOf(e, t) then 1 else 0) <= Left(s, t)
      && Late(s, t) <= Late(n, t)
  {
    hide Blocked, Notified, Returned, Both, Wakes;
    assert t in Next(s, e).workers;
  }

  lemma {:induction false} StoppedRun(s: State, events: seq<Event>, t: Tid)
    requires !s.running && t in s.workers
    ensures var n := AfterFrom(s, events);
      && !n.running && t in n.workers && StepsOf(s, events, t) + Left(n, t) <= Left(s, t)
      && Late(s, t) <= Late(n, t)
  {
    hide Next, Enabled, Late, Left;
    if |events| > 0 {
      var init, e := events[..|events| - 1], events[|events| - 1];
      StoppedRun(s, init, t);
      if Enabled(AfterFrom(s, init), e) {
        StoppedStep(AfterFrom(s, init), e, t);
      }
    }
  }

  /**
   * Once the pool is stopped, in any further run: no worker sleeps, each takes at most four more steps and starts
   * at most one more task, and a worker that has not left its loop can always take its next step, unless the
   * task it executes is itself blocked in run.
   */
  lemma WorkersShutDown(maxQueueSize: nat, before: seq<Event>, after: seq<Event>, t: Tid)
    requires !After(maxQueueSize, before).running && t in After(maxQueueSize, before).workers
    ensures var s := After(maxQueueSize, before);
      var n := AfterFrom(s, after);
      && n.notEmpty.waiting == {}
      && StepsOf(s, after, t) <= 4
      && Late(n, t) <= 1
      && t in n.workers
      && (n.workers[t] != Exited && t !in Both(n.notFull) ==> exists e :: StepOf(e, t) && Enabled(n, e))
  {
    hide Next, After, AfterFrom, Inv, Enabled, Both, StepOf;
    var s := After(maxQueueSize, before);
    var n := AfterFrom(s, after);
    PoolKeeps(maxQueueSize, before);
    RunKeepsFrom(s, after);
    StoppedRun(s, after, t);
    StoppedState(n, t);
    if n.workers[t] != Exited && t !in Both(n.notFull) {
      CanGo(n, t);
      assert StepOf(Turn(n, t), t) && Enabled(n, Turn(n, t));
    }
  }

  lemma StoppedState(s: State, t: Tid)
    requires Inv(s) && !s.running
    ensures s.notEmpty.waiting == {} && Late(s, t) <= 1
  {
    assert LateOk(s, t);
  }

  lemma CanGo(s: State, t: Tid)
    requires Inv(s) && Awake(s, t) && s.workers[t] != Exited
    ensures StepOf(Turn(s, t), t) && Enabled(s, Turn(s, t))
  {
    assert s.workers[t].Got? ==> Has(s.workers, t, s.workers[t].k);
  }

  // ---- Every call of run ----

  /** The tasks that t gave to run, in order. */
  function Calls(maxQueueSize: nat, events: seq<Event>, t: Tid): seq<Task> {
    if |events| == 0 then []
    else
      var init, e := events[..|events| - 1], events[|events| - 1];
      if e.Run? && e.tid == t && Enabled(After(maxQueueSize, init), e) then Calls(maxQueueSize, init, t) + [e.task]
      else Calls(maxQueueSize, init, t)
  }

  /** The task that t holds while it is blocked in run. */
  function Held(s: State, t: Tid): seq<Task> {
    if t in s.pending then [s.pending[t]] else []
  }

  function Entered(s: State, t: Tid): seq<Task> {
    Of(s.direct, t) + (Of(s.submitted, t) + Held(s, t))
  }

  /** What a step adds to the tasks of t. */
  lemma EnteredStep(s: State, e: Event, t: Tid)
    requires Inv(s) && Enabled(s, e) && (s.workers == map[] ==> s.submitted == [])
    ensures Entered(Next(s, e), t) == if e.Run? && e.tid == t then Entered(s, t) + [e.task] else Entered(s, t)
    ensures Next(s, e).workers == map[] ==> Next(s, e).submitted == []
  {
    hide Inv, Both, Of, Notified, Blocked, Returned, Wakes, Entered, RunBody, Held;
    match e
    case Run(u, task, woken) =>
      NotHolding(s, u);
      if s.workers == map[] {
        DirectEnters(s, u, task, t);
      } else {
        BodyEnters(s, u, task, woken, t);
      }
    case RunAgain(u, woken) =>
      AgainApart(s, u);
      BodyEnters(s, u, s.pending[u], woken, t);
    case _ => OthersEnterNone(s, e, t);
  }

  lemma DirectEnters(s: State, u: Tid, task: Task, t: Tid)
    requires s.pending == map[] && s.submitted == []
    ensures Entered(s.(direct := s.direct + [(u, task)]), t) == if u == t then Entered(s, t) + [task] else Entered(s, t)
  {
    OfOne(s.direct, u, task, t);
    NothingOf(t);
    hide Of;
    var d: seq<Task> := Of(s.direct, t);
    assert d + ([] + []) == d && d + [task] + ([] + []) == d + [task];
  }

  lemma OthersEnterNone(s: State, e: Event, t: Tid)
    requires Enabled(s, e) && !e.Run? && !e.RunAgain? && (s.workers == map[] ==> s.submitted == [])
    ensures Entered(Next(s, e), t) == Entered(s, t)
    ensures Next(s, e).workers == map[] ==> Next(s, e).submitted == []
  {
    hide Both, Of, Notified, Blocked, Returned, Wakes;
    if e.Test? || e.Take? || e.TakeAgain? || e.Begin? || e.Finish? {
      assert e.tid in Next(s, e).workers;
    }
  }

  lemma NothingOf(t: Tid)
    ensures Of<Task>([], t) == []
  {
  }

  lemma NotHolding(s: State, t: Tid)
    requires Inv(s)
    ensures t !in InWait(s) ==> t !in s.pending
    ensures s.workers == map[] ==> s.pending == map[]
  {
    assert s.pending.Keys == Both(s.notFull);
  }

  lemma BodyEnters(s: State, u: Tid, task: Task, woken: set<Tid>, t: Tid)
    requires u in s.pending ==> s.pending[u] == task
    ensures var n := RunBody(s, u, task, woken);
      && n.workers == s.workers
      && Entered(n, t) == if u == t && u !in s.pending then Entered(s, t) + [task] else Entered(s, t)
  {
    OfOne(s.submitted, u, task, t);
    hide Of, Notified, Blocked, Returned;
    var n := RunBody(s, u, task, woken);
    assert u == t && !IsFull(s) ==> Held(n, t) == [];
    assert Of(s.submitted, t) + [] == Of(s.submitted, t);
    Associates(Of(s.direct, t), Of(s.submitted, t) + Held(s, t), [task]);
  }

  /** Each task given to run is executed by the caller, enters the queue once in its caller's order, or is held by it. */
  lemma {:induction false} EachRunEntersOnce(maxQueueSize: nat, events: seq<Event>, t: Tid)
    ensures var s := After(maxQueueSize, events);
      && Calls(maxQueueSize, events, t) == Entered(s, t)
      && (t in s.pending <==> t in Both(s.notFull))
      && (s.workers == map[] ==> s.submitted == [])
  {
    hide Next, Enabled, Inv, Entered;
    PoolKeeps(maxQueueSize, events);
    HoldsWhileBlocked(After(maxQueueSize, events));
    if |events| == 0 {
      NothingEntered(maxQueueSize, t);
    } else {
      var init, e := events[..|events| - 1], events[|events| - 1];
      EachRunEntersOnce(maxQueueSize, init, t);
      PoolKeeps(maxQueueSize, init);
      if Enabled(After(maxQueueSize, init), e) {
        EnteredStep(After(maxQueueSize, init), e, t);
      }
    }
  }

  lemma HoldsWhileBlocked(s: State)
    requires Inv(s)
    ensures s.pending.Keys == Both(s.notFull)
  {
  }

  lemma NothingEntered(maxQueueSize: nat, t: Tid)
    ensures Entered(Initial(maxQueueSize), t) == []
  {
  }

  // ---- While the pool runs ----

  predicate IsStart(maxQueueSize: nat, events: seq<Event>, i: int) {
    0 <= i < |events| && events[i].Start? && Enabled(After(maxQueueSize, events[..i]), events[i])
  }

  predicate NoStopSince(events: seq<Event>, i: int) {
    forall j :: i < j < |events| ==> 0 <= j && !events[j].Stop?
  }

  /** The pool runs exactly from a start to the next stop. */
  lemma {:induction false} RunsFromStartToStop(maxQueueSize: nat, events: seq<Event>)
    ensures After(maxQueueSize, events).running
      <==> exists i :: IsStart(maxQueueSize, events, i) && NoStopSince(events, i)
  {
    if |events| > 0 {
      var init, e := events[..|events| - 1], events[|events| - 1];
      var n := |init|;
      RunsFromStartToStop(maxQueueSize, init);
      assert forall i :: 0 <= i < n ==> init[..i] == events[..i] && init[i] == events[i];
      hide After;
      assert forall i :: i < n ==> (IsStart(maxQueueSize, init, i) <==> IsStart(maxQueueSize, events, i));
      forall i | 0 <= i < n ensures NoStopSince(events, i) <==> NoStopSince(init, i) && !e.Stop? {
        assert forall j :: i < j < n ==> init[j] == events[j];
      }
      assert NoStopSince(events, n);
      RunningStep(After(maxQueueSize, init), e);
      LastEvent(maxQueueSize, events);
      if After(maxQueueSize, events).running && !IsStart(maxQueueSize, events, n) {
        var i :| IsStart(maxQueueSize, init, i) && NoStopSince(init, i);
        assert IsStart(maxQueueSize, events, i) && NoStopSince(events, i);
      }
      if i :| IsStart(maxQueueSize, events, i) && NoStopSince(events, i) {
        if i < n {
          assert IsStart(maxQueueSize, init, i) && NoStopSince(init, i);
        }
      }
    }
  }

  lemma LastEvent(maxQueueSize: nat, events: seq<Event>)
    requires |events| > 0
    ensures var s, e := After(maxQueueSize, events[..|events| - 1]), events[|events| - 1];
      After(maxQueueSize, events) == if Enabled(s, e) then Next(s, e) else s
  {
  }

  lemma RunningStep(s: State, e: Event)
    ensures Enabled(s, e) ==> Next(s, e).running == if e.Start? then true else if e.Stop? then false else s.running
    ensures e.Stop? ==> Enabled(s, e)
  {
    hide Blocked, Notified, Returned, Both, Wakes;
  }

  /** While the pool runs no worker has left its loop or came back from take without a task. */
  predicate LoopInv(s: State) {
    s.running ==> forall t :: t in s.workers ==> s.workers[t] != Exited && s.workers[t] != GotNone
  }

  lemma LoopStep(s: State, e: Event)
    requires LoopInv(s) && Enabled(s, e)
    ensures LoopInv(Next(s, e))
  {
    hide Blocked, Notified, Returned, Both, Wakes;
  }

  lemma {:induction false} LoopKeepsFrom(s: State, events: seq<Event>)
    requires LoopInv(s)
    ensures LoopInv(AfterFrom(s, events))
  {
    hide LoopInv, Next, Enabled;
    if |events| > 0 {
      var n, e := AfterFrom(s, events[..|events| - 1]), events[|events| - 1];
      LoopKeepsFrom(s, events[..|events| - 1]);
      if Enabled(n, e) {
        LoopStep(n, e);
      }
    }
  }

  lemma RunningStaysInLoop(maxQueueSize: nat, events: seq<Event>)
    ensures LoopInv(After(maxQueueSize, events))
  {
    LoopKeepsFrom(Initial(maxQueueSize), events);
  }

  /** A worker that can go on: it sleeps neither in take nor in a call of run. */
  predicate Awake(s: State, t: Tid) {
    t in s.workers && t !in Both(s.notFull) && t !in s.notEmpty.waiting
  }

  /** How many steps a worker of a running pool has before it takes. */
  function Before(s: State, t: Tid): nat {
    if t !in s.workers then 0
    else match s.workers[t]
      case Taking => 1
      case Top => 2
      case Executing(_) => 3
      case Got(_) => 4
      case _ => 0
  }

  function Turn(s: State, t: Tid): Event
    requires t in s.workers
  {
    match s.workers[t]
    case Taking => if t in s.notEmpty.signalled then TakeAgain(t, s.notFull.waiting) else Take(t, s.notFull.waiting)
    case Top => Test(t)
    case Executing(_) => Finish(t)
    case _ => Begin(t)
  }

  /** The worker's next step is the take of the next task, or brings that nearer. */
  lemma TurnStep(s: State, t: Tid)
    requires Inv(s) && LoopInv(s) && Awake(s, t) && s.running && s.queue != []
    ensures Enabled(s, Turn(s, t)) && StepOf(Turn(s, t), t)
    ensures var n := Next(s, Turn(s, t));
      && n.running && Awake(n, t)
      && (At(s, t, Taking) ==>
            n.taken == s.taken + [(t, s.queue[0])] && n.queue == s.queue[1..] && At(n, t, Got(|s.taken|)))
      && (!At(s, t, Taking) ==> n.taken == s.taken && n.queue == s.queue && Before(n, t) < Before(s, t))
  {
    CanGo(s, t);
    hide Inv, Blocked, Wakes, Notified, Returned, Both;
    if s.workers[t] == Taking {
      TakeTurn(s, t, s.notFull.waiting);
    } else {
      OtherTurn(s, t);
    }
  }

  lemma OtherTurn(s: State, t: Tid)
    requires Awake(s, t) && s.running && Enabled(s, Turn(s, t)) && s.workers[t] != Taking && LoopInv(s)
    ensures var n := Next(s, Turn(s, t));
      && n.running && Awake(n, t) && n.taken == s.taken && n.queue == s.queue && Before(n, t) < Before(s, t)
  {
    hide Both, InWait, RunBody, TakeBody, Notified;
    assert t in Next(s, Turn(s, t)).workers;
  }

  lemma TakeTurn(s: State, t: Tid, woken: set<Tid>)
    requires Awake(s, t) && s.running && s.queue != [] && woken <= s.notFull.waiting
    ensures var n := TakeBody(s, t, woken);
      && n.running && Awake(n, t)
      && n.taken == s.taken + [(t, s.queue[0])] && n.queue == s.queue[1..] && At(n, t, Got(|s.taken|))
  {
  }

  /** The own steps of a worker, after it was woken if it slept. */
  predicate OwnSteps(events: seq<Event>, t: Tid) {
    forall i :: 0 <= i < |events| ==> StepOf(events[i], t) || (i == 0 && events[i] == Spurious(t))
  }

  lemma OneTurn(s: State, t: Tid) returns (n: State)
    requires Inv(s) && LoopInv(s) && Awake(s, t) && s.running && s.queue != []
    ensures Enabled(s, Turn(s, t)) && StepOf(Turn(s, t), t) && n == Next(s, Turn(s, t))
    ensures Inv(n) && LoopInv(n) && n.running && Awake(n, t)
    ensures At(s, t, Taking) ==>
      n.taken == s.taken + [(t, s.queue[0])] && n.queue == s.queue[1..] && At(n, t, Got(|s.taken|))
    ensures !At(s, t, Taking) ==> n.taken == s.taken && n.queue == s.queue && Before(n, t) < Before(s, t)
  {
    TurnStep(s, t);
    hide Inv, LoopInv, Enabled, Next;
    StepKeeps(s, Turn(s, t));
    LoopStep(s, Turn(s, t));
    n := Next(s, Turn(s, t));
  }

  lemma {:induction false} AwakeTakes(s: State, t: Tid) returns (events: seq<Event>)
    requires Inv(s) && LoopInv(s) && Awake(s, t) && s.running && s.queue != []
    ensures |events| <= Before(s, t) && forall i :: 0 <= i < |events| ==> StepOf(events[i], t)
    ensures var n := AfterFrom(s, events);
      && n.taken == s.taken + [(t, s.queue[0])] && n.queue == s.queue[1..] && At(n, t, Got(|s.taken|))
      && n.running && Awake(n, t)
    decreases Before(s, t)
  {
    hide Inv, LoopInv, Next, Enabled, Awake, StepOf;
    var n := OneTurn(s, t);
    if At(s, t, Taking) {
      events := [Turn(s, t)];
      OneEarlier(s, Turn(s, t), []);
      assert [Turn(s, t)] + [] == events;
    } else {
      hide At;
      var rest := AwakeTakes(n, t);
      hide AfterFrom;
      OneEarlier(s, Turn(s, t), rest);
      events := [Turn(s, t)] + rest;
    }
  }

  lemma Wakened(s: State, t: Tid)
    requires Inv(s) && t in s.workers && t !in Both(s.notFull) && t in s.notEmpty.waiting
    ensures Enabled(s, Spurious(t))
    ensures var n := Next(s, Spurious(t));
      && Awake(n, t) && n.taken == s.taken && n.queue == s.queue && n.running == s.running
      && Before(n, t) == 1
  {
  }

  /**
   * While the pool runs and tasks are queued, any worker that is not itself blocked in run takes the next task by
   * at most four steps of its own, woken before if it slept.
   */
  lemma WorkerTakesNext(s: State, t: Tid) returns (events: seq<Event>)
    requires Inv(s) && LoopInv(s) && s.running && s.queue != [] && t in s.workers && t !in Both(s.notFull)
    ensures |events| <= 4 && OwnSteps(events, t)
    ensures var n := AfterFrom(s, events);
      && n.taken == s.taken + [(t, s.queue[0])] && n.queue == s.queue[1..] && At(n, t, Got(|s.taken|))
      && n.running && Awake(n, t)
  {
    hide Inv, LoopInv, Next, Enabled, Both, StepOf, AfterFrom;
    if t in s.notEmpty.waiting {
      Wakened(s, t);
      var n := Next(s, Spurious(t));
      StepKeeps(s, Spurious(t));
      LoopStep(s, Spurious(t));
      var rest := AwakeTakes(n, t);
      OneEarlier(s, Spurious(t), rest);
      events := [Spurious(t)] + rest;
    } else {
      events := AwakeTakes(s, t);
    }
  }

  /** And it executes the task, unless it is empty, and comes back for more: one such worker empties the queue in order. */
  lemma {:induction false} WorkerEmptiesQueue(s: State, t: Tid) returns (events: seq<Event>)
    requires Inv(s) && LoopInv(s) && s.running && t in s.workers && t !in Both(s.notFull)
    ensures var n := AfterFrom(s, events);
      && n.queue == [] && Values(n.taken) == Values(s.taken) + s.queue
      && forall k :: |s.taken| <= k < |n.taken| ==> n.taken[k].0 == t && k in n.begun
    decreases |s.queue|
  {
    hide Inv, LoopInv, Next, Enabled, Both, StepOf, AfterFrom, Awake, Values;
    if s.queue == [] {
      events := [];
      NoEvents(s);
    } else {
      var first := WorkerTakesNext(s, t);
      var n := AfterFrom(s, first);
      RunKeepsFrom(s, first);
      LoopKeepsFrom(s, first);
      BeginsIt(n, t, |s.taken|);
      OneMore(s, first, Begin(t));
      var m := Next(n, Begin(t));
      StepKeeps(n, Begin(t));
      LoopStep(n, Begin(t));
      var rest := WorkerEmptiesQueue(m, t);
      BegunStays(m, rest);
      events := first + [Begin(t)] + rest;
      Continue(s, first + [Begin(t)], rest);
      TakeOrder(s.taken, t, s.queue);
      var end := AfterFrom(m, rest);
      assert m.begun[|n.begun|] == |s.taken| && end.begun[|n.begun|] == |s.taken|;
      assert m.taken[|s.taken|].0 == t && end.taken[|s.taken|].0 == t;
    }
  }

  lemma NoEvents(s: State)
    ensures AfterFrom(s, []) == s && Values(s.taken) + [] == Values(s.taken)
  {
  }

  lemma BeginsIt(s: State, t: Tid, k: nat)
    requires Awake(s, t) && At(s, t, Got(k)) && k < |s.taken|
    ensures Enabled(s, Begin(t))
    ensures var n := Next(s, Begin(t));
      && n.begun == s.begun + [k] && n.workers[t := Top] == s.workers[t := Top]
      && At(n, t, if s.taken[k].1.Job? then Executing(k) else Top)
      && n.taken == s.taken && n.queue == s.queue && n.running == s.running
      && t in n.workers && t !in Both(n.notFull)
  {
  }

  lemma BegunStep(s: State, e: Event)
    requires Enabled(s, e)
    ensures s.begun <= Next(s, e).begun && s.taken <= Next(s, e).taken
  {
    hide RunBody, TakeBody, BeginBody, Notified, Both, Wakes, At, InWait;
    match e
    case Run(t, task, woken) => RunBegins(s, t, task, woken);
    case RunAgain(t, woken) => RunBegins(s, t, s.pending[t], woken);
    case Take(t, woken) => TakeBegins(s, t, woken);
    case TakeAgain(t, woken) => TakeBegins(s, t, woken);
    case Begin(t) => BeginBegins(s, t);
    case _ =>
  }

  lemma RunBegins(s: State, t: Tid, task: Task, woken: set<Tid>)
    ensures RunBody(s, t, task, woken).begun == s.begun && RunBody(s, t, task, woken).taken == s.taken
  {
  }

  lemma TakeBegins(s: State, t: Tid, woken: set<Tid>)
    ensures TakeBody(s, t, woken).begun == s.begun && s.taken <= TakeBody(s, t, woken).taken
  {
  }

  lemma BeginBegins(s: State, t: Tid)
    requires Enabled(s, Begin(t))
    ensures s.begun <= BeginBody(s, t).begun && BeginBody(s, t).taken == s.taken
  {
  }

  lemma {:induction false} BegunStays(s: State, events: seq<Event>)
    ensures s.begun <= AfterFrom(s, events).begun && s.taken <= AfterFrom(s, events).taken
  {
    hide Next, Enabled;
    if |events| > 0 {
      var n, e := AfterFrom(s, events[..|events| - 1]), events[|events| - 1];
      BegunStays(s, events[..|events| - 1]);
      if Enabled(n, e) {
        BegunStep(n, e);
      }
    }
  }

  lemma {:induction false} Continue(s: State, first: seq<Event>, rest: seq<Event>)
    ensures AfterFrom(s, first + rest) == AfterFrom(AfterFrom(s, first), rest)
  {
    hide Next, Enabled;
    if |rest| == 0 {
      assert first + rest == first;
    } else {
      Continue(s, first, rest[..|rest| - 1]);
      assert (first + rest)[..|first + rest| - 1] == first + rest[..|rest| - 1];
    }
  }

  // ---- Callers blocked at stop ----

  /** No worker is at take; once the pool is stopped none gets there any more. */
  predicate NoTaker(s: State) {
    forall u :: u in s.workers ==> s.workers[u] != Taking
  }

  lemma StrandedStep(s: State, e: Event, t: Tid)
    requires !s.running && s.workers != map[] && NoTaker(s) && IsFull(s) && t in Both(s.notFull) && Enabled(s, e)
    ensures var n := Next(s, e);
      !n.running && n.workers != map[] && NoTaker(n) && IsFull(n) && t in Both(n.notFull)
  {
    var u :| u in s.workers;
    assert u in Next(s, e).workers;
  }

  /** With the queue full and no worker at take, a caller blocked in run stays blocked in every further run. */
  lemma {:induction false} BlockedForGood(s: State, events: seq<Event>, t: Tid)
    requires !s.running && s.workers != map[] && NoTaker(s) && IsFull(s) && t in Both(s.notFull)
    ensures var n := AfterFrom(s, events);
      && !n.running && n.workers != map[] && NoTaker(n) && IsFull(n) && t in Both(n.notFull)
  {
    if |events| > 0 {
      var n, e := AfterFrom(s, events[..|events| - 1]), events[|events| - 1];
      BlockedForGood(s, events[..|events| - 1], t);
      hide Next, Enabled, NoTaker, IsFull, Both;
      if Enabled(n, e) {
        StrandedStep(n, e, t);
      }
    }
  }

  /** With a free place a caller that is woken, if need be spuriously, returns. */
  lemma FreePlaceReleases(s: State, t: Tid) returns (events: seq<Event>)
    requires Inv(s) && t in Both(s.notFull) && !IsFull(s)
    ensures t !in Both(AfterFrom(s, events).notFull)
  {
    var n := s;
    events := [];
    if t in s.notFull.waiting {
      n := WokenSpuriously(s, t);
      events := [] + [Spurious(t)];
      OneMore(s, [], Spurious(t));
    }
    RunsAgain(n, t);
    hide Inv, Next, Enabled, Both;
    OneMore(s, events, RunAgain(t, n.notEmpty.waiting));
    events := events + [RunAgain(t, n.notEmpty.waiting)];
  }

  lemma WokenSpuriously(s: State, t: Tid) returns (n: State)
    requires Inv(s) && t in s.notFull.waiting
    ensures Enabled(s, Spurious(t)) && n == Next(s, Spurious(t)) && Inv(n)
    ensures t in n.notFull.signalled && n.queue == s.queue && n.maxQueueSize == s.maxQueueSize
  {
    assert t in Both(s.notFull);
    StepKeeps(s, Spurious(t));
    n := Next(s, Spurious(t));
    hide Inv;
    assert t !in s.notEmpty.waiting by {
      WaitsApart(s, t);
    }
  }

  lemma WaitsApart(s: State, t: Tid)
    requires Inv(s) && t in Both(s.notFull)
    ensures t !in Both(s.notEmpty) && t !in s.notEmpty.waiting && !At(s, t, Taking) && t in s.pending
  {
  }

  lemma RunsAgain(s: State, t: Tid)
    requires Inv(s) && t in s.notFull.signalled && !IsFull(s)
    ensures var e := RunAgain(t, s.notEmpty.waiting); Enabled(s, e) && t !in Both(Next(s, e).notFull)
  {
    assert t in Both(s.notFull);
  }

  /** A worker at take makes a place free, and its notification can wake every caller. */
  lemma TakerFreesAPlace(s: State, u: Tid) returns (e: Event)
    requires Inv(s) && !s.running && IsFull(s) && At(s, u, Taking)
    ensures Enabled(s, e) && Inv(Next(s, e)) && !IsFull(Next(s, e)) && Both(Next(s, e).notFull) == Both(s.notFull)
  {
    hide Inv, SleepInv, Both, Notified, Blocked, Returned, Wakes, TakeBody;
    var woken := s.notFull.waiting;
    TakerMay(s, u);
    e := if u in s.notEmpty.signalled then TakeAgain(u, woken) else Take(u, woken);
    TakeSleeps(s, u, woken);
    StepKeeps(s, e);
    TakeShortens(s, u, woken);
  }

  lemma TakeShortens(s: State, u: Tid, woken: set<Tid>)
    requires SleepInv(s) && IsFull(s)
    ensures !IsFull(TakeBody(s, u, woken))
  {
    hide Both, Apart, Served;
  }

  lemma TakerMay(s: State, u: Tid)
    requires Inv(s) && !s.running && At(s, u, Taking)
    ensures u !in s.notEmpty.signalled ==> u !in InWait(s)
    ensures SleepInv(s) && u !in s.notEmpty.waiting && u !in Both(s.notFull) && Wakes(s.notFull, s.notFull.waiting)
  {
  }

  /**
   * Stop wakes no callers. A caller blocked in run when the pool is stopped can still return if and only if there is
   * a free place or a worker on its way to take, which makes one.
   */
  lemma CallersReleasedExactly(s: State, t: Tid)
    requires Inv(s) && !s.running && s.workers != map[] && t in Both(s.notFull)
    ensures (exists events :: t !in Both(AfterFrom(s, events).notFull))
      <==> !IsFull(s) || exists u :: At(s, u, Taking)
  {
    hide AfterFrom;
    if !IsFull(s) {
      var events := FreePlaceReleases(s, t);
    } else if u :| At(s, u, Taking) {
      var e := TakerFreesAPlace(s, u);
      var events := FreePlaceReleases(Next(s, e), t);
      OneEarlier(s, e, events);
    } else {
      hide Inv;
      assert NoTaker(s) by {
        forall u | u in s.workers ensures s.workers[u] != Taking {
          assert !At(s, u, Taking);
        }
      }
      forall events ensures t in Both(AfterFrom(s, events).notFull) {
        BlockedForGood(s, events, t);
      }
    }
  }

  lemma {:induction false} OneEarlier(s: State, e: Event, rest: seq<Event>)
    requires Enabled(s, e)
    ensures AfterFrom(s, [e] + rest) == AfterFrom(Next(s, e), rest)
  {
    hide Next, Enabled;
    var events := [e] + rest;
    if |rest| == 0 {
      assert events[..0] == [] && events[0] == e;
      assert AfterFrom(s, events[..|events| - 1]) == s;
    } else {
      OneEarlier(s, e, rest[..|rest| - 1]);
      assert events[..|events| - 1] == [e] + rest[..|rest| - 1];
    }
  }

  /** The queue of one is full and a second caller sleeps before the only worker looks. */
  lemma CallerSleeps() returns (events: seq<Event>)
    ensures var s := After(1, events);
      s.workers == map[1 := Top] && IsFull(s) && s.notFull == Waiters({3}, {})
  {
    var s0 := Initial(1);
    var s1 := Next(s0, Start({1}));
    assert s1.workers == map[1 := Top];
    var s2 := Next(s1, Run(2, Job(0), {}));
    assert s2.notFull == NOBODY && s2.notEmpty == NOBODY;
    assert 1 in s2.workers && |s2.queue| == 1;
    var s3 := Next(s2, Run(3, Job(1), {}));
    assert s3.notFull.waiting == {3} && s3.notFull.signalled == {};
    OneMore(s0, [], Start({1}));
    hide AfterFrom;
    OneMore(s0, [] + [Start({1})], Run(2, Job(0), {}));
    OneMore(s0, [] + [Start({1})] + [Run(2, Job(0), {})], Run(3, Job(1), {}));
    events := [] + [Start({1})] + [Run(2, Job(0), {})] + [Run(3, Job(1), {})];
  }

  /** And a run gets there: one worker, a queue of one, two calls of run, and stop before the worker looks. */
  lemma StopCanStrandACaller() returns (events: seq<Event>)
    ensures var s := After(1, events);
      && !s.running && s.workers == map[1 := Exited] && IsFull(s) && s.notFull == Waiters({3}, {})
  {
    var sleeps := CallerSleeps();
    var s := After(1, sleeps);
    hide AfterFrom;
    OneMore(Initial(1), sleeps, Stop);
    OneMore(Initial(1), sleeps + [Stop], Test(1));
    assert map[1 := Top][1 := Exited] == map[1 := Exited];
    events := sleeps + [Stop] + [Test(1)];
  }

  lemma OneMore(s: State, events: seq<Event>, e: Event)
    ensures var n := AfterFrom(s, events);
      AfterFrom(s, events + [e]) == if Enabled(n, e) then Next(n, e) else n
  {
    assert (events + [e])[..|events|] == events;
  }
}

/** The pool as the class that its users see, one method per step. */
module ThreadPool {
  import opened Monitor
  import S = ThreadPoolSpec

  class ThreadPool {
    const mutex: MutexLock
    const notEmpty: Condition
    const notFull: Condition
    const maxQueueSize: nat
    var queue: seq<S.Task>
    var running: bool
    /** The threads, each with its place in the worker's loop. */
    var threads: map<Tid, S.Pc>
    /** The argument of each call of run that is blocked, which is on its thread's stack. */
    var pending: map<Tid, S.Task>
    /** The tasks handed out; a worker's own task is on its stack and is named by its position here. */
    var taken: seq<(Tid, S.Task)>
    ghost var submitted: seq<(Tid, S.Task)>
    ghost var begun: seq<nat>
    ghost var direct: seq<(Tid, S.Task)>
    ghost var late: map<Tid, nat>

    ghost function Value(): S.State
      reads this, notEmpty, notFull
    {
      S.State(maxQueueSize, running, threads, queue, notEmpty.waiters, notFull.waiters, pending,
              submitted, taken, begun, direct, late)
    }

    ghost predicate Wired()
      reads this, notEmpty, notFull
    {
      notEmpty != notFull && notEmpty.mutex == mutex && notFull.mutex == mutex
    }

    ghost predicate Free()
      reads this, mutex, notEmpty, notFull
    {
      Wired() && Monitor.Free(mutex.Value(), S.InWait(Value()))
    }

    ghost predicate Valid()
      reads this, mutex, notEmpty, notFull
    {
      Free() && S.Inv(Value())
    }

    /** The mutex is held by t alone. */
    ghost predicate Locked(t: Tid)
      reads this, mutex, notEmpty, notFull
    {
      Wired() && HeldBy(mutex.Value(), t, S.InWait(Value()))
    }

    constructor (maxSize: nat)
      ensures Valid() && Value() == S.Initial(maxSize)
      ensures fresh(mutex) && fresh(notEmpty) && fresh(notFull)
    {
      hide S.Inv;
      S.InitialKeeps(maxSize);
      var m := new MutexLock();
      mutex := m;
      notEmpty := new Condition(m);
      notFull := new Condition(m);
      maxQueueSize, running, threads, queue, pending := maxSize, false, map[], [], map[];
      submitted, taken, begun, direct, late := [], [], [], [], map[];
    }

    method Start(newThreads: set<Tid>)
      requires Valid() && S.Enabled(Value(), S.Start(newThreads))
      modifies this
      ensures Valid() && Value() == S.Next(old(Value()), S.Start(newThreads))
    {
      hide Monitor.Free, S.Inv, S.InWait;
      S.StepKeeps(Value(), S.Start(newThreads));
      running := true;
      threads := map t | t in newThreads :: S.Top;
      SameWait(old(Value()), Value());
    }

    /** The part of stop under the mutex; joining the threads changes nothing here. */
    method Stop(t: Tid)
      requires Valid() && t !in S.InWait(Value())
      modifies this, mutex, notEmpty, notFull
      ensures Valid() && Value() == S.Next(old(Value()), S.Stop)
    {
      hide Monitor.Free, HeldBy, S.Inv, S.InWait, Notified;
      ghost var s := Value();
      S.StepKeeps(s, S.Stop);
      LockSteps(mutex.Value(), t, S.InWait(s));
      mutex.Lock(t);
      running := false;
      notEmpty.NotifyAll();
      StopWaits(s);
      UnlockSteps(mutex.Value(), t, S.InWait(s));
      mutex.Unlock(t);
    }

    /** Runs the task at once when there are no threads; else queues it, or blocks while the queue is full. */
    method Run(t: Tid, task: S.Task, woken: set<Tid>) returns (done: bool)
      requires Valid() && S.Enabled(Value(), S.Run(t, task, woken))
      modifies this, mutex, notEmpty, notFull
      ensures Valid() && Value() == S.Next(old(Value()), S.Run(t, task, woken))
      ensures done <==> t !in S.InWait(Value())
    {
      hide Monitor.Free, HeldBy, S.Inv, S.InWait, Wakes, S.RunBody;
      S.StepKeeps(Value(), S.Run(t, task, woken));
      if threads == map[] {
        direct := direct + [(t, task)];
        SameWait(old(Value()), Value());
        done := true;
      } else {
        LockSteps(mutex.Value(), t, S.InWait(Value()));
        mutex.Lock(t);
        done := RunLoop(t, task, woken);
      }
    }

    method RunAgain(t: Tid, woken: set<Tid>) returns (done: bool)
      requires Valid() && S.Enabled(Value(), S.RunAgain(t, woken))
      modifies this, mutex, notEmpty, notFull
      ensures Valid() && Value() == S.Next(old(Value()), S.RunAgain(t, woken))
      ensures done <==> t !in S.InWait(Value())
    {
      hide Monitor.Free, HeldBy, S.Inv, S.InWait, Wakes, S.RunBody, Returned;
      ghost var s := Value();
      S.StepKeeps(s, S.RunAgain(t, woken));
      CallerReturns(s, t);
      ReturnSteps(mutex.Value(), t, S.InWait(s));
      notFull.Return(t);
      RunAfterReturn(s, t, s.pending[t], woken);
      done := RunLoop(t, pending[t], woken);
    }

    /** Whether the queue is at its limit; the caller must hold the mutex, which it asserts. */
    method IsFull(t: Tid) returns (full: bool)
      requires Locked(t)
      ensures full <==> S.IsFull(Value())
    {
      assert mutex.holder == t;
      full := maxQueueSize > 0 && |queue| >= maxQueueSize;
    }

    /** One pass of run's loop with the mutex held: block once more, or enter the task and leave. */
    method RunLoop(t: Tid, task: S.Task, woken: set<Tid>) returns (done: bool)
      requires Locked(t) && Wakes(notEmpty.waiters, woken)
      modifies this, mutex, notEmpty, notFull
      ensures Free() && Value() == S.RunBody(old(Value()), t, task, woken)
      ensures done <==> t !in S.InWait(Value())
    {
      hide Monitor.Free, HeldBy, S.InWait, Both, Returned, Notified, Blocked, S.IsFull;
      ghost var s := Value();
      RunWaits(s, mutex.Value(), t, task, woken);
      var full := IsFull(t);
      if full {
        WaitSteps(mutex.Value(), t, S.InWait(s));
        notFull.Wait(t);
        pending := pending[t := task];
        done := false;
      } else {
        queue := queue + [task];
        notEmpty.Notify(woken);
        pending, submitted := pending - {t}, submitted + [(t, task)];
        UnlockSteps(mutex.Value(), t, S.InWait(s));
        mutex.Unlock(t);
        done := true;
      }
    }

    /** The worker's test of running between tasks. */
    method Test(t: Tid)
      requires Valid() && S.Enabled(Value(), S.Test(t))
      modifies this
      ensures Valid() && Value() == S.Next(old(Value()), S.Test(t))
    {
      hide Monitor.Free, S.Inv, S.InWait;
      S.StepKeeps(Value(), S.Test(t));
      threads := threads[t := if running then S.Taking else S.Exited];
      SameWait(old(Value()), Value());
    }

    method Take(t: Tid, woken: set<Tid>)
      requires Valid() && S.Enabled(Value(), S.Take(t, woken))
      modifies this, mutex, notEmpty, notFull
      ensures Valid() && Value() == S.Next(old(Value()), S.Take(t, woken))
    {
      hide Monitor.Free, HeldBy, S.Inv, S.InWait, Wakes, S.TakeBody;
      S.StepKeeps(Value(), S.Take(t, woken));
      LockSteps(mutex.Value(), t, S.InWait(Value()));
      mutex.Lock(t);
      TakeLoop(t, woken);
    }

    method TakeAgain(t: Tid, woken: set<Tid>)
      requires Valid() && S.Enabled(Value(), S.TakeAgain(t, woken))
      modifies this, mutex, notEmpty, notFull
      ensures Valid() && Value() == S.Next(old(Value()), S.TakeAgain(t, woken))
    {
      hide Monitor.Free, HeldBy, S.Inv, S.InWait, Wakes, S.TakeBody, Returned;
      ghost var s := Value();
      S.StepKeeps(s, S.TakeAgain(t, woken));
      WorkerReturns(s, t);
      ReturnSteps(mutex.Value(), t, S.InWait(s));
      notEmpty.Return(t);
      TakeAfterReturn(s, t, woken);
      TakeLoop(t, woken);
    }

    /** One pass of take's loop with the mutex held: block, or return with a task or, once stopped, with none. */
    method TakeLoop(t: Tid, woken: set<Tid>)
      requires Locked(t) && Wakes(notFull.waiters, woken)
      modifies this, mutex, notEmpty, notFull
      ensures Free() && Value() == S.TakeBody(old(Value()), t, woken)
    {
      hide Monitor.Free, HeldBy, S.InWait, Both, Returned, Notified, Blocked, Wakes;
      ghost var s := Value();
      TakeWaits(s, mutex.Value(), t, woken);
      if |queue| == 0 && running {
        WaitSteps(mutex.Value(), t, S.InWait(s));
        notEmpty.Wait(t);
      } else {
        if |queue| == 0 {
          threads := threads[t := S.GotNone];
        } else {
          threads := threads[t := S.Got(|taken|)];
          taken := taken + [(t, queue[0])];
          queue := queue[1..];
          if maxQueueSize > 0 {
            notFull.Notify(woken);
          }
        }
        UnlockSteps(mutex.Value(), t, S.InWait(s));
        mutex.Unlock(t);
      }
    }

    /** The worker starts on the task it was given, or goes round its loop when there is none or it is empty. */
    method Begin(t: Tid)
      requires Valid() && S.Enabled(Value(), S.Begin(t))
      modifies this
      ensures Valid() && Value() == S.Next(old(Value()), S.Begin(t))
    {
      hide Monitor.Free, S.Inv, S.InWait;
      S.StepKeeps(Value(), S.Begin(t));
      var pc := threads[t];
      if pc.Got? && taken[pc.k].1.Job? {
        if !running {
          late := late[t := S.Late(Value(), t) + 1];
        }
        begun, threads := begun + [pc.k], threads[t := S.Executing(pc.k)];
      } else {
        if pc.Got? {
          begun := begun + [pc.k];
        }
        threads := threads[t := S.Top];
      }
      SameWait(old(Value()), Value());
    }

    method Finish(t: Tid)
      requires Valid() && S.Enabled(Value(), S.Finish(t))
      modifies this
      ensures Valid() && Value() == S.Next(old(Value()), S.Finish(t))
    {
      hide Monitor.Free, S.Inv, S.InWait;
      S.StepKeeps(Value(), S.Finish(t));
      threads := threads[t := S.Top];
      SameWait(old(Value()), Value());
    }
  }

  // ---- Who is in a wait ----

  lemma SameWait(s: S.State, n: S.State)
    requires s.notEmpty == n.notEmpty && s.notFull == n.notFull
    ensures S.InWait(s) == S.InWait(n)
  {
  }

  lemma StopWaits(s: S.State)
    ensures S.InWait(s.(running := false, notEmpty := Notified(s.notEmpty, s.notEmpty.waiting))) == S.InWait(s)
  {
  }

  lemma CallerReturns(s: S.State, t: Tid)
    requires S.Inv(s) && t in s.notFull.signalled
    ensures t in S.InWait(s) && S.InWait(s.(notFull := Returned(s.notFull, t))) == S.InWait(s) - {t}
  {
  }

  lemma WorkerReturns(s: S.State, t: Tid)
    requires S.Inv(s) && t in s.notEmpty.signalled
    ensures t in S.InWait(s) && S.InWait(s.(notEmpty := Returned(s.notEmpty, t))) == S.InWait(s) - {t}
  {
  }

  lemma RunWaits(s: S.State, m: Mutex, t: Tid, task: S.Task, woken: set<Tid>)
    requires HeldBy(m, t, S.InWait(s)) && Wakes(s.notEmpty, woken)
    ensures S.InWait(S.RunBody(s, t, task, woken)) == if S.IsFull(s) then S.InWait(s) + {t} else S.InWait(s)
    ensures t !in S.InWait(s) && Returned(s.notFull, t) == s.notFull
  {
  }

  lemma TakeWaits(s: S.State, m: Mutex, t: Tid, woken: set<Tid>)
    requires HeldBy(m, t, S.InWait(s)) && Wakes(s.notFull, woken)
    ensures S.InWait(S.TakeBody(s, t, woken))
         == if |s.queue| == 0 && s.running then S.InWait(s) + {t} else S.InWait(s)
    ensures t !in S.InWait(s) && Returned(s.notEmpty, t) == s.notEmpty
  {
  }

  /** A thread that left the signalled set on its return acts as one that is still in it. */
  lemma RunAfterReturn(s: S.State, t: Tid, task: S.Task, woken: set<Tid>)
    ensures S.RunBody(s.(notFull := Returned(s.notFull, t)), t, task, woken) == S.RunBody(s, t, task, woken)
  {
  }

  lemma TakeAfterReturn(s: S.State, t: Tid, woken: set<Tid>)
    ensures S.TakeBody(s.(notEmpty := Returned(s.notEmpty, t)), t, woken) == S.TakeBody(s, t, woken)
  {
  }
}
