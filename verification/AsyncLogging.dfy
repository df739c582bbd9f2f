/** The double-buffered logger as atomic steps: what the shared state holds and what every run keeps. */
module AsyncLoggingSpec {
  import opened Seqs

  const LARGE_BUFFER := 8000 * 1000
  const MAX_BATCH := 25

  /** A buffer is the list of lines in it. */
  type Buf = seq<string>

  function Size(b: Buf): nat {
    |Flatten(b)|
  }

  /** Where the backend thread stands. */
  datatype Pc = Off | Launched | Top | Lock | Waiting | Swapped | Writing(next: nat) | Done

  /** What goes to the log file: a buffer, or the notice that so many buffers were dropped. */
  datatype Chunk = Data(buf: Buf) | Notice(dropped: nat)

  /**
   * The shared state, the backend's locals, and three histories: what was output, the batches swapped out
   * so far (the current one last), and the lines that were accepted.
   */
  datatype State = State(
    running: bool, latchOpen: bool, pc: Pc,
    cur: Buf, hasNext: bool, buffers: seq<Buf>,
    hasNew1: bool, hasNew2: bool, toWrite: seq<Buf>,
    output: seq<Chunk>, batches: seq<seq<Buf>>, accepted: seq<string>)

  datatype Event = Append(line: string) | Start | Stop | Begin | Test | Enter | Wake | Check | WriteOne | Recycle

  const INIT := State(false, false, Off, [], true, [], false, false, [], [], [], [])

  // ---- Steps ----

  function DoAppend(s: State, line: string): State {
    if LARGE_BUFFER - Size(s.cur) > |line| then
      s.(cur := s.cur + [line], accepted := s.accepted + [line])
    else
      // A full buffer is queued; a line as long as a whole buffer fits in no buffer and is lost.
      var kept := if |line| < LARGE_BUFFER then [line] else [];
      s.(buffers := s.buffers + [s.cur], hasNext := false, cur := kept, accepted := s.accepted + kept)
  }

  function Swap(s: State): State {
    var batch := s.buffers + [s.cur];
    s.(pc := Swapped, buffers := [], cur := [], hasNew1 := false, toWrite := batch, batches := s.batches + [batch],
       hasNew2 := s.hasNext && s.hasNew2, hasNext := s.hasNext || s.hasNew2)
  }

  predicate Enabled(s: State, e: Event) {
    match e
    case Append(_) => true
    case Start => s.pc == Off
    case Stop => s.latchOpen
    case Begin => s.pc == Launched
    case Test => s.pc == Top
    case Enter => s.pc == Lock
    case Wake => s.pc == Waiting
    case Check => s.pc == Swapped
    case WriteOne => s.pc.Writing? && s.pc.next < |s.toWrite|
    case Recycle => s.pc.Writing? && s.pc.next == |s.toWrite|
  }

  function Next(s: State, e: Event): State
    requires Enabled(s, e)
  {
    match e
    case Append(line) => DoAppend(s, line)
    case Start => s.(running := true, pc := Launched)
    case Stop => s.(running := false)
    case Begin => s.(latchOpen := true, hasNew1 := true, hasNew2 := true, pc := Top)
    case Test => s.(pc := if s.running then Lock else Done)
    case Enter => if |s.buffers| == 0 then s.(pc := Waiting) else Swap(s)
    case Wake => Swap(s)
    case Check =>
      if |s.toWrite| > MAX_BATCH then
        s.(output := s.output + [Notice(|s.toWrite| - 2)], toWrite := s.toWrite[..2], pc := Writing(0))
      else s.(pc := Writing(0))
    case WriteOne => s.(output := s.output + [Data(s.toWrite[s.pc.next])], pc := Writing(s.pc.next + 1))
    case Recycle => s.(hasNew1 := true, hasNew2 := true, toWrite := [], pc := Top)
  }

  // ---- What the output must be ----

  function Datas(bufs: seq<Buf>): (r: seq<Chunk>)
    ensures |r| == |bufs|
  {
    seq(|bufs|, i requires 0 <= i < |bufs| => Data(bufs[i]))
  }

  /** The buffers of a batch that are written: all of them, or the first two of more than 25. */
  function Kept(batch: seq<Buf>): seq<Buf> {
    if |batch| > MAX_BATCH then batch[..2] else batch
  }

  function Notices(batch: seq<Buf>): seq<Chunk> {
    if |batch| > MAX_BATCH then [Notice(|batch| - 2)] else []
  }

  function BatchOutput(batch: seq<Buf>): seq<Chunk> {
    Notices(batch) + Datas(Kept(batch))
  }

  function AllOutput(batches: seq<seq<Buf>>): seq<Chunk> {
    if |batches| == 0 then [] else AllOutput(batches[..|batches| - 1]) + BatchOutput(batches[|batches| - 1])
  }

  predicate InRound(pc: Pc) {
    pc == Swapped || pc.Writing?
  }

  /** The output that the batches account for at this point of the round. */
  function OutputSoFar(pc: Pc, batches: seq<seq<Buf>>): seq<Chunk> {
    if !InRound(pc) || |batches| == 0 then AllOutput(batches)
    else AllOutput(batches[..|batches| - 1]) + BatchSoFar(pc, batches[|batches| - 1])
  }

  function BatchSoFar(pc: Pc, batch: seq<Buf>): seq<Chunk> {
    if pc.Writing? && pc.next <= |Kept(batch)| then Notices(batch) + Datas(Kept(batch)[..pc.next]) else []
  }

  // ---- The invariant ----

  /** Spare buffers and recycling. */
  predicate SpareInv(s: State) {
    && (!s.hasNext ==> |s.buffers| > 0)
    && (s.latchOpen <==> s.pc != Off && s.pc != Launched)
    && (s.pc == Launched ==> s.running)
    && (!s.latchOpen ==> !s.hasNew1 && !s.hasNew2)
    && (s.latchOpen && !InRound(s.pc) ==> s.hasNew1 && s.hasNew2)
    && (!InRound(s.pc) ==> s.toWrite == [])
    && (InRound(s.pc) ==> !s.hasNew1 && |s.toWrite| >= (if s.hasNew2 then 1 else 2) && |s.batches| > 0)
    && (s.pc == Swapped ==> s.toWrite == s.batches[|s.batches| - 1])
    && (s.pc.Writing? ==> s.toWrite == Kept(s.batches[|s.batches| - 1]) && s.pc.next <= |s.toWrite|)
  }

  predicate BuffersFit(s: State) {
    && Size(s.cur) < LARGE_BUFFER
    && (forall i :: 0 <= i < |s.buffers| ==> Size(s.buffers[i]) < LARGE_BUFFER)
    && (forall i :: 0 <= i < |s.toWrite| ==> Size(s.toWrite[i]) < LARGE_BUFFER)
  }

  /** The accepted lines are those of the batches, the queue and the current buffer, in this order. */
  predicate StreamInv(s: State) {
    s.accepted == Flatten(Flatten(s.batches)) + Flatten(s.buffers) + s.cur
  }

  predicate Inv(s: State) {
    SpareInv(s) && BuffersFit(s) && StreamInv(s) && s.output == OutputSoFar(s.pc, s.batches)
  }

  lemma SizeOne(b: Buf, line: string)
    ensures Size(b + [line]) == Size(b) + |line|
    ensures Size([]) == 0
  {
    FlattenOne(b, line);
  }

  lemma Regroup<T>(a: seq<T>, b: seq<T>, c: seq<T>, d: seq<T>)
    ensures a + (b + c) + d == ((a + b) + c) + d
    ensures (a + (b + c)) + [] + [] == (a + b) + c
  {
  }

  lemma AppendStream(s: State, line: string)
    requires StreamInv(s)
    ensures StreamInv(DoAppend(s, line))
  {
    FlattenOne(s.buffers, s.cur);
    hide Flatten, Size;
    var a, b := Flatten(Flatten(s.batches)), Flatten(s.buffers);
    var t := DoAppend(s, line);
    if LARGE_BUFFER - Size(s.cur) > |line| {
      assert (a + b + s.cur) + [line] == a + b + (s.cur + [line]);
    } else {
      Regroup(a, b, s.cur, t.cur);
    }
  }

  lemma AppendFits(s: State, line: string)
    requires BuffersFit(s)
    ensures BuffersFit(DoAppend(s, line))
  {
    SizeOne(s.cur, line);
    SizeOne([], line);
    assert [] + [line] == [line];
    hide Size;
  }

  lemma AppendSpare(s: State, line: string)
    requires SpareInv(s)
    ensures SpareInv(DoAppend(s, line))
  {
    hide Size, Kept, Flatten;
  }

  lemma AppendKeeps(s: State, line: string)
    requires Inv(s)
    ensures Inv(DoAppend(s, line))
  {
    AppendStream(s, line);
    AppendFits(s, line);
    AppendSpare(s, line);
    var t := DoAppend(s, line);
    assert t.pc == s.pc && t.batches == s.batches && t.output == s.output;
    hide StreamInv, BuffersFit, SpareInv, OutputSoFar, DoAppend;
  }

  lemma SwapStream(s: State)
    requires StreamInv(s)
    ensures StreamInv(Swap(s))
  {
    var batch := s.buffers + [s.cur];
    FlattenOne(s.batches, batch);
    FlattenConcat(Flatten(s.batches), batch);
    FlattenOne(s.buffers, s.cur);
    assert Flatten<Buf>([]) == [] && Flatten<string>([]) == [];
    hide Flatten;
    Regroup(Flatten(Flatten(s.batches)), Flatten(s.buffers), s.cur, []);
  }

  lemma SwapSpare(s: State)
    requires SpareInv(s) && (s.pc == Lock || s.pc == Waiting)
    ensures SpareInv(Swap(s))
  {
  }

  lemma SwapFits(s: State)
    requires BuffersFit(s)
    ensures BuffersFit(Swap(s))
  {
    SizeOne([], "");
    hide Size;
  }

  /** A round begins with nothing of its batch put out. */
  lemma SwapOutput(pc: Pc, batches: seq<seq<Buf>>, batch: seq<Buf>)
    requires !InRound(pc)
    ensures OutputSoFar(Swapped, batches + [batch]) == OutputSoFar(pc, batches)
  {
    assert (batches + [batch])[..|batches|] == batches;
    NoBatchYet(batch);
    hide AllOutput, BatchSoFar;
    assert AllOutput(batches) + [] == AllOutput(batches);
  }

  lemma SwapKeeps(s: State)
    requires Inv(s) && (s.pc == Lock || s.pc == Waiting)
    ensures Inv(Swap(s))
  {
    hide StreamInv, BuffersFit, SpareInv, OutputSoFar;
    SwapStream(s);
    SwapSpare(s);
    SwapFits(s);
    SwapOutput(s.pc, s.batches, s.buffers + [s.cur]);
  }

  lemma CheckSpare(s: State)
    requires SpareInv(s) && s.pc == Swapped
    ensures SpareInv(Next(s, Check)) && |s.batches| > 0 && s.toWrite == s.batches[|s.batches| - 1]
  {
  }

  lemma CheckFits(s: State)
    requires BuffersFit(s) && s.pc == Swapped
    ensures BuffersFit(Next(s, Check))
  {
    hide Size;
  }

  lemma SameStream(s: State, t: State)
    requires StreamInv(s) && t.accepted == s.accepted && t.batches == s.batches && t.buffers == s.buffers && t.cur == s.cur
    ensures StreamInv(t)
  {
  }

  /** Where the writing starts the notice is out. */
  lemma CheckOutput(batches: seq<seq<Buf>>)
    requires |batches| > 0
    ensures OutputSoFar(Writing(0), batches) == OutputSoFar(Swapped, batches) + Notices(batches[|batches| - 1])
  {
    hide AllOutput, Notices, Kept;
    var batch := batches[|batches| - 1];
    assert Datas(Kept(batch)[..0]) == [];
    assert BatchSoFar(Writing(0), batch) == Notices(batch);
    hide BatchSoFar;
    assert BatchSoFar(Swapped, batch) == [] by {
      NoBatchYet(batch);
    }
  }

  lemma NoBatchYet(batch: seq<Buf>)
    ensures BatchSoFar(Swapped, batch) == []
  {
  }

  lemma CheckKeeps(s: State)
    requires Inv(s) && s.pc == Swapped
    ensures Inv(Next(s, Check))
  {
    hide StreamInv, BuffersFit, SpareInv, Size, AllOutput, Flatten, Kept, Datas, OutputSoFar;
    var t := Next(s, Check);
    CheckSpare(s);
    CheckFits(s);
    SameStream(s, t);
    CheckOutput(s.batches);
    assert s.output + [] == s.output;
  }

  /** The buffer to be written next. */
  function NextBuffer(s: State): Buf {
    if s.pc.Writing? && s.pc.next < |s.toWrite| then s.toWrite[s.pc.next] else []
  }

  lemma WriteSpare(s: State)
    requires SpareInv(s) && Enabled(s, WriteOne)
    ensures SpareInv(Next(s, WriteOne)) && |s.batches| > 0 && s.toWrite == Kept(s.batches[|s.batches| - 1])
  {
    hide Kept;
  }

  lemma WriteOutput(pc: Pc, batches: seq<seq<Buf>>)
    requires pc.Writing? && |batches| > 0 && pc.next < |Kept(batches[|batches| - 1])|
    ensures OutputSoFar(Writing(pc.next + 1), batches)
         == OutputSoFar(pc, batches) + [Data(Kept(batches[|batches| - 1])[pc.next])]
  {
    var init, batch := batches[..|batches| - 1], batches[|batches| - 1];
    OneMoreOut(pc, batch);
    hide Kept, AllOutput, BatchSoFar;
    Associates(AllOutput(init), BatchSoFar(pc, batch), [Data(Kept(batch)[pc.next])]);
  }

  lemma OneMoreOut(pc: Pc, batch: seq<Buf>)
    requires pc.Writing? && pc.next < |Kept(batch)|
    ensures BatchSoFar(Writing(pc.next + 1), batch) == BatchSoFar(pc, batch) + [Data(Kept(batch)[pc.next])]
  {
    hide Kept, Notices;
    var kept := Kept(batch);
    assert Datas(kept[..pc.next + 1]) == Datas(kept[..pc.next]) + [Data(kept[pc.next])];
    Associates(Notices(batch), Datas(kept[..pc.next]), [Data(kept[pc.next])]);
  }

  lemma WriteKeeps(s: State)
    requires Inv(s) && Enabled(s, WriteOne)
    ensures Inv(Next(s, WriteOne))
  {
    hide StreamInv, BuffersFit, SpareInv, Kept, OutputSoFar, Size, Flatten;
    var t := Next(s, WriteOne);
    WriteSpare(s);
    WriteOutput(s.pc, s.batches);
    SameStream(s, t);
    SameBuffers(s, t);
  }

  lemma RecycleSpare(s: State)
    requires SpareInv(s) && Enabled(s, Recycle)
    ensures SpareInv(Next(s, Recycle))
    ensures |s.batches| > 0 && s.pc.next == |Kept(s.batches[|s.batches| - 1])|
  {
    hide Kept;
  }

  lemma RecycleFits(s: State)
    requires BuffersFit(s) && Enabled(s, Recycle)
    ensures BuffersFit(Next(s, Recycle))
  {
    hide Size;
  }

  /** At the end of the writing the batch is out as a whole. */
  lemma RecycleOutput(batches: seq<seq<Buf>>)
    requires |batches| > 0
    ensures OutputSoFar(Writing(|Kept(batches[|batches| - 1])|), batches) == OutputSoFar(Top, batches)
  {
    hide Datas, Kept, Notices;
    var batch := batches[|batches| - 1];
    assert Kept(batch)[..|Kept(batch)|] == Kept(batch);
  }

  lemma RecycleKeeps(s: State)
    requires Inv(s) && Enabled(s, Recycle)
    ensures Inv(Next(s, Recycle))
  {
    hide StreamInv, BuffersFit, SpareInv, Size, AllOutput, Flatten, Kept, OutputSoFar;
    var t := Next(s, Recycle);
    RecycleSpare(s);
    RecycleFits(s);
    SameStream(s, t);
    RecycleOutput(s.batches);
  }

  /** The steps that move no lines: starting, stopping, the backend's tests, and going to wait. */
  lemma QuietKeeps(s: State, e: Event)
    requires Inv(s) && Enabled(s, e)
    requires e == Start || e == Stop || e == Begin || e == Test || (e == Enter && |s.buffers| == 0)
    ensures Inv(Next(s, e))
  {
    hide BuffersFit, Kept, AllOutput, Flatten, Size;
    SameStream(s, Next(s, e));
    SameBuffers(s, Next(s, e));
  }

  lemma SameBuffers(s: State, t: State)
    requires BuffersFit(s) && t.cur == s.cur && t.buffers == s.buffers && t.toWrite == s.toWrite
    ensures BuffersFit(t)
  {
  }

  lemma StepKeeps(s: State, e: Event)
    requires Inv(s) && Enabled(s, e)
    ensures Inv(Next(s, e))
  {
    hide Inv, Swap, DoAppend;
    match e
    case Append(line) => AppendKeeps(s, line);
    case Enter => if |s.buffers| > 0 { SwapKeeps(s); } else { QuietKeeps(s, e); }
    case Wake => SwapKeeps(s);
    case Check => CheckKeeps(s);
    case WriteOne => WriteKeeps(s);
    case Recycle => RecycleKeeps(s);
    case _ => QuietKeeps(s, e);
  }

  // ---- Whole runs ----

  /** Appenders, the owner and the backend in any interleaving; an event whose step is not enabled does nothing. */
  function After(events: seq<Event>): State {
    if |events| == 0 then INIT
    else
      var s := After(events[..|events| - 1]);
      var e := events[|events| - 1];
      if Enabled(s, e) then Next(s, e) else s
  }

  lemma InitKeeps()
    ensures Inv(INIT)
  {
    SizeOne([], "");
  }

  lemma {:induction false} RunKeeps(events: seq<Event>)
    ensures Inv(After(events))
  {
    if |events| > 0 {
      var s, e := After(events[..|events| - 1]), events[|events| - 1];
      RunKeeps(events[..|events| - 1]);
      hide Inv, Next;
      if Enabled(s, e) {
        StepKeeps(s, e);
      }
    } else {
      InitKeeps();
    }
  }

  // ---- What every run delivers ----

  /** The appended lines that fit a buffer. */
  function Fitting(events: seq<Event>): seq<string> {
    if |events| == 0 then []
    else
      var init, e := Fitting(events[..|events| - 1]), events[|events| - 1];
      if e.Append? && |e.line| < LARGE_BUFFER then init + [e.line] else init
  }

  lemma AcceptedStep(s: State, e: Event)
    requires Enabled(s, e)
    ensures Next(s, e).accepted
         == if e.Append? && |e.line| < LARGE_BUFFER then s.accepted + [e.line] else s.accepted
  {
    hide Size;
  }

  /** Every line shorter than a whole buffer is accepted, and nothing else is. */
  lemma {:induction false} AcceptedAreFitting(events: seq<Event>)
    ensures After(events).accepted == Fitting(events)
  {
    if |events| > 0 {
      var s, e := After(events[..|events| - 1]), events[|events| - 1];
      AcceptedAreFitting(events[..|events| - 1]);
      if Enabled(s, e) {
        AcceptedStep(s, e);
      }
      hide Next;
    }
  }

  /** The lines in what was output, notices aside. */
  function OutputLines(output: seq<Chunk>): seq<string> {
    if |output| == 0 then []
    else
      var init, c := OutputLines(output[..|output| - 1]), output[|output| - 1];
      if c.Data? then init + c.buf else init
  }

  /** Batches without what is dropped: in one of more than 25 buffers, the buffers after the first two. */
  function KeptBuffers(batches: seq<seq<Buf>>): seq<Buf> {
    if |batches| == 0 then [] else KeptBuffers(batches[..|batches| - 1]) + Kept(batches[|batches| - 1])
  }

  /** The buffers of the current round that are still to be written. */
  function Unwritten(s: State): seq<Buf> {
    if s.pc == Swapped then Kept(s.toWrite)
    else if s.pc.Writing? && s.pc.next <= |s.toWrite| then s.toWrite[s.pc.next..]
    else []
  }

  lemma {:induction false} OutputLinesConcat(a: seq<Chunk>, b: seq<Chunk>)
    ensures OutputLines(a + b) == OutputLines(a) + OutputLines(b)
  {
    if |b| == 0 {
      assert a + b == a;
    } else {
      var n := |b| - 1;
      OutputLinesConcat(a, b[..n]);
      assert (a + b)[..|a + b| - 1] == a + b[..n];
      assert (a + b)[|a + b| - 1] == b[n];
    }
  }

  lemma {:induction false} DatasLines(bufs: seq<Buf>)
    ensures OutputLines(Datas(bufs)) == Flatten(bufs)
  {
    if |bufs| > 0 {
      var n := |bufs| - 1;
      DatasLines(bufs[..n]);
      assert Datas(bufs)[..n] == Datas(bufs[..n]);
      FlattenOne(bufs[..n], bufs[n]);
      assert bufs == bufs[..n] + [bufs[n]];
    }
  }

  lemma NoticesLines(batch: seq<Buf>, bufs: seq<Buf>)
    ensures OutputLines(Notices(batch) + Datas(bufs)) == Flatten(bufs)
  {
    OutputLinesConcat(Notices(batch), Datas(bufs));
    DatasLines(bufs);
    assert OutputLines(Notices(batch)) == [] by {
      if |batch| > MAX_BATCH {
        assert Notices(batch)[..0] == [];
      }
    }
  }

  lemma {:induction false} AllOutputLines(batches: seq<seq<Buf>>)
    ensures OutputLines(AllOutput(batches)) == Flatten(KeptBuffers(batches))
  {
    if |batches| > 0 {
      var init, batch := batches[..|batches| - 1], batches[|batches| - 1];
      AllOutputLines(init);
      OutputLinesConcat(AllOutput(init), BatchOutput(batch));
      NoticesLines(batch, Kept(batch));
      FlattenConcat(KeptBuffers(init), Kept(batch));
    }
  }

  /** In every run, what was written and what is still to be written are the kept buffers of all batches, in order. */
  lemma OutputIsKept(events: seq<Event>)
    ensures var s := After(events);
            OutputLines(s.output) + Flatten(Unwritten(s)) == Flatten(KeptBuffers(s.batches))
  {
    var s := After(events);
    RunKeeps(events);
    if InRound(s.pc) {
      RoundOutputIsKept(s);
    } else {
      AllOutputLines(s.batches);
    }
  }

  lemma RoundOutputIsKept(s: State)
    requires SpareInv(s) && InRound(s.pc) && s.output == OutputSoFar(s.pc, s.batches)
    ensures OutputLines(s.output) + Flatten(Unwritten(s)) == Flatten(KeptBuffers(s.batches))
  {
    var init, batch := s.batches[..|s.batches| - 1], s.batches[|s.batches| - 1];
    AllOutputLines(init);
    OutputLinesConcat(AllOutput(init), BatchSoFar(s.pc, batch));
    FlattenConcat(KeptBuffers(init), Kept(batch));
    BatchLines(s.pc, batch);
    assert Unwritten(s) == Rest(s.pc, Kept(batch));
    assert KeptBuffers(s.batches) == KeptBuffers(init) + Kept(batch);
    hide AllOutput, Flatten, KeptBuffers, Kept, BatchSoFar, Unwritten;
    Associates(OutputLines(AllOutput(init)), OutputLines(BatchSoFar(s.pc, batch)), Flatten(Rest(s.pc, Kept(batch))));
  }

  /** What is left of the kept buffers. */
  function Rest(pc: Pc, kept: seq<Buf>): seq<Buf> {
    if pc.Writing? && pc.next <= |kept| then kept[pc.next..] else kept
  }

  lemma BatchLines(pc: Pc, batch: seq<Buf>)
    requires pc == Swapped || (pc.Writing? && pc.next <= |Kept(batch)|)
    ensures OutputLines(BatchSoFar(pc, batch)) + Flatten(Rest(pc, Kept(batch))) == Flatten(Kept(batch))
  {
    var kept := Kept(batch);
    if pc.Writing? {
      NoticesLines(batch, kept[..pc.next]);
      FlattenConcat(kept[..pc.next], kept[pc.next..]);
      assert kept == kept[..pc.next] + kept[pc.next..];
    }
  }

  /** No batch was longer than 25 buffers. */
  predicate NoDrops(batches: seq<seq<Buf>>) {
    forall i :: 0 <= i < |batches| ==> |batches[i]| <= MAX_BATCH
  }

  lemma {:induction false} KeptIsAll(batches: seq<seq<Buf>>)
    requires NoDrops(batches)
    ensures KeptBuffers(batches) == Flatten(batches)
  {
    if |batches| > 0 {
      var init, batch := batches[..|batches| - 1], batches[|batches| - 1];
      KeptIsAll(init);
      FlattenOne(init, batch);
      assert batches == init + [batch];
    }
  }

  /**
   * Conservation: while no batch exceeds 25 buffers, output, unwritten buffers, queue and current buffer
   * hold exactly the accepted lines, in order and whole.
   */
  lemma NothingLost(events: seq<Event>)
    requires NoDrops(After(events).batches)
    ensures var s := After(events);
            Fitting(events) == OutputLines(s.output) + Flatten(Unwritten(s)) + Flatten(s.buffers) + s.cur
  {
    RunKeeps(events);
    AcceptedAreFitting(events);
    OutputIsKept(events);
    KeptIsAll(After(events).batches);
  }

  /** When the backend has exited, the output is a prefix of the accepted lines; the rest waits in queue and current buffer. */
  lemma TailAtExit(events: seq<Event>)
    requires After(events).pc == Done && NoDrops(After(events).batches)
    ensures var s := After(events);
            OutputLines(s.output) <= Fitting(events)
            && Fitting(events)[|OutputLines(s.output)|..] == Flatten(s.buffers) + s.cur
  {
    var s := After(events);
    NothingLost(events);
    assert Flatten(Unwritten(s)) == [];
    PrefixAndRest(OutputLines(s.output), Flatten(s.buffers), s.cur);
  }

  /** Whether the event is a locked section that takes the queue. */
  predicate Swaps(s: State, e: Event) {
    Enabled(s, e) && (e == Wake || (e == Enter && |s.buffers| > 0))
  }

  /** The fitting lines appended after the last locked section that took the queue. */
  function SinceSwap(events: seq<Event>): seq<string> {
    if |events| == 0 then []
    else
      var init, e := events[..|events| - 1], events[|events| - 1];
      if Swaps(After(init), e) then []
      else if e.Append? && |e.line| < LARGE_BUFFER then SinceSwap(init) + [e.line]
      else SinceSwap(init)
  }

  lemma QueueStep(s: State, e: Event)
    requires Enabled(s, e)
    ensures var before, n := Flatten(s.buffers) + s.cur, Next(s, e);
            Flatten(n.buffers) + n.cur
            == if Swaps(s, e) then [] else if e.Append? && |e.line| < LARGE_BUFFER then before + [e.line] else before
  {
    NothingYet();
    hide Flatten, Size, DoAppend;
    match e
    case Append(line) => AppendedLast(s, line);
    case _ =>
  }

  lemma AppendedLast(s: State, line: string)
    ensures var n := DoAppend(s, line);
            Flatten(n.buffers) + n.cur
            == if |line| < LARGE_BUFFER then Flatten(s.buffers) + s.cur + [line] else Flatten(s.buffers) + s.cur
  {
    FlattenOne(s.buffers, s.cur);
    hide Flatten, Size;
    var q := Flatten(s.buffers);
    assert (q + s.cur) + [line] == q + (s.cur + [line]) && (q + s.cur) + [] == q + s.cur;
    SizeIsNat(s.cur);
  }

  lemma SizeIsNat(b: Buf)
    ensures Size(b) >= 0
  {
  }

  /** In every run queue and current buffer hold exactly these lines. */
  lemma {:induction false} QueueIsSinceSwap(events: seq<Event>)
    ensures Flatten(After(events).buffers) + After(events).cur == SinceSwap(events)
  {
    hide Next, Enabled, Flatten, Swaps;
    if |events| == 0 {
      NothingYet();
    } else {
      var init, e := events[..|events| - 1], events[|events| - 1];
      QueueIsSinceSwap(init);
      if Enabled(After(init), e) {
        QueueStep(After(init), e);
      } else {
        NotEnabled(After(init), e);
      }
    }
  }

  lemma NothingYet()
    ensures Flatten<string>([]) + [] == []
  {
  }

  lemma NotEnabled(s: State, e: Event)
    requires !Enabled(s, e)
    ensures !Swaps(s, e) && !e.Append?
  {
  }

  /** So, without drops, everything is written at exit if and only if nothing that fits was appended after the last one. */
  lemma AllWrittenExactly(events: seq<Event>)
    requires After(events).pc == Done && NoDrops(After(events).batches)
    ensures OutputLines(After(events).output) == Fitting(events) <==> SinceSwap(events) == []
    ensures OutputLines(After(events).output) + SinceSwap(events) == Fitting(events)
  {
    hide Flatten, OutputLines, Fitting, After, SinceSwap, NoDrops;
    TailAtExit(events);
    QueueIsSinceSwap(events);
    WholeAndRest(OutputLines(After(events).output), SinceSwap(events), Fitting(events));
  }

  lemma WholeAndRest<T>(a: seq<T>, b: seq<T>, all: seq<T>)
    requires a <= all && all[|a|..] == b
    ensures a + b == all && (a == all <==> b == [])
  {
  }

  lemma PrefixAndRest<T>(a: seq<T>, b: seq<T>, c: seq<T>)
    ensures a <= a + [] + b + c && (a + [] + b + c)[|a|..] == b + c
  {
  }

  // ---- How the lines are packed ----

  /**
   * Appended lines in groups, one for each buffer. A group after the first begins with a line for which the buffer
   * before it had no room; that line alone is left out if it is as long as a whole buffer.
   */
  predicate Packs(groups: seq<seq<string>>, bufs: seq<Buf>) {
    && |groups| == |bufs| > 0 && groups[0] == bufs[0]
    && (forall i :: 0 <= i < |bufs| ==> Size(bufs[i]) < LARGE_BUFFER)
    && (forall i :: 1 <= i < |bufs| ==> Follows(bufs[i - 1], groups[i], bufs[i]))
  }

  predicate Follows(before: Buf, group: seq<string>, buf: Buf) {
    && |group| > 0 && Size(before) + |group[0]| >= LARGE_BUFFER
    && buf == if |group[0]| < LARGE_BUFFER then group else group[1..]
  }

  /** The packing with one line more: it joins the last buffer, or goes into the next one. */
  function MoreGroups(groups: seq<seq<string>>, bufs: seq<Buf>, line: string): seq<seq<string>>
    requires Packs(groups, bufs)
  {
    if Size(Last(bufs)) + |line| < LARGE_BUFFER then Init(groups) + [Last(groups) + [line]] else groups + [[line]]
  }

  function MoreBufs(bufs: seq<Buf>, line: string): seq<Buf>
    requires |bufs| > 0
  {
    if Size(Last(bufs)) + |line| < LARGE_BUFFER then Init(bufs) + [Last(bufs) + [line]]
    else bufs + [if |line| < LARGE_BUFFER then [line] else []]
  }

  /** A packing is that of all but the last buffer, and the last one follows. */
  lemma PacksSplit(groups: seq<seq<string>>, bufs: seq<Buf>)
    requires |groups| == |bufs| > 1
    ensures Packs(groups, bufs) <==>
      && Packs(Init(groups), Init(bufs)) && Size(Last(bufs)) < LARGE_BUFFER
      && Follows(Last(Init(bufs)), Last(groups), Last(bufs))
  {
    hide Size, Follows;
    var n := |bufs| - 1;
    assert Init(bufs)[n - 1] == bufs[n - 1];
    if Packs(Init(groups), Init(bufs)) && Size(bufs[n]) < LARGE_BUFFER && Follows(bufs[n - 1], groups[n], bufs[n]) {
      forall i | 0 <= i < |bufs| ensures Size(bufs[i]) < LARGE_BUFFER {
        assert i < n ==> Init(bufs)[i] == bufs[i];
      }
      forall i | 1 <= i < |bufs| ensures Follows(bufs[i - 1], groups[i], bufs[i]) {
        assert i < n ==> Follows(Init(bufs)[i - 1], Init(groups)[i], Init(bufs)[i]);
      }
    }
  }

  lemma PacksShape(groups: seq<seq<string>>, bufs: seq<Buf>)
    requires Packs(groups, bufs)
    ensures |groups| == |bufs| > 0 && Size(Last(bufs)) < LARGE_BUFFER
  {
  }

  lemma FollowsShape(before: Buf, group: seq<string>, buf: Buf)
    requires Follows(before, group, buf)
    ensures |group| > 0
  {
  }

  lemma PacksOne(group: seq<string>, buf: Buf)
    ensures Packs([group], [buf]) <==> group == buf && Size(buf) < LARGE_BUFFER
  {
    hide Size;
    assert [group][0] == group && [buf][0] == buf;
  }

  lemma PacksMore(groups: seq<seq<string>>, bufs: seq<Buf>, line: string)
    requires Packs(groups, bufs)
    ensures Packs(MoreGroups(groups, bufs, line), MoreBufs(bufs, line))
    ensures Flatten(MoreGroups(groups, bufs, line)) == Flatten(groups) + [line]
  {
    SizeOne(Last(bufs), line);
    SizeOne([], line);
    assert [] + [line] == [line];
    var g, b := Last(groups), Last(bufs);
    hide Size, Flatten, Follows;
    if Size(b) + |line| < LARGE_BUFFER {
      FlattenLast(groups, line);
      InitLast(Init(groups), g + [line]);
      InitLast(Init(bufs), b + [line]);
      if |bufs| > 1 {
        PacksSplit(groups, bufs);
        JoinFollows(Last(Init(bufs)), g, b, line);
        PacksSplit(Init(groups) + [g + [line]], Init(bufs) + [b + [line]]);
      } else {
        PacksOne(g, b);
        PacksOne(g + [line], b + [line]);
        assert Init(groups) + [g + [line]] == [g + [line]] && Init(bufs) + [b + [line]] == [b + [line]];
      }
    } else {
      FlattenOne(groups, [line]);
      var next: Buf := if |line| < LARGE_BUFFER then [line] else [];
      InitLast(groups, [line]);
      InitLast(bufs, next);
      NextFollows(b, line);
      PacksSplit(groups + [[line]], bufs + [next]);
    }
  }

  lemma JoinFollows(before: Buf, group: seq<string>, buf: Buf, line: string)
    requires Follows(before, group, buf)
    ensures Follows(before, group + [line], buf + [line])
  {
    hide Size;
    assert (group + [line])[1..] == group[1..] + [line];
  }

  lemma NextFollows(before: Buf, line: string)
    requires Size(before) + |line| >= LARGE_BUFFER
    ensures Follows(before, [line], if |line| < LARGE_BUFFER then [line] else [])
  {
    hide Size;
    assert [line][1..] == [];
  }

  /** A group of two lines or more goes with its buffer after the last line is taken out as well. */
  lemma LessFollows(before: Buf, group: seq<string>, buf: Buf)
    requires Follows(before, group, buf) && |group| > 1
    ensures |buf| > 0 && Last(buf) == Last(group) && Follows(before, Init(group), Init(buf))
  {
    hide Size;
    assert Init(group)[1..] == Init(group[1..]);
  }

  /** A group of one line is that for which the buffer before had no room. */
  lemma OneFollows(before: Buf, group: seq<string>, buf: Buf)
    requires Follows(before, group, buf) && |group| == 1
    ensures group == [Last(group)] && Size(before) + |Last(group)| >= LARGE_BUFFER
    ensures buf == if |Last(group)| < LARGE_BUFFER then [Last(group)] else []
  {
    hide Size;
    assert group[1..] == [];
  }

  /** The other way round: the last line of a packing can be taken out again. */
  lemma PacksLess(groups: seq<seq<string>>, bufs: seq<Buf>)
    returns (g: seq<seq<string>>, b: seq<Buf>, line: string)
    requires Packs(groups, bufs) && Flatten(groups) != []
    ensures Packs(g, b) && Flatten(groups) == Flatten(g) + [line]
    ensures groups == MoreGroups(g, b, line) && bufs == MoreBufs(b, line)
  {
    hide Packs, Size, Follows, Flatten;
    PacksShape(groups, bufs);
    var gs, bs, group, buf := Init(groups), Init(bufs), Last(groups), Last(bufs);
    assert groups == gs + [group] && bufs == bs + [buf];
    if |bufs| > 1 {
      PacksSplit(groups, bufs);
      var before := Last(bs);
      FollowsShape(before, group, buf);
      line := Last(group);
      if |group| == 1 {
        g, b := gs, bs;
        OneFollows(before, group, buf);
        FlattenOne(gs, [line]);
        return;
      }
      LessFollows(before, group, buf);
    } else {
      PacksOne(group, buf);
      assert groups == [group] && bufs == [buf];
      OneGroup(group);
      line := Last(group);
    }
    LessLast(gs, group, bs, buf, line);
    g, b := gs + [Init(group)], bs + [Init(buf)];
    if |bufs| > 1 {
      InitLast(gs, Init(group));
      InitLast(bs, Init(buf));
      PacksSplit(g, b);
    } else {
      PacksOne(Init(group), Init(buf));
      assert g == [Init(group)] && b == [Init(buf)];
    }
  }

  lemma OneGroup(group: seq<string>)
    ensures Flatten([group]) == group
  {
    FlattenOne([], group);
    assert [] + [group] == [group];
  }

  lemma LessLast(gs: seq<seq<string>>, group: seq<string>, bs: seq<Buf>, buf: Buf, line: string)
    requires |group| > 0 && |buf| > 0 && line == Last(group) == Last(buf) && Size(buf) < LARGE_BUFFER
    ensures Size(Init(buf)) + |line| == Size(buf) && Size(Init(buf)) < LARGE_BUFFER
    ensures Flatten(gs + [group]) == Flatten(gs + [Init(group)]) + [line]
    ensures var b := bs + [Init(buf)]; Init(b) == bs && Last(b) == Init(buf) && MoreBufs(b, line) == bs + [buf]
    ensures var g := gs + [Init(group)];
      Init(g) == gs && Last(g) == Init(group) && gs + [Last(g) + [line]] == gs + [group]
  {
    SizeOne(Init(buf), line);
    hide Size;
    assert buf == Init(buf) + [line] && group == Init(group) + [line];
    FlattenLast(gs + [Init(group)], line);
    hide Flatten;
    InitLast(gs, Init(group));
    InitLast(bs, Init(buf));
  }

  lemma {:induction false} OnlyOneEmpty(groups: seq<seq<string>>, bufs: seq<Buf>)
    requires Packs(groups, bufs) && Flatten(groups) == []
    ensures groups == [[]] && bufs == [[]]
  {
    hide Size;
    assert |groups| > 1 ==> Follows(bufs[0], groups[1], bufs[1]);
    assert groups[0] == [];
  }

  /** The lines alone determine the buffers: there is one packing of them. */
  lemma {:induction false} PackingIsUnique(groups: seq<seq<string>>, bufs: seq<Buf>,
                                           others: seq<seq<string>>, otherBufs: seq<Buf>)
    requires Packs(groups, bufs) && Packs(others, otherBufs) && Flatten(groups) == Flatten(others)
    ensures groups == others && bufs == otherBufs
    decreases |Flatten(groups)|
  {
    hide Packs, Flatten, Size, MoreGroups, MoreBufs;
    if Flatten(groups) == [] {
      OnlyOneEmpty(groups, bufs);
      OnlyOneEmpty(others, otherBufs);
    } else {
      var g, b, line := PacksLess(groups, bufs);
      var h, c, last := PacksLess(others, otherBufs);
      assert (Flatten(g) + [line])[..|Flatten(g)|] == Flatten(g);
      assert (Flatten(h) + [last])[..|Flatten(h)|] == Flatten(h);
      assert line == (Flatten(g) + [line])[|Flatten(g)|] && last == (Flatten(h) + [last])[|Flatten(h)|];
      PackingIsUnique(g, b, h, c);
    }
  }

  /** All appended lines, those that fit no buffer included. */
  function Appended(events: seq<Event>): seq<string> {
    if |events| == 0 then []
    else
      var init, e := Appended(events[..|events| - 1]), events[|events| - 1];
      if e.Append? then init + [e.line] else init
  }

  /** Those after the last locked section that took the queue. */
  function LinesSince(events: seq<Event>): seq<string> {
    if |events| == 0 then []
    else
      var init, e := events[..|events| - 1], events[|events| - 1];
      if Swaps(After(init), e) then [] else if e.Append? then LinesSince(init) + [e.line] else LinesSince(init)
  }

  /** The groups of each batch and of the queue with the current buffer. */
  predicate Packed(s: State, past: seq<seq<seq<string>>>, now: seq<seq<string>>) {
    && |past| == |s.batches| && (forall i :: 0 <= i < |past| ==> Packs(past[i], s.batches[i]))
    && Packs(now, s.buffers + [s.cur])
  }

  /** Nothing is in the queue or the current buffer. */
  predicate Empty(s: State) {
    s.buffers == [] && s.cur == []
  }

  lemma PackedStep(s: State, e: Event, past: seq<seq<seq<string>>>, now: seq<seq<string>>)
    returns (past': seq<seq<seq<string>>>, now': seq<seq<string>>)
    requires Enabled(s, e) && Packed(s, past, now)
    ensures Packed(Next(s, e), past', now')
    ensures Swaps(s, e) ==> past' == past + [now] && now' == [[]]
    ensures !Swaps(s, e) ==> past' == past && Flatten(now') == if e.Append? then Flatten(now) + [e.line] else Flatten(now)
  {
    hide Packs, Flatten, MoreGroups, MoreBufs, Next;
    past', now' := past, now;
    if e.Append? {
      now' := MoreGroups(now, s.buffers + [s.cur], e.line);
      PacksMore(now, s.buffers + [s.cur], e.line);
      AppendedBufs(s, e.line);
    } else if Swaps(s, e) {
      past', now' := past + [now], [[]];
      SwappedBufs(s, e);
      EmptyPacks(Next(s, e));
    } else {
      QuietBufs(s, e);
    }
  }

  lemma SwappedBufs(s: State, e: Event)
    requires Swaps(s, e)
    ensures Empty(Next(s, e)) && Next(s, e).batches == s.batches + [s.buffers + [s.cur]]
  {
    hide Size;
  }

  lemma QuietBufs(s: State, e: Event)
    requires Enabled(s, e) && !Swaps(s, e) && !e.Append?
    ensures var n := Next(s, e); n.buffers == s.buffers && n.cur == s.cur && n.batches == s.batches
  {
    hide Size;
  }

  lemma EmptyPacks(s: State)
    requires Empty(s)
    ensures Packs([[]], s.buffers + [s.cur]) && Flatten<string>([[]]) == []
  {
    SizeOne([], "");
    FlattenOne<string>([], []);
    assert s.buffers + [s.cur] == [[]];
  }

  lemma AppendedBufs(s: State, line: string)
    ensures var n := Next(s, Append(line));
      n.buffers + [n.cur] == MoreBufs(s.buffers + [s.cur], line) && n.batches == s.batches
  {
    hide Size;
    assert Init(s.buffers + [s.cur]) == s.buffers && Last(s.buffers + [s.cur]) == s.cur;
  }

  /**
   * In every run the buffers of each batch, and those of the queue with the current one, are the packing of the
   * lines appended: whatever is appended goes into the buffer at hand while there is room, and nowhere else.
   */
  lemma {:induction false} RunPacks(events: seq<Event>)
    returns (past: seq<seq<seq<string>>>, now: seq<seq<string>>)
    ensures Packed(After(events), past, now)
    ensures Flatten(now) == LinesSince(events) && Flatten(Flatten(past)) + Flatten(now) == Appended(events)
  {
    assert Flatten<seq<string>>([]) == [] && Flatten<string>([]) == [];
    if |events| == 0 {
      past, now := [], [[]];
      EmptyPacks(INIT);
      hide Packs, Flatten;
    } else {
      var init, e := events[..|events| - 1], events[|events| - 1];
      var past0, now0 := RunPacks(init);
      past, now := past0, now0;
      hide Packed, Flatten, Next;
      if Enabled(After(init), e) {
        past, now := PackedStep(After(init), e, past0, now0);
        if Swaps(After(init), e) {
          FlattenOne(past0, now0);
          FlattenConcat(Flatten(past0), now0);
          EmptyPacks(INIT);
        } else if e.Append? {
          Associates(Flatten(Flatten(past0)), Flatten(now0), [e.line]);
        }
      } else {
        NotEnabled(After(init), e);
      }
    }
  }

  predicate NoneTooLong(lines: seq<string>) {
    forall i :: 0 <= i < |lines| ==> |lines[i]| < LARGE_BUFFER
  }

  /** No line that starts a buffer had room in the one before. */
  predicate Tight(bufs: seq<Buf>) {
    forall i :: 1 <= i < |bufs| ==> bufs[i] != [] && Size(bufs[i - 1]) + |bufs[i][0]| >= LARGE_BUFFER
  }

  lemma {:induction false} PartFits(groups: seq<seq<string>>, i: nat)
    requires i < |groups| && NoneTooLong(Flatten(groups))
    ensures NoneTooLong(groups[i])
  {
    BothFit(groups[0], Flatten(groups[1..]));
    if i > 0 {
      PartFits(groups[1..], i - 1);
    }
  }

  lemma PackedTight(groups: seq<seq<string>>, bufs: seq<Buf>)
    requires Packs(groups, bufs) && NoneTooLong(Flatten(groups))
    ensures Tight(bufs)
  {
    hide Size;
    forall i | 1 <= i < |bufs| ensures bufs[i] != [] && Size(bufs[i - 1]) + |bufs[i][0]| >= LARGE_BUFFER {
      assert Follows(bufs[i - 1], groups[i], bufs[i]);
      PartFits(groups, i);
    }
  }

  /** While no line is as long as a buffer, no buffer is started in queue or batch for a line that had room before. */
  lemma BuffersAreTight(events: seq<Event>)
    requires NoneTooLong(Appended(events))
    ensures Tight(After(events).buffers + [After(events).cur])
    ensures forall i :: 0 <= i < |After(events).batches| ==> Tight(After(events).batches[i])
  {
    var past, now := RunPacks(events);
    var s, flat := After(events), Flatten(past);
    hide After, Packs, Tight;
    BothFit(Flatten(flat), Flatten(now));
    PackedTight(now, s.buffers + [s.cur]);
    forall i | 0 <= i < |s.batches| ensures Tight(s.batches[i]) {
      GroupFits(past, i);
      PackedTight(past[i], s.batches[i]);
    }
  }

  lemma {:induction false} GroupFits(past: seq<seq<seq<string>>>, i: nat)
    requires i < |past| && NoneTooLong(Flatten(Flatten(past)))
    ensures NoneTooLong(Flatten(past[i]))
  {
    FlattenConcat(past[0], Flatten(past[1..]));
    assert Flatten(past) == past[0] + Flatten(past[1..]);
    hide Flatten;
    BothFit(Flatten(past[0]), Flatten(Flatten(past[1..])));
    if i > 0 {
      GroupFits(past[1..], i - 1);
    }
  }

  lemma BothFit(a: seq<string>, b: seq<string>)
    requires NoneTooLong(a + b)
    ensures NoneTooLong(a) && NoneTooLong(b)
  {
    assert a == (a + b)[..|a|] && b == (a + b)[|a|..];
  }

  // ---- How much it takes to have buffers dropped ----

  lemma SizeConcat(a: Buf, b: Buf)
    ensures Size(a + b) == Size(a) + Size(b)
  {
    FlattenConcat(a, b);
  }

  lemma SizeFirst(b: Buf)
    requires |b| > 0
    ensures Size(b) >= |b[0]|
  {
  }

  /** Any two buffers next to each other take a whole buffer's bytes. */
  lemma {:induction false} PackedBytes(groups: seq<seq<string>>, bufs: seq<Buf>)
    requires Packs(groups, bufs)
    ensures Size(Flatten(groups)) >= |bufs| / 2 * LARGE_BUFFER
    decreases |bufs|
  {
    PairBytes(groups, bufs, |bufs|);
    assert groups[..|groups|] == groups;
  }

  lemma {:induction false} PairBytes(groups: seq<seq<string>>, bufs: seq<Buf>, n: nat)
    requires Packs(groups, bufs) && n <= |groups|
    ensures Size(Flatten(groups[..n])) >= n / 2 * LARGE_BUFFER
  {
    hide Packs, Size, Flatten;
    SizeIsNat(Flatten(groups[..n]));
    if n >= 2 {
      PacksShape(groups, bufs);
      PairBytes(groups, bufs, n - 2);
      var init, b, c := groups[..n - 2], groups[n - 2], groups[n - 1];
      assert groups[..n] == (init + [b]) + [c];
      TwoMore(init, b, c);
      GroupBytes(groups, bufs, n - 2);
      NoRoom(groups, bufs, n - 1);
    }
  }

  lemma TwoMore(init: seq<seq<string>>, b: seq<string>, c: seq<string>)
    ensures Size(Flatten((init + [b]) + [c])) == Size(Flatten(init)) + Size(b) + Size(c)
  {
    FlattenOne(init, b);
    FlattenOne(init + [b], c);
    hide Flatten, Size;
    SizeConcat(Flatten(init), b);
    SizeConcat(Flatten(init) + b, c);
  }

  lemma NoRoom(groups: seq<seq<string>>, bufs: seq<Buf>, i: nat)
    requires Packs(groups, bufs) && 1 <= i < |groups|
    ensures Size(bufs[i - 1]) + Size(groups[i]) >= LARGE_BUFFER
  {
    hide Size;
    assert Follows(bufs[i - 1], groups[i], bufs[i]);
    SizeFirst(groups[i]);
  }

  lemma GroupBytes(groups: seq<seq<string>>, bufs: seq<Buf>, i: nat)
    requires Packs(groups, bufs) && i < |bufs|
    ensures Size(groups[i]) >= Size(bufs[i])
  {
    if i > 0 {
      var g := groups[i];
      assert Follows(bufs[i - 1], g, bufs[i]);
      SizeConcat([g[0]], g[1..]);
      assert g == [g[0]] + g[1..];
      hide Size;
      SizeIsNat([g[0]]);
    }
  }

  /** While less than a buffer's bytes came in since the last locked section, they are all in the current buffer. */
  lemma OneBufferIsEnough(events: seq<Event>)
    requires Size(LinesSince(events)) < LARGE_BUFFER
    ensures After(events).buffers == [] && After(events).cur == LinesSince(events)
  {
    var past, now := RunPacks(events);
    var s := After(events);
    hide After, Packs, Size, LinesSince;
    InOneBuffer(now, s.buffers + [s.cur]);
    assert (s.buffers + [s.cur])[|s.buffers|] == s.cur;
  }

  lemma InOneBuffer(groups: seq<seq<string>>, bufs: seq<Buf>)
    requires Packs(groups, bufs) && Size(Flatten(groups)) < LARGE_BUFFER
    ensures bufs == [Flatten(groups)]
  {
    PackedBytes(groups, bufs);
    assert |groups| == 1;
    assert groups[1..] == [];
    assert Flatten(groups[1..]) == [];
    assert groups[0] + [] == groups[0];
  }

  /** Less than 13 buffers' bytes are appended between any two locked sections that take the queue. */
  predicate Moderate(events: seq<Event>) {
    forall n :: 0 <= n <= |events| ==> Size(LinesSince(events[..n])) < 104_000_000
  }

  lemma ShortQueue(events: seq<Event>)
    requires Size(LinesSince(events)) < 104_000_000
    ensures |After(events).buffers| + 1 <= 25
  {
    var past, now := RunPacks(events);
    hide After, Size, LinesSince, Packs, Flatten;
    PackedBytes(now, After(events).buffers + [After(events).cur]);
  }

  /** Then no buffer is ever dropped. */
  lemma {:induction false} ModerateMeansNoDrops(events: seq<Event>)
    requires Moderate(events)
    ensures NoDrops(After(events).batches)
  {
    hide Size, LinesSince, Next, Swaps, Swap;
    if |events| > 0 {
      var init, e := events[..|events| - 1], events[|events| - 1];
      assert forall n :: 0 <= n <= |init| ==> init[..n] == events[..n];
      ModerateMeansNoDrops(init);
      assert Size(LinesSince(events[..|init|])) < 104_000_000;
      ShortQueue(init);
      if Enabled(After(init), e) {
        BatchesStep(After(init), e);
      }
    }
  }

  lemma BatchesStep(s: State, e: Event)
    requires Enabled(s, e)
    ensures Next(s, e).batches == if Swaps(s, e) then s.batches + [s.buffers + [s.cur]] else s.batches
  {
    if Swaps(s, e) {
      SwappedBufs(s, e);
    } else if e.Append? {
      AppendedBufs(s, e.line);
    } else {
      QuietBufs(s, e);
    }
    hide Next, Size;
  }

  function Long(): string {
    seq(LARGE_BUFFER - 1, _ => 'x')
  }

  /** A line that leaves one byte, and a line for that byte, k times. */
  lemma {:induction false} Alternating(k: nat) returns (events: seq<Event>)
    requires k > 0
    ensures var s := After(events);
      && s.pc == Lock && |s.buffers| == 2 * k - 1 && s.cur == ["x"]
      && Size(LinesSince(events)) == k * LARGE_BUFFER && s.batches == []
  {
    hide After, Size;
    var long := Long();
    if k == 1 {
      events := AtLock();
      SizeOne([], long);
    } else {
      events := Alternating(k - 1);
      SizeOne([], "x");
      assert [] + ["x"] == ["x"];
    }
    var s, lines := After(events), LinesSince(events);
    SizeOne(lines, long);
    SizeOne(lines + [long], "x");
    var t := DoAppend(s, long);
    events := AppendedOne(events, long);
    assert t.cur == [long] && |t.buffers| == 2 * k - 2 by {
      assert [] + [long] == [long];
    }
    SizeOne([], long);
    assert [] + [long] == [long];
    events := AppendedOne(events, "x");
  }

  lemma AppendedOne(events: seq<Event>, line: string) returns (more: seq<Event>)
    ensures After(more) == DoAppend(After(events), line) && LinesSince(more) == LinesSince(events) + [line]
  {
    more := events + [Append(line)];
    assert more[..|events|] == events;
  }

  lemma AtLock() returns (events: seq<Event>)
    ensures After(events) == Next(Next(Next(INIT, Start), Begin), Test)
    ensures LinesSince(events) == [] && Size([]) == 0
  {
    events := [];
    events := Quiet(events, Start);
    events := Quiet(events, Begin);
    events := Quiet(events, Test);
    SizeOne([], "");
  }

  lemma Quiet(events: seq<Event>, e: Event) returns (more: seq<Event>)
    requires !e.Append? && Enabled(After(events), e) && !Swaps(After(events), e)
    ensures After(more) == Next(After(events), e) && LinesSince(more) == LinesSince(events)
  {
    more := events + [e];
    assert more[..|events|] == events;
  }

  /** With exactly that many bytes there is a run that drops buffers. */
  lemma DropsAtTheBound() returns (events: seq<Event>)
    ensures Size(LinesSince(events)) == 104_000_000
    ensures Enabled(After(events), Enter) && !NoDrops(Next(After(events), Enter).batches)
  {
    hide After, Size, LinesSince;
    events := Alternating(13);
    var batch := After(events).buffers + [After(events).cur];
    assert |batch| == 26;
    assert Next(After(events), Enter).batches == [] + [batch];
    assert ([] + [batch])[0] == batch;
  }

  // ---- The backend goes on, and ends ----

  predicate Backend(e: Event) {
    !e.Append? && e != Start && e != Stop
  }

  /** The step the backend takes next. */
  function Turn(s: State): Event {
    match s.pc
    case Launched => Begin
    case Top => Test
    case Lock => Enter
    case Waiting => Wake
    case Swapped => Check
    case Writing(next) => if next < |s.toWrite| then WriteOne else Recycle
    case _ => Begin
  }

  /** A started logger that was not stopped has a backend in its loop, and one that was stopped has left Off behind. */
  predicate LoopInv(s: State) {
    && (s.running ==> s.pc != Off && s.pc != Done)
    && (s.pc == Launched ==> s.running)
  }

  lemma LoopStep(s: State, e: Event)
    requires LoopInv(s) && Enabled(s, e) && (s.latchOpen <==> s.pc != Off && s.pc != Launched)
    ensures LoopInv(Next(s, e))
  {
    hide Size;
  }

  /** The backend leaves its loop only when it was stopped, and always has a next step until then. */
  lemma {:induction false} RunningGoesOn(events: seq<Event>)
    ensures var s := After(events);
      && LoopInv(s) && (s.pc != Off && s.pc != Done ==> Enabled(s, Turn(s)) && Backend(Turn(s)))
  {
    RunKeeps(events);
    InvSpare(After(events));
    if After(events).pc != Off && After(events).pc != Done {
      TurnEnabled(After(events));
    }
    hide Next, Inv, SpareInv, Turn;
    if |events| > 0 {
      var init, e := events[..|events| - 1], events[|events| - 1];
      RunningGoesOn(init);
      RunKeeps(init);
      InvSpare(After(init));
      hide Enabled, LoopInv;
      if Enabled(After(init), e) {
        LoopStep(After(init), e);
      }
    }
  }

  lemma TurnEnabled(s: State)
    requires SpareInv(s) && s.pc != Off && s.pc != Done
    ensures Enabled(s, Turn(s)) && Backend(Turn(s))
  {
  }

  /** How many steps the backend has left once it is stopped. */
  function Left(s: State): nat {
    match s.pc
    case Off => 0
    case Launched => 2
    case Top => 1
    case Lock => 30
    case Waiting => 29
    case Swapped => |Kept(s.toWrite)| + 3
    case Writing(next) => if next <= |s.toWrite| then |s.toWrite| - next + 2 else 0
    case Done => 0
  }

  lemma LeftStep(s: State, e: Event)
    requires SpareInv(s) && Enabled(s, e) && s.pc != Off && (e != Test || !s.running)
    ensures Left(Next(s, e)) + (if Backend(e) then 1 else 0) <= Left(s)
  {
    hide Size;
  }

  /** The steps that the backend takes after the first n events. */
  function StepsAfter(events: seq<Event>, n: nat): nat
    requires n <= |events|
  {
    if |events| == n then 0
    else
      var init, e := events[..|events| - 1], events[|events| - 1];
      StepsAfter(init, n) + if Enabled(After(init), e) && Backend(e) then 1 else 0
  }

  /** Once stopped, the backend takes at most 30 more steps, whatever is appended, and it can go on until it is done. */
  lemma {:induction false} StoppedEnds(events: seq<Event>, n: nat)
    requires n <= |events| && !After(events[..n]).running && After(events[..n]).pc != Off
    ensures var s := After(events);
      && !s.running && s.pc != Off
      && StepsAfter(events, n) + Left(s) <= Left(After(events[..n])) <= 30
      && (s.pc == Done || (Enabled(s, Turn(s)) && Backend(Turn(s))))
  {
    RunningGoesOn(events);
    RunKeeps(events);
    InvSpare(After(events));
    hide Next, Inv, SpareInv, Left, Turn, Enabled, LoopInv;
    if |events| == n {
      assert events[..n] == events;
    } else {
      var init, e := events[..|events| - 1], events[|events| - 1];
      assert init[..n] == events[..n];
      StoppedEnds(init, n);
      RunKeeps(init);
      InvSpare(After(init));
      if Enabled(After(init), e) {
        LeftStep(After(init), e);
        StaysStopped(After(init), e);
      }
    }
  }

  lemma InvSpare(s: State)
    requires Inv(s)
    ensures SpareInv(s) && Left(s) <= 30 && (s.latchOpen <==> s.pc != Off && s.pc != Launched)
  {
    hide OutputSoFar, StreamInv, BuffersFit;
  }

  lemma StaysStopped(s: State, e: Event)
    requires !s.running && s.pc != Off && Enabled(s, e)
    ensures !Next(s, e).running && Next(s, e).pc != Off
  {
    hide Size;
  }

  lemma TopLeft(s: State)
    requires s.pc == Top
    ensures Left(s) == 1
  {
  }

  lemma TurnStep(s: State)
    requires SpareInv(s) && s.running && s.pc != Top && LoopInv(s)
    ensures var n := Next(s, Turn(s));
      && Enabled(s, Turn(s)) && Backend(Turn(s)) && n.running && Left(n) < Left(s)
      && (Empty(s) || Swaps(s, Turn(s)) ==> Empty(n))
      && (Swaps(s, Turn(s)) <==> InRound(n.pc) && !InRound(s.pc))
      && n.pc != Lock
      && (s.pc == Lock && n.pc != Waiting ==> Swaps(s, Turn(s)))
      && (s.pc == Waiting ==> Swaps(s, Turn(s)))
  {
    hide Size;
  }

  /** With nothing but its own steps a running backend comes back to its test, from the lock with everything taken. */
  lemma {:induction false} BackToTheTop(events: seq<Event>) returns (more: seq<Event>)
    requires After(events).running
    ensures |more| + 1 <= Left(After(events)) && forall i :: 0 <= i < |more| ==> Backend(more[i])
    ensures var s, n := After(events), After(events + more);
      && n.running && n.pc == Top
      && (Empty(s) || s.pc == Lock || s.pc == Waiting ==> Empty(n))
    decreases Left(After(events))
  {
    hide After, Next, Inv, Left, SpareInv, Swaps, Enabled, Turn, LoopInv, Backend;
    var s := After(events);
    RunningGoesOn(events);
    RunKeeps(events);
    InvSpare(s);
    if s.pc == Top {
      TopLeft(s);
      more := [];
      assert events + more == events;
    } else {
      TurnStep(s);
      var e := Turn(s);
      var next := OneMore(events, e);
      var rest := BackToTheTop(next);
      more := [e] + rest;
      assert next + rest == events + more;
    }
  }

  lemma {:induction false} FittingStays(events: seq<Event>, more: seq<Event>)
    requires forall i :: 0 <= i < |more| ==> Backend(more[i])
    ensures Fitting(events + more) == Fitting(events)
  {
    if |more| == 0 {
      assert events + more == events;
    } else {
      var init := more[..|more| - 1];
      FittingStays(events, init);
      assert (events + more)[..|events + more| - 1] == events + init;
    }
  }

  /**
   * While the logger runs, whatever was appended is written by at most 60 further steps of the backend alone: then
   * nothing is left in queue and current buffer, and without drops the output is all that fits, in order.
   */
  lemma RunningWritesAll(events: seq<Event>) returns (more: seq<Event>)
    requires After(events).running
    ensures |more| <= 60 && forall i :: 0 <= i < |more| ==> Backend(more[i])
    ensures Empty(After(events + more))
    ensures NoDrops(After(events + more).batches) ==> OutputLines(After(events + more).output) == Fitting(events)
  {
    hide After, Fitting, OutputLines, NoDrops, Left, Next, Inv, SpareInv, Backend, Enabled, Empty;
    RunKeeps(events);
    InvSpare(After(events));
    var rest := BackToTheTop(events);
    var top := events + rest;
    var locked := OneMore(top, Test);
    TestLocks(After(top));
    var round := BackToTheTop(locked);
    more := rest + [Test] + round;
    assert events + more == locked + round;
    LockLeft(After(locked));
    var all := events + more;
    FittingStays(events, more);
    if NoDrops(After(all).batches) {
      AllOut(all);
    }
  }

  lemma AllOut(events: seq<Event>)
    requires After(events).pc == Top && Empty(After(events)) && NoDrops(After(events).batches)
    ensures OutputLines(After(events).output) == Fitting(events)
  {
    NothingLost(events);
    NothingElse(After(events));
    hide After, Fitting, OutputLines, Flatten, Unwritten;
    var out := OutputLines(After(events).output);
    assert out + [] + [] + [] == out;
  }

  lemma TestLocks(s: State)
    requires s.running && s.pc == Top
    ensures Enabled(s, Test) && Next(s, Test) == s.(pc := Lock)
  {
  }

  lemma LockLeft(s: State)
    requires s.pc == Lock
    ensures Left(s) == 30 && Backend(Test)
  {
  }

  lemma NothingElse(s: State)
    requires s.pc == Top && Empty(s)
    ensures Flatten(Unwritten(s)) == [] && Flatten(s.buffers) == [] && s.cur == []
  {
  }

  /** A line can be left behind: appended after the last round, it is not written when the backend stops. */
  lemma TailCanRemain() returns (events: seq<Event>)
    ensures After(events).pc == Done && After(events).cur == ["x"] && Fitting(events) == ["x"]
  {
    events := [];
    events := OneMore(events, Start);
    events := OneMore(events, Begin);
    events := OneMore(events, Stop);
    var before := After(events);
    SizeOne([], "x");
    events := OneMore(events, Append("x"));
    assert After(events) == DoAppend(before, "x");
    events := OneMore(events, Test);
  }

  lemma OneMore(events: seq<Event>, e: Event) returns (more: seq<Event>)
    ensures more == events + [e]
    ensures After(more) == if Enabled(After(events), e) then Next(After(events), e) else After(events)
    ensures Fitting(more) == if e.Append? && |e.line| < LARGE_BUFFER then Fitting(events) + [e.line] else Fitting(events)
  {
    more := events + [e];
    assert more[..|events|] == events;
  }

  /** The asserts of the backend hold in every run. */
  lemma BackendAsserts(events: seq<Event>)
    ensures var s := After(events);
            && (s.pc == Launched ==> s.running)
            && (s.pc == Lock ==> s.hasNew1 && s.hasNew2 && s.toWrite == [])
            && (s.pc == Swapped ==> s.toWrite != [])
            && (s.pc.Writing? ==> !s.hasNew1 && |s.toWrite| >= 1 && (!s.hasNew2 ==> |s.toWrite| >= 2))
  {
    RunKeeps(events);
  }
}

/** The logger itself: buffers are objects that change hands between the fields and the backend's locals. */
module AsyncLogging {
  import opened Seqs
  import opened AsyncLoggingSpec
  import opened LogStream

  function Opt(b: FixedBuffer?): seq<FixedBuffer> {
    if b == null then [] else [b]
  }

  /** No buffer is held twice. */
  ghost predicate Unique(bs: seq<FixedBuffer>) {
    forall b :: b in bs ==> multiset(bs)[b] == 1
  }

  lemma UniqueHead(b: FixedBuffer, rest: seq<FixedBuffer>)
    requires Unique([b] + rest)
    ensures b !in rest && Unique(rest)
  {
    assert b in [b] + rest;
    forall c | c in rest ensures multiset(rest)[c] == 1 {
      assert c in [b] + rest;
    }
  }

  lemma UniqueByMultiset(xs: seq<FixedBuffer>, ys: seq<FixedBuffer>)
    requires Unique(xs) && multiset(ys) <= multiset(xs)
    ensures Unique(ys)
    ensures forall b :: b in ys ==> b in xs
  {
    forall b | b in ys ensures multiset(ys)[b] == 1 && b in xs {
      assert b in multiset(ys);
      assert b in multiset(xs);
    }
  }

  lemma UniqueMore(b: FixedBuffer, xs: seq<FixedBuffer>, ys: seq<FixedBuffer>)
    requires Unique(xs) && b !in xs && multiset(ys) == multiset{b} + multiset(xs)
    ensures Unique(ys)
    ensures forall c :: c in ys ==> c == b || c in xs
  {
    assert multiset(xs)[b] == 0;
    forall c | c in ys ensures multiset(ys)[c] == 1 && (c == b || c in xs) {
      assert c in multiset(ys);
    }
  }

  ghost function LinesOf(lines: map<FixedBuffer, Buf>, b: FixedBuffer): Buf {
    if b in lines then lines[b] else []
  }

  ghost function LinesOfAll(lines: map<FixedBuffer, Buf>, bs: seq<FixedBuffer>): (r: seq<Buf>)
    ensures |r| == |bs|
  {
    seq(|bs|, i requires 0 <= i < |bs| => LinesOf(lines, bs[i]))
  }

  lemma LinesOfOthers(lines: map<FixedBuffer, Buf>, bs: seq<FixedBuffer>, b: FixedBuffer, buf: Buf)
    requires b !in bs
    ensures LinesOfAll(lines[b := buf], bs) == LinesOfAll(lines, bs)
  {
    forall i | 0 <= i < |bs| ensures bs[i] != b {
      assert bs[i] in bs;
    }
  }

  lemma LinesOfOneMore(lines: map<FixedBuffer, Buf>, bs: seq<FixedBuffer>, b: FixedBuffer)
    ensures LinesOfAll(lines, bs + [b]) == LinesOfAll(lines, bs) + [LinesOf(lines, b)]
  {
  }

  /** All buffers in somebody's hands: the current one and the others. */
  ghost function Held(cur: FixedBuffer, next: FixedBuffer?, queue: seq<FixedBuffer>,
                      new1: FixedBuffer?, new2: FixedBuffer?, batch: seq<FixedBuffer>): seq<FixedBuffer>
  {
    [cur] + Others(next, queue, new1, new2, batch)
  }

  ghost function Others(next: FixedBuffer?, queue: seq<FixedBuffer>,
                        new1: FixedBuffer?, new2: FixedBuffer?, batch: seq<FixedBuffer>): seq<FixedBuffer>
  {
    Opt(next) + queue + Opt(new1) + Opt(new2) + batch
  }

  lemma HeldApart(cur: FixedBuffer, next: FixedBuffer?, queue: seq<FixedBuffer>,
                  new1: FixedBuffer?, new2: FixedBuffer?, batch: seq<FixedBuffer>)
    requires Unique(Held(cur, next, queue, new1, new2, batch))
    ensures cur !in queue && cur !in batch && cur != next && cur != new1 && cur != new2
    ensures cur in Held(cur, next, queue, new1, new2, batch)
    ensures forall b :: b in Held(cur, next, queue, new1, new2, batch) ==>
                        b == cur || b in Others(next, queue, new1, new2, batch)
    ensures forall b :: b in Others(next, queue, new1, new2, batch) ==>
                        b != cur && b in Held(cur, next, queue, new1, new2, batch)
  {
    UniqueHead(cur, Others(next, queue, new1, new2, batch));
  }

  lemma HeldTwo(cur: FixedBuffer, next: FixedBuffer)
    requires cur != next
    ensures Unique(Held(cur, next, [], null, null, []))
    ensures forall b :: b in Held(cur, next, [], null, null, []) <==> b == cur || b == next
  {
    assert Held(cur, next, [], null, null, []) == [cur, next];
  }

  /** The spare buffer becomes the current one, which is queued. */
  lemma HeldRotated(cur: FixedBuffer, next: FixedBuffer, queue: seq<FixedBuffer>,
                    new1: FixedBuffer?, new2: FixedBuffer?, batch: seq<FixedBuffer>)
    requires Unique(Held(cur, next, queue, new1, new2, batch))
    ensures Unique(Held(next, null, queue + [cur], new1, new2, batch))
    ensures next in Held(cur, next, queue, new1, new2, batch) && next in Held(next, null, queue + [cur], new1, new2, batch)
    ensures forall b :: b in Held(next, null, queue + [cur], new1, new2, batch)
                    ==> b in Held(cur, next, queue, new1, new2, batch)
  {
    var xs, ys := Held(cur, next, queue, new1, new2, batch), Held(next, null, queue + [cur], new1, new2, batch);
    assert multiset(ys) == multiset(xs);
    UniqueByMultiset(xs, ys);
    assert next in multiset(xs);
  }

  /** A new buffer becomes the current one, which is queued. */
  lemma HeldExtended(cur: FixedBuffer, added: FixedBuffer, queue: seq<FixedBuffer>,
                     new1: FixedBuffer?, new2: FixedBuffer?, batch: seq<FixedBuffer>)
    requires Unique(Held(cur, null, queue, new1, new2, batch))
    requires added !in Held(cur, null, queue, new1, new2, batch)
    ensures Unique(Held(added, null, queue + [cur], new1, new2, batch))
    ensures added in Held(added, null, queue + [cur], new1, new2, batch)
    ensures added !in queue + [cur] && added !in batch && added != new1 && added != new2
    ensures forall b :: b in Held(added, null, queue + [cur], new1, new2, batch)
                    ==> b == added || b in Held(cur, null, queue, new1, new2, batch)
  {
    var xs, ys := Held(cur, null, queue, new1, new2, batch), Held(added, null, queue + [cur], new1, new2, batch);
    assert multiset(ys) == multiset{added} + multiset(xs);
    UniqueMore(added, xs, ys);
    HeldApart(added, null, queue + [cur], new1, new2, batch);
  }

  /** The backend's two new spare buffers. */
  lemma HeldStarted(cur: FixedBuffer, next: FixedBuffer?, queue: seq<FixedBuffer>, new1: FixedBuffer, new2: FixedBuffer)
    requires Unique(Held(cur, next, queue, null, null, []))
    requires new1 !in Held(cur, next, queue, null, null, []) && new2 !in Held(cur, next, queue, null, null, []) && new1 != new2
    ensures Unique(Held(cur, next, queue, new1, new2, []))
    ensures new1 != cur && new2 != cur && new1 != next && new2 != next && new1 !in queue && new2 !in queue
    ensures forall b :: b in Held(cur, next, queue, new1, new2, [])
                    ==> b == new1 || b == new2 || b in Held(cur, next, queue, null, null, [])
  {
    var xs, ys := Held(cur, next, queue, null, null, []), Held(cur, next, queue, new1, new2, []);
    var zs := [new1] + xs;
    UniqueMore(new1, xs, zs);
    assert multiset(ys) == multiset{new2} + multiset(zs);
    assert new2 !in zs;
    UniqueMore(new2, zs, ys);
    assert cur in xs && (next != null ==> next in xs) && (forall b :: b in queue ==> b in xs);
  }

  /** The backend takes the queue and the current buffer, and leaves its first spare as the current one. */
  lemma HeldTaken(cur: FixedBuffer, next: FixedBuffer?, queue: seq<FixedBuffer>, new1: FixedBuffer, new2: FixedBuffer?)
    requires Unique(Held(cur, next, queue, new1, new2, []))
    ensures var xs, ys := Held(cur, next, queue, new1, new2, []), Held(new1, next, [], null, new2, queue + [cur]);
            Unique(ys) && forall b :: b in ys ==> b in xs
  {
    var xs, ys := Held(cur, next, queue, new1, new2, []), Held(new1, next, [], null, new2, queue + [cur]);
    HeldCounts(cur, next, queue, new1, new2, []);
    HeldCounts(new1, next, [], null, new2, queue + [cur]);
    hide Held, Unique;
    assert multiset(queue + [cur]) == multiset(queue) + multiset{cur};
    assert multiset(Opt(new1)) == multiset{new1} && multiset(Opt(null)) == multiset{};
    assert multiset(ys) == multiset(xs);
    UniqueByMultiset(xs, ys);
  }

  lemma HeldCounts(cur: FixedBuffer, next: FixedBuffer?, queue: seq<FixedBuffer>,
                   new1: FixedBuffer?, new2: FixedBuffer?, batch: seq<FixedBuffer>)
    ensures multiset(Held(cur, next, queue, new1, new2, batch))
         == multiset{cur} + multiset(Opt(next)) + multiset(queue) + multiset(Opt(new1)) + multiset(Opt(new2))
            + multiset(batch)
  {
  }

  /** It also leaves its second spare, when there is no next buffer. */
  lemma HeldLent(cur: FixedBuffer, queue: seq<FixedBuffer>, new1: FixedBuffer?, new2: FixedBuffer, batch: seq<FixedBuffer>)
    requires Unique(Held(cur, null, queue, new1, new2, batch))
    ensures var xs, ys := Held(cur, null, queue, new1, new2, batch), Held(cur, new2, queue, new1, null, batch);
            Unique(ys) && forall b :: b in ys ==> b in xs
  {
    var xs, ys := Held(cur, null, queue, new1, new2, batch), Held(cur, new2, queue, new1, null, batch);
    assert multiset(ys) == multiset(xs);
    UniqueByMultiset(xs, ys);
  }

  lemma HeldBatch(cur: FixedBuffer, next: FixedBuffer?, queue: seq<FixedBuffer>,
                  new1: FixedBuffer?, new2: FixedBuffer?, batch: seq<FixedBuffer>, i: nat)
    requires i < |batch|
    ensures batch[i] in Held(cur, next, queue, new1, new2, batch)
  {
  }

  /** Dropping buffers of the batch. */
  lemma HeldTruncated(cur: FixedBuffer, next: FixedBuffer?, queue: seq<FixedBuffer>,
                      new1: FixedBuffer?, new2: FixedBuffer?, batch: seq<FixedBuffer>, n: nat)
    requires n <= |batch| && Unique(Held(cur, next, queue, new1, new2, batch))
    ensures Unique(Held(cur, next, queue, new1, new2, batch[..n]))
    ensures forall b :: b in Held(cur, next, queue, new1, new2, batch[..n]) ==>
                        b in Held(cur, next, queue, new1, new2, batch)
  {
    var xs, ys := Held(cur, next, queue, new1, new2, batch), Held(cur, next, queue, new1, new2, batch[..n]);
    assert batch == batch[..n] + batch[n..];
    assert multiset(xs) == multiset(ys) + multiset(batch[n..]);
    UniqueByMultiset(xs, ys);
  }

  /** The last buffer of the batch is nowhere else. */
  lemma HeldLast(cur: FixedBuffer, next: FixedBuffer?, queue: seq<FixedBuffer>,
                 new1: FixedBuffer?, new2: FixedBuffer?, batch: seq<FixedBuffer>)
    requires |batch| > 0 && Unique(Held(cur, next, queue, new1, new2, batch))
    ensures var init, b := batch[..|batch| - 1], batch[|batch| - 1];
            && b in Held(cur, next, queue, new1, new2, batch)
            && b != cur && b != next && b !in queue && b != new1 && b != new2 && b !in init
  {
    var init, b := batch[..|batch| - 1], batch[|batch| - 1];
    var xs := Held(cur, next, queue, new1, new2, batch);
    assert batch == init + [b];
    assert multiset(xs)[b] == multiset([cur])[b] + multiset(Opt(next))[b] + multiset(queue)[b]
                              + multiset(Opt(new1))[b] + multiset(Opt(new2))[b] + multiset(init)[b] + 1;
    assert b in multiset(xs);
    assert multiset(xs)[b] == 1;
    assert multiset([cur])[b] == 0 && multiset(Opt(next))[b] == 0 && multiset(Opt(new1))[b] == 0 && multiset(Opt(new2))[b] == 0;
  }

  /** It becomes the backend's first spare. */
  lemma HeldRecycled1(cur: FixedBuffer, next: FixedBuffer?, queue: seq<FixedBuffer>,
                      new2: FixedBuffer?, batch: seq<FixedBuffer>)
    requires |batch| > 0 && Unique(Held(cur, next, queue, null, new2, batch))
    ensures var xs := Held(cur, next, queue, null, new2, batch);
            var ys := Held(cur, next, queue, batch[|batch| - 1], new2, batch[..|batch| - 1]);
            Unique(ys) && forall c :: c in ys ==> c in xs
  {
    var init, b := batch[..|batch| - 1], batch[|batch| - 1];
    var xs, ys := Held(cur, next, queue, null, new2, batch), Held(cur, next, queue, b, new2, init);
    assert batch == init + [b];
    assert multiset(ys) == multiset(xs);
    UniqueByMultiset(xs, ys);
  }

  /** Or its second spare. */
  lemma HeldRecycled2(cur: FixedBuffer, next: FixedBuffer?, queue: seq<FixedBuffer>,
                      new1: FixedBuffer?, batch: seq<FixedBuffer>)
    requires |batch| > 0 && Unique(Held(cur, next, queue, new1, null, batch))
    ensures var xs := Held(cur, next, queue, new1, null, batch);
            var ys := Held(cur, next, queue, new1, batch[|batch| - 1], batch[..|batch| - 1]);
            Unique(ys) && forall c :: c in ys ==> c in xs
  {
    var init, b := batch[..|batch| - 1], batch[|batch| - 1];
    var xs, ys := Held(cur, next, queue, new1, null, batch), Held(cur, next, queue, new1, b, init);
    assert batch == init + [b];
    assert multiset(ys) == multiset(xs);
    UniqueByMultiset(xs, ys);
  }

  /** The buffers and their bytes. */
  ghost function Objects(live: seq<FixedBuffer>): set<object> {
    (set b: FixedBuffer | b in live :: b as object) + (set b: FixedBuffer | b in live :: b.data as object)
  }

  ghost predicate Holds(b: FixedBuffer, lines: map<FixedBuffer, Buf>)
    reads b, b.data
  {
    b in lines && b.Valid() && b.data.Length == LARGE_BUFFER && b.Contents() == Flatten(lines[b])
  }

  /** Every buffer has its own bytes, and they are those of its lines. */
  ghost predicate Owned(live: seq<FixedBuffer>, lines: map<FixedBuffer, Buf>)
    reads Objects(live)
  {
    && (forall b :: b in live ==> Holds(b, lines))
    && (forall b, c :: b in live && c in live && b != c ==> b.data != c.data)
  }

  /** The texts written are the bytes of the output. */
  ghost predicate AreBytes(written: seq<string>, output: seq<Chunk>) {
    |written| == |output| && forall k :: 0 <= k < |output| && output[k].Data? ==> written[k] == Flatten(output[k].buf)
  }

  /** The spare buffers hold no lines. */
  ghost predicate AreEmpty(lines: map<FixedBuffer, Buf>, next: FixedBuffer?, new1: FixedBuffer?, new2: FixedBuffer?) {
    && (next != null ==> LinesOf(lines, next) == [])
    && (new1 != null ==> LinesOf(lines, new1) == [])
    && (new2 != null ==> LinesOf(lines, new2) == [])
  }

  lemma OwnedSub(xs: seq<FixedBuffer>, ys: seq<FixedBuffer>, lines: map<FixedBuffer, Buf>)
    requires Owned(xs, lines) && forall b :: b in ys ==> b in xs
    ensures Owned(ys, lines) && Objects(ys) <= Objects(xs)
  {
  }

  lemma OwnedMore(xs: seq<FixedBuffer>, lines: map<FixedBuffer, Buf>, b: FixedBuffer)
    requires Owned(xs, lines) && b !in xs && forall c :: c in xs ==> c.data != b.data
    requires b.Valid() && b.data.Length == LARGE_BUFFER && b.Contents() == ""
    ensures Owned([b] + xs, lines[b := []]) && Holds(b, lines[b := []])
  {
    assert Flatten<char>([]) == [];
    forall c | c in [b] + xs ensures Holds(c, lines[b := []]) {
      if c != b {
        assert Holds(c, lines);
      }
    }
  }

  /** A new buffer joins the owned ones, empty. */
  method NewBuffer(ghost live: seq<FixedBuffer>, ghost lines: map<FixedBuffer, Buf>) returns (b: FixedBuffer)
    requires Owned(live, lines)
    ensures fresh(b) && fresh(b.data) && b !in live
    ensures Owned([b] + live, lines[b := []]) && Holds(b, lines[b := []])
  {
    b := new FixedBuffer(LARGE_BUFFER);
    OwnedMore(live, lines, b);
  }

  /** Two new buffers join the owned ones. */
  method NewBuffers(ghost live: seq<FixedBuffer>, ghost lines: map<FixedBuffer, Buf>)
    returns (b1: FixedBuffer, b2: FixedBuffer)
    requires Owned(live, lines)
    ensures fresh(b1) && fresh(b1.data) && fresh(b2) && fresh(b2.data)
    ensures b1 != b2 && b1 !in live && b2 !in live
    ensures Owned([b2] + ([b1] + live), lines[b1 := []][b2 := []])
  {
    hide Holds;
    b1 := NewBuffer(live, lines);
    b2 := NewBuffer([b1] + live, lines[b1 := []]);
    assert b2 !in [b1] + live;
  }

  /** Empties one buffer and leaves the others alone. */
  method ResetBuffer(b: FixedBuffer, ghost live: seq<FixedBuffer>, ghost lines: map<FixedBuffer, Buf>)
    requires Owned(live, lines) && b in live
    modifies b
    ensures Owned(live, lines[b := []])
  {
    assert Flatten<char>([]) == [];
    b.Reset();
    hide Flatten;
    forall c | c in live ensures Holds(c, lines[b := []]) {
    }
  }

  /** Adding a line to one buffer leaves the bytes of the others alone. */
  method AppendTo(b: FixedBuffer, line: string, ghost others: seq<FixedBuffer>, ghost lines: map<FixedBuffer, Buf>)
    requires Holds(b, lines) && Size(lines[b]) + |line| < LARGE_BUFFER
    requires forall c :: c in others ==> c != b && c.data != b.data && Holds(c, lines)
    modifies b, b.data
    ensures Holds(b, lines[b := lines[b] + [line]])
    ensures forall c :: c in others ==> Holds(c, lines[b := lines[b] + [line]])
  {
    FlattenOne(lines[b], line);
    hide Flatten;
    b.Append(line);
  }

  /** A spare buffer that is there and has length 0. */
  ghost predicate IsEmptySpare(b: FixedBuffer?)
    reads b
  {
    b != null && b.Length() == 0
  }

  lemma SparesHeld(cur: FixedBuffer, next: FixedBuffer?, queue: seq<FixedBuffer>,
                   new1: FixedBuffer?, new2: FixedBuffer?, batch: seq<FixedBuffer>)
    ensures new1 != null ==> new1 in Held(cur, next, queue, new1, new2, batch)
    ensures new2 != null ==> new2 in Held(cur, next, queue, new1, new2, batch)
  {
  }

  lemma SpareLength(live: seq<FixedBuffer>, lines: map<FixedBuffer, Buf>, b: FixedBuffer)
    requires Owned(live, lines) && b in live && LinesOf(lines, b) == []
    ensures b.Length() == 0
  {
    assert Holds(b, lines);
    assert Flatten<char>([]) == [];
  }

  // ---- What the invariant says where it is needed ----

  lemma NoLines(lines: map<FixedBuffer, Buf>)
    ensures LinesOfAll(lines, []) == []
  {
  }

  lemma SameCount(lines: map<FixedBuffer, Buf>, buffers: seq<FixedBuffer>)
    ensures |LinesOfAll(lines, buffers)| == |buffers|
  {
  }

  lemma AtTheLock(s: State)
    requires Inv(s) && (s.pc == Lock || s.pc == Waiting)
    ensures s.hasNew1 && s.hasNew2 && s.toWrite == []
  {
  }

  lemma BatchToWrite(s: State)
    requires Inv(s) && s.pc == Swapped
    ensures |s.toWrite| >= (if s.hasNew2 then 1 else 2) && !s.hasNew1
    ensures |s.toWrite| > MAX_BATCH ==> |s.toWrite| >= 2
  {
  }

  lemma BatchWritten(s: State)
    requires Inv(s) && s.pc.Writing?
    ensures |s.toWrite| >= (if s.hasNew2 then 1 else 2) && !s.hasNew1
  {
  }

  class AsyncLogging {
    var running: bool
    var latchOpen: bool
    var currentBuffer: FixedBuffer
    var nextBuffer: FixedBuffer?
    var buffers: seq<FixedBuffer>

    // The backend's locals, and where it stands.
    var pc: Pc
    var newBuffer1: FixedBuffer?
    var newBuffer2: FixedBuffer?
    var buffersToWrite: seq<FixedBuffer>

    // The texts appended to the log file.
    var written: seq<string>

    // The lines in each buffer, and the histories of AsyncLoggingSpec.State.
    ghost var lines: map<FixedBuffer, Buf>
    ghost var output: seq<Chunk>
    ghost var batches: seq<seq<Buf>>
    ghost var accepted: seq<string>

    ghost function Live(): seq<FixedBuffer>
      reads this
    {
      Held(currentBuffer, nextBuffer, buffers, newBuffer1, newBuffer2, buffersToWrite)
    }

    ghost function Footprint(): set<object>
      reads this
    {
      Objects(Live())
    }

    ghost function Value(): State
      reads this
    {
      State(running, latchOpen, pc, LinesOf(lines, currentBuffer), nextBuffer != null, LinesOfAll(lines, buffers),
            newBuffer1 != null, newBuffer2 != null, LinesOfAll(lines, buffersToWrite), output, batches, accepted)
    }

    ghost predicate SparesEmpty()
      reads this
    {
      AreEmpty(lines, nextBuffer, newBuffer1, newBuffer2)
    }

    ghost predicate Valid()
      reads this, Footprint()
    {
      Owned(Live(), lines) && Unique(Live()) && SparesEmpty() && Inv(Value()) && AreBytes(written, output)
    }

    constructor ()
      ensures Valid() && Value() == INIT
      ensures fresh(Footprint())
    {
      hide Held, Unique, Inv, LinesOfAll;
      running, latchOpen, pc := false, false, Off;
      var cur := new FixedBuffer(LARGE_BUFFER);
      var next := new FixedBuffer(LARGE_BUFFER);
      currentBuffer, nextBuffer, buffers := cur, next, [];
      newBuffer1, newBuffer2, buffersToWrite, written := null, null, [], [];
      lines := map[cur := [], next := []];
      output, batches, accepted := [], [], [];
      new;
      HeldTwo(cur, next);
      NoLines(lines);
      assert Flatten<char>([]) == [];
      hide Flatten;
      InitKeeps();
      assert Value() == INIT;
      assert SparesEmpty() && AreBytes(written, output);
      assert Owned(Live(), lines);
    }

    /** Copies a line that fits behind the lines of the current buffer. */
    method PutLine(line: string)
      requires Owned(Live(), lines) && Unique(Live()) && SparesEmpty()
      requires Holds(currentBuffer, lines) && Size(lines[currentBuffer]) + |line| < LARGE_BUFFER
      modifies this`lines, this`accepted, currentBuffer, currentBuffer.data
      ensures Footprint() == old(Footprint())
      ensures Owned(Live(), lines) && Unique(Live()) && SparesEmpty()
      ensures Value() == old(Value()).(cur := old(Value()).cur + [line], accepted := old(accepted) + [line])
    {
      hide Held, Opt, Others, Unique;
      ghost var others := Others(nextBuffer, buffers, newBuffer1, newBuffer2, buffersToWrite);
      HeldApart(currentBuffer, nextBuffer, buffers, newBuffer1, newBuffer2, buffersToWrite);
      ghost var more := lines[currentBuffer] + [line];
      forall c | c in others
        ensures c != currentBuffer && c.data != currentBuffer.data && Holds(c, lines)
      {
        assert c in Live() && currentBuffer in Live();
      }
      AppendTo(currentBuffer, line, others, lines);
      hide Holds;
      LinesOfOthers(lines, buffers, currentBuffer, more);
      LinesOfOthers(lines, buffersToWrite, currentBuffer, more);
      hide LinesOfAll;
      lines := lines[currentBuffer := more];
      accepted := accepted + [line];
    }

    /** The current buffer was queued; the spare one is the current one now if there was one, and is gone. */
    ghost predicate Rotated(current: FixedBuffer, spare: FixedBuffer?, queue: seq<FixedBuffer>)
      reads this
    {
      buffers == queue + [current] && nextBuffer == null && (spare != null ==> currentBuffer == spare)
    }

    /** Queues the current buffer and goes on with the spare one. */
    method RotateToSpare()
      requires Owned(Live(), lines) && Unique(Live()) && SparesEmpty() && nextBuffer != null
      modifies this`currentBuffer, this`nextBuffer, this`buffers
      ensures Owned(Live(), lines) && Unique(Live()) && SparesEmpty()
      ensures Holds(currentBuffer, lines) && lines[currentBuffer] == []
      ensures Value() == old(Value()).(cur := [], hasNext := false, buffers := old(Value()).buffers + [old(Value()).cur])
      ensures Footprint() <= old(Footprint()) && currentBuffer in Live()
      ensures Rotated(old(currentBuffer), old(nextBuffer), old(buffers))
    {
      hide Held, Unique;
      assert LinesOfAll(lines, buffers + [currentBuffer]) == LinesOfAll(lines, buffers) + [LinesOf(lines, currentBuffer)];
      HeldRotated(currentBuffer, nextBuffer, buffers, newBuffer1, newBuffer2, buffersToWrite);
      hide LinesOfAll;
      buffers := buffers + [currentBuffer];
      currentBuffer, nextBuffer := nextBuffer, null;
    }

    /** Queues the current buffer and goes on with a new one. */
    method RotateToNew()
      requires Owned(Live(), lines) && Unique(Live()) && SparesEmpty() && nextBuffer == null
      modifies this`currentBuffer, this`buffers, this`lines
      ensures Owned(Live(), lines) && Unique(Live()) && SparesEmpty()
      ensures Holds(currentBuffer, lines) && lines[currentBuffer] == []
      ensures Value() == old(Value()).(cur := [], hasNext := false, buffers := old(Value()).buffers + [old(Value()).cur])
      ensures fresh(Footprint() - old(Footprint())) && currentBuffer in Live()
      ensures fresh(currentBuffer) && Rotated(old(currentBuffer), null, old(buffers))
    {
      hide Held, Unique, Holds, LinesOfAll;
      ghost var live := Live();
      LinesOfOneMore(lines, buffers, currentBuffer);
      var queued := buffers + [currentBuffer];
      var buffer := NewBuffer(live, lines);
      HeldExtended(currentBuffer, buffer, buffers, newBuffer1, newBuffer2, buffersToWrite);
      OwnedSub([buffer] + live, Held(buffer, null, queued, newBuffer1, newBuffer2, buffersToWrite), lines[buffer := []]);
      LinesOfOthers(lines, queued, buffer, []);
      LinesOfOthers(lines, buffersToWrite, buffer, []);
      buffers := queued;
      currentBuffer := buffer;
      lines := lines[buffer := []];
    }

    // ---- The steps of the protocol ----

    /** The branch of `append` for a full current buffer. */
    method AppendFull(line: string)
      requires Owned(Live(), lines) && Unique(Live()) && SparesEmpty()
      requires LARGE_BUFFER - Size(LinesOf(lines, currentBuffer)) <= |line|
      modifies this`currentBuffer, this`nextBuffer, this`buffers, this`lines, this`accepted, Footprint()
      ensures Owned(Live(), lines) && Unique(Live()) && SparesEmpty()
      ensures Value() == DoAppend(old(Value()), line)
      ensures fresh(Footprint() - old(Footprint()))
      ensures Rotated(old(currentBuffer), old(nextBuffer), old(buffers))
    {
      SizeOne([], line);
      hide Held, Opt, Others, Unique, Owned, AreEmpty, LinesOfAll, Flatten;
      if nextBuffer != null {
        RotateToSpare();
      } else {
        RotateToNew();
      }
      // FixedBuffer.Append copies nothing when the line does not fit.
      if |line| < LARGE_BUFFER {
        assert [] + [line] == [line];
        PutLine(line);
      } else {
        assert accepted + [] == accepted;
      }
    }

    /**
     * A line goes into the current buffer if more than its length is free there, and no buffer changes hands; else the
     * current buffer is queued, and the line goes into the spare one, or a new one if there is none.
     */
    method Append(line: string)
      requires Valid()
      modifies this`currentBuffer, this`nextBuffer, this`buffers, this`lines, this`accepted, Footprint()
      ensures Valid() && Value() == Next(old(Value()), Event.Append(line))
      ensures fresh(Footprint() - old(Footprint()))
      ensures if old(currentBuffer.Avail()) > |line|
              then currentBuffer == old(currentBuffer) && nextBuffer == old(nextBuffer) && buffers == old(buffers)
              else Rotated(old(currentBuffer), old(nextBuffer), old(buffers))
    {
      hide Unique, Held, Opt, Others, AreBytes, LinesOfAll, Flatten, AreEmpty;
      AppendKeeps(Value(), line);
      HeldApart(currentBuffer, nextBuffer, buffers, newBuffer1, newBuffer2, buffersToWrite);
      assert Holds(currentBuffer, lines);
      ghost var s := Value();
      assert Next(s, Event.Append(line)) == DoAppend(s, line);
      assert LARGE_BUFFER - Size(s.cur) > |line| ==>
             DoAppend(s, line) == s.(cur := s.cur + [line], accepted := s.accepted + [line]);
      hide Inv, Owned, Next, DoAppend;
      if currentBuffer.Avail() > |line| {
        PutLine(line);
      } else {
        AppendFull(line);
      }
    }

    method Start()
      requires Valid() && Enabled(Value(), Event.Start)
      modifies this`running, this`pc
      ensures Valid() && Value() == Next(old(Value()), Event.Start)
    {
      hide Unique, Held, AreEmpty, AreBytes, LinesOfAll, LinesOf;
      StepKeeps(Value(), Event.Start);
      assert Next(Value(), Event.Start) == Value().(running := true, pc := Launched);
      hide Inv, Next, Enabled, Owned;
      running := true;
      pc := Launched;
    }

    /** Only called once Start has returned, that is, after the latch has opened. */
    method Stop()
      requires Valid() && Enabled(Value(), Event.Stop)
      modifies this`running
      ensures Valid() && Value() == Next(old(Value()), Event.Stop)
    {
      hide Unique, Held, AreEmpty, AreBytes, LinesOfAll, LinesOf;
      StepKeeps(Value(), Event.Stop);
      assert Next(Value(), Event.Stop) == Value().(running := false);
      hide Inv, Next, Enabled, Owned;
      running := false;
    }

    /** Opens the latch and makes the backend's two spare buffers. */
    method NewSpares()
      requires Owned(Live(), lines) && Unique(Live()) && SparesEmpty()
      requires newBuffer1 == null && newBuffer2 == null && buffersToWrite == []
      modifies this`latchOpen, this`pc, this`newBuffer1, this`newBuffer2, this`lines
      ensures Owned(Live(), lines) && Unique(Live()) && SparesEmpty()
      ensures Value() == old(Value()).(latchOpen := true, pc := Top, hasNew1 := true, hasNew2 := true)
      ensures fresh(Footprint() - old(Footprint()))
    {
      hide Unique, Held, Holds, Opt, Others, LinesOfAll;
      ghost var live := Live();
      var b1, b2 := NewBuffers(live, lines);
      HeldStarted(currentBuffer, nextBuffer, buffers, b1, b2);
      OwnedSub([b2] + ([b1] + live), Held(currentBuffer, nextBuffer, buffers, b1, b2, []), lines[b1 := []][b2 := []]);
      LinesOfOthers(lines, buffers, b1, []);
      LinesOfOthers(lines[b1 := []], buffers, b2, []);
      NoLines(lines);
      NoLines(lines[b1 := []][b2 := []]);
      latchOpen := true;
      newBuffer1, newBuffer2 := b1, b2;
      lines := lines[b1 := []][b2 := []];
      pc := Top;
    }

    /** The backend's start: its assert holds. */
    method Begin()
      requires Valid() && Enabled(Value(), Event.Begin)
      modifies this`latchOpen, this`pc, this`newBuffer1, this`newBuffer2, this`lines
      ensures Valid() && Value() == Next(old(Value()), Event.Begin)
      ensures fresh(Footprint() - old(Footprint()))
    {
      hide Unique, Held, AreBytes;
      StepKeeps(Value(), Event.Begin);
      ghost var s := Value();
      assert Next(s, Event.Begin) == s.(latchOpen := true, hasNew1 := true, hasNew2 := true, pc := Top);
      assert newBuffer1 == null && newBuffer2 == null && buffersToWrite == [] by {
        assert |LinesOfAll(lines, buffersToWrite)| == 0;
      }
      assert running;
      hide Inv, Next, Enabled, Unique, Held, Owned, AreEmpty, LinesOfAll, LinesOf;
      NewSpares();
    }

    /** The loop test; it reads `running` without the lock. */
    method Test()
      requires Valid() && Enabled(Value(), Event.Test)
      modifies this`pc
      ensures Valid() && Value() == Next(old(Value()), Event.Test)
    {
      hide Unique, Held, AreEmpty, AreBytes, LinesOfAll, LinesOf;
      StepKeeps(Value(), Event.Test);
      assert Next(Value(), Event.Test) == Value().(pc := if running then Lock else Done);
      hide Inv, Next, Enabled, Owned;
      pc := if running then Lock else Done;
    }

    /** First half of the locked section: the queue and the current buffer become the batch. */
    method TakeQueue()
      requires Owned(Live(), lines) && Unique(Live()) && SparesEmpty()
      requires newBuffer1 != null && buffersToWrite == []
      modifies this`currentBuffer, this`buffers, this`newBuffer1, this`buffersToWrite, this`batches
      ensures Owned(Live(), lines) && Unique(Live()) && SparesEmpty() && Footprint() <= old(Footprint())
      ensures var s := old(Value()); var batch := s.buffers + [s.cur];
              Value() == s.(buffers := [], cur := [], hasNew1 := false, toWrite := batch, batches := s.batches + [batch])
    {
      hide Unique, Held, Holds;
      ghost var live := Live();
      HeldTaken(currentBuffer, nextBuffer, buffers, newBuffer1, newBuffer2);
      assert LinesOfAll(lines, buffers + [currentBuffer]) == LinesOfAll(lines, buffers) + [LinesOf(lines, currentBuffer)];
      var queued := buffers + [currentBuffer];
      OwnedSub(live, Held(newBuffer1, nextBuffer, [], null, newBuffer2, queued), lines);
      hide LinesOfAll, LinesOf;
      batches := batches + [LinesOfAll(lines, queued)];
      currentBuffer, newBuffer1 := newBuffer1, null;
      buffers, buffersToWrite := buffersToWrite, queued;
    }

    /** Second half: the next buffer is replaced when it is gone. */
    method LendSpare()
      requires Owned(Live(), lines) && Unique(Live()) && SparesEmpty() && newBuffer2 != null
      modifies this`nextBuffer, this`newBuffer2, this`pc
      ensures Owned(Live(), lines) && Unique(Live()) && SparesEmpty() && Footprint() <= old(Footprint())
      ensures Value() == old(Value()).(pc := Swapped, hasNext := true, hasNew2 := old(nextBuffer) != null)
    {
      hide Unique, Held, Holds;
      ghost var live := Live();
      if nextBuffer == null {
        HeldLent(currentBuffer, buffers, newBuffer1, newBuffer2, buffersToWrite);
        nextBuffer, newBuffer2 := newBuffer2, null;
        OwnedSub(live, Live(), lines);
      }
      pc := Swapped;
    }

    /** The locked section. */
    method SwapBuffers()
      requires Owned(Live(), lines) && Unique(Live()) && SparesEmpty()
      requires newBuffer1 != null && newBuffer2 != null && buffersToWrite == []
      modifies this`currentBuffer, this`nextBuffer, this`buffers, this`newBuffer1, this`newBuffer2
      modifies this`buffersToWrite, this`batches, this`pc
      ensures Owned(Live(), lines) && Unique(Live()) && SparesEmpty()
      ensures Value() == Swap(old(Value()))
      ensures Footprint() <= old(Footprint())
    {
      hide Unique, Held, Owned, AreEmpty, LinesOfAll, LinesOf;
      TakeQueue();
      LendSpare();
    }

    /** The three asserts before the lock: two spare buffers of length 0, and nothing left to write. */
    lemma AssertsAtTop()
      requires Valid() && Enabled(Value(), Event.Enter)
      ensures newBuffer1 != null && newBuffer1.Length() == 0
      ensures newBuffer2 != null && newBuffer2.Length() == 0
      ensures buffersToWrite == []
    {
      hide Unique, Held, AreBytes, LinesOfAll, LinesOf, Inv;
      AtTheLock(Value());
      SameCount(lines, buffersToWrite);
      SparesHeld(currentBuffer, nextBuffer, buffers, newBuffer1, newBuffer2, buffersToWrite);
      SpareLength(Live(), lines, newBuffer1);
      SpareLength(Live(), lines, newBuffer2);
    }

    /** Takes the lock; waits, releasing it, when nothing is queued. The asserts at the top of the loop body hold. */
    method Enter()
      requires Valid() && Enabled(Value(), Event.Enter)
      modifies this`currentBuffer, this`nextBuffer, this`buffers, this`newBuffer1, this`newBuffer2
      modifies this`buffersToWrite, this`batches, this`pc
      ensures Valid() && Value() == Next(old(Value()), Event.Enter)
      ensures Footprint() <= old(Footprint())
      ensures old(IsEmptySpare(newBuffer1)) && old(IsEmptySpare(newBuffer2)) && old(buffersToWrite) == []
    {
      hide Unique, Held, AreBytes, AreEmpty, LinesOfAll, LinesOf, Inv, Swap;
      ghost var s := Value();
      AssertsAtTop();
      AtTheLock(s);
      StepKeeps(s, Event.Enter);
      SameCount(lines, buffers);
      if buffers == [] {
        pc := Waiting;
      } else {
        SwapBuffers();
      }
    }

    /** The wait ends, by a signal, by its timeout or spuriously; the condition is not tested again. */
    method Wake()
      requires Valid() && Enabled(Value(), Event.Wake)
      modifies this`currentBuffer, this`nextBuffer, this`buffers, this`newBuffer1, this`newBuffer2
      modifies this`buffersToWrite, this`batches, this`pc
      ensures Valid() && Value() == Next(old(Value()), Event.Wake)
      ensures Footprint() <= old(Footprint())
    {
      hide Unique, Held, AreBytes, Owned, AreEmpty, LinesOfAll, LinesOf, Inv, Swap;
      StepKeeps(Value(), Event.Wake);
      AtTheLock(Value());
      SameCount(lines, buffersToWrite);
      SwapBuffers();
    }

    /** Drops the buffers of the batch from the n-th on. */
    method Truncate(n: nat)
      requires Owned(Live(), lines) && Unique(Live()) && SparesEmpty() && n <= |buffersToWrite|
      modifies this`buffersToWrite
      ensures Owned(Live(), lines) && Unique(Live()) && SparesEmpty() && Footprint() <= old(Footprint())
      ensures Value() == old(Value()).(toWrite := old(Value()).toWrite[..n])
      ensures buffersToWrite == old(buffersToWrite)[..n]
    {
      hide Unique, Held, Holds;
      ghost var live := Live();
      var kept := buffersToWrite[..n];
      HeldTruncated(currentBuffer, nextBuffer, buffers, newBuffer1, newBuffer2, buffersToWrite, n);
      OwnedSub(live, Held(currentBuffer, nextBuffer, buffers, newBuffer1, newBuffer2, kept), lines);
      assert LinesOfAll(lines, kept) == LinesOfAll(lines, buffersToWrite)[..n];
      hide LinesOfAll;
      buffersToWrite := kept;
    }

    /** The last written buffer becomes the first spare one, emptied. */
    method RecycleFirst()
      requires Owned(Live(), lines) && Unique(Live()) && SparesEmpty() && newBuffer1 == null && buffersToWrite != []
      modifies this`buffersToWrite, this`newBuffer1, this`lines, Footprint()
      ensures Owned(Live(), lines) && Unique(Live()) && SparesEmpty() && Footprint() <= old(Footprint())
      ensures Value() == old(Value()).(hasNew1 := true, toWrite := old(Value()).toWrite[..|old(buffersToWrite)| - 1])
      ensures |buffersToWrite| == |old(buffersToWrite)| - 1
    {
      hide Unique, Held, Holds;
      ghost var live := Live();
      var n := |buffersToWrite| - 1;
      var b, rest := buffersToWrite[n], buffersToWrite[..n];
      HeldLast(currentBuffer, nextBuffer, buffers, newBuffer1, newBuffer2, buffersToWrite);
      HeldRecycled1(currentBuffer, nextBuffer, buffers, newBuffer2, buffersToWrite);
      ResetBuffer(b, live, lines);
      OwnedSub(live, Held(currentBuffer, nextBuffer, buffers, b, newBuffer2, rest), lines[b := []]);
      assert LinesOfAll(lines, rest) == LinesOfAll(lines, buffersToWrite)[..n];
      LinesOfOthers(lines, rest, b, []);
      LinesOfOthers(lines, buffers, b, []);
      hide LinesOfAll;
      lines := lines[b := []];
      buffersToWrite, newBuffer1 := rest, b;
    }

    /** The last of the written buffers that are left becomes the second spare one, emptied. */
    method RecycleSecond()
      requires Owned(Live(), lines) && Unique(Live()) && SparesEmpty() && newBuffer2 == null && buffersToWrite != []
      modifies this`buffersToWrite, this`newBuffer2, this`lines, Footprint()
      ensures Owned(Live(), lines) && Unique(Live()) && SparesEmpty() && Footprint() <= old(Footprint())
      ensures Value() == old(Value()).(hasNew2 := true, toWrite := old(Value()).toWrite[..|old(buffersToWrite)| - 1])
      ensures |buffersToWrite| == |old(buffersToWrite)| - 1
    {
      hide Unique, Held, Holds;
      ghost var live := Live();
      var n := |buffersToWrite| - 1;
      var b, rest := buffersToWrite[n], buffersToWrite[..n];
      HeldLast(currentBuffer, nextBuffer, buffers, newBuffer1, newBuffer2, buffersToWrite);
      HeldRecycled2(currentBuffer, nextBuffer, buffers, newBuffer1, buffersToWrite);
      ResetBuffer(b, live, lines);
      OwnedSub(live, Held(currentBuffer, nextBuffer, buffers, newBuffer1, b, rest), lines[b := []]);
      assert LinesOfAll(lines, rest) == LinesOfAll(lines, buffersToWrite)[..n];
      LinesOfOthers(lines, rest, b, []);
      LinesOfOthers(lines, buffers, b, []);
      hide LinesOfAll;
      lines := lines[b := []];
      buffersToWrite, newBuffer2 := rest, b;
    }

    /** Drops a batch but for its first two buffers, and says so in the log. */
    method DropRest(notice: string)
      requires Owned(Live(), lines) && Unique(Live()) && SparesEmpty() && AreBytes(written, output)
      requires |buffersToWrite| >= 2
      modifies this`buffersToWrite, this`output, this`written
      ensures Owned(Live(), lines) && Unique(Live()) && SparesEmpty() && AreBytes(written, output)
      ensures var s := old(Value());
              Value() == s.(output := s.output + [Notice(|s.toWrite| - 2)], toWrite := s.toWrite[..2])
      ensures Footprint() <= old(Footprint()) && written == old(written) + [notice]
    {
      hide Unique, Held, Flatten, LinesOf, LinesOfAll, AreEmpty;
      var dropped := |buffersToWrite| - 2;
      assert |Value().toWrite| == |buffersToWrite|;
      Truncate(2);
      written := written + [notice];
      output := output + [Notice(dropped)];
    }

    /** The assert after the locked section holds; a batch of more than 25 buffers is dropped but for its first two. */
    method Check(notice: string)
      requires Valid() && Enabled(Value(), Event.Check)
      modifies this`buffersToWrite, this`output, this`written, this`pc
      ensures Valid() && Value() == Next(old(Value()), Event.Check)
      ensures Footprint() <= old(Footprint())
      ensures written == if |old(buffersToWrite)| > MAX_BATCH then old(written) + [notice] else old(written)
    {
      hide Unique, Held, LinesOf, LinesOfAll, AreEmpty, AreBytes, Inv;
      StepKeeps(Value(), Event.Check);
      BatchToWrite(Value());
      SameCount(lines, buffersToWrite);
      assert buffersToWrite != [];
      pc := Writing(0);
      if |buffersToWrite| > MAX_BATCH {
        DropRest(notice);
      }
    }

    /** One round of the writing loop. */
    method WriteOne()
      requires Valid() && Enabled(Value(), Event.WriteOne)
      modifies this`output, this`written, this`pc
      ensures Valid() && Value() == Next(old(Value()), Event.WriteOne)
      ensures written == old(written) + [Flatten(NextBuffer(old(Value())))]
    {
      hide Unique, Held, Flatten, Kept, AreEmpty;
      StepKeeps(Value(), Event.WriteOne);
      ghost var s := Value();
      var i := pc.next;
      assert |s.toWrite| == |buffersToWrite|;
      HeldBatch(currentBuffer, nextBuffer, buffers, newBuffer1, newBuffer2, buffersToWrite, i);
      assert Holds(buffersToWrite[i], lines) && lines[buffersToWrite[i]] == s.toWrite[i];
      hide Inv, LinesOfAll, LinesOf, Owned;
      WriteBuffer(i, s.toWrite[i]);
    }

    /** Hands the bytes of one buffer of the batch to the log file. */
    method WriteBuffer(i: nat, ghost buf: Buf)
      requires Owned(Live(), lines) && AreBytes(written, output)
      requires i < |buffersToWrite| && Holds(buffersToWrite[i], lines) && lines[buffersToWrite[i]] == buf
      modifies this`output, this`written, this`pc
      ensures Owned(Live(), lines) && AreBytes(written, output)
      ensures Value() == old(Value()).(output := old(output) + [Data(buf)], pc := Writing(i + 1))
      ensures written == old(written) + [Flatten(buf)]
    {
      hide Unique, Held, Flatten, LinesOf, LinesOfAll;
      written := written + [buffersToWrite[i].Contents()];
      output := output + [Data(buf)];
      pc := Writing(i + 1);
    }

    /** Takes two written buffers back as spare ones and drops the others. */
    method TakeBack()
      requires Owned(Live(), lines) && Unique(Live()) && SparesEmpty()
      requires newBuffer1 == null && |buffersToWrite| >= (if newBuffer2 == null then 2 else 1)
      modifies this`buffersToWrite, this`newBuffer1, this`newBuffer2, this`lines, Footprint()
      ensures Owned(Live(), lines) && Unique(Live()) && SparesEmpty() && Footprint() <= old(Footprint())
      ensures Value() == old(Value()).(hasNew1 := true, hasNew2 := true, toWrite := [])
    {
      hide Unique, Held, LinesOf, LinesOfAll, Owned, AreEmpty;
      if |buffersToWrite| > 2 {
        Truncate(2);
      }
      assert buffersToWrite != [];
      RecycleFirst();
      if newBuffer2 == null {
        assert buffersToWrite != [];
        RecycleSecond();
      }
      Truncate(0);
    }

    /** The end of a round; the asserts before the two recyclings hold. */
    method Recycle()
      requires Valid() && Enabled(Value(), Event.Recycle)
      modifies this`buffersToWrite, this`newBuffer1, this`newBuffer2, this`lines, this`pc, Footprint()
      ensures Valid() && Value() == Next(old(Value()), Event.Recycle)
      ensures Footprint() <= old(Footprint())
    {
      hide Unique, Held, AreEmpty, LinesOf, LinesOfAll, AreBytes, Inv;
      StepKeeps(Value(), Event.Recycle);
      BatchWritten(Value());
      SameCount(lines, buffersToWrite);
      assert newBuffer1 == null && |buffersToWrite| >= (if newBuffer2 == null then 2 else 1);
      pc := Top;
      TakeBack();
    }
  }
}
