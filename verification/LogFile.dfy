module LogFile {
  import opened CInt
  import opened Seqs

  const ROLL_PER_SECONDS := 60 * 60 * 24

  /** One file on disk: the writes it received, and how many bytes they are. */
  datatype File = File(writes: seq<string>, writtenBytes: nat)

  datatype Config = Config(rollSize: int, flushInterval: int, checkEveryN: int)

  /** The fields of `LogFile`, with all files opened so far; the last one is open. */
  datatype State = State(files: seq<File>, count: int, startOfPeriod: int, lastRoll: int, lastFlush: int)

  /** A line and the two clock readings its append may take: for the period check and for rolling. */
  datatype Event = Event(line: string, nowCheck: int, nowRoll: int)

  function StartOfPeriod(now: int): int {
    Div(now, ROLL_PER_SECONDS) * ROLL_PER_SECONDS
  }

  function Current(s: State): File
    requires |s.files| > 0
  {
    s.files[|s.files| - 1]
  }

  // ---- What one call does ----

  function Roll(s: State, now: int): State {
    if now > s.lastRoll then
      s.(lastRoll := now, lastFlush := now, startOfPeriod := StartOfPeriod(now), files := s.files + [File([], 0)])
    else s
  }

  function Write(s: State, line: string): State
    requires |s.files| > 0
  {
    var f := Current(s);
    s.(files := s.files[|s.files| - 1 := File(f.writes + [line], f.writtenBytes + |line|)])
  }

  function Append(cfg: Config, s: State, e: Event): (r: State)
    requires |s.files| > 0
    ensures |r.files| > 0
  {
    var w := Write(s, e.line);
    if Current(w).writtenBytes > cfg.rollSize then Roll(w, e.nowRoll)
    else if w.count + 1 < cfg.checkEveryN then w.(count := w.count + 1)
    else
      var c := w.(count := 0);
      if StartOfPeriod(e.nowCheck) != c.startOfPeriod then Roll(c, e.nowRoll)
      else if e.nowCheck - c.lastFlush > cfg.flushInterval then c.(lastFlush := e.nowCheck)
      else c
  }

  // ---- The class ----

  class LogFile {
    const cfg: Config
    var files: seq<File>
    var count: int
    var startOfPeriod: int
    var lastRoll: int
    var lastFlush: int

    function Value(): State
      reads this
    {
      State(files, count, startOfPeriod, lastRoll, lastFlush)
    }

    constructor (cfg: Config, now: int)
      ensures this.cfg == cfg
      ensures Value() == Roll(State([], 0, 0, 0, 0), now)
    {
      this.cfg := cfg;
      files, count := [], 0;
      startOfPeriod, lastRoll, lastFlush := 0, 0, 0;
      new;
      var _ := RollFile(now);
    }

    /** Opens a new file unless the clock has not moved past the last roll. */
    method RollFile(now: int) returns (rolled: bool)
      modifies this
      ensures Value() == Roll(old(Value()), now)
      ensures rolled <==> now > old(lastRoll)
    {
      var start := Div(now, ROLL_PER_SECONDS) * ROLL_PER_SECONDS;
      if now > lastRoll {
        lastRoll := now;
        lastFlush := now;
        startOfPeriod := start;
        files := files + [File([], 0)];
        return true;
      }
      return false;
    }

    method AppendUnlocked(line: string, nowCheck: int, nowRoll: int)
      requires |files| > 0
      modifies this
      ensures Value() == Append(cfg, old(Value()), Event(line, nowCheck, nowRoll))
    {
      var last := |files| - 1;
      files := files[last := File(files[last].writes + [line], files[last].writtenBytes + |line|)];
      if files[last].writtenBytes > cfg.rollSize {
        var _ := RollFile(nowRoll);
      } else {
        count := count + 1;
        if count >= cfg.checkEveryN {
          count := 0;
          var thisPeriod := Div(nowCheck, ROLL_PER_SECONDS) * ROLL_PER_SECONDS;
          if thisPeriod != startOfPeriod {
            var _ := RollFile(nowRoll);
          } else if nowCheck - lastFlush > cfg.flushInterval {
            lastFlush := nowCheck;
          }
        }
      }
    }
  }

  // ---- Whole runs ----

  /** A freshly constructed log file whose clock read now. */
  function Fresh(now: int): State {
    Roll(State([], 0, 0, 0, 0), now)
  }

  function Run(cfg: Config, s: State, events: seq<Event>): (r: State)
    requires |s.files| > 0
    ensures |r.files| > 0
  {
    if |events| == 0 then s
    else Append(cfg, Run(cfg, s, events[..|events| - 1]), events[|events| - 1])
  }

  function Lines(events: seq<Event>): seq<string> {
    seq(|events|, i requires 0 <= i < |events| => events[i].line)
  }

  /** The writes of all files, in the order the files were opened. */
  function AllWrites(files: seq<File>): seq<string> {
    if |files| == 0 then [] else AllWrites(files[..|files| - 1]) + files[|files| - 1].writes
  }

  function Bytes(writes: seq<string>): nat {
    if |writes| == 0 then 0 else Bytes(writes[..|writes| - 1]) + |writes[|writes| - 1]|
  }

  /** What every state keeps. */
  predicate Inv(s: State) {
    && |s.files| > 0
    && s.startOfPeriod == StartOfPeriod(s.lastRoll)
    && (forall f :: f in s.files ==> f.writtenBytes == Bytes(f.writes))
  }

  lemma FreshInv(now: int)
    ensures Inv(Fresh(now)) <==> now > 0
    ensures AllWrites(Fresh(now).files) == []
  {
    if now > 0 {
      var s := Fresh(now);
      assert s.files == [File([], 0)];
      assert AllWrites(s.files[..0]) == [];
    }
  }

  lemma WriteKeeps(s: State, line: string)
    requires Inv(s)
    ensures Inv(Write(s, line))
    ensures AllWrites(Write(s, line).files) == AllWrites(s.files) + [line]
  {
    var w := Write(s, line);
    var n := |s.files| - 1;
    var f := Current(s);
    assert (f.writes + [line])[..|f.writes|] == f.writes;
    assert w.files[..n] == s.files[..n];
    assert AllWrites(s.files[..n]) + (f.writes + [line]) == (AllWrites(s.files[..n]) + f.writes) + [line];
  }

  lemma RollKeeps(s: State, now: int)
    requires Inv(s)
    ensures Inv(Roll(s, now)) && AllWrites(Roll(s, now).files) == AllWrites(s.files)
  {
    assert (s.files + [File([], 0)])[..|s.files|] == s.files;
  }

  lemma AppendKeeps(cfg: Config, s: State, e: Event)
    requires Inv(s)
    ensures Inv(Append(cfg, s, e))
    ensures AllWrites(Append(cfg, s, e).files) == AllWrites(s.files) + [e.line]
  {
    hide StartOfPeriod, Bytes, AllWrites;
    var w := Write(s, e.line);
    WriteKeeps(s, e.line);
    RollKeeps(w, e.nowRoll);
    RollKeeps(w.(count := 0), e.nowRoll);
  }

  /** Every run: the files together hold the appended lines, each one whole in one file, in order. */
  lemma {:induction false} RunConserves(cfg: Config, now: int, events: seq<Event>)
    requires now > 0
    ensures var s := Run(cfg, Fresh(now), events);
            Inv(s) && AllWrites(s.files) == Lines(events)
  {
    FreshInv(now);
    hide StartOfPeriod, Bytes, Append, AllWrites;
    if |events| > 0 {
      var init, e := events[..|events| - 1], events[|events| - 1];
      RunConserves(cfg, now, init);
      AppendKeeps(cfg, Run(cfg, Fresh(now), init), e);
      assert Lines(events) == Lines(init) + [e.line];
    }
  }

  predicate PastRollSize(cfg: Config, s: State)
    requires |s.files| > 0
  {
    Current(s).writtenBytes > cfg.rollSize
  }

  /** A line meets a file already past the roll size exactly when the append before it read a clock not past the last roll. */
  lemma PastRollSizeMeansNoRoll(cfg: Config, now: int, events: seq<Event>)
    requires now > 0 && cfg.rollSize >= 0
    ensures var s := Run(cfg, Fresh(now), events);
            PastRollSize(cfg, s) <==>
            && |events| > 0
            && var before := Run(cfg, Fresh(now), events[..|events| - 1]);
               var e := events[|events| - 1];
               Current(before).writtenBytes + |e.line| > cfg.rollSize && e.nowRoll <= before.lastRoll
  {
  }

  /** Whether the line takes the current file past the roll size. */
  predicate Exceeds(cfg: Config, s: State, e: Event)
    requires |s.files| > 0
  {
    Current(s).writtenBytes + |e.line| > cfg.rollSize
  }

  /**
   * A new file is opened exactly if the clock has moved past the last roll and the line takes the file past the
   * roll size, or it is the line at which the time is checked and the day is another one. What the append leaves in the
   * other fields, in every case: the count of lines since the last check, and the times of roll and flush.
   */
  lemma RollReason(cfg: Config, s: State, e: Event)
    requires Inv(s)
    ensures var t, check := Append(cfg, s, e), !Exceeds(cfg, s, e) && s.count + 1 >= cfg.checkEveryN;
      var newDay := StartOfPeriod(e.nowCheck) != StartOfPeriod(s.lastRoll);
      var rolls := e.nowRoll > s.lastRoll && (Exceeds(cfg, s, e) || (check && newDay));
      var flushes := check && !newDay && e.nowCheck - s.lastFlush > cfg.flushInterval;
      && |t.files| == |s.files| + (if rolls then 1 else 0)
      && t.lastRoll == (if rolls then e.nowRoll else s.lastRoll)
      && t.lastFlush == (if rolls then e.nowRoll else if flushes then e.nowCheck else s.lastFlush)
      && t.count == (if Exceeds(cfg, s, e) then s.count else if check then 0 else s.count + 1)
  {
    hide StartOfPeriod, Bytes;
  }

  /** Two clock readings are of one period exactly if they are of one day; the day before 1970 counts with the first. */
  lemma SamePeriodExactly(a: int, b: int)
    ensures StartOfPeriod(a) == StartOfPeriod(b) <==> Div(a, 86400) == Div(b, 86400)
    ensures a >= 0 && b >= 0 ==> (StartOfPeriod(a) == StartOfPeriod(b) <==> a / 86400 == b / 86400)
    ensures -86400 < a < 86400 ==> StartOfPeriod(a) == 0
  {
  }

  /** The lines that did not take their file past the roll size. */
  function Within(cfg: Config, now: int, events: seq<Event>): nat {
    if |events| == 0 || now <= 0 then 0
    else
      var init := events[..|events| - 1];
      Within(cfg, now, init) + if Exceeds(cfg, Run(cfg, Fresh(now), init), events[|events| - 1]) then 0 else 1
  }

  /** So in every run each checkEveryN-th of these lines checks the time, and no other. */
  lemma {:induction false} CountIs(cfg: Config, now: int, events: seq<Event>)
    requires now > 0
    ensures Run(cfg, Fresh(now), events).count
         == Within(cfg, now, events) % (if cfg.checkEveryN > 1 then cfg.checkEveryN else 1)
  {
    hide StartOfPeriod, Bytes, AllWrites;
    if |events| > 0 {
      var init, e := events[..|events| - 1], events[|events| - 1];
      CountIs(cfg, now, init);
      RunConserves(cfg, now, init);
      hide Append, Exceeds, Fresh;
      RollReason(cfg, Run(cfg, Fresh(now), init), e);
      hide Inv;
      Successor(Within(cfg, now, init), if cfg.checkEveryN > 1 then cfg.checkEveryN else 1);
    }
  }
}
