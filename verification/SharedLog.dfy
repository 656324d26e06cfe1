/** Several pipelines that report their overflows to one metrics store, as the program sets them up.  Each
    numbers its own overflows. */
module SharedLog {
  import opened Types
  import opened Metrics
  import opened Pipeline

  /** A log entry and the pipeline that wrote it.  The program does not record the writer. */
  datatype Entry = Entry(writer: nat, event: OverflowEvent)

  datatype Store = Store(pipes: seq<State>, log: seq<Entry>)

  /** Pipeline `pipe` takes a step. */
  datatype Move = Move(pipe: nat, step: Step)

  function Open(pipes: nat): Store {
    Store(seq(pipes, _ => INITIAL), [])
  }

  /** The step writes to the log. */
  predicate Writes(s: State, step: Step) {
    step.ParserStep? && step.locked && s.parser.Logging?
  }

  function Event(s: State): OverflowEvent
    requires s.parser.Logging?
  {
    OverflowEvent(s.parser.pkt.domain, s.parser.pkt.priority, s.parser.total)
  }

  function Take(cfg: Config, st: Store, m: Move): (st': Store)
    ensures |st'.pipes| == |st.pipes|
  {
    if m.pipe >= |st.pipes| then st
    else
      var s := st.pipes[m.pipe];
      Store(st.pipes[m.pipe := Next(cfg, s, m.step)],
            if Writes(s, m.step) then Pushed(st.log, Entry(m.pipe, Event(s)), LOG_CAPACITY) else st.log)
  }

  function TakeAll(cfg: Config, st: Store, moves: seq<Move>): (st': Store)
    ensures |st'.pipes| == |st.pipes|
  {
    if moves == [] then st else Take(cfg, TakeAll(cfg, st, moves[..|moves| - 1]), moves[|moves| - 1])
  }

  /** The steps of one pipeline. */
  function StepsOf(moves: seq<Move>, k: nat): seq<Step> {
    if moves == [] then []
    else StepsOf(moves[..|moves| - 1], k) + if moves[|moves| - 1].pipe == k then [moves[|moves| - 1].step] else []
  }

  /** The entries of one writer. */
  function By(log: seq<Entry>, k: nat): (r: seq<OverflowEvent>)
    ensures |r| <= |log|
  {
    if log == [] then []
    else By(log[..|log| - 1], k) + if log[|log| - 1].writer == k then [log[|log| - 1].event] else []
  }

  // ----- One pipeline among others -----------------------------------------------------------

  /** Pipelines do not influence each other: each behaves as it does alone. */
  lemma {:induction false} PipesAreIndependent(cfg: Config, pipes: nat, moves: seq<Move>, k: nat)
    requires k < pipes
    ensures TakeAll(cfg, Open(pipes), moves).pipes[k] == Run(cfg, INITIAL, StepsOf(moves, k))
  {
    if moves != [] {
      var p, m := moves[..|moves| - 1], moves[|moves| - 1];
      PipesAreIndependent(cfg, pipes, p, k);
      if m.pipe == k {
        var steps := StepsOf(p, k);
        assert (steps + [m.step])[..|steps|] == steps;
      } else {
        assert StepsOf(moves, k) == StepsOf(p, k);
      }
    }
  }

  lemma {:induction false} ByAppend(log: seq<Entry>, e: Entry, k: nat)
    ensures By(log + [e], k) == if e.writer == k then By(log, k) + [e.event] else By(log, k)
  {
    assert (log + [e])[..|log|] == log;
  }

  lemma {:induction false} ByTail(log: seq<Entry>, k: nat)
    requires log != []
    ensures log[0].writer == k ==> By(log, k) != []
    ensures By(log[1..], k) == if log[0].writer == k then By(log, k)[1..] else By(log, k)
  {
    var p, e := log[..|log| - 1], log[|log| - 1];
    if p == [] {
      assert log == [e] && log[1..] == [];
      ByAppend([], e, k);
      assert [] + [e] == [e];
    } else {
      ByTail(p, k);
      assert log[1..] == p[1..] + [e];
      ByAppend(p[1..], e, k);
    }
  }

  /** What the shared log holds of a writer is the end of what a log of its own would hold. */
  ghost predicate HoldsEnds(st: Store) {
    && |st.log| <= LOG_CAPACITY
    && forall k | 0 <= k < |st.pipes| :: IsEnd(By(st.log, k), st.pipes[k].log)
  }

  /** A log with room for one more entry. */
  function Room<T>(log: seq<T>): seq<T> {
    if |log| >= LOG_CAPACITY then log[1..] else log
  }

  lemma {:induction false} RoomKeepsEnd(log: seq<Entry>, own: seq<OverflowEvent>, k: nat)
    requires |log| <= LOG_CAPACITY && IsEnd(By(log, k), own)
    ensures |Room(log)| < LOG_CAPACITY && IsEnd(By(Room(log), k), own)
  {
    if |log| >= LOG_CAPACITY {
      var s := By(log, k);
      ByTail(log, k);
      if s != [] {
        IsEndMoves(s, own, s[0]);
      }
    }
  }

  lemma EndOfRoom(s: seq<OverflowEvent>, own: seq<OverflowEvent>)
    requires IsEnd(s, own) && |s| < LOG_CAPACITY
    ensures IsEnd(s, Room(own))
  {
  }

  lemma PushedRoom<T>(log: seq<T>, x: T)
    ensures Pushed(log, x, LOG_CAPACITY) == Room(log) + [x]
  {
  }

  lemma {:induction false} OwnPush(log: seq<Entry>, own: seq<OverflowEvent>, e: Entry)
    requires |log| <= LOG_CAPACITY && |own| <= LOG_CAPACITY && IsEnd(By(log, e.writer), own)
    ensures IsEnd(By(Pushed(log, e, LOG_CAPACITY), e.writer), Pushed(own, e.event, LOG_CAPACITY))
  {
    PushedRoom(log, e);
    PushedRoom(own, e.event);
    RoomKeepsEnd(log, own, e.writer);
    EndOfRoom(By(Room(log), e.writer), own);
    ByAppend(Room(log), e, e.writer);
    IsEndMoves(By(Room(log), e.writer), Room(own), e.event);
  }

  lemma {:induction false} OtherPush(log: seq<Entry>, own: seq<OverflowEvent>, e: Entry, k: nat)
    requires |log| <= LOG_CAPACITY && IsEnd(By(log, k), own) && e.writer != k
    ensures IsEnd(By(Pushed(log, e, LOG_CAPACITY), k), own)
  {
    PushedRoom(log, e);
    RoomKeepsEnd(log, own, k);
    ByAppend(Room(log), e, k);
  }

  lemma NextLog(cfg: Config, s: State, step: Step)
    ensures Next(cfg, s, step).log == if Writes(s, step) then Pushed(s.log, Event(s), LOG_CAPACITY) else s.log
  {
  }

  lemma HoldsEndsStep(cfg: Config, st: Store, m: Move)
    requires HoldsEnds(st) && forall k | 0 <= k < |st.pipes| :: |st.pipes[k].log| <= LOG_CAPACITY
    ensures HoldsEnds(Take(cfg, st, m))
  {
    if m.pipe < |st.pipes| {
      var s, st' := st.pipes[m.pipe], Take(cfg, st, m);
      NextLog(cfg, s, m.step);
      forall k | 0 <= k < |st'.pipes|
        ensures IsEnd(By(st'.log, k), st'.pipes[k].log)
      {
        if Writes(s, m.step) {
          var e := Entry(m.pipe, Event(s));
          if k == m.pipe {
            OwnPush(st.log, s.log, e);
          } else {
            OtherPush(st.log, st.pipes[k].log, e, k);
          }
        }
      }
    }
  }

  lemma {:induction false} HoldsEndsAlways(cfg: Config, pipes: nat, moves: seq<Move>)
    requires ValidConfig(cfg)
    ensures HoldsEnds(TakeAll(cfg, Open(pipes), moves))
  {
    if moves != [] {
      var p := moves[..|moves| - 1];
      HoldsEndsAlways(cfg, pipes, p);
      var st := TakeAll(cfg, Open(pipes), p);
      forall k | 0 <= k < pipes
        ensures |st.pipes[k].log| <= LOG_CAPACITY
      {
        PipesAreIndependent(cfg, pipes, p, k);
        LoggedAlways(cfg, StepsOf(p, k));
      }
      HoldsEndsStep(cfg, st, moves[|moves| - 1]);
    }
  }

  /** The shared log never exceeds its capacity and is a merge of one strictly growing sequence for each
      pipeline, in which every entry describes the packet of that pipeline it counts. */
  lemma {:induction false} SharedLogIsAMerge(cfg: Config, pipes: nat, moves: seq<Move>, k: nat)
    requires ValidConfig(cfg) && k < pipes
    ensures var st := TakeAll(cfg, Open(pipes), moves);
            var own, s := By(st.log, k), st.pipes[k];
            && |st.log| <= LOG_CAPACITY
            && IsEnd(own, s.log) && Growing(own)
            && forall i | 0 <= i < |own| :: Fits(own[i], s.overflowed, s.overflows)
  {
    HoldsEndsAlways(cfg, pipes, moves);
    PipesAreIndependent(cfg, pipes, moves, k);
    OverflowsAreAccounted(cfg, StepsOf(moves, k));
    var st := TakeAll(cfg, Open(pipes), moves);
    EndInherits(By(st.log, k), st.pipes[k].log, st.pipes[k].overflowed, st.pipes[k].overflows);
  }

  lemma EndInherits(own: seq<OverflowEvent>, log: seq<OverflowEvent>, overflowed: seq<Packet>, latest: int)
    requires IsEnd(own, log) && Growing(log)
    requires forall i | 0 <= i < |log| :: Fits(log[i], overflowed, latest)
    ensures Growing(own) && forall i | 0 <= i < |own| :: Fits(own[i], overflowed, latest)
  {
    assert forall i | 0 <= i < |own| :: own[i] == log[|log| - |own| + i];
  }

  /** All that was to be logged when the lock was free, by whom. */
  function Writings(cfg: Config, pipes: nat, moves: seq<Move>): seq<Entry> {
    if moves == [] then []
    else
      var p, m := moves[..|moves| - 1], moves[|moves| - 1];
      var st := TakeAll(cfg, Open(pipes), p);
      if m.pipe < pipes && m.step == ParserStep(true) && st.pipes[m.pipe].parser.Logging?
      then Writings(cfg, pipes, p) + [Entry(m.pipe, Event(st.pipes[m.pipe]))]
      else Writings(cfg, pipes, p)
  }

  /** The shared log holds exactly the latest of that. */
  lemma {:induction false} SharedLogHoldsTheLatest(cfg: Config, pipes: nat, moves: seq<Move>)
    ensures TakeAll(cfg, Open(pipes), moves).log == Suffix(Writings(cfg, pipes, moves), 10_000)
  {
    if moves != [] {
      var p, m := moves[..|moves| - 1], moves[|moves| - 1];
      var st := TakeAll(cfg, Open(pipes), p);
      SharedLogHoldsTheLatest(cfg, pipes, p);
      if m.pipe < pipes && Writes(st.pipes[m.pipe], m.step) {
        PushMovesSuffix(Writings(cfg, pipes, p), Entry(m.pipe, Event(st.pipes[m.pipe])), 10_000);
      }
    }
  }

  // ----- Growth of the whole log -------------------------------------------------------------

  /** What a reader of the log sees. */
  function Events(log: seq<Entry>): (r: seq<OverflowEvent>)
    ensures |r| == |log| && forall i | 0 <= i < |log| :: r[i] == log[i].event
  {
    seq(|log|, i requires 0 <= i < |log| => log[i].event)
  }

  ghost predicate AlwaysGrows(cfg: Config, pipes: nat) {
    forall moves: seq<Move> :: Growing(Events(TakeAll(cfg, Open(pipes), moves).log))
  }

  lemma {:induction false} OneWriter(log: seq<Entry>)
    requires forall i | 0 <= i < |log| :: log[i].writer == 0
    ensures By(log, 0) == Events(log)
  {
    if log != [] {
      OneWriter(log[..|log| - 1]);
    }
  }

  predicate WrittenBy(log: seq<Entry>, pipes: nat) {
    forall i | 0 <= i < |log| :: log[i].writer < pipes
  }

  lemma PushedWriters(log: seq<Entry>, e: Entry, pipes: nat)
    requires e.writer < pipes && WrittenBy(log, pipes)
    ensures WrittenBy(Pushed(log, e, LOG_CAPACITY), pipes)
  {
    PushedRoom(log, e);
    assert forall i | 0 <= i < |Room(log)| :: Room(log)[i] == log[i + |log| - |Room(log)|];
  }

  lemma {:induction false} WritersArePipes(cfg: Config, pipes: nat, moves: seq<Move>)
    ensures WrittenBy(TakeAll(cfg, Open(pipes), moves).log, pipes)
  {
    if moves != [] {
      var p, m := moves[..|moves| - 1], moves[|moves| - 1];
      WritersArePipes(cfg, pipes, p);
      var st := TakeAll(cfg, Open(pipes), p);
      if m.pipe < pipes && Writes(st.pipes[m.pipe], m.step) {
        PushedWriters(st.log, Entry(m.pipe, Event(st.pipes[m.pipe])), pipes);
      }
    }
  }

  lemma {:induction false} RunOne(cfg: Config, s: State, step: Step)
    ensures Run(cfg, s, [step]) == Next(cfg, s, step)
  {
    var one := [step];
    assert one[..|one| - 1] == [];
  }

  /** `n` human packets enqueued, nothing dispatched. */
  lemma {:induction false} Fill(cfg: Config, n: nat) returns (steps: seq<Step>)
    requires n <= cfg.capacity
    ensures Unlocked(steps)
    ensures var s := Run(cfg, INITIAL, steps);
            s.parser == Ready && |s.queues.high| == n && s.overflows == 0
  {
    steps := [];
    if n > 0 {
      var before := Fill(cfg, n - 1);
      var s := Run(cfg, INITIAL, before);
      var parse, try := Parse(High, "en.wikipedia.org"), ParserStep(false);
      RunOne(cfg, s, parse);
      RunOne(cfg, Next(cfg, s, parse), try);
      RunSplit(cfg, INITIAL, before, [parse]);
      RunSplit(cfg, INITIAL, before + [parse], [try]);
      steps := before + [parse] + [try];
    }
  }

  /** No step finds the metrics lock free. */
  predicate Unlocked(steps: seq<Step>) {
    forall i | 0 <= i < |steps| :: steps[i].ParserStep? ==> !steps[i].locked
  }

  /** A run up to the point where the first overflow is about to be logged. */
  lemma FirstOverflow(cfg: Config) returns (steps: seq<Step>)
    ensures Unlocked(steps)
    ensures var s := Run(cfg, INITIAL, steps); s.parser.Logging? && s.parser.total == 1
  {
    var full := Fill(cfg, cfg.capacity);
    var s := Run(cfg, INITIAL, full);
    var parse, try := Parse(High, "en.wikipedia.org"), ParserStep(false);
    RunOne(cfg, s, parse);
    RunOne(cfg, Next(cfg, s, parse), try);
    RunOne(cfg, Next(cfg, Next(cfg, s, parse), try), try);
    RunSplit(cfg, INITIAL, full, [parse]);
    RunSplit(cfg, INITIAL, full + [parse], [try]);
    RunSplit(cfg, INITIAL, full + [parse] + [try], [try]);
    steps := full + [parse] + [try] + [try];
  }

  /** The steps of pipeline `k` as moves. */
  function Moves(k: nat, steps: seq<Step>): (r: seq<Move>)
    ensures |r| == |steps|
  {
    seq(|steps|, i requires 0 <= i < |steps| => Move(k, steps[i]))
  }

  /** Pipeline `k` runs alone and logs nothing. */
  lemma {:induction false} QuietMoves(cfg: Config, st: Store, k: nat, steps: seq<Step>)
    requires k < |st.pipes| && st.pipes[k] == INITIAL && Unlocked(steps)
    ensures TakeAll(cfg, st, Moves(k, steps)) == Store(st.pipes[k := Run(cfg, INITIAL, steps)], st.log)
  {
    if steps == [] {
      assert st.pipes[k := INITIAL] == st.pipes;
    } else {
      var p := steps[..|steps| - 1];
      assert Moves(k, steps)[..|p|] == Moves(k, p);
      QuietMoves(cfg, st, k, p);
    }
  }

  lemma {:induction false} TakeSplit(cfg: Config, st: Store, a: seq<Move>, b: seq<Move>)
    ensures TakeAll(cfg, st, a + b) == TakeAll(cfg, TakeAll(cfg, st, a), b)
  {
    if b == [] {
      assert a + b == a;
    } else {
      assert (a + b)[..|a + b| - 1] == a + b[..|b| - 1];
      TakeSplit(cfg, st, a, b[..|b| - 1]);
    }
  }

  /** Two first overflows: the log reads 1, 1. */
  lemma TwoWriters(cfg: Config, st: Store) returns (moves: seq<Move>)
    requires |st.pipes| >= 2 && st.pipes[0] == st.pipes[1] && st.log == []
    requires st.pipes[0].parser.Logging?
    ensures !Growing(Events(TakeAll(cfg, st, moves).log))
  {
    var write := ParserStep(true);
    moves := [Move(0, write), Move(1, write)];
    assert moves[..1] == [Move(0, write)] && moves[..1][..0] == [];
    var log := TakeAll(cfg, st, moves).log;
    assert TakeAll(cfg, st, moves[..1]) == Take(cfg, st, Move(0, write));
    assert |log| == 2 && log[0].event == log[1].event;
    assert Events(log)[0].totalDrops == Events(log)[1].totalDrops;
  }

  /** The totals in the log grow in every run exactly when one pipeline writes it. */
  lemma LogGrowsExactly(cfg: Config, pipes: nat)
    requires ValidConfig(cfg)
    ensures AlwaysGrows(cfg, pipes) <==> pipes <= 1
  {
    if pipes <= 1 {
      forall moves: seq<Move>
        ensures Growing(Events(TakeAll(cfg, Open(pipes), moves).log))
      {
        var log := TakeAll(cfg, Open(pipes), moves).log;
        WritersArePipes(cfg, pipes, moves);
        if pipes == 1 {
          OneWriter(log);
          SharedLogIsAMerge(cfg, pipes, moves, 0);
        }
      }
    } else {
      var steps := FirstOverflow(cfg);
      var a, b := Moves(0, steps), Moves(1, steps);
      QuietMoves(cfg, Open(pipes), 0, steps);
      QuietMoves(cfg, TakeAll(cfg, Open(pipes), a), 1, steps);
      TakeSplit(cfg, Open(pipes), a, b);
      var last := TwoWriters(cfg, TakeAll(cfg, Open(pipes), a + b));
      TakeSplit(cfg, Open(pipes), a + b, last);
    }
  }
}
