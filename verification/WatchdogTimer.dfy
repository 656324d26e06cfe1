/** The network watchdog: the polling loop by itself, and the same loop cut into atomic steps that race
    with heartbeats, on a millisecond clock that never runs backwards. */
module WatchdogTimer {
  import opened Types
  import opened Metrics

  const TIMEOUT_MS: int := 10_000

  // ----- The loop by itself ------------------------------------------------------------------

  datatype Registers = Registers(lastEventMs: int, resetCount: nat, reconnectFlag: bool, reported: nat)

  /** One poll at wall-clock time `now`; `locked` is the outcome of the metrics `try_lock`. */
  function Poll(r: Registers, now: int, locked: bool): Registers {
    if r.lastEventMs == 0 || now - r.lastEventMs <= TIMEOUT_MS then r
    else Registers(now, r.resetCount + 1, true, if locked then r.resetCount + 1 else r.reported)
  }

  /** One round: a heartbeat that may have been stored during the sleep, then the poll. */
  datatype Round = Round(heartbeat: Option<int>, now: int, locked: bool)

  function PlayRound(r: Registers, round: Round): Registers {
    Poll(if round.heartbeat.Some? then r.(lastEventMs := round.heartbeat.value) else r, round.now, round.locked)
  }

  function PlayRounds(r: Registers, rounds: seq<Round>): Registers {
    if rounds == [] then r else PlayRound(PlayRounds(r, rounds[..|rounds| - 1]), rounds[|rounds| - 1])
  }

  /** The number of the latest reset that found the metrics lock free. */
  function LatestReport(r: Registers, rounds: seq<Round>): nat {
    if rounds == [] then r.reported
    else
      var before, count := PlayRounds(r, rounds[..|rounds| - 1]).resetCount, PlayRounds(r, rounds).resetCount;
      if rounds[|rounds| - 1].locked && count > before then count else LatestReport(r, rounds[..|rounds| - 1])
  }

  /** The metrics show exactly that number; with every lock free, the number of resets. */
  lemma {:induction false} ReportsAreResets(r: Registers, rounds: seq<Round>)
    ensures PlayRounds(r, rounds).reported == LatestReport(r, rounds)
    ensures (forall i | 0 <= i < |rounds| :: rounds[i].locked) && r.reported == r.resetCount ==>
              PlayRounds(r, rounds).reported == PlayRounds(r, rounds).resetCount
  {
    if rounds != [] {
      ReportsAreResets(r, rounds[..|rounds| - 1]);
    }
  }

  class Watchdog {
    var lastEventMs: int
    var resetCount: nat
    var reconnectFlag: bool
    const metrics: SharedMetrics

    constructor (lastEventMs: int, metrics: SharedMetrics)
      ensures this.lastEventMs == lastEventMs && resetCount == 0 && !reconnectFlag && this.metrics == metrics
    {
      this.lastEventMs, resetCount, reconnectFlag, this.metrics := lastEventMs, 0, false, metrics;
    }

    function State(): Registers
      reads this, metrics
    {
      Registers(lastEventMs, resetCount, reconnectFlag, metrics.watchdogResets)
    }

    /** The polling loop until `stop` is seen. */
    method Run(rounds: seq<Round>)
      modifies this, metrics`watchdogResets
      ensures State() == PlayRounds(old(State()), rounds)
    {
      for i := 0 to |rounds|
        invariant State() == PlayRounds(old(State()), rounds[..i])
      {
        assert rounds[..i + 1][..i] == rounds[..i];
        if rounds[i].heartbeat.Some? {
          lastEventMs := rounds[i].heartbeat.value;
        }
        var last := lastEventMs;
        if last != 0 {
          var now := rounds[i].now;
          var silence := now - last;
          if silence > TIMEOUT_MS {
            resetCount := resetCount + 1;
            var n := resetCount;
            if rounds[i].locked {
              metrics.watchdogResets := n;
            }
            reconnectFlag := true;
            lastEventMs := now;
          }
        }
      }
      assert rounds[..|rounds|] == rounds;
    }
  }

  // ----- The interleaved protocol ------------------------------------------------------------

  datatype Pc = Idle | Loaded(last: int) | Signalling(now: int) | Rearming(now: int)

  /** `resets` lists the clock readings at which resets fired; `lastPoll` is the instant of the latest poll. */
  datatype State = State(clock: int, last: int, flag: bool, pc: Pc, lastPoll: int, resets: seq<int>)

  /** `Beat(age)` stores a heartbeat whose clock reading is `age` ms old; an atomic heartbeat has age 0. */
  datatype Step = Tick(ms: nat) | Beat(age: nat) | Load | ReadClock | Signal | Rearm | TakeFlag

  function Next(s: State, step: Step): State {
    match step
    case Tick(ms) => s.(clock := s.clock + ms)
    case Beat(age) => s.(last := s.clock - age)
    case Load =>
      if s.pc != Idle then s
      else if s.last == 0 then s.(lastPoll := s.clock)
      else s.(pc := Loaded(s.last))
    case ReadClock =>
      if !s.pc.Loaded? then s
      else if s.clock - s.pc.last > TIMEOUT_MS
      then s.(pc := Signalling(s.clock), lastPoll := s.clock, resets := s.resets + [s.clock])
      else s.(pc := Idle, lastPoll := s.clock)
    case Signal => if s.pc.Signalling? then s.(flag := true, pc := Rearming(s.pc.now)) else s
    case Rearm => if s.pc.Rearming? then s.(last := s.pc.now, pc := Idle) else s
    case TakeFlag => s.(flag := false)
  }

  function Run(s: State, steps: seq<Step>): State {
    if steps == [] then s else Next(Run(s, steps[..|steps| - 1]), steps[|steps| - 1])
  }

  function Start(clock: int): State {
    State(clock, 0, false, Idle, clock, [])
  }

  lemma {:induction false} RunOne(s: State, step: Step)
    ensures Run(s, [step]) == Next(s, step)
  {
    var one := [step];
    assert one[..|one| - 1] == [];
  }

  lemma {:induction false} RunSplit(s: State, a: seq<Step>, b: seq<Step>)
    ensures Run(s, a + b) == Run(Run(s, a), b)
  {
    if b == [] {
      assert a + b == a;
    } else {
      assert (a + b)[..|a + b| - 1] == a + b[..|b| - 1];
      RunSplit(s, a, b[..|b| - 1]);
    }
  }

  /** The protocol state shows what the registers hold; what was reported to the metrics is not part of it. */
  predicate Shows(s: State, r: Registers) {
    s.pc == Idle && s.last == r.lastEventMs && |s.resets| == r.resetCount && s.flag == r.reconnectFlag
  }

  /** A poll that nothing interrupts is the loop body, whether or not it gets the metrics lock. */
  lemma {:induction false} UninterruptedPoll(s: State, r: Registers, locked: bool)
    requires Shows(s, r)
    ensures var s' := Run(s, [Load, ReadClock, Signal, Rearm]);
            s'.clock == s.clock && Shows(s', Poll(r, s.clock, locked))
  {
    RunFour(s, Load, ReadClock, Signal, Rearm);
  }

  lemma {:induction false} RunThree(s: State, a: Step, b: Step, c: Step)
    ensures Run(s, [a, b, c]) == Next(Next(Next(s, a), b), c)
  {
    RunOne(s, a);
    RunSplit(s, [a], [b]);
    RunOne(Next(s, a), b);
    RunSplit(s, [a, b], [c]);
    RunOne(Next(Next(s, a), b), c);
    assert [a] + [b] == [a, b] && [a, b] + [c] == [a, b, c];
  }

  lemma {:induction false} RunFour(s: State, a: Step, b: Step, c: Step, d: Step)
    ensures Run(s, [a, b, c, d]) == Next(Next(Next(Next(s, a), b), c), d)
  {
    RunThree(s, a, b, c);
    RunSplit(s, [a, b, c], [d]);
    RunOne(Next(Next(Next(s, a), b), c), d);
    assert [a, b, c] + [d] == [a, b, c, d];
  }

  /** The rounds follow each other on the clock, heartbeats are stored at the instant they are read. */
  predicate Timely(clock: int, rounds: seq<Round>) {
    rounds == [] ||
    var p, round := rounds[..|rounds| - 1], rounds[|rounds| - 1];
    && Timely(clock, p)
    && ClockAfter(clock, p) <= round.now
    && (round.heartbeat.Some? ==> ClockAfter(clock, p) <= round.heartbeat.value <= round.now)
  }

  function ClockAfter(clock: int, rounds: seq<Round>): int {
    if rounds == [] then clock else rounds[|rounds| - 1].now
  }

  /** A round as steps of the protocol, starting at `clock`. */
  function RoundSteps(clock: int, round: Round): seq<Step>
    requires clock <= round.now && (round.heartbeat.Some? ==> clock <= round.heartbeat.value <= round.now)
  {
    (match round.heartbeat
     case None => [Tick(round.now - clock)]
     case Some(beat) => [Tick(beat - clock), Beat(0), Tick(round.now - beat)])
    + [Load, ReadClock, Signal, Rearm]
  }

  function Schedule(clock: int, rounds: seq<Round>): seq<Step>
    requires Timely(clock, rounds)
  {
    if rounds == [] then []
    else
      var p, round := rounds[..|rounds| - 1], rounds[|rounds| - 1];
      Schedule(clock, p) + RoundSteps(ClockAfter(clock, p), round)
  }

  lemma {:induction false} RoundIsPoll(s: State, r: Registers, round: Round)
    requires Shows(s, r) && s.clock <= round.now
    requires round.heartbeat.Some? ==> s.clock <= round.heartbeat.value <= round.now
    ensures var s' := Run(s, RoundSteps(s.clock, round));
            s'.clock == round.now && Shows(s', PlayRound(r, round))
  {
    var poll := [Load, ReadClock, Signal, Rearm];
    if round.heartbeat.Some? {
      var beat := round.heartbeat.value;
      var a, b, c := Tick(beat - s.clock), Beat(0), Tick(round.now - beat);
      RunSplit(s, [a, b, c], poll);
      RunThree(s, a, b, c);
      UninterruptedPoll(Next(Next(Next(s, a), b), c), r.(lastEventMs := beat), round.locked);
    } else {
      var a := Tick(round.now - s.clock);
      RunSplit(s, [a], poll);
      RunOne(s, a);
      UninterruptedPoll(Next(s, a), r, round.locked);
    }
  }

  /** The loop as written is a run of the protocol with atomic heartbeats, whichever polls get the metrics
      lock, so that what holds of all such runs holds of it. */
  lemma {:induction false} LoopIsRun(clock: int, rounds: seq<Round>)
    requires Timely(clock, rounds)
    ensures Atomic(Schedule(clock, rounds))
    ensures var s := Run(Start(clock), Schedule(clock, rounds));
            s.clock == ClockAfter(clock, rounds) && Shows(s, PlayRounds(Registers(0, 0, false, 0), rounds))
  {
    if rounds != [] {
      var p, round := rounds[..|rounds| - 1], rounds[|rounds| - 1];
      LoopIsRun(clock, p);
      RunSplit(Start(clock), Schedule(clock, p), RoundSteps(ClockAfter(clock, p), round));
      RoundIsPoll(Run(Start(clock), Schedule(clock, p)), PlayRounds(Registers(0, 0, false, 0), p), round);
    }
  }

  /** How often the client found the reconnect flag raised and took it. */
  function Reconnects(s: State, steps: seq<Step>): nat {
    if steps == [] then 0
    else
      var p := steps[..|steps| - 1];
      Reconnects(s, p) + if steps[|steps| - 1] == TakeFlag && Run(s, p).flag then 1 else 0
  }

  /** Every reset raises the flag and every reconnection lowers it: there are never more reconnections than
      resets, and a reset that is through is followed by one, or its flag is still raised. */
  lemma {:induction false} ReconnectsFollowResets(clock: int, steps: seq<Step>)
    ensures var s := Run(Start(clock), steps);
            && Reconnects(Start(clock), steps) + (if s.flag then 1 else 0) + (if s.pc.Signalling? then 1 else 0)
                 <= |s.resets|
            && (|s.resets| > 0 && Reconnects(Start(clock), steps) == 0 ==> s.flag || s.pc.Signalling?)
  {
    if steps != [] {
      ReconnectsFollowResets(clock, steps[..|steps| - 1]);
    }
  }

  // ----- Resets are spaced -------------------------------------------------------------------

  function LatestReset(s: State): int
    requires s.resets != []
  {
    s.resets[|s.resets| - 1]
  }

  /** Every heartbeat was read off the clock after the latest reset before it. */
  predicate BeatsFollowResets(s: State, steps: seq<Step>) {
    steps == [] ||
    var p, step := steps[..|steps| - 1], steps[|steps| - 1];
    && BeatsFollowResets(s, p)
    && (step.Beat? && Run(s, p).resets != [] ==> Run(s, p).clock - step.age >= LatestReset(Run(s, p)))
  }

  /** Successive resets are more than 10 s apart. */
  predicate Apart(resets: seq<int>) {
    forall i | 0 <= i < |resets| - 1 :: resets[i + 1] - resets[i] > TIMEOUT_MS
  }

  /** A heartbeat that does no harm although it may be stale: there was no reset yet, or the timer is about
      to be rearmed and overwrites it, or it stores the 0 that switches the watchdog off, or it was read
      after the latest reset, or that reset is long past. */
  predicate Harmless(s: State, age: nat) {
    || s.resets == [] || s.pc.Signalling? || s.pc.Rearming? || s.clock - age == 0
    || s.clock - age >= LatestReset(s) || s.clock > LatestReset(s) + TIMEOUT_MS
  }

  predicate BeatsAreHarmless(s: State, steps: seq<Step>) {
    steps == [] ||
    var p, step := steps[..|steps| - 1], steps[|steps| - 1];
    BeatsAreHarmless(s, p) && (step.Beat? ==> Harmless(Run(s, p), step.age))
  }

  lemma {:induction false} FollowingIsHarmless(s: State, steps: seq<Step>)
    requires BeatsFollowResets(s, steps)
    ensures BeatsAreHarmless(s, steps)
  {
    if steps != [] {
      FollowingIsHarmless(s, steps[..|steps| - 1]);
    }
  }

  /** A timer value from which no reset can come too early. */
  predicate Late(s: State, last: int)
    requires s.resets != []
  {
    last == 0 || last >= LatestReset(s) || s.clock > LatestReset(s) + TIMEOUT_MS
  }

  ghost predicate Spaced(s: State) {
    && Apart(s.resets)
    && (s.pc.Loaded? ==> s.pc.last != 0)
    && (s.resets != [] ==>
          && LatestReset(s) <= s.clock
          && match s.pc
             case Idle => Late(s, s.last)
             case Loaded(last) => Late(s, s.last) && Late(s, last)
             case Signalling(now) => now == LatestReset(s)
             case Rearming(now) => now == LatestReset(s))
  }

  lemma SpacedStep(s: State, step: Step)
    requires Spaced(s) && (step.Beat? ==> Harmless(s, step.age))
    ensures Spaced(Next(s, step))
  {
  }

  lemma {:induction false} SpacedRun(s: State, steps: seq<Step>)
    requires Spaced(s) && BeatsAreHarmless(s, steps)
    ensures Spaced(Run(s, steps))
  {
    if steps != [] {
      SpacedRun(s, steps[..|steps| - 1]);
      SpacedStep(Run(s, steps[..|steps| - 1]), steps[|steps| - 1]);
    }
  }

  lemma {:induction false} SilenceIsHarmless(s: State, steps: seq<Step>)
    requires Silent(steps)
    ensures BeatsAreHarmless(s, steps)
  {
    if steps != [] {
      SilenceIsHarmless(s, steps[..|steps| - 1]);
    }
  }

  /** Resets are more than 10 s apart whatever heartbeats race with the watchdog, as long as none of them
      does harm; in particular if none carries a clock reading from before the latest reset. */
  lemma {:induction false} ResetsAreApart(clock: int, steps: seq<Step>)
    requires BeatsAreHarmless(Start(clock), steps) || BeatsFollowResets(Start(clock), steps)
    ensures Apart(Run(Start(clock), steps).resets)
  {
    if BeatsFollowResets(Start(clock), steps) {
      FollowingIsHarmless(Start(clock), steps);
    }
    SpacedRun(Start(clock), steps);
  }

  /** However the run goes on in silence, its resets stay apart. */
  ghost predicate StaysApart(s: State) {
    forall steps: seq<Step> | Silent(steps) :: Apart(Run(s, steps).resets)
  }

  /** The watchdog polls on until it fires. */
  lemma FiresEarly(s: State) returns (steps: seq<Step>)
    requires s.resets != [] && LatestReset(s) <= s.clock <= LatestReset(s) + TIMEOUT_MS
    requires s.pc == Idle && s.last != 0 && s.last < LatestReset(s)
    ensures Silent(steps) && !Apart(Run(s, steps).resets)
  {
    var wait := if s.last + TIMEOUT_MS >= s.clock then s.last + TIMEOUT_MS + 1 - s.clock else 0;
    steps := [Tick(wait), Load, ReadClock];
    RunThree(s, Tick(wait), Load, ReadClock);
    var resets := Run(s, steps).resets;
    assert resets == s.resets + [s.clock + wait];
    var i := |s.resets| - 1;
    assert resets[i + 1] - resets[i] <= TIMEOUT_MS;
  }

  lemma HarmfulBeat(s: State, age: nat)
    requires Spaced(s) && !Harmless(s, age)
    ensures !StaysApart(Next(s, Beat(age)))
  {
    var s1 := Next(s, Beat(age));
    if s.pc == Idle {
      var steps := FiresEarly(s1);
    } else {
      RunOne(s1, ReadClock);
      var steps := FiresEarly(Next(s1, ReadClock));
      RunSplit(s1, [ReadClock], steps);
      assert Silent([ReadClock] + steps);
    }
  }

  /** One heartbeat more: the resets stay apart in every silent continuation if and only if it is harmless. */
  lemma BeatKeepsResetsApartExactly(s: State, age: nat)
    requires Spaced(s)
    ensures StaysApart(Next(s, Beat(age))) <==> Harmless(s, age)
  {
    if Harmless(s, age) {
      SpacedStep(s, Beat(age));
      SpacedStaysApart(Next(s, Beat(age)));
    } else {
      HarmfulBeat(s, age);
    }
  }

  lemma SpacedStaysApart(s: State)
    requires Spaced(s)
    ensures StaysApart(s)
  {
    forall steps: seq<Step> | Silent(steps)
      ensures Apart(Run(s, steps).resets)
    {
      SilenceIsHarmless(s, steps);
      SpacedRun(s, steps);
    }
  }

  /** Exactly when resets are spaced: at every moment of a run the resets are, and in silence will stay,
      more than 10 s apart if and only if every heartbeat of the run was harmless when it was stored. */
  lemma {:induction false} ResetsAreApartExactly(clock: int, steps: seq<Step>)
    ensures (forall n: nat | n <= |steps| :: StaysApart(Run(Start(clock), steps[..n])))
       <==> BeatsAreHarmless(Start(clock), steps)
  {
    if steps == [] {
      SpacedStaysApart(Start(clock));
    } else {
      var p, step := steps[..|steps| - 1], steps[|steps| - 1];
      var s := Run(Start(clock), p);
      ResetsAreApartExactly(clock, p);
      assert forall n: nat | n <= |p| :: steps[..n] == p[..n];
      assert steps[..|steps|] == steps;
      if BeatsAreHarmless(Start(clock), p) {
        SpacedRun(Start(clock), p);
        if step.Beat? {
          BeatKeepsResetsApartExactly(s, step.age);
        } else {
          SpacedStep(s, step);
          SpacedStaysApart(Next(s, step));
        }
      }
    }
  }

  predicate Atomic(steps: seq<Step>) {
    forall i | 0 <= i < |steps| :: steps[i].Beat? ==> steps[i].age == 0
  }

  /** What atomic heartbeats keep, from a clock that reads at least 1. */
  ghost predicate Steady(s: State) {
    && 1 <= s.clock && 0 <= s.last <= s.clock && s.lastPoll <= s.clock
    && (s.resets != [] ==> LatestReset(s) <= s.clock)
    && match s.pc
       case Idle => s.last != 0 ==> s.lastPoll <= s.last + TIMEOUT_MS
       case Loaded(last) => 1 <= last <= s.last && s.lastPoll <= last + TIMEOUT_MS
       case Signalling(now) => 1 <= now <= s.clock && s.lastPoll == now
       case Rearming(now) => 1 <= now <= s.clock && s.lastPoll == now
  }

  lemma SteadyStep(s: State, step: Step)
    requires Steady(s) && (step.Beat? ==> step.age == 0)
    ensures Steady(Next(s, step))
  {
  }

  lemma {:induction false} AtomicIsSteady(clock: int, steps: seq<Step>)
    requires clock >= 1 && Atomic(steps)
    ensures Steady(Run(Start(clock), steps))
    ensures BeatsFollowResets(Start(clock), steps) && BeatsAreHarmless(Start(clock), steps)
  {
    if steps != [] {
      AtomicIsSteady(clock, steps[..|steps| - 1]);
      SteadyStep(Run(Start(clock), steps[..|steps| - 1]), steps[|steps| - 1]);
    }
  }

  /** A heartbeat, and a poll `wait` ms later that fires. */
  lemma {:induction false} FirstReset(s: State, wait: nat)
    requires s.pc == Idle && s.clock != 0 && wait > TIMEOUT_MS
    ensures var s' := Run(s, [Beat(0), Tick(wait), Load, ReadClock]);
            s'.clock == s.clock + wait && s'.pc == Signalling(s'.clock) && s'.resets == s.resets + [s'.clock]
  {
    RunFour(s, Beat(0), Tick(wait), Load, ReadClock);
  }

  /** A heartbeat as old as that arrives as soon as the timer is rearmed. */
  lemma {:induction false} SecondReset(s: State, age: nat)
    requires s.pc == Signalling(s.clock) && s.clock != age && age > TIMEOUT_MS
    ensures var s' := Next(Run(s, [Signal, Rearm, Beat(age), Load]), ReadClock);
            s'.resets == s.resets + [s.clock]
  {
    RunFour(s, Signal, Rearm, Beat(age), Load);
  }

  /** A heartbeat that is read before a reset and stored after it can make the watchdog fire again at once. */
  lemma {:induction false} StaleBeatBreaksSpacing(start: State, wait: nat)
    requires start == Start(1) && wait == 10_001
    ensures Run(start, [Beat(0), Tick(wait), Load, ReadClock] + [Signal, Rearm, Beat(wait), Load] + [ReadClock]).resets
         == [10_002, 10_002]
  {
    var first, stale := [Beat(0), Tick(wait), Load, ReadClock], [Signal, Rearm, Beat(wait), Load];
    FirstReset(start, wait);
    SecondReset(Run(start, first), wait);
    RunSplit(start, first, stale);
    RunSplit(start, first + stale, [ReadClock]);
    RunOne(Run(start, first + stale), ReadClock);
  }

  // ----- Two-sided bound on the number of resets ---------------------------------------------

  /** The instants of successive polls are at most `gap` ms apart. */
  predicate Paced(gap: nat, s: State, steps: seq<Step>) {
    steps == [] ||
    var p, step := steps[..|steps| - 1], steps[|steps| - 1];
    && Paced(gap, s, p)
    && (Run(s, p).lastPoll != Run(s, steps).lastPoll ==> Run(s, steps).lastPoll - Run(s, p).lastPoll <= gap)
  }

  /** The instants of the polls: a poll is over when it has found the timer off, or has read the clock. */
  function Polls(s: State, steps: seq<Step>): seq<int> {
    if steps == [] then []
    else
      var p, step := steps[..|steps| - 1], steps[|steps| - 1];
      var before := Run(s, p);
      var over := (step == Load && before.pc == Idle && before.last == 0) || (step == ReadClock && before.pc.Loaded?);
      Polls(s, p) + if over then [before.clock] else []
  }

  lemma {:induction false} LatestPollIsLatest(s: State, steps: seq<Step>)
    ensures var polls := Polls(s, steps);
            Run(s, steps).lastPoll == if polls == [] then s.lastPoll else polls[|polls| - 1]
  {
    if steps != [] {
      LatestPollIsLatest(s, steps[..|steps| - 1]);
    }
  }

  predicate Silent(steps: seq<Step>) {
    forall i | 0 <= i < |steps| :: !steps[i].Beat?
  }

  function Resets(s: State, steps: seq<Step>): int {
    |Run(s, steps).resets| - |s.resets|
  }

  /** Latest value of the timer, as the watchdog will see it once its pending poll is through. */
  function Base(s: State): int {
    match s.pc
    case Idle => s.last
    case Loaded(_) => s.last
    case Signalling(now) => now
    case Rearming(now) => now
  }

  /** What every run keeps, however old its heartbeats are, from a clock that reads at least 1. */
  ghost predicate Plausible(s: State) {
    && 1 <= s.clock && s.last <= s.clock && s.lastPoll <= s.clock
    && match s.pc
       case Idle => true
       case Loaded(last) => last <= s.clock
       case Signalling(now) => 1 <= now <= s.clock
       case Rearming(now) => 1 <= now <= s.clock
  }

  lemma PlausibleStep(s: State, step: Step)
    requires Plausible(s)
    ensures Plausible(Next(s, step))
  {
  }

  lemma {:induction false} PlausibleRun(s: State, steps: seq<Step>)
    requires Plausible(s)
    ensures Plausible(Run(s, steps))
  {
    if steps != [] {
      PlausibleRun(s, steps[..|steps| - 1]);
      PlausibleStep(Run(s, steps[..|steps| - 1]), steps[|steps| - 1]);
    }
  }

  /** The timer is at most `bound`, and so is what a pending poll compares the clock with; the latest poll was
      no later than the timer allows, unless the timer is switched off. */
  ghost predicate Behind(bound: int, s: State) {
    && Base(s) <= bound
    && (s.pc.Loaded? ==> s.pc.last <= bound)
    && (s.lastPoll <= bound + TIMEOUT_MS || (s.pc == Idle && s.last == 0))
  }

  lemma BehindStep(gap: nat, s: State, step: Step, bound: int)
    requires Behind(bound, s) && !step.Beat?
    requires Next(s, step).lastPoll != s.lastPoll ==> Next(s, step).lastPoll - s.lastPoll <= gap
    ensures |s.resets| <= |Next(s, step).resets| <= |s.resets| + 1
    ensures Behind(bound + if |Next(s, step).resets| > |s.resets| then TIMEOUT_MS + gap else 0, Next(s, step))
  {
  }

  /** The timer does not run ahead: after c resets it is at most c * (10000 + gap) past the heartbeat. */
  lemma {:induction false} TimerLags(t: int, gap: nat, s: State, steps: seq<Step>)
    requires Behind(t, s) && Silent(steps) && Paced(gap, s, steps)
    ensures Resets(s, steps) >= 0
    ensures Behind(t + Resets(s, steps) * (TIMEOUT_MS + gap), Run(s, steps))
  {
    if steps != [] {
      var p := steps[..|steps| - 1];
      TimerLags(t, gap, s, p);
      BehindStep(gap, Run(s, p), steps[|steps| - 1], t + Resets(s, p) * (TIMEOUT_MS + gap));
      MulSucc(Resets(s, p), TIMEOUT_MS + gap);
    }
  }

  /** Upper bound: however a heartbeat stored at time t races with the watchdog, and however old it and all
      heartbeats before it are, a poll at time P that follows it in silence finds P - t at most
      c * (10000 + gap) + 10000, where c resets fired in between. */
  lemma {:induction false} SilenceIsBounded(clock: int, before: seq<Step>, age: nat, gap: nat, steps: seq<Step>)
    requires clock >= 1 && Silent(steps)
    requires var s := Next(Run(Start(clock), before), Beat(age));
             Paced(gap, s, steps + [ReadClock]) && Run(s, steps).pc.Loaded?
    ensures var s := Next(Run(Start(clock), before), Beat(age));
            Run(s, steps).clock - s.clock <= Resets(s, steps + [ReadClock]) * (TIMEOUT_MS + gap) + TIMEOUT_MS
  {
    PlausibleRun(Start(clock), before);
    var s := Next(Run(Start(clock), before), Beat(age));
    assert (steps + [ReadClock])[..|steps|] == steps;
    TimerLags(s.clock, gap, s, steps + [ReadClock]);
    TimerLags(s.clock, gap, s, steps);
  }

  /** No poll is in progress that loaded, or fired at, an instant before `reading`, unless the clock has moved
      so far that it can do no harm. */
  predicate Settled(reading: int, s: State) {
    || s.clock >= reading + 10_001
    || match s.pc
       case Idle => true
       case Loaded(last) => last >= reading
       case Signalling(now) => now >= reading
       case Rearming(now) => now >= reading
  }

  /** Lower bound on the silence at a poll, for all silent continuations of `s`. */
  ghost predicate ResetsAreEarned(reading: int, s: State) {
    forall steps: seq<Step> |
      Silent(steps) && Run(s, steps).pc.Loaded?
      :: 10_001 * Resets(s, steps + [ReadClock]) <= Run(s, steps).clock - reading
  }

  /** The `c` resets so far are earned, and the next one will be. */
  ghost predicate Leads(t: int, c: int, s: State) {
    && Base(s) <= s.clock
    && (|| s.clock >= t + 10_001 * (c + 1)
        || (Base(s) >= t + 10_001 * c && (s.pc.Loaded? ==> s.pc.last >= t + 10_001 * c)))
  }

  lemma {:induction false} TimerLeads(t: int, s: State, steps: seq<Step>)
    requires Leads(t, 0, s) && Silent(steps)
    ensures Resets(s, steps) >= 0
    ensures Leads(t, Resets(s, steps), Run(s, steps))
  {
    if steps != [] {
      TimerLeads(t, s, steps[..|steps| - 1]);
    }
  }

  lemma SettledEarns(reading: int, s: State)
    requires Plausible(s) && s.last == reading && Settled(reading, s)
    ensures ResetsAreEarned(reading, s)
  {
    forall steps: seq<Step> |
      Silent(steps) && Run(s, steps).pc.Loaded?
      ensures 10_001 * Resets(s, steps + [ReadClock]) <= Run(s, steps).clock - reading
    {
      assert (steps + [ReadClock])[..|steps|] == steps;
      TimerLeads(reading, s, steps + [ReadClock]);
    }
  }

  /** The poll in progress fires too early, or has rearmed the timer too early. */
  lemma UnsettledDoesNotEarn(reading: int, s: State)
    requires Plausible(s) && s.last == reading && !Settled(reading, s)
    ensures !ResetsAreEarned(reading, s)
  {
    match s.pc
    case Loaded(last) =>
      var wait := if last + 10_001 >= s.clock then last + 10_001 - s.clock else 0;
      EarlyReset(reading, s, [Tick(wait)], wait);
    case Signalling(now) =>
      var wait := if now + 10_001 >= s.clock then now + 10_001 - s.clock else 0;
      RunFour(s, Signal, Rearm, Tick(wait), Load);
      EarlyReset(reading, s, [Signal, Rearm, Tick(wait), Load], wait);
    case Rearming(now) =>
      var wait := if now + 10_001 >= s.clock then now + 10_001 - s.clock else 0;
      RunFour(s, TakeFlag, Rearm, Tick(wait), Load);
      EarlyReset(reading, s, [TakeFlag, Rearm, Tick(wait), Load], wait);
  }

  lemma EarlyReset(reading: int, s: State, steps: seq<Step>, wait: nat)
    requires Silent(steps) && s.clock + wait <= reading + 10_000
    requires steps == [Tick(wait)] || |steps| == 4
    requires var m := if |steps| == 1 then Next(s, Tick(wait)) else Run(s, steps);
             m.pc.Loaded? && m.clock == s.clock + wait && m.clock - m.pc.last > TIMEOUT_MS && m.resets == s.resets
    ensures !ResetsAreEarned(reading, s)
  {
    RunOne(s, Tick(wait));
    assert (steps + [ReadClock])[..|steps|] == steps;
    assert |Run(s, steps + [ReadClock]).resets| == |s.resets| + 1;
    assert Resets(s, steps + [ReadClock]) == 1;
  }

  /** Lower bound: after a heartbeat read at time t and stored `age` ms later, c resets by a poll at time P take
      P - t >= 10001 * c in every silent continuation if and only if no poll begun before t is still in progress,
      or the heartbeat is over 10 s old.  Otherwise that poll fires, or has rearmed the timer, on an older
      reading.  How old earlier heartbeats are does not matter. */
  lemma {:induction false} ResetsAreEarnedExactly(clock: int, before: seq<Step>, age: nat)
    requires clock >= 1
    ensures var s := Next(Run(Start(clock), before), Beat(age));
            ResetsAreEarned(s.clock - age, s) <==> Settled(s.clock - age, s)
  {
    PlausibleRun(Start(clock), before);
    var s := Next(Run(Start(clock), before), Beat(age));
    if Settled(s.clock - age, s) {
      SettledEarns(s.clock - age, s);
    } else {
      UnsettledDoesNotEarn(s.clock - age, s);
    }
  }
}
