/** The fail-safe machine shared by several hot paths: `record_latency` cut into its single atomic
    operations, interleaved in any order by any number of threads. */
module SharedFailSafe {
  import opened Types
  import opened FailSafeMode
  import History = FailSafeHistory

  /** The operation a thread performs next. */
  datatype Pc =
    | Idle
    | AddDegradedClean          // fetch_add on degraded_clean
    | LeaveClearDegraded        // saw 25: store degraded_clean = 0 ...
    | LeaveClearCycles          // ... then clean_cycles = 0, then swap to RECOVERY
    | ResetDegradedClean
    | AddCleanCycles            // fetch_add on clean_cycles
    | ResetCleanCycles
    | FallClearDegraded         // spike in RECOVERY: the same two stores, then swap to DEGRADED
    | FallClearCycles
    | Swap(target: U8)
    | Publish(target: U8)       // the swap changed the mode: try_lock on the metrics

  datatype Shared = Shared(regs: Fsm, pcs: seq<Pc>, activations: nat, missedLocks: nat)

  /** One scheduler decision: thread `tid` starts a call by loading the mode, or performs its next
      operation (`locked` is the outcome of a `try_lock`).  A decision that is not possible is skipped. */
  datatype Choice = Begin(tid: nat, latencyUs: real) | Continue(tid: nat, locked: bool)

  function Initial(threads: nat): Shared {
    Shared(START, seq(threads, _ => Idle), 0, 0)
  }

  /** The first operation after the load, as decided by the loaded mode. */
  function AfterLoad(mode: U8, latencyUs: real): Pc {
    if mode == MODE_NORMAL then
      if Spike(latencyUs) then Swap(MODE_DEGRADED) else Idle
    else if mode == MODE_DEGRADED then
      if Clean(latencyUs) then AddDegradedClean else ResetDegradedClean
    else if mode == MODE_RECOVERY then
      if Clean(latencyUs) then AddCleanCycles
      else if Spike(latencyUs) then FallClearDegraded
      else ResetCleanCycles
    else Idle
  }

  function Perform(g: Shared, tid: nat, locked: bool): Shared
    requires tid < |g.pcs|
  {
    var r := g.regs;
    match g.pcs[tid]
    case Idle => g
    case AddDegradedClean =>
      var n := Succ32(r.degradedClean);
      At(g, tid, r.(degradedClean := n), if n >= DEGRADED_WINDOW then LeaveClearDegraded else Idle)
    case LeaveClearDegraded => At(g, tid, r.(degradedClean := 0), LeaveClearCycles)
    case LeaveClearCycles => At(g, tid, r.(cleanCycles := 0), Swap(MODE_RECOVERY))
    case ResetDegradedClean => At(g, tid, r.(degradedClean := 0), Idle)
    case AddCleanCycles =>
      var n := Succ32(r.cleanCycles);
      At(g, tid, r.(cleanCycles := n), if n >= RECOVERY_WINDOW then Swap(MODE_NORMAL) else Idle)
    case ResetCleanCycles => At(g, tid, r.(cleanCycles := 0), Idle)
    case FallClearDegraded => At(g, tid, r.(degradedClean := 0), FallClearCycles)
    case FallClearCycles => At(g, tid, r.(cleanCycles := 0), Swap(MODE_DEGRADED))
    case Swap(target) =>
      At(g, tid, r.(mode := target), if r.mode != target then Publish(target) else Idle)
    case Publish(target) =>
      var g' := At(g, tid, r, Idle);
      if target != MODE_DEGRADED then g'
      else if locked then g'.(activations := g.activations + 1)
      else g'.(missedLocks := g.missedLocks + 1)
  }

  function At(g: Shared, tid: nat, regs: Fsm, pc: Pc): Shared
    requires tid < |g.pcs|
  {
    g.(regs := regs, pcs := g.pcs[tid := pc])
  }

  function Next(g: Shared, c: Choice): (g': Shared)
    ensures |g'.pcs| == |g.pcs|
  {
    if c.tid >= |g.pcs| then g
    else match c
      case Begin(tid, us) => if g.pcs[tid] == Idle then At(g, tid, g.regs, AfterLoad(g.regs.mode, us)) else g
      case Continue(tid, locked) => Perform(g, tid, locked)
  }

  function Execute(g: Shared, choices: seq<Choice>): (g': Shared)
    ensures |g'.pcs| == |g.pcs|
  {
    if choices == [] then g else Next(Execute(g, choices[..|choices| - 1]), choices[|choices| - 1])
  }

  lemma {:induction false} ExecuteSplit(g: Shared, a: seq<Choice>, b: seq<Choice>)
    ensures Execute(g, a + b) == Execute(Execute(g, a), b)
  {
    if b == [] {
      assert a + b == a;
    } else {
      assert (a + b)[..|a + b| - 1] == a + b[..|b| - 1];
      ExecuteSplit(g, a, b[..|b| - 1]);
    }
  }

  // ----- What survives sharing ---------------------------------------------------------------

  /** How many threads are about to perform `pc`. */
  function Threads(pcs: seq<Pc>, pc: Pc): nat {
    if pcs == [] then 0 else Threads(pcs[..|pcs| - 1], pc) + if pcs[|pcs| - 1] == pc then 1 else 0
  }

  lemma {:induction false} ThreadsAfterMove(pcs: seq<Pc>, tid: nat, to: Pc, pc: Pc)
    requires tid < |pcs|
    ensures Threads(pcs[tid := to], pc) + (if pcs[tid] == pc then 1 else 0)
         == Threads(pcs, pc) + if to == pc then 1 else 0
  {
    var last := |pcs| - 1;
    if tid == last {
      assert pcs[tid := to][..last] == pcs[..last];
    } else {
      assert pcs[tid := to][..last] == pcs[..last][tid := to];
      ThreadsAfterMove(pcs[..last], tid, to, pc);
    }
  }

  lemma {:induction false} ThreadsBound(pcs: seq<Pc>, pc: Pc)
    ensures Threads(pcs, pc) <= |pcs|
  {
    if pcs != [] {
      ThreadsBound(pcs[..|pcs| - 1], pc);
    }
  }

  predicate TargetsAreModes(pcs: seq<Pc>) {
    forall i | 0 <= i < |pcs| ::
      pcs[i].Swap? || pcs[i].Publish? ==> pcs[i].target <= MODE_RECOVERY
  }

  /** The shared invariant: the mode byte stays a mode, and `degraded_clean` exceeds 24 at most by the
      number of threads that saw 25 and have yet to store 0. */
  ghost predicate SharedInv(g: Shared) {
    && g.regs.mode <= MODE_RECOVERY
    && TargetsAreModes(g.pcs)
    && g.regs.degradedClean <= 24 + Threads(g.pcs, LeaveClearDegraded)
  }

  lemma SharedInvStep(g: Shared, c: Choice)
    requires SharedInv(g)
    ensures SharedInv(Next(g, c))
  {
    if c.tid < |g.pcs| {
      ThreadsAfterMove(g.pcs, c.tid, Next(g, c).pcs[c.tid], LeaveClearDegraded);
    }
  }

  lemma {:induction false} InitialThreads(threads: nat, pc: Pc)
    ensures Threads(Initial(threads).pcs, pc) == if pc == Idle then threads else 0
  {
    if threads > 0 {
      assert Initial(threads).pcs[..threads - 1] == Initial(threads - 1).pcs;
      InitialThreads(threads - 1, pc);
    }
  }

  lemma {:induction false} SharedInvAlways(threads: nat, choices: seq<Choice>)
    ensures SharedInv(Execute(Initial(threads), choices))
  {
    if choices == [] {
      InitialThreads(threads, LeaveClearDegraded);
    } else {
      SharedInvAlways(threads, choices[..|choices| - 1]);
      SharedInvStep(Execute(Initial(threads), choices[..|choices| - 1]), choices[|choices| - 1]);
    }
  }

  /** In every interleaving of any number of threads the mode byte is one of the three modes and
      `degraded_clean` is at most 24 plus the number of threads. */
  lemma {:induction false} SharingIsBounded(threads: nat, choices: seq<Choice>)
    ensures var g := Execute(Initial(threads), choices);
            && g.regs.mode <= MODE_RECOVERY
            && g.regs.degradedClean <= 24 + Threads(g.pcs, LeaveClearDegraded) <= 24 + threads
  {
    var g := Execute(Initial(threads), choices);
    SharedInvAlways(threads, choices);
    ThreadsBound(g.pcs, LeaveClearDegraded);
  }

  /** How often the mode byte became DEGRADED in a run, by comparing successive states. */
  function Falls(g: Shared, choices: seq<Choice>): nat {
    if choices == [] then 0
    else
      var p := choices[..|choices| - 1];
      Falls(g, p) + if Execute(g, p).regs.mode != MODE_DEGRADED && Execute(g, choices).regs.mode == MODE_DEGRADED
                    then 1 else 0
  }

  /** Activations counted, missed, or still on their way to the metrics. */
  function Attempts(g: Shared): nat {
    g.activations + g.missedLocks + Threads(g.pcs, Publish(MODE_DEGRADED))
  }

  lemma AttemptStep(g: Shared, c: Choice)
    ensures Attempts(Next(g, c)) == Attempts(g) +
              if g.regs.mode != MODE_DEGRADED && Next(g, c).regs.mode == MODE_DEGRADED then 1 else 0
  {
    if c.tid < |g.pcs| {
      ThreadsAfterMove(g.pcs, c.tid, Next(g, c).pcs[c.tid], Publish(MODE_DEGRADED));
    }
  }

  /** The swap makes activation attempts exact: every change into DEGRADED is counted by exactly one
      thread, or missed by one whose `try_lock` failed, or still on its way to the metrics. */
  lemma {:induction false} ActivationsAreExact(threads: nat, choices: seq<Choice>)
    ensures Falls(Initial(threads), choices) == Attempts(Execute(Initial(threads), choices))
  {
    if choices == [] {
      InitialThreads(threads, Publish(MODE_DEGRADED));
    } else {
      var p, c := choices[..|choices| - 1], choices[|choices| - 1];
      ActivationsAreExact(threads, p);
      AttemptStep(Execute(Initial(threads), p), c);
    }
  }

  /** How often a thread got to report a change into DEGRADED with the given outcome of its `try_lock`. */
  function Reports(g: Shared, choices: seq<Choice>, locked: bool): nat {
    if choices == [] then 0
    else
      var p, c := choices[..|choices| - 1], choices[|choices| - 1];
      var pcs := Execute(g, p).pcs;
      Reports(g, p, locked) +
        if c.Continue? && c.locked == locked && c.tid < |pcs| && pcs[c.tid] == Publish(MODE_DEGRADED) then 1 else 0
  }

  /** Activations are the reports that found the lock free; no report gets lost otherwise. */
  lemma {:induction false} ActivationsAreReports(g: Shared, choices: seq<Choice>)
    ensures Execute(g, choices).activations == g.activations + Reports(g, choices, true)
    ensures Execute(g, choices).missedLocks == g.missedLocks + Reports(g, choices, false)
  {
    if choices != [] {
      ActivationsAreReports(g, choices[..|choices| - 1]);
    }
  }

  // ----- Uninterrupted calls refine the atomic machine ---------------------------------------

  /** One call of thread `tid` with nothing in between: the load and up to five further operations. */
  function Solo(tid: nat, latencyUs: real, locked: bool): seq<Choice> {
    [Begin(tid, latencyUs)] + seq(5, _ => Continue(tid, locked))
  }

  /** What a thread needs to finish the call it is in. */
  function Finish(tid: nat): seq<Choice> {
    seq(5, _ => Continue(tid, true))
  }

  /** Upper bound on the operations left from a program point. */
  function Rank(pc: Pc): nat {
    match pc
    case Idle => 0
    case AddDegradedClean => 5
    case LeaveClearDegraded => 4
    case LeaveClearCycles => 3
    case ResetDegradedClean => 1
    case AddCleanCycles => 3
    case ResetCleanCycles => 1
    case FallClearDegraded => 4
    case FallClearCycles => 3
    case Swap(_) => 2
    case Publish(_) => 1
  }

  /** The registers once the operations left from `pc` are performed on `r` without interruption. */
  function Completed(r: Fsm, pc: Pc): Fsm {
    match pc
    case Idle => r
    case AddDegradedClean =>
      var n := Succ32(r.degradedClean);
      if n >= DEGRADED_WINDOW then r.(degradedClean := 0, cleanCycles := 0, mode := MODE_RECOVERY)
      else r.(degradedClean := n)
    case LeaveClearDegraded => r.(degradedClean := 0, cleanCycles := 0, mode := MODE_RECOVERY)
    case LeaveClearCycles => r.(cleanCycles := 0, mode := MODE_RECOVERY)
    case ResetDegradedClean => r.(degradedClean := 0)
    case AddCleanCycles =>
      var n := Succ32(r.cleanCycles);
      if n >= RECOVERY_WINDOW then r.(cleanCycles := n, mode := MODE_NORMAL) else r.(cleanCycles := n)
    case ResetCleanCycles => r.(cleanCycles := 0)
    case FallClearDegraded => r.(degradedClean := 0, cleanCycles := 0, mode := MODE_DEGRADED)
    case FallClearCycles => r.(cleanCycles := 0, mode := MODE_DEGRADED)
    case Swap(target) => r.(mode := target)
    case Publish(_) => r
  }

  lemma OneOperation(g: Shared, tid: nat, locked: bool)
    requires tid < |g.pcs|
    ensures var g' := Perform(g, tid, locked);
            && Completed(g'.regs, g'.pcs[tid]) == Completed(g.regs, g.pcs[tid])
            && g'.pcs[tid := Idle] == g.pcs[tid := Idle]
            && (g.pcs[tid] == Idle || Rank(g'.pcs[tid]) < Rank(g.pcs[tid]))
  {
  }

  lemma {:induction false} CompleteAlone(g: Shared, tid: nat, locked: bool, n: nat)
    requires tid < |g.pcs| && Rank(g.pcs[tid]) <= n
    ensures var g' := Execute(g, seq(n, _ => Continue(tid, locked)));
            g'.regs == Completed(g.regs, g.pcs[tid]) && g'.pcs == g.pcs[tid := Idle]
    decreases n
  {
    if n > 0 {
      var c := Continue(tid, locked);
      var g1, rest := Next(g, c), seq(n - 1, _ => c);
      OneOperation(g, tid, locked);
      CompleteAlone(g1, tid, locked, n - 1);
      assert seq(n, _ => c) == [c] + rest;
      assert Execute(g, [c] + rest) == Execute(g1, rest) by {
        ExecuteSplit(g, [c], rest);
        ExecuteOne(g, c);
      }
    }
  }

  lemma {:induction false} FinishAlone(g: Shared, tid: nat)
    requires tid < |g.pcs|
    ensures Execute(g, Finish(tid)).regs == Completed(g.regs, g.pcs[tid])
    ensures Execute(g, Finish(tid)).pcs == g.pcs[tid := Idle]
  {
    CompleteAlone(g, tid, true, 5);
  }

  lemma LoadDecides(r: Fsm, latencyUs: real)
    ensures Rank(AfterLoad(r.mode, latencyUs)) <= 5
    ensures Completed(r, AfterLoad(r.mode, latencyUs)) == Record(r, latencyUs)
  {
  }

  lemma {:induction false} ExecuteOne(g: Shared, c: Choice)
    ensures Execute(g, [c]) == Next(g, c)
  {
    var one := [c];
    assert one[..|one| - 1] == [];
  }

  /** An uninterrupted call has exactly the effect of the atomic `Record` and leaves its thread idle,
      whatever the registers held and wherever the other threads are. */
  lemma {:induction false} SoloRefinesRecord(g: Shared, tid: nat, latencyUs: real, locked: bool)
    requires tid < |g.pcs| && g.pcs[tid] == Idle
    ensures Execute(g, Solo(tid, latencyUs, locked)).regs == Record(g.regs, latencyUs)
    ensures Execute(g, Solo(tid, latencyUs, locked)).pcs == g.pcs
  {
    var load, rest := Begin(tid, latencyUs), seq(5, _ => Continue(tid, locked));
    LoadDecides(g.regs, latencyUs);
    assert Execute(g, [load] + rest) == Execute(Next(g, load), rest) by {
      ExecuteOne(g, load);
      ExecuteSplit(g, [load], rest);
    }
    CompleteAlone(Next(g, load), tid, locked, 5);
  }

  /** One complete call, made by thread `tid`. */
  datatype Call = Call(tid: nat, latencyUs: real)

  /** Complete calls, one after the other, by whichever threads. */
  function Serial(calls: seq<Call>): seq<Choice> {
    if calls == [] then []
    else
      var c := calls[|calls| - 1];
      Serial(calls[..|calls| - 1]) + Solo(c.tid, c.latencyUs, true)
  }

  function Latencies(calls: seq<Call>): (h: seq<real>)
    ensures |h| == |calls| && forall i | 0 <= i < |calls| :: h[i] == calls[i].latencyUs
  {
    if calls == [] then [] else Latencies(calls[..|calls| - 1]) + [calls[|calls| - 1].latencyUs]
  }

  /** Calls that do not overlap obey the sequential theory, in particular its closed form, whichever threads
      make them and wherever the others are. */
  lemma {:induction false} SerialRefinesRun(g: Shared, calls: seq<Call>)
    requires forall i | 0 <= i < |calls| :: calls[i].tid < |g.pcs| && g.pcs[calls[i].tid] == Idle
    ensures Execute(g, Serial(calls)).regs == History.Run(g.regs, Latencies(calls))
    ensures Execute(g, Serial(calls)).pcs == g.pcs
  {
    if calls != [] {
      var p, c := calls[..|calls| - 1], calls[|calls| - 1];
      SerialRefinesRun(g, p);
      ExecuteSplit(g, Serial(p), Solo(c.tid, c.latencyUs, true));
      SoloRefinesRecord(Execute(g, Serial(p)), c.tid, c.latencyUs, true);
      assert Latencies(calls)[..|p|] == Latencies(p);
    }
  }

  // ----- What does not survive ---------------------------------------------------------------

  /** The schedule that one clean latency short of NORMAL lets a second thread slip in. */
  const RACE: seq<Choice> := [Begin(0, 0.0), Continue(0, true)] + Solo(1, 3000.0, true)

  predicate AllIdle(g: Shared) {
    forall i | 0 <= i < |g.pcs| :: g.pcs[i] == Idle
  }

  /** Thread 0 decides to return to NORMAL. */
  lemma {:induction false} RaceDecides(g: Shared)
    requires |g.pcs| >= 2 && AllIdle(g) && g.regs.mode == MODE_RECOVERY && g.regs.cleanCycles == 59
    ensures var g' := Execute(g, [Begin(0, 0.0), Continue(0, true)]);
            g'.pcs[0] == Swap(MODE_NORMAL) && g'.pcs[1] == Idle && g'.regs == g.regs.(cleanCycles := 60)
  {
    var load, add := Begin(0, 0.0), Continue(0, true);
    assert [load, add][..1] == [load];
    ExecuteOne(g, load);
    assert Next(g, load).pcs[0] == AddCleanCycles;
  }

  lemma {:induction false} RaceOutcome(g: Shared)
    requires |g.pcs| >= 2 && AllIdle(g) && g.regs.mode == MODE_RECOVERY && g.regs.cleanCycles == 59
    ensures Execute(g, RACE).regs.mode == MODE_DEGRADED
    ensures Next(Execute(g, RACE), Continue(0, true)).regs.mode == MODE_NORMAL
  {
    var decide := [Begin(0, 0.0), Continue(0, true)];
    RaceDecides(g);
    ExecuteSplit(g, decide, Solo(1, 3000.0, true));
    SoloRefinesRecord(Execute(g, decide), 1, 3000.0, true);
  }

  /** Calls by thread 0 that lead there: one spike and 84 clean packets. */
  function LeadCalls(): seq<Call> {
    [Call(0, 3000.0)] + seq(84, _ => Call(0, 0.0))
  }

  lemma RaceIsReachable(threads: nat)
    requires threads >= 1
    ensures var g := Execute(Initial(threads), Serial(LeadCalls()));
            AllIdle(g) && g.regs.mode == MODE_RECOVERY && g.regs.cleanCycles == 59
  {
    var quiet := seq(84, _ => 0.0);
    History.RunOne(START, 3000.0, MODE_DEGRADED);
    History.RunSplit(START, [3000.0], quiet);
    History.CleanStreak(Record(START, 3000.0), 0.0, 84);
    SerialRefinesRun(Initial(threads), LeadCalls());
    assert Latencies(LeadCalls()) == [3000.0] + quiet;
  }

  /** Two threads can take the machine from DEGRADED straight to NORMAL: one decides in RECOVERY to
      return to NORMAL, the other falls back to DEGRADED, and only then the first one swaps. */
  lemma SharingCanSkipRecovery(threads: nat) returns (choices: seq<Choice>, c: Choice)
    requires threads >= 2
    ensures Execute(Initial(threads), choices).regs.mode == MODE_DEGRADED
    ensures Next(Execute(Initial(threads), choices), c).regs.mode == MODE_NORMAL
  {
    var lead := Serial(LeadCalls());
    choices, c := lead + RACE, Continue(0, true);
    RaceIsReachable(threads);
    RaceOutcome(Execute(Initial(threads), lead));
    ExecuteSplit(Initial(threads), lead, RACE);
  }

  /** No interleaving of `threads` threads takes the machine from DEGRADED straight to NORMAL. */
  ghost predicate NeverSkipsRecovery(threads: nat) {
    forall choices: seq<Choice>, c: Choice ::
      Execute(Initial(threads), choices).regs.mode == MODE_DEGRADED
      ==> Next(Execute(Initial(threads), choices), c).regs.mode != MODE_NORMAL
  }

  /** A thread about to count or to return to NORMAL still finds the mode it decided in. */
  ghost predicate Unhurried(g: Shared) {
    forall i | 0 <= i < |g.pcs| ::
      g.pcs[i] == AddCleanCycles || g.pcs[i] == Swap(MODE_NORMAL) ==> g.regs.mode == MODE_RECOVERY
  }

  lemma {:induction false} LoneThreadIsUnhurried(threads: nat, choices: seq<Choice>)
    requires threads <= 1
    ensures Unhurried(Execute(Initial(threads), choices))
  {
    if choices != [] {
      LoneThreadIsUnhurried(threads, choices[..|choices| - 1]);
    }
  }

  /** RECOVERY cannot be skipped, in any interleaving, exactly when the machine has one user. */
  lemma RecoveryIsSkippedExactly(threads: nat)
    ensures NeverSkipsRecovery(threads) <==> threads <= 1
  {
    if threads <= 1 {
      forall choices: seq<Choice>, c: Choice |
        Execute(Initial(threads), choices).regs.mode == MODE_DEGRADED
        ensures Next(Execute(Initial(threads), choices), c).regs.mode != MODE_NORMAL
      {
        LoneThreadIsUnhurried(threads, choices);
      }
    } else {
      var choices, c := SharingCanSkipRecovery(threads);
    }
  }

  // ----- The mode that the metrics show ------------------------------------------------------

  /** The mode that the metrics show: that of the latest report. */
  function Shown(threads: nat, choices: seq<Choice>): U8 {
    if choices == [] then MODE_NORMAL
    else
      var p, c := choices[..|choices| - 1], choices[|choices| - 1];
      var pcs := Execute(Initial(threads), p).pcs;
      if c.Continue? && c.locked && c.tid < |pcs| && pcs[c.tid].Publish? then pcs[c.tid].target
      else Shown(threads, p)
  }

  predicate LocksAreFree(choices: seq<Choice>) {
    forall i | 0 <= i < |choices| :: choices[i].Continue? ==> choices[i].locked
  }

  /** As long as no lock fails, the metrics show the current mode whenever no call is in progress. */
  ghost predicate ShowsCurrentMode(threads: nat) {
    forall choices: seq<Choice> | LocksAreFree(choices) && AllIdle(Execute(Initial(threads), choices)) ::
      Shown(threads, choices) == Execute(Initial(threads), choices).regs.mode
  }

  /** A lone thread reports every change before it makes the next one. */
  lemma {:induction false} LoneThreadIsUpToDate(threads: nat, choices: seq<Choice>)
    requires threads <= 1 && LocksAreFree(choices)
    ensures var g := Execute(Initial(threads), choices);
            if threads == 1 && g.pcs[0].Publish? then g.pcs[0].target == g.regs.mode
            else Shown(threads, choices) == g.regs.mode
  {
    if choices != [] {
      LoneThreadIsUpToDate(threads, choices[..|choices| - 1]);
    }
  }

  /** 25 whole clean calls of thread 1, whatever the other threads are about to do. */
  function QuietCalls(): seq<Call> {
    seq(25, _ => Call(1, 0.0))
  }

  lemma {:induction false} QuietCallsRecover(g: Shared)
    requires |g.pcs| >= 2 && g.pcs[1] == Idle && g.regs.mode == MODE_DEGRADED && g.regs.degradedClean == 0
    ensures Execute(g, Serial(QuietCalls())).regs.mode == MODE_RECOVERY
    ensures Execute(g, Serial(QuietCalls())).pcs == g.pcs
    ensures LocksAreFree(Serial(QuietCalls())) && NoBegin(0, Serial(QuietCalls()))
  {
    SerialRefinesRun(g, QuietCalls());
    assert Latencies(QuietCalls()) == seq(25, _ => 0.0);
    History.CleanStreak(g.regs, 0.0, 25);
    SerialIsFree(QuietCalls(), 0);
  }

  /** The latest choice publishes. */
  lemma {:induction false} ShownAfterPublish(threads: nat, choices: seq<Choice>, tid: nat, target: U8)
    requires tid < threads && Execute(Initial(threads), choices).pcs[tid] == Publish(target)
    ensures Shown(threads, choices + [Continue(tid, true)]) == target
    ensures var g, g' := Execute(Initial(threads), choices), Execute(Initial(threads), choices + [Continue(tid, true)]);
            g'.regs == g.regs && g'.pcs == g.pcs[tid := Idle]
  {
    assert (choices + [Continue(tid, true)])[..|choices|] == choices;
  }

  /** One thread has changed the mode and not yet reported it when another one makes 25 whole calls. */
  lemma LateReport(threads: nat) returns (choices: seq<Choice>)
    requires threads >= 2
    ensures LocksAreFree(choices) && AllIdle(Execute(Initial(threads), choices))
    ensures Shown(threads, choices) == MODE_DEGRADED
    ensures Execute(Initial(threads), choices).regs.mode == MODE_RECOVERY
    ensures |choices| > 1 && choices[0] == Begin(0, 3000.0) && NoBegin(0, choices[1..])
    ensures Execute(Initial(threads), choices[..|choices| - 1]).pcs[0] == Publish(MODE_DEGRADED)
  {
    var fall, quiet := [Begin(0, 3000.0), Continue(0, true)], Serial(QuietCalls());
    FallsUnreported(threads);
    QuietCallsRecover(Execute(Initial(threads), fall));
    ExecuteSplit(Initial(threads), fall, quiet);
    ShownAfterPublish(threads, fall + quiet, 0, MODE_DEGRADED);
    choices := fall + quiet + [Continue(0, true)];
    assert choices[..|choices| - 1] == fall + quiet;
  }

  lemma FallsUnreported(threads: nat)
    requires threads >= 2
    ensures var g := Execute(Initial(threads), [Begin(0, 3000.0), Continue(0, true)]);
            && g.regs.mode == MODE_DEGRADED && g.regs.degradedClean == 0
            && g.pcs == Initial(threads).pcs[0 := Publish(MODE_DEGRADED)]
  {
    var load, swap := Begin(0, 3000.0), Continue(0, true);
    assert [load, swap][..1] == [load];
    ExecuteOne(Initial(threads), load);
    assert Next(Initial(threads), load).pcs == Initial(threads).pcs[0 := Swap(MODE_DEGRADED)];
  }

  lemma {:induction false} SerialIsFree(calls: seq<Call>, tid: nat)
    requires forall i | 0 <= i < |calls| :: calls[i].tid != tid
    ensures LocksAreFree(Serial(calls)) && NoBegin(tid, Serial(calls))
  {
    if calls != [] {
      SerialIsFree(calls[..|calls| - 1], tid);
    }
  }

  /** The reported mode can be trusted, given free locks, exactly when the machine has one user. */
  lemma ShownModeIsCurrentExactly(threads: nat)
    ensures ShowsCurrentMode(threads) <==> threads <= 1
  {
    if threads <= 1 {
      forall choices: seq<Choice> | LocksAreFree(choices) && AllIdle(Execute(Initial(threads), choices))
        ensures Shown(threads, choices) == Execute(Initial(threads), choices).regs.mode
      {
        LoneThreadIsUpToDate(threads, choices);
      }
    } else {
      var choices := LateReport(threads);
    }
  }

  // ----- A spike under sharing ---------------------------------------------------------------

  /** The state after a call of thread `tid` that records `us` while the steps `after` are taken. */
  function AfterCall(threads: nat, before: seq<Choice>, tid: nat, us: real, after: seq<Choice>): Shared {
    Execute(Next(Execute(Initial(threads), before), Begin(tid, us)), after)
  }

  /** One call that records a spike, from its load to the operation that completes it, whatever the other
      threads do meanwhile. */
  predicate SpikeCall(threads: nat, before: seq<Choice>, tid: nat, us: real, after: seq<Choice>) {
    && Spike(us) && tid < threads && Execute(Initial(threads), before).pcs[tid] == Idle
    && NoBegin(tid, after)
    && AfterCall(threads, before, tid, us, after).pcs[tid] == Idle
    && (after == [] || AfterCall(threads, before, tid, us, after[..|after| - 1]).pcs[tid] != Idle)
  }

  predicate NoBegin(tid: nat, choices: seq<Choice>) {
    forall i | 0 <= i < |choices| :: choices[i].Begin? ==> choices[i].tid != tid
  }

  /** Either DEGRADED has been seen or the thread is on its way to it. */
  lemma {:induction false} SpikeIsUnderWay(g: Shared, tid: nat, after: seq<Choice>)
    requires tid < |g.pcs| && NoBegin(tid, after)
    requires g.regs.mode == MODE_DEGRADED || g.pcs[tid] in {FallClearDegraded, FallClearCycles, Swap(MODE_DEGRADED)}
    ensures || (exists n: nat :: n <= |after| && Execute(g, after[..n]).regs.mode == MODE_DEGRADED)
            || Execute(g, after).pcs[tid] in {FallClearDegraded, FallClearCycles, Swap(MODE_DEGRADED)}
  {
    if after == [] {
      assert after[..0] == [];
    } else {
      var p := after[..|after| - 1];
      SpikeIsUnderWay(g, tid, p);
      if n: nat :| n <= |p| && Execute(g, p[..n]).regs.mode == MODE_DEGRADED {
        assert after[..n] == p[..n];
      } else {
        assert after[..|after|] == after;
      }
    }
  }

  /** What survives: during every call that records a spike the machine is in DEGRADED at some moment. */
  lemma SpikeIsFelt(threads: nat, before: seq<Choice>, tid: nat, us: real, after: seq<Choice>)
    requires SpikeCall(threads, before, tid, us, after)
    ensures exists n: nat :: n <= |after| && AfterCall(threads, before, tid, us, after[..n]).regs.mode == MODE_DEGRADED
  {
    SharedInvAlways(threads, before);
    var g := Next(Execute(Initial(threads), before), Begin(tid, us));
    SpikeIsUnderWay(g, tid, after);
    var n: nat :| n <= |after| && Execute(g, after[..n]).regs.mode == MODE_DEGRADED;
    assert AfterCall(threads, before, tid, us, after[..n]).regs.mode == MODE_DEGRADED;
  }

  /** Every call that records a spike, a missed deadline for instance, finds the machine in DEGRADED when it
      completes. */
  ghost predicate SpikesDegrade(threads: nat) {
    forall before: seq<Choice>, tid: nat, us: real, after: seq<Choice> |
      SpikeCall(threads, before, tid, us, after)
      :: AfterCall(threads, before, tid, us, after).regs.mode == MODE_DEGRADED
  }

  lemma {:induction false} LoneCallCompletes(g: Shared, after: seq<Choice>)
    requires |g.pcs| == 1 && NoBegin(0, after)
    ensures var g' := Execute(g, after);
            Completed(g'.regs, g'.pcs[0]) == Completed(g.regs, g.pcs[0])
  {
    if after != [] {
      var p, c := after[..|after| - 1], after[|after| - 1];
      LoneCallCompletes(g, p);
      if c.tid == 0 {
        OneOperation(Execute(g, p), 0, c.locked);
      }
    }
  }

  /** A call that records a spike is certain to complete in DEGRADED exactly when the machine has one user. */
  lemma SpikesDegradeExactly(threads: nat)
    ensures SpikesDegrade(threads) <==> threads <= 1
  {
    if threads <= 1 {
      forall before: seq<Choice>, tid: nat, us: real, after: seq<Choice> |
        SpikeCall(threads, before, tid, us, after)
        ensures AfterCall(threads, before, tid, us, after).regs.mode == MODE_DEGRADED
      {
        var g := Execute(Initial(threads), before);
        SharedInvAlways(threads, before);
        LoadDecides(g.regs, us);
        LoneCallCompletes(Next(g, Begin(tid, us)), after);
      }
    } else {
      var choices := LateReport(threads);
      var load, after := choices[0], choices[1..];
      assert choices == [load] + after;
      ExecuteOne(Initial(threads), load);
      ExecuteSplit(Initial(threads), [load], after);
      assert choices[..|choices| - 1] == [load] + after[..|after| - 1];
      ExecuteSplit(Initial(threads), [load], after[..|after| - 1]);
      assert SpikeCall(threads, [], 0, 3000.0, after);
    }
  }
}
