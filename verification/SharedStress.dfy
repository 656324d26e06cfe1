/** Stress injection under sharing: threads whose `record_latency` calls overlap in any way, each of which
    records a latency that is not clean at least once in every `n` calls. */
module SharedStress {
  import opened Types
  import opened FailSafeMode
  import opened SharedFailSafe
  import History = FailSafeHistory

  /** `streaks`: how many clean latencies each thread has brought since its last other one. */
  datatype Stressed = Stressed(shared: Shared, streaks: seq<nat>)

  predicate Starts(g: Shared, c: Choice) {
    c.Begin? && c.tid < |g.pcs| && g.pcs[c.tid] == Idle
  }

  predicate Matched(s: Stressed) {
    |s.streaks| == |s.shared.pcs|
  }

  function Step(s: Stressed, c: Choice): (s': Stressed)
    requires Matched(s)
    ensures Matched(s')
  {
    Stressed(Next(s.shared, c),
             if !Starts(s.shared, c) then s.streaks
             else s.streaks[c.tid := if Clean(c.latencyUs) then s.streaks[c.tid] + 1 else 0])
  }

  function Run(s: Stressed, choices: seq<Choice>): (s': Stressed)
    requires Matched(s)
    ensures Matched(s') && s'.shared == Execute(s.shared, choices)
  {
    if choices == [] then s else Step(Run(s, choices[..|choices| - 1]), choices[|choices| - 1])
  }

  predicate AllBelow(streaks: seq<nat>, n: nat) {
    forall i | 0 <= i < |streaks| :: streaks[i] < n
  }

  /** Of any `n` latencies in a row that one thread records, at least one is not clean. */
  predicate Injected(n: nat, s: Stressed, choices: seq<Choice>)
    requires Matched(s)
  {
    choices == [] || (Injected(n, s, choices[..|choices| - 1]) && AllBelow(Run(s, choices).streaks, n))
  }

  /** The latencies of the calls that thread `tid` starts. */
  function Brought(g: Shared, choices: seq<Choice>, tid: nat): seq<real> {
    if choices == [] then []
    else
      var p, c := choices[..|choices| - 1], choices[|choices| - 1];
      Brought(g, p, tid) + if c.tid == tid && Starts(Execute(g, p), c) then [c.latencyUs] else []
  }

  lemma {:induction false} StreakIsTrailing(g: Shared, choices: seq<Choice>, tid: nat)
    requires tid < |g.pcs|
    ensures Run(Fresh(g), choices).streaks[tid] == History.Trailing(Brought(g, choices, tid))
  {
    if choices != [] {
      var p, c := choices[..|choices| - 1], choices[|choices| - 1];
      StreakIsTrailing(g, p, tid);
      if c.tid == tid && Starts(Execute(g, p), c) {
        History.RunAtTheEnd(Brought(g, p, tid), c.latencyUs, 0);
      } else {
        assert Brought(g, choices, tid) == Brought(g, p, tid);
      }
    }
  }

  lemma {:induction false} CleanRunGrows(n: nat, g: Shared, choices: seq<Choice>, tid: nat)
    requires n > 0 && choices != [] && tid < |g.pcs|
    ensures History.HasRun(Brought(g, choices, tid), n)
       <==> History.HasRun(Brought(g, choices[..|choices| - 1], tid), n)
            || Run(Fresh(g), choices).streaks[tid] >= n
  {
    var p, c := choices[..|choices| - 1], choices[|choices| - 1];
    StreakIsTrailing(g, choices, tid);
    if c.tid == tid && Starts(Execute(g, p), c) {
      History.RunAtTheEnd(Brought(g, p, tid), c.latencyUs, n);
    } else {
      assert Brought(g, choices, tid) == Brought(g, p, tid);
      History.BoundTrailing(Brought(g, p, tid), n);
    }
  }

  ghost predicate NoCleanRun(n: nat, g: Shared, choices: seq<Choice>) {
    forall tid | 0 <= tid < |g.pcs| :: !History.HasRun(Brought(g, choices, tid), n)
  }

  /** What `Injected` means for a run: no thread brings `n` clean latencies in a row. */
  lemma {:induction false} InjectedIsNoCleanRun(n: nat, g: Shared, choices: seq<Choice>)
    requires n > 0
    ensures Injected(n, Fresh(g), choices) <==> NoCleanRun(n, g, choices)
  {
    if choices == [] {
      History.NoRunInEmpty(n);
    } else {
      var p, streaks := choices[..|choices| - 1], Run(Fresh(g), choices).streaks;
      InjectedIsNoCleanRun(n, g, p);
      forall tid | 0 <= tid < |g.pcs|
        ensures History.HasRun(Brought(g, choices, tid), n)
           <==> History.HasRun(Brought(g, p, tid), n) || streaks[tid] >= n
      {
        CleanRunGrows(n, g, choices, tid);
      }
      if NoCleanRun(n, g, choices) {
        assert forall tid | 0 <= tid < |g.pcs| ::
            !History.HasRun(Brought(g, choices, tid), n) && streaks[tid] < n;
        assert forall tid | 0 <= tid < |g.pcs| :: !History.HasRun(Brought(g, p, tid), n);
      } else {
        var tid :| 0 <= tid < |g.pcs| && History.HasRun(Brought(g, choices, tid), n);
        assert History.HasRun(Brought(g, p, tid), n) || !(streaks[tid] < n);
      }
    }
  }

  // ----- Room for clean latencies ------------------------------------------------------------

  /** By how much a thread can still advance `degraded_clean` before it has to bring a latency that is not
      clean, or to store 0 itself. */
  function RoomOf(pc: Pc, streak: nat, n: nat): int {
    match pc
    case ResetDegradedClean => 0
    case FallClearDegraded => 0
    case AddDegradedClean => n - streak
    case _ => n - 1 - streak
  }

  function Room(pcs: seq<Pc>, streaks: seq<nat>, n: nat): int
    requires |pcs| == |streaks|
  {
    if pcs == [] then 0
    else var k := |pcs| - 1; Room(pcs[..k], streaks[..k], n) + RoomOf(pcs[k], streaks[k], n)
  }

  lemma {:induction false} RoomAfterMove(pcs: seq<Pc>, streaks: seq<nat>, tid: nat, pc: Pc, streak: nat, n: nat)
    requires tid < |pcs| == |streaks|
    ensures Room(pcs[tid := pc], streaks[tid := streak], n) + RoomOf(pcs[tid], streaks[tid], n)
         == Room(pcs, streaks, n) + RoomOf(pc, streak, n)
  {
    var k := |pcs| - 1;
    if tid == k {
      assert pcs[tid := pc][..k] == pcs[..k] && streaks[tid := streak][..k] == streaks[..k];
    } else {
      assert pcs[tid := pc][..k] == pcs[..k][tid := pc];
      assert streaks[tid := streak][..k] == streaks[..k][tid := streak];
      RoomAfterMove(pcs[..k], streaks[..k], tid, pc, streak, n);
    }
  }

  /** A thread that is about to count a clean latency has brought one. */
  predicate AddersHaveStreaks(pcs: seq<Pc>, streaks: seq<nat>)
    requires |pcs| == |streaks|
  {
    forall i | 0 <= i < |pcs| :: pcs[i] == AddDegradedClean ==> streaks[i] > 0
  }

  lemma {:induction false} RoomBound(pcs: seq<Pc>, streaks: seq<nat>, n: nat)
    requires |pcs| == |streaks| && n > 0 && AllBelow(streaks, n) && AddersHaveStreaks(pcs, streaks)
    ensures 0 <= Room(pcs, streaks, n) <= |pcs| * (n - 1)
  {
    if pcs != [] {
      RoomBound(pcs[..|pcs| - 1], streaks[..|pcs| - 1], n);
      MulSucc(|pcs| - 1, n - 1);
    }
  }

  // ----- Stragglers from RECOVERY ------------------------------------------------------------

  /** `m` threads that still count a clean cycle bring the count to 60. */
  predicate Reaches(cycles: U32, m: nat)
    decreases m
  {
    m > 0 && (Succ32(cycles) >= RECOVERY_WINDOW || Reaches(Succ32(cycles), m - 1))
  }

  lemma {:induction false} ReachesMore(cycles: U32, m: nat)
    ensures Reaches(cycles, m) ==> Reaches(cycles, m + 1)
    decreases m
  {
    if m > 0 {
      ReachesMore(Succ32(cycles), m - 1);
    }
  }

  /** The thread is going to store 0 in `clean_cycles`. */
  predicate ClearsCycles(pc: Pc) {
    pc == ResetCleanCycles || pc == FallClearDegraded || pc == FallClearCycles
  }

  /** The threads that still count a clean cycle cannot decide to return to NORMAL. */
  predicate StragglersFail(g: Shared) {
    var m := Threads(g.pcs, AddCleanCycles);
    && !Reaches(g.regs.cleanCycles, m)
    && ((exists i :: 0 <= i < |g.pcs| && ClearsCycles(g.pcs[i])) ==> !Reaches(0, m))
  }

  /** The thread has decided to leave DEGRADED. */
  predicate Leaves(pc: Pc) {
    pc == LeaveClearDegraded || pc == LeaveClearCycles || (pc.Swap? && pc.target != MODE_DEGRADED)
  }

  // ----- Pinned ------------------------------------------------------------------------------

  /** DEGRADED, in any state that threads in the middle of their calls can have brought about. */
  ghost predicate Degraded(n: nat, s: Stressed) {
    && Matched(s) && n > 0 && AllBelow(s.streaks, n) && AddersHaveStreaks(s.shared.pcs, s.streaks)
    && SharedInv(s.shared) && s.shared.regs.mode == MODE_DEGRADED
  }

  /** No thread has decided to leave DEGRADED and none will: not for clean cycles still to be counted, and not
      for 25 clean latencies, as there is no room for them. */
  ghost predicate Held(n: nat, s: Stressed)
    requires Matched(s)
  {
    && (forall i | 0 <= i < |s.shared.pcs| :: !Leaves(s.shared.pcs[i]))
    && StragglersFail(s.shared)
    && s.shared.regs.degradedClean + Room(s.shared.pcs, s.streaks, n) < DEGRADED_WINDOW
  }

  lemma StragglersStep(g: Shared, c: Choice)
    requires StragglersFail(g) && g.regs.mode == MODE_DEGRADED
    requires forall i | 0 <= i < |g.pcs| :: !Leaves(g.pcs[i])
    ensures StragglersFail(Next(g, c))
    ensures c.tid < |g.pcs| ==> g.pcs[c.tid] == AddCleanCycles ==> Next(g, c).pcs[c.tid] in {AddCleanCycles, Idle}
  {
    if c.tid < |g.pcs| {
      var g', m := Next(g, c), Threads(g.pcs, AddCleanCycles);
      ThreadsAfterMove(g.pcs, c.tid, g'.pcs[c.tid], AddCleanCycles);
      assert g'.pcs == g.pcs[c.tid := g'.pcs[c.tid]];
      if m > 0 {
        ReachesMore(0, m - 1);
      }
      if i :| 0 <= i < |g'.pcs| && ClearsCycles(g'.pcs[i]) {
        assert ClearsCycles(g.pcs[i]);
      }
    }
  }

  /** A step of one thread of a held machine: it does not gain room, unless `degraded_clean` is 0 afterwards. */
  lemma HeldThread(n: nat, s: Stressed, c: Choice)
    requires Degraded(n, s) && c.tid < |s.streaks| && !Leaves(s.shared.pcs[c.tid])
    requires s.shared.regs.degradedClean + RoomOf(s.shared.pcs[c.tid], s.streaks[c.tid], n) < DEGRADED_WINDOW
    requires s.shared.pcs[c.tid] == AddCleanCycles ==> Next(s.shared, c).pcs[c.tid] in {AddCleanCycles, Idle}
    ensures var s' := Step(s, c);
            var (pc, streak) := (s.shared.pcs[c.tid], s.streaks[c.tid]);
            var (pc', streak') := (s'.shared.pcs[c.tid], s'.streaks[c.tid]);
            && s'.shared.regs.mode == MODE_DEGRADED && !Leaves(pc')
            && (pc' == AddDegradedClean ==> streak' > 0)
            && (|| s'.shared.regs.degradedClean == 0
                || s'.shared.regs.degradedClean + RoomOf(pc', streak', n)
                     <= s.shared.regs.degradedClean + RoomOf(pc, streak, n))
            && s'.shared.pcs == s.shared.pcs[c.tid := pc'] && s'.streaks == s.streaks[c.tid := streak']
  {
  }

  lemma {:induction false} RoomOfOne(pcs: seq<Pc>, streaks: seq<nat>, tid: nat, n: nat)
    requires tid < |pcs| == |streaks| && n > 0 && AllBelow(streaks, n) && AddersHaveStreaks(pcs, streaks)
    ensures RoomOf(pcs[tid], streaks[tid], n) <= Room(pcs, streaks, n)
  {
    RoomBound(pcs[tid := Idle], streaks[tid := n - 1], n);
    RoomAfterMove(pcs, streaks, tid, Idle, n - 1, n);
  }

  lemma HeldStep(n: nat, s: Stressed, c: Choice)
    requires Degraded(n, s) && Held(n, s) && |s.streaks| * (n - 1) <= 24
    requires AllBelow(Step(s, c).streaks, n)
    ensures Degraded(n, Step(s, c)) && Held(n, Step(s, c))
  {
    SharedInvStep(s.shared, c);
    StragglersStep(s.shared, c);
    if c.tid < |s.streaks| {
      var s' := Step(s, c);
      RoomOfOne(s.shared.pcs, s.streaks, c.tid, n);
      HeldThread(n, s, c);
      RoomAfterMove(s.shared.pcs, s.streaks, c.tid, s'.shared.pcs[c.tid], s'.streaks[c.tid], n);
      RoomBound(s'.shared.pcs, s'.streaks, n);
    }
  }

  lemma {:induction false} HeldRun(n: nat, s: Stressed, choices: seq<Choice>)
    requires Degraded(n, s) && Held(n, s) && |s.streaks| * (n - 1) <= 24 && Injected(n, s, choices)
    ensures Degraded(n, Run(s, choices)) && Held(n, Run(s, choices))
  {
    if choices != [] {
      HeldRun(n, s, choices[..|choices| - 1]);
      HeldStep(n, Run(s, choices[..|choices| - 1]), choices[|choices| - 1]);
    }
  }

  // ----- Not pinned --------------------------------------------------------------------------

  lemma {:induction false} RunSplit(n: nat, s: Stressed, a: seq<Choice>, b: seq<Choice>)
    requires Matched(s)
    ensures Run(s, a + b) == Run(Run(s, a), b)
    ensures Injected(n, s, a) && Injected(n, Run(s, a), b) ==> Injected(n, s, a + b)
  {
    if b == [] {
      assert a + b == a;
    } else {
      assert (a + b)[..|a + b| - 1] == a + b[..|b| - 1];
      RunSplit(n, s, a, b[..|b| - 1]);
    }
  }

  lemma {:induction false} ContinuingKeepsStreaks(n: nat, s: Stressed, choices: seq<Choice>)
    requires Matched(s) && AllBelow(s.streaks, n)
    requires forall i | 0 <= i < |choices| :: choices[i].Continue?
    ensures Run(s, choices).streaks == s.streaks && Injected(n, s, choices)
  {
    if choices != [] {
      ContinuingKeepsStreaks(n, s, choices[..|choices| - 1]);
    }
  }

  lemma {:induction false} StartsClean(n: nat, s: Stressed, tid: nat)
    requires Matched(s) && AllBelow(s.streaks, n) && tid < |s.streaks|
    requires s.shared.pcs[tid] == Idle && s.streaks[tid] + 1 < n
    ensures var s' := Run(s, [Begin(tid, 0.0)]);
            s'.streaks == s.streaks[tid := s.streaks[tid] + 1] && AllBelow(s'.streaks, n)
    ensures Injected(n, s, [Begin(tid, 0.0)])
  {
    var load := [Begin(tid, 0.0)];
    assert load[..|load| - 1] == [];
  }

  /** A clean call that nothing interrupts. */
  lemma {:induction false} CleanCall(n: nat, s: Stressed, tid: nat)
    requires Matched(s) && AllBelow(s.streaks, n) && tid < |s.streaks|
    requires s.shared.pcs[tid] == Idle && s.streaks[tid] + 1 < n
    ensures var s' := Run(s, Solo(tid, 0.0, true));
            && s'.streaks == s.streaks[tid := s.streaks[tid] + 1]
            && s'.shared.pcs == s.shared.pcs
            && s'.shared.regs == Record(s.shared.regs, 0.0)
    ensures Injected(n, s, Solo(tid, 0.0, true))
  {
    var load, rest := [Begin(tid, 0.0)], seq(5, _ => Continue(tid, true));
    StartsClean(n, s, tid);
    ContinuingKeepsStreaks(n, Run(s, load), rest);
    RunSplit(n, s, load, rest);
    SoloRefinesRecord(s.shared, tid, 0.0, true);
  }

  lemma {:induction false} FinishCall(n: nat, s: Stressed, tid: nat)
    requires Matched(s) && AllBelow(s.streaks, n) && tid < |s.streaks|
    ensures var s' := Run(s, Finish(tid));
            && s'.streaks == s.streaks && s'.shared.pcs == s.shared.pcs[tid := Idle]
            && s'.shared.regs == Completed(s.shared.regs, s.shared.pcs[tid])
    ensures Injected(n, s, Finish(tid))
  {
    ContinuingKeepsStreaks(n, s, Finish(tid));
    FinishAlone(s.shared, tid);
  }

  /** A way to leave DEGRADED. */
  ghost predicate Escapes(n: nat, s: Stressed, choices: seq<Choice>)
    requires Matched(s)
  {
    Injected(n, s, choices) && Run(s, choices).shared.regs.mode != MODE_DEGRADED
  }

  lemma LeaverEscapes(n: nat, s: Stressed, tid: nat)
    requires Degraded(n, s) && tid < |s.streaks| && Leaves(s.shared.pcs[tid])
    ensures Escapes(n, s, Finish(tid))
  {
    FinishCall(n, s, tid);
  }

  lemma {:induction false} SomeThread(pcs: seq<Pc>, pc: Pc) returns (tid: nat)
    requires Threads(pcs, pc) > 0
    ensures tid < |pcs| && pcs[tid] == pc
  {
    var k := |pcs| - 1;
    if pcs[k] == pc {
      tid := k;
    } else {
      tid := SomeThread(pcs[..k], pc);
    }
  }

  /** The stragglers count, one after the other, until one of them decides to return to NORMAL. */
  lemma {:induction false} StragglersEscape(n: nat, s: Stressed) returns (choices: seq<Choice>)
    requires Matched(s) && AllBelow(s.streaks, n)
    requires Reaches(s.shared.regs.cleanCycles, Threads(s.shared.pcs, AddCleanCycles))
    ensures Escapes(n, s, choices)
    decreases Threads(s.shared.pcs, AddCleanCycles)
  {
    var tid := SomeThread(s.shared.pcs, AddCleanCycles);
    var s' := Run(s, Finish(tid));
    FinishCall(n, s, tid);
    choices := Finish(tid);
    if Succ32(s.shared.regs.cleanCycles) < RECOVERY_WINDOW {
      ThreadsAfterMove(s.shared.pcs, tid, Idle, AddCleanCycles);
      var rest := StragglersEscape(n, s');
      RunSplit(n, s, choices, rest);
      choices := choices + rest;
    }
  }

  /** The same after another thread has stored 0. */
  lemma ClearedStragglersEscape(n: nat, s: Stressed, tid: nat) returns (choices: seq<Choice>)
    requires Matched(s) && AllBelow(s.streaks, n) && tid < |s.streaks| && ClearsCycles(s.shared.pcs[tid])
    requires Reaches(0, Threads(s.shared.pcs, AddCleanCycles))
    ensures Escapes(n, s, choices)
  {
    FinishCall(n, s, tid);
    ThreadsAfterMove(s.shared.pcs, tid, Idle, AddCleanCycles);
    var rest := StragglersEscape(n, Run(s, Finish(tid)));
    RunSplit(n, s, Finish(tid), rest);
    choices := Finish(tid) + rest;
  }

  lemma {:induction false} SomeThreadHasRoom(pcs: seq<Pc>, streaks: seq<nat>, n: nat) returns (tid: nat)
    requires |pcs| == |streaks| && Room(pcs, streaks, n) > 0
    ensures tid < |pcs| && RoomOf(pcs[tid], streaks[tid], n) > 0
  {
    var k := |pcs| - 1;
    if RoomOf(pcs[k], streaks[k], n) > 0 {
      tid := k;
    } else {
      tid := SomeThreadHasRoom(pcs[..k], streaks[..k], n);
    }
  }

  /** A thread with room finishes what it is doing and, unless that counted a clean latency already, makes
      a clean call. */
  lemma OneMoreClean(n: nat, s: Stressed, tid: nat) returns (choices: seq<Choice>)
    requires Degraded(n, s) && tid < |s.streaks| && RoomOf(s.shared.pcs[tid], s.streaks[tid], n) > 0
    requires !Leaves(s.shared.pcs[tid]) && s.shared.regs.degradedClean < DEGRADED_WINDOW
    ensures Injected(n, s, choices)
    ensures var s' := Run(s, choices);
            || s'.shared.regs.mode != MODE_DEGRADED
            || (&& s'.shared.regs.mode == MODE_DEGRADED
                && s'.shared.regs.degradedClean == s.shared.regs.degradedClean + 1 < DEGRADED_WINDOW
                && s'.shared.pcs == s.shared.pcs[tid := Idle]
                && s'.streaks == s.streaks[tid := n - RoomOf(s.shared.pcs[tid], s.streaks[tid], n)])
  {
    choices := Finish(tid);
    FinishCall(n, s, tid);
    var s1 := Run(s, choices);
    if s.shared.pcs[tid] == AddDegradedClean {
      assert s.streaks[tid := s.streaks[tid]] == s.streaks;
    } else if s1.shared.regs.mode == MODE_DEGRADED {
      CleanCall(n, s1, tid);
      RunSplit(n, s, choices, Solo(tid, 0.0, true));
      choices := choices + Solo(tid, 0.0, true);
    }
  }

  /** The threads use their room until 25 clean latencies are counted. */
  lemma {:induction false} CleanEscape(n: nat, s: Stressed) returns (choices: seq<Choice>)
    requires Degraded(n, s) && forall i | 0 <= i < |s.shared.pcs| :: !Leaves(s.shared.pcs[i])
    requires s.shared.regs.degradedClean < DEGRADED_WINDOW
    requires s.shared.regs.degradedClean + Room(s.shared.pcs, s.streaks, n) >= DEGRADED_WINDOW
    ensures Escapes(n, s, choices)
    decreases 25 - s.shared.regs.degradedClean
  {
    var tid := SomeThreadHasRoom(s.shared.pcs, s.streaks, n);
    choices := OneMoreClean(n, s, tid);
    var s' := Run(s, choices);
    if s'.shared.regs.mode == MODE_DEGRADED {
      RoomAfterMove(s.shared.pcs, s.streaks, tid, Idle, s'.streaks[tid], n);
      SharedInvRun(s.shared, choices);
      var rest := CleanEscape(n, s');
      RunSplit(n, s, choices, rest);
      choices := choices + rest;
    }
  }

  lemma {:induction false} SharedInvRun(g: Shared, choices: seq<Choice>)
    requires SharedInv(g)
    ensures SharedInv(Execute(g, choices))
  {
    if choices != [] {
      SharedInvRun(g, choices[..|choices| - 1]);
      SharedInvStep(Execute(g, choices[..|choices| - 1]), choices[|choices| - 1]);
    }
  }

  lemma {:induction false} NoThread(pcs: seq<Pc>, pc: Pc)
    requires forall i | 0 <= i < |pcs| :: pcs[i] != pc
    ensures Threads(pcs, pc) == 0
  {
    if pcs != [] {
      NoThread(pcs[..|pcs| - 1], pc);
    }
  }

  lemma Escape(n: nat, s: Stressed) returns (choices: seq<Choice>)
    requires Degraded(n, s) && !Held(n, s)
    ensures Escapes(n, s, choices)
  {
    var pcs, m := s.shared.pcs, Threads(s.shared.pcs, AddCleanCycles);
    if tid: nat :| tid < |pcs| && Leaves(pcs[tid]) {
      LeaverEscapes(n, s, tid);
      choices := Finish(tid);
    } else if Reaches(s.shared.regs.cleanCycles, m) {
      choices := StragglersEscape(n, s);
    } else if tid: nat :| tid < |pcs| && ClearsCycles(pcs[tid]) && Reaches(0, m) {
      choices := ClearedStragglersEscape(n, s, tid);
    } else {
      NoThread(pcs, LeaveClearDegraded);
      choices := CleanEscape(n, s);
    }
  }

  // ----- Main results ------------------------------------------------------------------------

  /** No interleaving leaves DEGRADED as long as every thread is injected that often. */
  ghost predicate StaysDegraded(n: nat, s: Stressed)
    requires Matched(s)
  {
    forall choices: seq<Choice> | Injected(n, s, choices) :: Run(s, choices).shared.regs.mode == MODE_DEGRADED
  }

  /** From any state in DEGRADED, with calls in progress at any operation: if injection is frequent enough, it
      keeps the machine there exactly when the state is `Held`. */
  lemma StartIsPinnedExactly(n: nat, s: Stressed)
    requires Degraded(n, s) && |s.streaks| * (n - 1) <= 24
    ensures StaysDegraded(n, s) <==> Held(n, s)
  {
    if Held(n, s) {
      forall choices: seq<Choice> | Injected(n, s, choices)
        ensures Run(s, choices).shared.regs.mode == MODE_DEGRADED
      {
        HeldRun(n, s, choices);
      }
    } else {
      var choices := Escape(n, s);
    }
  }

  /** Every state in DEGRADED that such a run can reach is one of those. */
  lemma {:induction false} RunIsCovered(threads: nat, n: nat, choices: seq<Choice>)
    requires n > 0 && Injected(n, Fresh(Initial(threads)), choices)
    ensures var s := Run(Fresh(Initial(threads)), choices);
            && AllBelow(s.streaks, n) && AddersHaveStreaks(s.shared.pcs, s.streaks)
            && (s.shared.regs.mode == MODE_DEGRADED ==> Degraded(n, s))
  {
    SharedInvAlways(threads, choices);
    if choices != [] {
      RunIsCovered(threads, n, choices[..|choices| - 1]);
    }
  }

  /** DEGRADED with no clean latency counted and no call in progress, for instance after an uninterrupted
      call has recorded a spike. */
  predicate Fallen(threads: nat, g: Shared) {
    |g.pcs| == threads && AllIdle(g) && g.regs.mode == MODE_DEGRADED && g.regs.degradedClean == 0
  }

  function Fresh(g: Shared): (s: Stressed)
    ensures Matched(s)
  {
    Stressed(g, seq(|g.pcs|, _ => 0))
  }

  lemma {:induction false} AllRoom(pcs: seq<Pc>, streaks: seq<nat>, n: nat)
    requires |pcs| == |streaks|
    requires forall i | 0 <= i < |pcs| :: pcs[i] == Idle && streaks[i] == 0
    ensures Room(pcs, streaks, n) == |pcs| * (n - 1)
  {
    if pcs != [] {
      AllRoom(pcs[..|pcs| - 1], streaks[..|pcs| - 1], n);
      MulSucc(|pcs| - 1, n - 1);
    }
  }

  lemma FallenIsHeld(threads: nat, n: nat, g: Shared)
    requires Fallen(threads, g) && n > 0
    ensures Degraded(n, Fresh(g))
    ensures Held(n, Fresh(g)) <==> threads * (n - 1) <= 24
  {
    NoThread(g.pcs, AddCleanCycles);
    AllRoom(g.pcs, Fresh(g).streaks, n);
  }

  /** From DEGRADED on, no interleaving leaves it as long as every thread is injected that often. */
  ghost predicate PinsDegraded(threads: nat, n: nat) {
    forall g: Shared, choices: seq<Choice> |
      Fallen(threads, g) && Injected(n, Fresh(g), choices)
      :: Run(Fresh(g), choices).shared.regs.mode == MODE_DEGRADED
  }

  lemma OneSpikeFalls(threads: nat)
    requires threads > 0
    ensures Fallen(threads, Execute(Initial(threads), Solo(0, 3000.0, true)))
  {
    SoloRefinesRecord(Initial(threads), 0, 3000.0, true);
  }

  /** Injection pins DEGRADED under overlapping calls exactly as it does for calls that take turns: if and
      only if the threads together cannot bring 25 clean latencies between their injections. */
  lemma SharedStressPinsDegraded(threads: nat, n: nat)
    requires n > 0
    ensures PinsDegraded(threads, n) <==> threads * (n - 1) <= 24
  {
    if threads * (n - 1) <= 24 {
      forall g: Shared, choices: seq<Choice> |
        Fallen(threads, g) && Injected(n, Fresh(g), choices)
        ensures Run(Fresh(g), choices).shared.regs.mode == MODE_DEGRADED
      {
        FallenIsHeld(threads, n, g);
        HeldRun(n, Fresh(g), choices);
      }
    } else {
      var g := Execute(Initial(threads), Solo(0, 3000.0, true));
      OneSpikeFalls(threads);
      FallenIsHeld(threads, n, g);
      var choices := Escape(n, Fresh(g));
    }
  }
}
