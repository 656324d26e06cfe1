/** Single calls and whole runs of one hot path together with its fail-safe machine and leaderboard; see
    HotPathFleet for what holds of several hot paths as well. */
module HotPathRuns {
  import opened Types
  import opened Metrics
  import opened FailSafeMode
  import opened LeaderboardStore
  import opened HotPath
  import History = FailSafeHistory

  // ----- A run decomposed --------------------------------------------------------------------

  function LastOutcome(cfg: StressConfig, s: HotState, arrivals: seq<Arrival>): Outcome
    requires s.board.Valid() && arrivals != []
  {
    OutcomeOf(cfg, ProcessAll(cfg, s, arrivals[..|arrivals| - 1]), arrivals[|arrivals| - 1])
  }

  /** What one call does to the fail-safe machine, the stress counter and the leaderboard. */
  lemma ProcessRegisters(cfg: StressConfig, s: HotState, a: Arrival)
    requires s.board.Valid()
    ensures var s', o := Process(cfg, s, a), OutcomeOf(cfg, s, a);
            && s'.fsm == (match o case Skipped => s.fsm case Handled(ns) => Record(s.fsm, LatencyUs(ns)))
            && s'.board == (if o.Skipped? then s.board else Counted(s.board, a.pkt.domain))
            && s'.stressCounter ==
                 if o.Handled? && StressActive(cfg, a.timing) then Succ64(s.stressCounter) else s.stressCounter
  {
  }

  // ----- One call, in nanoseconds and instants -----------------------------------------------

  /** The stress window: seconds 15 to 25 of a run whose start is known (ns). */
  predicate InWindow(cfg: StressConfig, now: nat) {
    match cfg.programStart
    case None => false
    case Some(start) => start + 15_000_000_000 <= now < start + 25_000_000_000
  }

  /** Which packets are skipped, which of the others get an injection, and how long the others take. */
  lemma OutcomeInNanoseconds(cfg: StressConfig, s: HotState, a: Arrival)
    ensures OutcomeOf(cfg, s, a).Skipped? <==> s.fsm.mode == 1 && a.pkt.priority.Low?
    ensures StressActive(cfg, a.timing) <==>
              cfg.enabled && cfg.injectEveryNth > 0 && InWindow(cfg, a.timing.stressCheck)
    ensures OutcomeOf(cfg, s, a).Handled? ==>
              OutcomeOf(cfg, s, a).latencyNs ==
                if StressActive(cfg, a.timing) && s.stressCounter % cfg.injectEveryNth == 0
                then a.timing.workNs + 3_000_000 + a.timing.overshootNs else a.timing.workNs
  {
  }

  /** Deadline and thresholds on the scale of the clock: a call is late exactly if it takes over 2 ms; exactly
      then it takes NORMAL or RECOVERY to DEGRADED; clean cycles are those below 0.5 ms. */
  lemma ProcessInNanoseconds(cfg: StressConfig, s: HotState, a: Arrival)
    requires s.board.Valid() && Sound(s.fsm) && OutcomeOf(cfg, s, a).Handled?
    ensures var ns, r, r' := OutcomeOf(cfg, s, a).latencyNs, s.fsm, Process(cfg, s, a).fsm;
            && (InTime(OutcomeOf(cfg, s, a)) <==> ns <= 2_000_000)
            && (r.mode == 0 ==> r'.mode == if ns > 2_000_000 then 1 else 0)
            && (r.mode == 1 ==>
                  if ns >= 500_000 then r'.mode == 1 && r'.degradedClean == 0
                  else if r.degradedClean < 24 then r'.mode == 1 && r'.degradedClean == r.degradedClean + 1
                  else r'.mode == 2 && r'.degradedClean == 0 && r'.cleanCycles == 0)
            && (r.mode == 2 ==>
                  if ns > 2_000_000 then r'.mode == 1 && r'.degradedClean == 0 && r'.cleanCycles == 0
                  else if ns >= 500_000 then r'.mode == 2 && r'.cleanCycles == 0
                  else r'.mode == (if r.cleanCycles < 59 then 2 else 0) && r'.cleanCycles == r.cleanCycles + 1)
  {
    ProcessRegisters(cfg, s, a);
  }

  /** What a call feeds to the fail-safe machine (us). */
  function Latency(o: Outcome): seq<real> {
    match o case Skipped => [] case Handled(ns) => [LatencyUs(ns)]
  }

  /** The latencies (us) that a run feeds to the fail-safe machine. */
  function Recorded(cfg: StressConfig, s: HotState, arrivals: seq<Arrival>): seq<real>
    requires s.board.Valid()
  {
    if arrivals == [] then []
    else Recorded(cfg, s, arrivals[..|arrivals| - 1]) +
         Latency(LastOutcome(cfg, s, arrivals))
  }

  /** The packets of a run that were not skipped. */
  function Handled(cfg: StressConfig, s: HotState, arrivals: seq<Arrival>): seq<Packet>
    requires s.board.Valid()
  {
    if arrivals == [] then []
    else Handled(cfg, s, arrivals[..|arrivals| - 1]) +
         match LastOutcome(cfg, s, arrivals) case Skipped => [] case Handled(_) => [arrivals[|arrivals| - 1].pkt]
  }

  function SkippedCount(cfg: StressConfig, s: HotState, arrivals: seq<Arrival>): nat
    requires s.board.Valid()
  {
    if arrivals == [] then 0
    else SkippedCount(cfg, s, arrivals[..|arrivals| - 1]) + if LastOutcome(cfg, s, arrivals).Skipped? then 1 else 0
  }

  function Domains(pkts: seq<Packet>): seq<string> {
    if pkts == [] then [] else Domains(pkts[..|pkts| - 1]) + [pkts[|pkts| - 1].domain]
  }

  /** In a run the fail-safe machine sees exactly the handled latencies, and the leaderboard exactly the
      handled packets: the theory of latency histories and of edit counts applies to every run. */
  lemma {:induction false} RunDecomposes(cfg: StressConfig, s: HotState, arrivals: seq<Arrival>)
    requires s.board.Valid()
    ensures var s' := ProcessAll(cfg, s, arrivals);
            && s'.fsm == History.Run(s.fsm, Recorded(cfg, s, arrivals))
            && s'.board == CountedAll(s.board, Domains(Handled(cfg, s, arrivals)))
    ensures |Recorded(cfg, s, arrivals)| == |Handled(cfg, s, arrivals)| == |Domains(Handled(cfg, s, arrivals))|
         == |arrivals| - SkippedCount(cfg, s, arrivals)
  {
    if arrivals != [] {
      var p := arrivals[..|arrivals| - 1];
      var a := arrivals[|arrivals| - 1];
      RunDecomposes(cfg, s, p);
      ProcessRegisters(cfg, ProcessAll(cfg, s, p), a);
      match LastOutcome(cfg, s, arrivals)
      case Skipped =>
        assert Recorded(cfg, s, arrivals) == Recorded(cfg, s, p);
        assert Handled(cfg, s, arrivals) == Handled(cfg, s, p);
      case Handled(ns) =>
        RunAppend(s.fsm, Recorded(cfg, s, p), LatencyUs(ns));
        BoardAppend(s.board, Handled(cfg, s, p), a.pkt);
    }
  }

  lemma {:induction false} RunAppend(fsm: Fsm, h: seq<real>, x: real)
    ensures History.Run(fsm, h + [x]) == Record(History.Run(fsm, h), x)
  {
    assert (h + [x])[..|h|] == h;
  }

  lemma {:induction false} BoardAppend(b: Board, pkts: seq<Packet>, pkt: Packet)
    requires b.Valid()
    ensures CountedAll(b, Domains(pkts + [pkt])) == Counted(CountedAll(b, Domains(pkts)), pkt.domain)
    ensures |Domains(pkts + [pkt])| == |Domains(pkts)| + 1
  {
    assert (pkts + [pkt])[..|pkts|] == pkts;
    var ds := Domains(pkts);
    assert (ds + [pkt.domain])[..|ds|] == ds;
  }

  /** Under the map strategies the leaderboard total grows by the packets processed minus those skipped. */
  lemma {:induction false} EditsEqualHandled(cfg: StressConfig, s: HotState, arrivals: seq<Arrival>)
    requires s.board.Valid() && s.board.strategy != Atomic
    ensures ProcessAll(cfg, s, arrivals).board.strategy == s.board.strategy
    ensures TotalEdits(ProcessAll(cfg, s, arrivals).board)
         == TotalEdits(s.board) + |arrivals| - SkippedCount(cfg, s, arrivals)
  {
    RunDecomposes(cfg, s, arrivals);
    EditsAdd(s.board, Domains(Handled(cfg, s, arrivals)));
  }

  // ----- Deadline misses and the mode --------------------------------------------------------

  /** A missed deadline always leaves the machine in DEGRADED with no clean packet to its credit. */
  lemma MissDegrades(cfg: StressConfig, s: HotState, a: Arrival)
    requires s.board.Valid() && Sound(s.fsm) && !InTime(OutcomeOf(cfg, s, a))
    ensures Process(cfg, s, a).fsm.mode == MODE_DEGRADED && Process(cfg, s, a).fsm.degradedClean == 0
  {
    var ns := OutcomeOf(cfg, s, a).latencyNs;
    assert LatencyUs(ns) > 2000.0;
    History.SpikeDegrades(s.fsm, LatencyUs(ns));
  }

  lemma RunInPrefix(p: seq<real>, h: seq<real>, k: nat)
    requires p <= h
    ensures History.HasRun(p, k) ==> History.HasRun(h, k)
  {
    forall end: nat | History.CleanRun(p, k, end)
      ensures History.CleanRun(h, k, end)
    {
    }
  }

  // ----- What the metrics report -------------------------------------------------------------

  lemma {:induction false} EntriesAppend(fsm: Fsm, h: seq<real>, x: real, mode: U8)
    ensures History.Entries(fsm, h + [x], mode) == History.Entries(fsm, h, mode) +
              if History.Run(fsm, h).mode != mode && Record(History.Run(fsm, h), x).mode == mode then 1 else 0
  {
    assert (h + [x])[..|h|] == h;
    RunAppend(fsm, h, x);
  }

  /** What one call does to the two fail-safe entries of the metrics. */
  lemma ProcessReports(cfg: StressConfig, s: HotState, a: Arrival)
    requires s.board.Valid() && s.metrics.currentMode == Label(s.fsm.mode) && s.fsm.mode <= MODE_RECOVERY
    ensures var s' := Process(cfg, s, a);
            var fell := if s.fsm.mode != MODE_DEGRADED && s'.fsm.mode == MODE_DEGRADED then 1 else 0;
            var counted := s'.metrics.failSafeActivations - s.metrics.failSafeActivations;
            && 0 <= counted <= fell
            && (a.timing.failSafeLock ==> counted == fell && s'.metrics.currentMode == Label(s'.fsm.mode))
  {
  }

  /** The metrics show the mode after the latencies `h` and have counted every activation. */
  ghost predicate UpToDate(m: MetricsView, h: seq<real>) {
    && m.currentMode == Label(History.Run(START, h).mode)
    && m.failSafeActivations == History.Entries(START, h, MODE_DEGRADED)
  }

  lemma {:induction false} StaysUpToDate(cfg: StressConfig, s: HotState, a: Arrival, h: seq<real>)
    requires s.board.Valid() && s.fsm == History.Run(START, h) && UpToDate(s.metrics, h) && a.timing.failSafeLock
    ensures UpToDate(Process(cfg, s, a).metrics, h + Latency(OutcomeOf(cfg, s, a)))
  {
    History.RunIsSound(START, h);
    ProcessReports(cfg, s, a);
    ProcessRegisters(cfg, s, a);
    match OutcomeOf(cfg, s, a)
    case Skipped => assert h + [] == h;
    case Handled(ns) =>
      RunAppend(START, h, LatencyUs(ns));
      EntriesAppend(START, h, LatencyUs(ns), MODE_DEGRADED);
  }

  /** The samples and events that one call leaves in the metrics. */
  function LatencySample(o: Outcome, a: Arrival, c: Priority): seq<real> {
    if o.Handled? && a.timing.latencyLock && a.pkt.priority == c then [o.latencyNs as real] else []
  }

  function DriftSample(a: Arrival, c: Priority): seq<real> {
    if a.pkt.t1.Some? && a.timing.driftLock && a.pkt.priority == c then [DriftUs(a.pkt.t1.value, a.timing.entry)]
    else []
  }

  function MissReport(o: Outcome, a: Arrival): seq<DeadlineMissEvent> {
    if o.Handled? && a.timing.latencyLock && o.latencyNs > 2_000_000
    then [DeadlineMissEvent(o.latencyNs as real / 1000.0, a.pkt.domain, a.pkt.priority)] else []
  }

  lemma {:induction false} PushedOne<T>(log: seq<T>, xs: seq<T>)
    requires |xs| <= 1
    ensures PushedAll(log, xs, 10_000) == if xs == [] then log else Pushed(log, xs[0], 10_000)
  {
    if xs != [] {
      assert xs[1..] == [];
    }
  }

  lemma DriftedMetrics(m: MetricsView, a: Arrival)
    ensures Drifted(m, a.pkt, a.timing)
         == m.(humanDrift := PushedAll(m.humanDrift, DriftSample(a, High), 10_000),
               botDrift := PushedAll(m.botDrift, DriftSample(a, Low), 10_000))
  {
    PushedOne(m.humanDrift, DriftSample(a, High));
    PushedOne(m.botDrift, DriftSample(a, Low));
  }

  lemma ReportedMetrics(m: MetricsView, a: Arrival, ns: nat)
    ensures Reported(m, a.pkt, ns, a.timing.latencyLock)
         == m.(humanLatency := PushedAll(m.humanLatency, LatencySample(Outcome.Handled(ns), a, High), 10_000),
               botLatency := PushedAll(m.botLatency, LatencySample(Outcome.Handled(ns), a, Low), 10_000),
               deadlineMisses := m.deadlineMisses + |MissReport(Outcome.Handled(ns), a)|,
               deadlineMissLog := PushedAll(m.deadlineMissLog, MissReport(Outcome.Handled(ns), a), 10_000))
  {
    PushedOne(m.humanLatency, LatencySample(Outcome.Handled(ns), a, High));
    PushedOne(m.botLatency, LatencySample(Outcome.Handled(ns), a, Low));
    PushedOne(m.deadlineMissLog, MissReport(Outcome.Handled(ns), a));
  }

  lemma ProcessMetrics(cfg: StressConfig, s: HotState, a: Arrival)
    requires s.board.Valid()
    ensures var m, m', o := s.metrics, Process(cfg, s, a).metrics, OutcomeOf(cfg, s, a);
            && m'.humanLatency == PushedAll(m.humanLatency, LatencySample(o, a, High), 10_000)
            && m'.botLatency == PushedAll(m.botLatency, LatencySample(o, a, Low), 10_000)
            && m'.humanDrift == PushedAll(m.humanDrift, DriftSample(a, High), 10_000)
            && m'.botDrift == PushedAll(m.botDrift, DriftSample(a, Low), 10_000)
            && m'.deadlineMisses == m.deadlineMisses + |MissReport(o, a)|
            && m'.deadlineMissLog == PushedAll(m.deadlineMissLog, MissReport(o, a), 10_000)
            && m'.overflowLog == m.overflowLog && m'.watchdogResets == m.watchdogResets
            && m'.asyncOverflowCount == m.asyncOverflowCount && m'.threadedOverflowCount == m.threadedOverflowCount
  {
    DriftedMetrics(s.metrics, a);
    match OutcomeOf(cfg, s, a)
    case Skipped =>
    case Handled(ns) => ReportedMetrics(Drifted(s.metrics, a.pkt, a.timing), a, ns);
  }
}
