/** The hot path: skip rule, stress injection, leaderboard update, deadline check and the feedback of
    the measured latency into the fail-safe machine. */
module HotPath {
  import opened Types
  import opened Metrics
  import opened FailSafeMode
  import opened LeaderboardStore

  const HOT_DEADLINE_NS: nat := 2_000_000
  const SPIN_NS: nat := 3_000_000

  /** `programStart` is an instant in nanoseconds. */
  datatype StressConfig = StressConfig(enabled: bool, injectEveryNth: U64, programStart: Option<nat>)

  /** What the environment decides during one call: the instants read (ns), the time spent outside the
      busy spin, by how much the spin overshoots its 3 ms, and the outcomes of the `try_lock`s. */
  datatype Timing = Timing(entry: nat, stressCheck: nat, workNs: nat, overshootNs: nat,
                           driftLock: bool, latencyLock: bool, failSafeLock: bool)

  datatype HotState = HotState(fsm: Fsm, stressCounter: U64, board: Board, metrics: MetricsView)

  datatype Outcome = Skipped | Handled(latencyNs: nat)

  datatype Arrival = Arrival(pkt: Packet, timing: Timing)

  /** Whole seconds since program start; without a start the clock starts now. */
  function ElapsedSecs(cfg: StressConfig, now: nat): nat {
    match cfg.programStart
    case None => 0
    case Some(start) => if now < start then 0 else (now - start) / 1_000_000_000
  }

  /** The packet advances the stress counter, if it gets that far. */
  predicate StressActive(cfg: StressConfig, t: Timing) {
    cfg.enabled && cfg.injectEveryNth > 0 && 15 <= ElapsedSecs(cfg, t.stressCheck) < 25
  }

  predicate Skips(s: HotState, pkt: Packet) {
    s.fsm.mode == MODE_DEGRADED && pkt.priority == Low
  }

  predicate Injects(cfg: StressConfig, s: HotState, a: Arrival) {
    !Skips(s, a.pkt) && StressActive(cfg, a.timing) && s.stressCounter % cfg.injectEveryNth == 0
  }

  function OutcomeOf(cfg: StressConfig, s: HotState, a: Arrival): Outcome {
    if Skips(s, a.pkt) then Skipped
    else Handled(a.timing.workNs + if Injects(cfg, s, a) then SPIN_NS + a.timing.overshootNs else 0)
  }

  function LatencyUs(latencyNs: nat): real {
    latencyNs as real / 1000.0
  }

  /** The verdict returned: a skipped packet is not a miss. */
  predicate InTime(o: Outcome) {
    o.Handled? ==> o.latencyNs <= HOT_DEADLINE_NS
  }

  function Drifted(m: MetricsView, pkt: Packet, t: Timing): MetricsView {
    if pkt.t1.Some? && t.driftLock then m.WithDrift(pkt.priority, DriftUs(pkt.t1.value, t.entry)) else m
  }

  function Reported(m: MetricsView, pkt: Packet, latencyNs: nat, locked: bool): MetricsView {
    if !locked then m
    else
      var m' := m.WithLatency(pkt.priority, latencyNs as real);
      if latencyNs <= HOT_DEADLINE_NS then m'
      else m'.WithMiss(DeadlineMissEvent(LatencyUs(latencyNs), pkt.domain, pkt.priority))
  }

  /** The part of a call behind the skip rule, for a packet that takes `ns` nanoseconds. */
  function Handle(cfg: StressConfig, s: HotState, a: Arrival, ns: nat): (s': HotState)
    requires s.board.Valid()
    ensures s'.board.Valid()
  {
    var fsm := Record(s.fsm, LatencyUs(ns));
    HotState(fsm,
             if StressActive(cfg, a.timing) then Succ64(s.stressCounter) else s.stressCounter,
             Counted(s.board, a.pkt.domain),
             ModeReported(Reported(s.metrics, a.pkt, ns, a.timing.latencyLock),
                          s.fsm.mode, fsm.mode, a.timing.failSafeLock))
  }

  /** The state after one `process` call. */
  function Process(cfg: StressConfig, s: HotState, a: Arrival): (s': HotState)
    requires s.board.Valid()
    ensures s'.board.Valid()
  {
    var s1 := s.(metrics := Drifted(s.metrics, a.pkt, a.timing));
    match OutcomeOf(cfg, s, a)
    case Skipped => s1
    case Handled(ns) => Handle(cfg, s1, a, ns)
  }

  function ProcessAll(cfg: StressConfig, s: HotState, arrivals: seq<Arrival>): (s': HotState)
    requires s.board.Valid()
    ensures s'.board.Valid()
  {
    if arrivals == [] then s
    else Process(cfg, ProcessAll(cfg, s, arrivals[..|arrivals| - 1]), arrivals[|arrivals| - 1])
  }

  /** What a receive loop handles: a `None` is a receive timeout. */
  function Received(inputs: seq<Option<Arrival>>): seq<Arrival> {
    if inputs == [] then []
    else Received(inputs[..|inputs| - 1]) +
         match inputs[|inputs| - 1] case None => [] case Some(a) => [a]
  }

  class HotPathProcessor {
    const metrics: SharedMetrics
    const leaderboard: Leaderboard
    const failSafe: FailSafe
    const stress: StressConfig
    var stressCounter: U64

    constructor (metrics: SharedMetrics, leaderboard: Leaderboard, failSafe: FailSafe, stress: StressConfig)
      requires metrics.Valid() && leaderboard.Valid() && failSafe.metrics == metrics
      ensures Valid()
      ensures this.metrics == metrics && this.leaderboard == leaderboard
      ensures this.failSafe == failSafe && this.stress == stress && stressCounter == 0
    {
      this.metrics, this.leaderboard, this.failSafe, this.stress := metrics, leaderboard, failSafe, stress;
      stressCounter := 0;
    }

    ghost predicate Valid() {
      metrics.Valid() && leaderboard.Valid() && failSafe.metrics == metrics
    }

    ghost function State(): (s: HotState)
      requires Valid()
      reads this, failSafe, leaderboard, leaderboard.atomicCounts, metrics, metrics.Windows()
      ensures s.board.Valid()
    {
      HotState(failSafe.State(), stressCounter, leaderboard.Contents(), metrics.View())
    }

    method ProcessPacket(pkt: Packet, t: Timing) returns (deadlineOk: bool)
      requires Valid()
      modifies this`stressCounter, failSafe, leaderboard, leaderboard.atomicCounts, metrics, metrics.Windows()
      ensures State() == Process(stress, old(State()), Arrival(pkt, t))
      ensures deadlineOk == InTime(OutcomeOf(stress, old(State()), Arrival(pkt, t)))
    {
      if pkt.t1.Some? && t.driftLock {
        metrics.PushDrift(pkt.priority, DriftUs(pkt.t1.value, t.entry));
      }
      var degraded := failSafe.IsDegraded();
      if degraded && pkt.priority == Low {
        return true;
      }
      deadlineOk := HandlePacket(pkt, t);
    }

    /** A call behind the skip rule. */
    method HandlePacket(pkt: Packet, t: Timing) returns (deadlineOk: bool)
      requires Valid() && !Skips(State(), pkt)
      modifies this`stressCounter, failSafe, leaderboard, leaderboard.atomicCounts, metrics, metrics.Windows()
      ensures OutcomeOf(stress, old(State()), Arrival(pkt, t)).Handled?
      ensures var ns := OutcomeOf(stress, old(State()), Arrival(pkt, t)).latencyNs;
              State() == Handle(stress, old(State()), Arrival(pkt, t), ns) && deadlineOk == (ns <= HOT_DEADLINE_NS)
    {
      var spinNs := InjectStress(t);
      var latencyNs := t.workNs + spinNs;
      leaderboard.Increment(pkt.domain);
      deadlineOk := latencyNs <= HOT_DEADLINE_NS;
      Report(pkt, latencyNs, t.latencyLock);
      failSafe.RecordLatency(LatencyUs(latencyNs), t.failSafeLock);
    }

    /** The stress block: counts the packet and spins for at least 3 ms on every n-th one. */
    method InjectStress(t: Timing) returns (spinNs: nat)
      modifies this`stressCounter
      ensures stressCounter == if StressActive(stress, t) then Succ64(old(stressCounter)) else old(stressCounter)
      ensures spinNs == if StressActive(stress, t) && old(stressCounter) % stress.injectEveryNth == 0
                        then SPIN_NS + t.overshootNs else 0
    {
      spinNs := 0;
      if stress.enabled && stress.injectEveryNth > 0 {
        var elapsed := ElapsedSecs(stress, t.stressCheck);
        if elapsed >= 15 && elapsed < 25 {
          var n := stressCounter;
          stressCounter := Succ64(stressCounter);
          if n % stress.injectEveryNth == 0 {
            spinNs := SPIN_NS + t.overshootNs;
          }
        }
      }
    }

    /** The metrics block, reached with a failed or a successful `try_lock`. */
    method Report(pkt: Packet, latencyNs: nat, locked: bool)
      requires Valid()
      modifies metrics, metrics.Windows()
      ensures metrics.View() == Reported(old(metrics.View()), pkt, latencyNs, locked)
    {
      if locked {
        metrics.PushLatency(pkt.priority, latencyNs as real);
        if latencyNs > HOT_DEADLINE_NS {
          metrics.deadlineMisses := metrics.deadlineMisses + 1;
          metrics.PushDeadlineMiss(DeadlineMissEvent(LatencyUs(latencyNs), pkt.domain, pkt.priority));
        }
      }
    }

    /** The receive loop of the threaded and of the asynchronous hot path, until `stop` is seen. */
    method Run(inputs: seq<Option<Arrival>>)
      requires Valid()
      modifies this`stressCounter, failSafe, leaderboard, leaderboard.atomicCounts, metrics, metrics.Windows()
      ensures State() == ProcessAll(stress, old(State()), Received(inputs))
    {
      for i := 0 to |inputs|
        invariant State() == ProcessAll(stress, old(State()), Received(inputs[..i]))
      {
        assert inputs[..i + 1][..i] == inputs[..i];
        if inputs[i].Some? {
          var a := inputs[i].value;
          ghost var before := Received(inputs[..i]);
          assert (before + [a])[..|before|] == before;
          var _ := ProcessPacket(a.pkt, a.timing);
        } else {
          assert Received(inputs[..i + 1]) == Received(inputs[..i]);
        }
      }
      assert inputs[..|inputs|] == inputs;
    }
  }
}
