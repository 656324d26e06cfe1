/** Several hot paths that share one fail-safe machine, one leaderboard and the metrics, as the program
    sets them up.  Each hot path has a stress counter of its own.  Calls do not overlap here; see
    SharedStress for calls that do. */
module HotPathFleet {
  import opened Types
  import opened Metrics
  import opened FailSafeMode
  import opened LeaderboardStore
  import opened HotPath
  import opened HotPathRuns
  import History = FailSafeHistory

  datatype Fleet = Fleet(fsm: Fsm, counters: seq<U64>, board: Board, metrics: MetricsView) {
    /** What hot path `k` sees. */
    function View(k: nat): HotState
      requires k < |counters|
    {
      HotState(fsm, counters[k], board, metrics)
    }
  }

  /** A `process` call of one hot path. */
  datatype Turn = Turn(path: nat, arrival: Arrival)

  function Play(cfg: StressConfig, f: Fleet, t: Turn): (f': Fleet)
    requires f.board.Valid()
    ensures f'.board.Valid() && |f'.counters| == |f.counters|
  {
    if t.path >= |f.counters| then f
    else
      var s := Process(cfg, f.View(t.path), t.arrival);
      Fleet(s.fsm, f.counters[t.path := s.stressCounter], s.board, s.metrics)
  }

  function PlayAll(cfg: StressConfig, f: Fleet, turns: seq<Turn>): (f': Fleet)
    requires f.board.Valid()
    ensures f'.board.Valid() && |f'.counters| == |f.counters|
  {
    if turns == [] then f else Play(cfg, PlayAll(cfg, f, turns[..|turns| - 1]), turns[|turns| - 1])
  }

  lemma {:induction false} PlaySplit(cfg: StressConfig, f: Fleet, a: seq<Turn>, b: seq<Turn>)
    requires f.board.Valid()
    ensures PlayAll(cfg, f, a + b) == PlayAll(cfg, PlayAll(cfg, f, a), b)
  {
    if b == [] {
      assert a + b == a;
    } else {
      assert (a + b)[..|a + b| - 1] == a + b[..|b| - 1];
      PlaySplit(cfg, f, a, b[..|b| - 1]);
    }
  }

  lemma {:induction false} PlayFirst(cfg: StressConfig, f: Fleet, t: Turn, rest: seq<Turn>)
    requires f.board.Valid()
    ensures PlayAll(cfg, f, [t] + rest) == PlayAll(cfg, Play(cfg, f, t), rest)
  {
    var one := [t];
    assert one[..|one| - 1] == [];
    PlaySplit(cfg, f, one, rest);
  }

  // ----- Runs of a fleet ---------------------------------------------------------------------

  function Alone(arrivals: seq<Arrival>): seq<Turn> {
    seq(|arrivals|, i requires 0 <= i < |arrivals| => Turn(0, arrivals[i]))
  }

  /** All turns belong to existing hot paths. */
  predicate Staffed(paths: nat, turns: seq<Turn>) {
    forall i | 0 <= i < |turns| :: turns[i].path < paths
  }

  function LastOutcome(cfg: StressConfig, f: Fleet, turns: seq<Turn>): Outcome
    requires f.board.Valid() && turns != [] && Staffed(|f.counters|, turns)
  {
    var t := turns[|turns| - 1];
    OutcomeOf(cfg, PlayAll(cfg, f, turns[..|turns| - 1]).View(t.path), t.arrival)
  }

  /** The latencies (us) that all hot paths together feed to the machine. */
  function Recorded(cfg: StressConfig, f: Fleet, turns: seq<Turn>): seq<real>
    requires f.board.Valid() && Staffed(|f.counters|, turns)
  {
    if turns == [] then []
    else Recorded(cfg, f, turns[..|turns| - 1]) +
         Latency(LastOutcome(cfg, f, turns))
  }

  function SkippedCount(cfg: StressConfig, f: Fleet, turns: seq<Turn>): nat
    requires f.board.Valid() && Staffed(|f.counters|, turns)
  {
    if turns == [] then 0
    else SkippedCount(cfg, f, turns[..|turns| - 1]) + if LastOutcome(cfg, f, turns).Skipped? then 1 else 0
  }

  /** The packets that were not skipped. */
  function Handled(cfg: StressConfig, f: Fleet, turns: seq<Turn>): seq<Packet>
    requires f.board.Valid() && Staffed(|f.counters|, turns)
  {
    if turns == [] then []
    else Handled(cfg, f, turns[..|turns| - 1]) +
         match LastOutcome(cfg, f, turns) case Skipped => [] case Handled(_) => [turns[|turns| - 1].arrival.pkt]
  }

  /** The shared machine sees all handled latencies in the order of the calls, and the shared leaderboard all
      handled packets, so the theory of latency histories and of edit counts applies to them. */
  lemma {:induction false} FleetDecomposes(cfg: StressConfig, f: Fleet, turns: seq<Turn>)
    requires f.board.Valid() && Staffed(|f.counters|, turns)
    ensures var f' := PlayAll(cfg, f, turns);
            && f'.fsm == History.Run(f.fsm, Recorded(cfg, f, turns))
            && f'.board == CountedAll(f.board, Domains(Handled(cfg, f, turns)))
    ensures |Recorded(cfg, f, turns)| == |Domains(Handled(cfg, f, turns))| == |turns| - SkippedCount(cfg, f, turns)
  {
    if turns != [] {
      var p, t := turns[..|turns| - 1], turns[|turns| - 1];
      FleetDecomposes(cfg, f, p);
      ProcessRegisters(cfg, PlayAll(cfg, f, p).View(t.path), t.arrival);
      match LastOutcome(cfg, f, turns)
      case Skipped =>
        assert Recorded(cfg, f, turns) == Recorded(cfg, f, p);
        assert Handled(cfg, f, turns) == Handled(cfg, f, p);
      case Handled(ns) =>
        RunAppend(f.fsm, Recorded(cfg, f, p), LatencyUs(ns));
        BoardAppend(f.board, Handled(cfg, f, p), t.arrival.pkt);
    }
  }

  /** Under the map strategies the total of the shared leaderboard grows by the packets not skipped. */
  lemma {:induction false} FleetEdits(cfg: StressConfig, f: Fleet, turns: seq<Turn>)
    requires f.board.Valid() && f.board.strategy != Atomic && Staffed(|f.counters|, turns)
    ensures PlayAll(cfg, f, turns).board.strategy == f.board.strategy
    ensures TotalEdits(PlayAll(cfg, f, turns).board) == TotalEdits(f.board) + |turns| - SkippedCount(cfg, f, turns)
  {
    FleetDecomposes(cfg, f, turns);
    EditsAdd(f.board, Domains(Handled(cfg, f, turns)));
  }

  /** A fleet of one is a single hot path: it ends in the same state, has recorded the same latencies and
      handled the same packets. */
  lemma {:induction false} FleetOfOne(cfg: StressConfig, s: HotState, arrivals: seq<Arrival>)
    requires s.board.Valid()
    ensures PlayAll(cfg, Fleet(s.fsm, [s.stressCounter], s.board, s.metrics), Alone(arrivals)).View(0)
         == ProcessAll(cfg, s, arrivals)
    ensures var f := Fleet(s.fsm, [s.stressCounter], s.board, s.metrics);
            && Staffed(1, Alone(arrivals))
            && Recorded(cfg, f, Alone(arrivals)) == HotPathRuns.Recorded(cfg, s, arrivals)
            && Handled(cfg, f, Alone(arrivals)) == HotPathRuns.Handled(cfg, s, arrivals)
  {
    if arrivals != [] {
      var p := arrivals[..|arrivals| - 1];
      assert Alone(arrivals)[..|p|] == Alone(p);
      FleetOfOne(cfg, s, p);
    }
  }

  // ----- Deadline misses and the mode --------------------------------------------------------

  /** The human packets among those that arrive. */
  function Humans(turns: seq<Turn>): seq<Packet> {
    if turns == [] then []
    else
      var pkt := turns[|turns| - 1].arrival.pkt;
      Humans(turns[..|turns| - 1]) + if pkt.priority == High then [pkt] else []
  }

  lemma DegradedHandlesHumans(cfg: StressConfig, f: Fleet, turns: seq<Turn>)
    requires f.board.Valid() && Staffed(|f.counters|, turns) && turns != []
    requires PlayAll(cfg, f, turns[..|turns| - 1]).fsm.mode == MODE_DEGRADED
    ensures var p, pkt := turns[..|turns| - 1], turns[|turns| - 1].arrival.pkt;
            Handled(cfg, f, turns) == Handled(cfg, f, p) + if pkt.priority == High then [pkt] else []
  {
  }

  lemma {:induction false} RecordedGrows(cfg: StressConfig, f: Fleet, turns: seq<Turn>)
    requires f.board.Valid() && Staffed(|f.counters|, turns) && turns != []
    ensures Recorded(cfg, f, turns[..|turns| - 1]) <= Recorded(cfg, f, turns)
  {
  }

  /** After a miss only human packets are handled, all of them and in order, for as long as they have not
      been clean 25 times in a row. */
  lemma {:induction false} OnlyHumansUntilRecovered(cfg: StressConfig, f: Fleet, turns: seq<Turn>)
    requires f.board.Valid() && Staffed(|f.counters|, turns)
    requires f.fsm.mode == MODE_DEGRADED && f.fsm.degradedClean == 0
    requires !History.HasRun(Recorded(cfg, f, turns), DEGRADED_WINDOW)
    ensures PlayAll(cfg, f, turns).fsm.mode == MODE_DEGRADED
    ensures Handled(cfg, f, turns) == Humans(turns)
  {
    assert PlayAll(cfg, f, turns).fsm.mode == MODE_DEGRADED by {
      FleetDecomposes(cfg, f, turns);
      History.StaysDegraded(f.fsm, Recorded(cfg, f, turns));
    }
    if turns != [] {
      var p := turns[..|turns| - 1];
      RecordedGrows(cfg, f, turns);
      RunInPrefix(Recorded(cfg, f, p), Recorded(cfg, f, turns), DEGRADED_WINDOW);
      OnlyHumansUntilRecovered(cfg, f, p);
      DegradedHandlesHumans(cfg, f, turns);
    }
  }

  /** Only human packets were handled, and the last 25 of them were clean. */
  ghost predicate RecoversWithin(cfg: StressConfig, f: Fleet, turns: seq<Turn>)
    requires f.board.Valid() && Staffed(|f.counters|, turns)
  {
    && Handled(cfg, f, turns) == Humans(turns)
    && History.Trailing(Recorded(cfg, f, turns)) >= DEGRADED_WINDOW
  }

  ghost predicate RecoversOnTheWay(cfg: StressConfig, f: Fleet, turns: seq<Turn>)
    requires f.board.Valid() && Staffed(|f.counters|, turns)
  {
    exists n | 0 <= n <= |turns| :: RecoversWithin(cfg, f, turns[..n])
  }

  /** Deadline and mode agree: if the call of one hot path reports a miss and a bot packet is handled later on,
      by any of them, then 25 human packets in a row were clean in between. */
  lemma {:induction false} BotAfterMissNeedsRecovery(cfg: StressConfig, f: Fleet, miss: Turn, between: seq<Turn>,
                                                     bot: Turn)
    requires f.board.Valid() && Sound(f.fsm) && Staffed(|f.counters|, between)
    requires miss.path < |f.counters| && !InTime(OutcomeOf(cfg, f.View(miss.path), miss.arrival))
    requires bot.path < |f.counters| && bot.arrival.pkt.priority == Low
    requires OutcomeOf(cfg, PlayAll(cfg, Play(cfg, f, miss), between).View(bot.path), bot.arrival).Handled?
    ensures RecoversOnTheWay(cfg, Play(cfg, f, miss), between)
  {
    MissDegrades(cfg, f.View(miss.path), miss.arrival);
    BotNeedsRecovery(cfg, Play(cfg, f, miss), between, bot);
  }

  lemma {:induction false} BotNeedsRecovery(cfg: StressConfig, f: Fleet, between: seq<Turn>, bot: Turn)
    requires f.board.Valid() && Staffed(|f.counters|, between) && bot.path < |f.counters|
    requires f.fsm.mode == MODE_DEGRADED && f.fsm.degradedClean == 0
    requires bot.arrival.pkt.priority == Low && !Skips(PlayAll(cfg, f, between).View(bot.path), bot.arrival.pkt)
    ensures RecoversOnTheWay(cfg, f, between)
  {
    if History.HasRun(Recorded(cfg, f, between), DEGRADED_WINDOW) {
      var n := FirstRecovery(cfg, f, between);
    } else {
      OnlyHumansUntilRecovered(cfg, f, between);
    }
  }

  /** The shortest part of a run whose latencies contain a run of 25 clean ones. */
  lemma {:induction false} FirstRecovery(cfg: StressConfig, f: Fleet, turns: seq<Turn>) returns (n: nat)
    requires f.board.Valid() && Staffed(|f.counters|, turns)
    requires f.fsm.mode == MODE_DEGRADED && f.fsm.degradedClean == 0
    requires History.HasRun(Recorded(cfg, f, turns), DEGRADED_WINDOW)
    ensures n <= |turns| && RecoversWithin(cfg, f, turns[..n])
  {
    History.NoRunInEmpty(DEGRADED_WINDOW);
    if turns == [] {
      assert false;
    } else {
      var p := turns[..|turns| - 1];
      if History.HasRun(Recorded(cfg, f, p), DEGRADED_WINDOW) {
        n := FirstRecovery(cfg, f, p);
        assert turns[..n] == p[..n];
      } else {
        n := |turns|;
        assert turns[..n] == turns;
        OnlyHumansUntilRecovered(cfg, f, p);
        match LastOutcome(cfg, f, turns)
        case Skipped => RunInPrefix(Recorded(cfg, f, turns), Recorded(cfg, f, p), DEGRADED_WINDOW);
        case Handled(ns) => History.RunAtTheEnd(Recorded(cfg, f, p), LatencyUs(ns), DEGRADED_WINDOW);
      }
    }
  }

  /** Bot packets alone cannot move a degraded machine: nothing but drift samples is recorded. */
  lemma {:induction false} BotsAloneChangeNothing(cfg: StressConfig, f: Fleet, turns: seq<Turn>)
    requires f.board.Valid() && f.fsm.mode == MODE_DEGRADED
    requires forall i | 0 <= i < |turns| :: turns[i].arrival.pkt.priority == Low
    ensures var f' := PlayAll(cfg, f, turns);
            f' == f.(metrics := f.metrics.(botDrift := f'.metrics.botDrift))
  {
    if turns != [] {
      BotsAloneChangeNothing(cfg, f, turns[..|turns| - 1]);
    }
  }

  // ----- What the metrics report -------------------------------------------------------------

  function LatencySamples(cfg: StressConfig, f: Fleet, turns: seq<Turn>, c: Priority): seq<real>
    requires f.board.Valid() && Staffed(|f.counters|, turns)
  {
    if turns == [] then []
    else LatencySamples(cfg, f, turns[..|turns| - 1], c)
         + LatencySample(LastOutcome(cfg, f, turns), turns[|turns| - 1].arrival, c)
  }

  function DriftSamples(turns: seq<Turn>, c: Priority): seq<real> {
    if turns == [] then []
    else DriftSamples(turns[..|turns| - 1], c) + DriftSample(turns[|turns| - 1].arrival, c)
  }

  function MissReports(cfg: StressConfig, f: Fleet, turns: seq<Turn>): seq<DeadlineMissEvent>
    requires f.board.Valid() && Staffed(|f.counters|, turns)
  {
    if turns == [] then []
    else MissReports(cfg, f, turns[..|turns| - 1])
         + MissReport(LastOutcome(cfg, f, turns), turns[|turns| - 1].arrival)
  }

  lemma {:induction false} SamplesDecompose(cfg: StressConfig, f: Fleet, turns: seq<Turn>)
    requires f.board.Valid() && Staffed(|f.counters|, turns)
    ensures var m, m' := f.metrics, PlayAll(cfg, f, turns).metrics;
            && m'.humanLatency == PushedAll(m.humanLatency, LatencySamples(cfg, f, turns, High), 10_000)
            && m'.botLatency == PushedAll(m.botLatency, LatencySamples(cfg, f, turns, Low), 10_000)
            && m'.humanDrift == PushedAll(m.humanDrift, DriftSamples(turns, High), 10_000)
            && m'.botDrift == PushedAll(m.botDrift, DriftSamples(turns, Low), 10_000)
  {
    if turns != [] {
      var p, t := turns[..|turns| - 1], turns[|turns| - 1];
      var m, o := f.metrics, LastOutcome(cfg, f, turns);
      SamplesDecompose(cfg, f, p);
      ProcessMetrics(cfg, PlayAll(cfg, f, p).View(t.path), t.arrival);
      PushedUpTo(m.humanLatency, LatencySamples(cfg, f, p, High), LatencySample(o, t.arrival, High), 10_000);
      PushedUpTo(m.botLatency, LatencySamples(cfg, f, p, Low), LatencySample(o, t.arrival, Low), 10_000);
      PushedUpTo(m.humanDrift, DriftSamples(p, High), DriftSample(t.arrival, High), 10_000);
      PushedUpTo(m.botDrift, DriftSamples(p, Low), DriftSample(t.arrival, Low), 10_000);
    }
  }

  lemma {:induction false} MissesDecompose(cfg: StressConfig, f: Fleet, turns: seq<Turn>)
    requires f.board.Valid() && Staffed(|f.counters|, turns)
    ensures var m, m' := f.metrics, PlayAll(cfg, f, turns).metrics;
            && m'.deadlineMisses == m.deadlineMisses + |MissReports(cfg, f, turns)|
            && m'.deadlineMissLog == PushedAll(m.deadlineMissLog, MissReports(cfg, f, turns), 10_000)
  {
    if turns != [] {
      var p, t := turns[..|turns| - 1], turns[|turns| - 1];
      MissesDecompose(cfg, f, p);
      ProcessMetrics(cfg, PlayAll(cfg, f, p).View(t.path), t.arrival);
      PushedUpTo(f.metrics.deadlineMissLog, MissReports(cfg, f, p), MissReport(LastOutcome(cfg, f, turns), t.arrival),
                 10_000);
    }
  }

  /** The windows hold the most recent samples that found the lock free, by class: latencies in nanoseconds of
      the packets handled, drifts of all packets.  Every handled packet over 2 ms is counted and logged. */
  lemma {:induction false} MetricsDecompose(cfg: StressConfig, f: Fleet, turns: seq<Turn>)
    requires f.board.Valid() && Staffed(|f.counters|, turns)
    requires |f.metrics.humanLatency| <= 10_000 && |f.metrics.botLatency| <= 10_000
    requires |f.metrics.humanDrift| <= 10_000 && |f.metrics.botDrift| <= 10_000
    requires |f.metrics.deadlineMissLog| <= 10_000
    ensures var m, m' := f.metrics, PlayAll(cfg, f, turns).metrics;
            && m'.humanLatency == Suffix(m.humanLatency + LatencySamples(cfg, f, turns, High), 10_000)
            && m'.botLatency == Suffix(m.botLatency + LatencySamples(cfg, f, turns, Low), 10_000)
            && m'.humanDrift == Suffix(m.humanDrift + DriftSamples(turns, High), 10_000)
            && m'.botDrift == Suffix(m.botDrift + DriftSamples(turns, Low), 10_000)
            && m'.deadlineMisses == m.deadlineMisses + |MissReports(cfg, f, turns)|
            && m'.deadlineMissLog == Suffix(m.deadlineMissLog + MissReports(cfg, f, turns), 10_000)
  {
    SamplesDecompose(cfg, f, turns);
    MissesDecompose(cfg, f, turns);
    WindowIsSuffix(f.metrics.humanLatency, LatencySamples(cfg, f, turns, High), 10_000);
    WindowIsSuffix(f.metrics.botLatency, LatencySamples(cfg, f, turns, Low), 10_000);
    WindowIsSuffix(f.metrics.humanDrift, DriftSamples(turns, High), 10_000);
    WindowIsSuffix(f.metrics.botDrift, DriftSamples(turns, Low), 10_000);
    WindowIsSuffix(f.metrics.deadlineMissLog, MissReports(cfg, f, turns), 10_000);
  }

  lemma {:induction false} FleetIsUpToDate(cfg: StressConfig, f: Fleet, turns: seq<Turn>)
    requires f.board.Valid() && Staffed(|f.counters|, turns) && f.fsm == START
    requires f.metrics.currentMode == "NORMAL" && f.metrics.failSafeActivations == 0
    requires forall i | 0 <= i < |turns| :: turns[i].arrival.timing.failSafeLock
    ensures UpToDate(PlayAll(cfg, f, turns).metrics, Recorded(cfg, f, turns))
  {
    if turns != [] {
      var p, t := turns[..|turns| - 1], turns[|turns| - 1];
      FleetIsUpToDate(cfg, f, p);
      FleetDecomposes(cfg, f, p);
      StaysUpToDate(cfg, PlayAll(cfg, f, p).View(t.path), t.arrival, Recorded(cfg, f, p));
    }
  }

  /** As long as no lock fails, the metrics show the current mode and the exact number of activations, which is
      therefore subject to the anti-chatter bound. */
  lemma {:induction false} ReportedModeIsCurrent(cfg: StressConfig, f: Fleet, turns: seq<Turn>)
    requires f.board.Valid() && Staffed(|f.counters|, turns) && f.fsm == START
    requires f.metrics.currentMode == "NORMAL" && f.metrics.failSafeActivations == 0
    requires forall i | 0 <= i < |turns| :: turns[i].arrival.timing.failSafeLock
    ensures var f', h := PlayAll(cfg, f, turns), Recorded(cfg, f, turns);
            && f'.metrics.currentMode == Label(f'.fsm.mode)
            && (f'.metrics.currentMode == "NORMAL" <==> f'.fsm.mode == 0)
            && (f'.metrics.currentMode == "DEGRADED" <==> f'.fsm.mode == 1)
            && (f'.metrics.currentMode == "RECOVERY" <==> f'.fsm.mode == 2)
            && f'.metrics.failSafeActivations == History.Entries(START, h, MODE_DEGRADED)
            && 26 * f'.metrics.failSafeActivations <= |turns| + 25
  {
    FleetDecomposes(cfg, f, turns);
    FleetIsUpToDate(cfg, f, turns);
    History.AntiChatter(Recorded(cfg, f, turns));
    History.RunIsSound(START, Recorded(cfg, f, turns));
    LabelsDiffer();
  }

  // ----- Stress injection --------------------------------------------------------------------

  /** Handled packets since the last injection, as told by the stress counter (which may have wrapped). */
  function SinceInjection(counter: U64, nth: U64): nat
    requires nth > 0
  {
    (if counter == 0 then 0xFFFF_FFFF_FFFF_FFFF else counter - 1) % nth
  }

  lemma ModSucc(c: nat, nth: nat)
    requires nth > 0
    ensures (c + 1) % nth == if c % nth == nth - 1 then 0 else c % nth + 1
  {
    var q, r := c / nth, c % nth;
    assert c == nth * q + r;
    if r == nth - 1 {
      assert c + 1 == nth * (q + 1);
      RemainderIsUnique(c + 1, nth, q + 1, 0);
    } else {
      RemainderIsUnique(c + 1, nth, q, r + 1);
    }
  }

  lemma RemainderIsUnique(x: nat, n: nat, q: nat, r: nat)
    requires x == n * q + r && r < n
    ensures x % n == r
  {
    var d := q - x / n;
    assert n * d == n * q - n * (x / n);
    SmallMultiple(n, d);
  }

  lemma SmallMultiple(n: int, d: int)
    requires n >= 0
    ensures d >= 1 ==> n * d >= n
    ensures d <= -1 ==> n * d <= -n
  {
  }

  lemma SinceInjectionStep(counter: U64, nth: U64)
    requires nth > 0 && counter % nth != 0
    ensures SinceInjection(Succ64(counter), nth) == SinceInjection(counter, nth) + 1
  {
    if counter == 0 {
      RemainderIsUnique(0, nth, 0, 0);
    } else {
      ModSucc(counter - 1, nth);
      SinceInjectionAfter(counter, nth);
    }
  }

  lemma SinceInjectionAfter(counter: U64, nth: U64)
    requires nth > 0
    ensures SinceInjection(Succ64(counter), nth) == counter % nth
  {
  }

  lemma SinceInjectionBound(counter: U64, nth: U64)
    requires nth > 0
    ensures SinceInjection(counter, nth) < nth
  {
  }

  /** Handled packets since their last injections, over all hot paths. */
  function Total(counters: seq<U64>, nth: U64): nat
    requires nth > 0
  {
    if counters == [] then 0
    else Total(counters[..|counters| - 1], nth) + SinceInjection(counters[|counters| - 1], nth)
  }

  lemma {:induction false} TotalAfterMove(counters: seq<U64>, k: nat, c: U64, nth: U64)
    requires nth > 0 && k < |counters|
    ensures Total(counters[k := c], nth) + SinceInjection(counters[k], nth)
         == Total(counters, nth) + SinceInjection(c, nth)
  {
    var last := |counters| - 1;
    if k == last {
      assert counters[k := c][..last] == counters[..last];
    } else {
      assert counters[k := c][..last] == counters[..last][k := c];
      TotalAfterMove(counters[..last], k, c, nth);
    }
  }

  lemma {:induction false} TotalBound(counters: seq<U64>, nth: U64)
    requires nth > 0
    ensures Total(counters, nth) <= |counters| * (nth - 1)
  {
    if counters != [] {
      TotalBound(counters[..|counters| - 1], nth);
      SinceInjectionBound(counters[|counters| - 1], nth);
      MulSucc(|counters| - 1, nth - 1);
    }
  }

  /** While injection is active, clean packets never outnumber those since the last injections. */
  ghost predicate Pinned(cfg: StressConfig, f: Fleet) {
    && 0 < cfg.injectEveryNth
    && f.fsm.mode == MODE_DEGRADED
    && f.fsm.degradedClean <= Total(f.counters, cfg.injectEveryNth)
    && |f.counters| * (cfg.injectEveryNth - 1) <= 24
  }

  lemma InjectionDegrades(cfg: StressConfig, s: HotState, a: Arrival)
    requires s.board.Valid() && Sound(s.fsm) && Injects(cfg, s, a)
    ensures Process(cfg, s, a).fsm.mode == MODE_DEGRADED && Process(cfg, s, a).fsm.degradedClean == 0
  {
    MissDegrades(cfg, s, a);
  }

  lemma PinnedTurn(cfg: StressConfig, f: Fleet, t: Turn)
    requires f.board.Valid() && Pinned(cfg, f) && StressActive(cfg, t.arrival.timing)
    ensures Pinned(cfg, Play(cfg, f, t))
  {
    if t.path < |f.counters| {
      var s, f', nth := f.View(t.path), Play(cfg, f, t), cfg.injectEveryNth;
      ProcessRegisters(cfg, s, t.arrival);
      TotalBound(f.counters, nth);
      TotalBound(f'.counters, nth);
      TotalAfterMove(f.counters, t.path, f'.counters[t.path], nth);
      if Skips(s, t.arrival.pkt) {
        assert f'.counters == f.counters;
      } else if !Injects(cfg, s, t.arrival) {
        SinceInjectionStep(s.stressCounter, nth);
      }
    }
  }

  lemma {:induction false} PinnedRun(cfg: StressConfig, f: Fleet, turns: seq<Turn>)
    requires f.board.Valid() && Pinned(cfg, f)
    requires forall i | 0 <= i < |turns| :: StressActive(cfg, turns[i].arrival.timing)
    ensures Pinned(cfg, PlayAll(cfg, f, turns))
  {
    if turns != [] {
      var p := turns[..|turns| - 1];
      PinnedRun(cfg, f, p);
      PinnedTurn(cfg, PlayAll(cfg, f, p), turns[|turns| - 1]);
    }
  }

  /** Injecting into every n-th packet of each of `paths` hot paths keeps the machine in DEGRADED from the
      first injection on, for as long as injection stays active and whatever packets arrive. */
  ghost predicate PinsDegraded(paths: nat, nth: U64) {
    forall cfg: StressConfig, f: Fleet, first: Turn, turns: seq<Turn> |
      StressCase(paths, nth, cfg, f, first, turns)
      :: PlayAll(cfg, Play(cfg, f, first), turns).fsm.mode == MODE_DEGRADED
  }

  /** A packet that gets an injection, in any state a run can be in, and more packets while injection is
      active. */
  predicate StressCase(paths: nat, nth: U64, cfg: StressConfig, f: Fleet, first: Turn, turns: seq<Turn>) {
    && cfg.injectEveryNth == nth && |f.counters| == paths && f.board.Valid() && Sound(f.fsm)
    && first.path < paths && Injects(cfg, f.View(first.path), first.arrival)
    && forall i | 0 <= i < |turns| :: StressActive(cfg, turns[i].arrival.timing)
  }

  lemma {:induction false} FrequentInjectionPins(paths: nat, nth: U64, cfg: StressConfig, f: Fleet, first: Turn,
                                                 turns: seq<Turn>)
    requires StressCase(paths, nth, cfg, f, first, turns) && paths * (nth - 1) <= 24
    ensures PlayAll(cfg, Play(cfg, f, first), turns).fsm.mode == MODE_DEGRADED
  {
    InjectionDegrades(cfg, f.View(first.path), first.arrival);
    PinnedRun(cfg, Play(cfg, f, first), turns);
  }

  /** A human packet without work of its own, 20 s into the run. */
  const QUICK_HUMAN: Arrival :=
    Arrival(Packet(0, High, "en.wikipedia.org", None), Timing(20_000_000_000, 20_000_000_000, 0, 0, true, true, true))

  predicate Demo(cfg: StressConfig) {
    cfg.enabled && cfg.injectEveryNth > 0 && cfg.programStart == Some(0)
  }

  /** All turns are such packets. */
  predicate Quick(turns: seq<Turn>) {
    forall i | 0 <= i < |turns| :: turns[i].arrival == QUICK_HUMAN
  }

  lemma QuickHumanIsQuick(cfg: StressConfig, s: HotState)
    requires Demo(cfg)
    ensures StressActive(cfg, QUICK_HUMAN.timing)
    ensures Injects(cfg, s, QUICK_HUMAN) <==> s.stressCounter % cfg.injectEveryNth == 0
    ensures OutcomeOf(cfg, s, QUICK_HUMAN) ==
              Outcome.Handled(if s.stressCounter % cfg.injectEveryNth == 0 then SPIN_NS else 0)
  {
  }

  lemma QuickTurn(cfg: StressConfig, f: Fleet, k: nat)
    requires f.board.Valid() && Demo(cfg) && k < |f.counters| && Sound(f.fsm)
    ensures var f', c := Play(cfg, f, Turn(k, QUICK_HUMAN)), f.counters[k];
            && f'.counters == f.counters[k := Succ64(c)]
            && if c % cfg.injectEveryNth == 0 then f'.fsm.mode == MODE_DEGRADED && f'.fsm.degradedClean == 0
               else f'.fsm == Record(f.fsm, 0.0)
  {
    var s := f.View(k);
    QuickHumanIsQuick(cfg, s);
    ProcessRegisters(cfg, s, QUICK_HUMAN);
    if s.stressCounter % cfg.injectEveryNth == 0 {
      InjectionDegrades(cfg, s, QUICK_HUMAN);
    }
  }

  /** The first `k` hot paths have had their first injection, and nothing else has happened. */
  predicate Opening(f: Fleet, k: nat) {
    && f.fsm.mode == MODE_DEGRADED && f.fsm.degradedClean == 0 && k <= |f.counters|
    && forall i | 0 <= i < |f.counters| :: f.counters[i] == if i < k then 1 else 0
  }

  lemma OpeningTurn(cfg: StressConfig, f: Fleet, k: nat)
    requires f.board.Valid() && Demo(cfg) && k < |f.counters| && Sound(f.fsm)
    requires forall i | 0 <= i < |f.counters| :: f.counters[i] == if i < k then 1 else 0
    ensures Opening(Play(cfg, f, Turn(k, QUICK_HUMAN)), k + 1)
  {
    QuickTurn(cfg, f, k);
  }

  lemma {:induction false} OpenAll(cfg: StressConfig, f: Fleet, k: nat) returns (turns: seq<Turn>)
    requires f.board.Valid() && Demo(cfg) && Opening(f, k)
    ensures Quick(turns) && Opening(PlayAll(cfg, f, turns), |f.counters|)
    decreases |f.counters| - k
  {
    turns := [];
    if k < |f.counters| {
      var t := Turn(k, QUICK_HUMAN);
      assert Sound(f.fsm);
      OpeningTurn(cfg, f, k);
      var rest := OpenAll(cfg, Play(cfg, f, t), k + 1);
      PlayFirst(cfg, f, t, rest);
      turns := [t] + rest;
    }
  }

  /** Every hot path is between two injections, and no packet since then was slow. */
  ghost predicate Creeping(cfg: StressConfig, f: Fleet) {
    && Demo(cfg)
    && (forall i | 0 <= i < |f.counters| :: 1 <= f.counters[i] <= cfg.injectEveryNth)
    && f.fsm.mode == MODE_DEGRADED
    && f.fsm.degradedClean == Total(f.counters, cfg.injectEveryNth) < DEGRADED_WINDOW
  }

  lemma {:induction false} SomePathHasRoom(counters: seq<U64>, nth: U64) returns (k: nat)
    requires nth > 0 && forall i | 0 <= i < |counters| :: 1 <= counters[i] <= nth
    requires Total(counters, nth) < |counters| * (nth - 1)
    ensures k < |counters| && counters[k] < nth
  {
    var last := |counters| - 1;
    if counters[last] < nth {
      k := last;
    } else {
      RemainderIsUnique(nth - 1, nth, 0, nth - 1);
      assert counters[last] == nth;
      MulSucc(last, nth - 1);
      k := SomePathHasRoom(counters[..last], nth);
    }
  }

  lemma CreepCount(counters: seq<U64>, k: nat, nth: U64)
    requires k < |counters| && 1 <= counters[k] < nth
    ensures counters[k] % nth != 0
    ensures Total(counters[k := Succ64(counters[k])], nth) == Total(counters, nth) + 1
  {
    TotalAfterMove(counters, k, Succ64(counters[k]), nth);
    RemainderIsUnique(counters[k], nth, 0, counters[k]);
    SinceInjectionStep(counters[k], nth);
  }

  lemma CreepOn(cfg: StressConfig, f: Fleet, k: nat)
    requires f.board.Valid() && Creeping(cfg, f) && k < |f.counters| && f.counters[k] < cfg.injectEveryNth
    ensures var f' := Play(cfg, f, Turn(k, QUICK_HUMAN));
            if f.fsm.degradedClean < 24 then Creeping(cfg, f') && f'.fsm.degradedClean == f.fsm.degradedClean + 1
            else f'.fsm.mode == MODE_RECOVERY
  {
    var f', nth := Play(cfg, f, Turn(k, QUICK_HUMAN)), cfg.injectEveryNth;
    CreepCount(f.counters, k, nth);
    QuickTurn(cfg, f, k);
    if f.fsm.degradedClean < 24 {
      assert f'.fsm.degradedClean == f.fsm.degradedClean + 1;
    }
  }

  /** Quick packets, spread so that no injection is due, reach RECOVERY if there is room for 25 of them. */
  lemma {:induction false} Creep(cfg: StressConfig, f: Fleet) returns (turns: seq<Turn>)
    requires f.board.Valid() && Creeping(cfg, f) && |f.counters| * (cfg.injectEveryNth - 1) >= 25
    ensures Quick(turns) && PlayAll(cfg, f, turns).fsm.mode == MODE_RECOVERY
    decreases 25 - f.fsm.degradedClean
  {
    var k := SomePathHasRoom(f.counters, cfg.injectEveryNth);
    var t, rest := Turn(k, QUICK_HUMAN), [];
    CreepOn(cfg, f, k);
    if f.fsm.degradedClean < 24 {
      rest := Creep(cfg, Play(cfg, f, t));
    }
    PlayFirst(cfg, f, t, rest);
    turns := [t] + rest;
  }

  lemma {:induction false} TotalOfOnes(counters: seq<U64>, nth: U64)
    requires nth > 0 && forall i | 0 <= i < |counters| :: counters[i] == 1
    ensures Total(counters, nth) == 0
  {
    if counters != [] {
      TotalOfOnes(counters[..|counters| - 1], nth);
    }
  }

  /** A run from the initial state that leaves DEGRADED while injection is active. */
  lemma RareInjectionDoesNotPin(cfg: StressConfig, f: Fleet) returns (turns: seq<Turn>)
    requires Demo(cfg) && |f.counters| * (cfg.injectEveryNth - 1) >= 25
    requires f.board.Valid() && f.fsm == START && forall i | 0 <= i < |f.counters| :: f.counters[i] == 0
    ensures StressCase(|f.counters|, cfg.injectEveryNth, cfg, f, Turn(0, QUICK_HUMAN), turns)
    ensures PlayAll(cfg, Play(cfg, f, Turn(0, QUICK_HUMAN)), turns).fsm.mode == MODE_RECOVERY
  {
    OpeningTurn(cfg, f, 0);
    var f1 := Play(cfg, f, Turn(0, QUICK_HUMAN));
    var opening := OpenAll(cfg, f1, 1);
    var f2 := PlayAll(cfg, f1, opening);
    TotalOfOnes(f2.counters, cfg.injectEveryNth);
    var quick := Creep(cfg, f2);
    PlaySplit(cfg, f1, opening, quick);
    turns := opening + quick;
    QuickHumanIsQuick(cfg, f.View(0));
  }

  /** Injection into every n-th packet of each of k hot paths pins DEGRADED exactly when the packets that
      can pass between injections, k * (n - 1), are fewer than the 25 clean ones that RECOVERY takes: up to
      every 25th packet for one hot path, up to every 13th for two. */
  lemma StressPinsDegraded(paths: nat, nth: U64)
    ensures PinsDegraded(paths, nth) <==> paths * (nth - 1) <= 24
  {
    if paths * (nth - 1) <= 24 {
      forall cfg: StressConfig, f: Fleet, first: Turn, turns: seq<Turn> |
        StressCase(paths, nth, cfg, f, first, turns)
        ensures PlayAll(cfg, Play(cfg, f, first), turns).fsm.mode == MODE_DEGRADED
      {
        FrequentInjectionPins(paths, nth, cfg, f, first, turns);
      }
    } else {
      var cfg := StressConfig(true, nth, Some(0));
      var m := MetricsView([], [], [], [], 0, [], 0, 0, [], 0, "NORMAL", 0);
      var f := Fleet(START, seq(paths, _ => 0), EmptyBoard(RwLock), m);
      assert nth > 0;
      var turns := RareInjectionDoesNotPin(cfg, f);
    }
  }
}
