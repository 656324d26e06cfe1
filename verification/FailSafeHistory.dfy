/** Whole-run properties of the fail-safe machine: its closed form over latency histories, amortised
    bounds on its transitions, and the admission rate of bot packets. */
module FailSafeHistory {
  import opened Types
  import opened FailSafeMode

  /** The registers after recording the latencies of `h` in order. */
  function Run(s: Fsm, h: seq<real>): Fsm {
    if h == [] then s else Record(Run(s, h[..|h| - 1]), h[|h| - 1])
  }

  lemma {:induction false} RunSplit(s: Fsm, a: seq<real>, b: seq<real>)
    ensures Run(s, a + b) == Run(Run(s, a), b)
  {
    if b == [] {
      assert a + b == a;
    } else {
      var b' := b[..|b| - 1];
      assert (a + b)[..|a + b| - 1] == a + b';
      RunSplit(s, a, b');
    }
  }

  lemma {:induction false} RunIsSound(s: Fsm, h: seq<real>)
    requires Sound(s)
    ensures Sound(Run(s, h))
  {
    if h != [] {
      RunIsSound(s, h[..|h| - 1]);
    }
  }

  // ----- Declarative reading of a history ----------------------------------------------------

  /** The `k` latencies that end just before position `end` are all clean. */
  predicate CleanRun(h: seq<real>, k: nat, end: nat) {
    k <= end <= |h| && forall i | end - k <= i < end :: Clean(h[i])
  }

  ghost predicate HasRun(h: seq<real>, k: nat) {
    exists end: nat :: CleanRun(h, k, end)
  }

  /** Where the first run of `k` consecutive clean latencies ends. */
  ghost function FirstRun(h: seq<real>, k: nat): (end: nat)
    requires HasRun(h, k)
    ensures CleanRun(h, k, end)
    ensures forall e: nat | CleanRun(h, k, e) :: end <= e
  {
    var h' := h[..|h| - if h == [] then 0 else 1];
    assert forall e: nat | CleanRun(h, k, e) && e <= |h'| :: CleanRun(h', k, e);
    assert forall e: nat | CleanRun(h', k, e) :: CleanRun(h, k, e);
    if h != [] && HasRun(h', k) then FirstRun(h', k) else |h|
  }

  /** Length of the clean stretch at the end of a history. */
  function Trailing(h: seq<real>): (n: nat)
    ensures CleanRun(h, n, |h|)
    ensures forall k: nat | CleanRun(h, k, |h|) :: k <= n
  {
    if h == [] || !Clean(h[|h| - 1]) then 0
    else
      assert forall k: nat | 0 < k && CleanRun(h, k, |h|) :: CleanRun(h[..|h| - 1], k - 1, |h| - 1);
      1 + Trailing(h[..|h| - 1])
  }

  /** Position of the last latency above 2000 us, or -1. */
  function LastSpike(h: seq<real>): (i: int)
    ensures -1 <= i < |h|
    ensures i >= 0 ==> Spike(h[i])
    ensures forall j | i < j < |h| :: !Spike(h[j])
  {
    if h == [] then -1
    else if Spike(h[|h| - 1]) then |h| - 1
    else LastSpike(h[..|h| - 1])
  }

  /** What followed the last spike. */
  function SinceSpike(h: seq<real>): seq<real> {
    h[LastSpike(h) + 1..]
  }

  /** After a spike and the spike-free latencies `t`: degraded until the first 25 clean latencies in a
      row, then recovering until 60 more in a row, counted after those 25. */
  ghost function ModeAfterSpike(t: seq<real>): U8 {
    if !HasRun(t, DEGRADED_WINDOW) then MODE_DEGRADED
    else if !HasRun(SinceRecovery(t), RECOVERY_WINDOW) then MODE_RECOVERY
    else MODE_NORMAL
  }

  ghost function SinceRecovery(t: seq<real>): seq<real>
    requires HasRun(t, DEGRADED_WINDOW)
  {
    t[FirstRun(t, DEGRADED_WINDOW)..]
  }

  /** The mode, told from the history alone: only what follows the last spike matters. */
  ghost function ModeOf(h: seq<real>): U8 {
    if LastSpike(h) < 0 then MODE_NORMAL else ModeAfterSpike(SinceSpike(h))
  }

  lemma {:induction false} RunAtTheEnd(h: seq<real>, x: real, k: nat)
    ensures HasRun(h + [x], k) <==> HasRun(h, k) || k <= Trailing(h + [x])
    ensures HasRun(h, k) ==> FirstRun(h + [x], k) == FirstRun(h, k)
    ensures !HasRun(h, k) && HasRun(h + [x], k) ==> FirstRun(h + [x], k) == |h| + 1
    ensures Trailing(h + [x]) == if Clean(x) then Trailing(h) + 1 else 0
  {
    var h' := h + [x];
    assert h'[..|h|] == h;
    assert forall e: nat | CleanRun(h, k, e) :: CleanRun(h', k, e);
    assert forall e: nat | CleanRun(h', k, e) && e <= |h| :: CleanRun(h, k, e);
    if k <= Trailing(h') {
      assert CleanRun(h', k, |h'|);
    }
  }

  /** Until 25 clean latencies in a row were recorded, DEGRADED is not left. */
  lemma {:induction false} StaysDegraded(s: Fsm, t: seq<real>)
    requires s.mode == MODE_DEGRADED && s.degradedClean == 0 && !HasRun(t, DEGRADED_WINDOW)
    ensures Run(s, t).mode == MODE_DEGRADED && Run(s, t).degradedClean == Trailing(t)
  {
    if t != [] {
      var p, x := t[..|t| - 1], t[|t| - 1];
      assert t == p + [x];
      RunAtTheEnd(p, x, DEGRADED_WINDOW);
      StaysDegraded(s, p);
    }
  }

  /** The registers fit the latencies `u` recorded since RECOVERY was entered. */
  ghost predicate FitsRecovery(r: Fsm, u: seq<real>) {
    && r.degradedClean == 0
    && if HasRun(u, RECOVERY_WINDOW) then r.mode == MODE_NORMAL
       else r.mode == MODE_RECOVERY && r.cleanCycles == Trailing(u) < RECOVERY_WINDOW
  }

  lemma FitsRecoveryStep(r: Fsm, u: seq<real>, x: real)
    requires FitsRecovery(r, u) && !Spike(x)
    ensures FitsRecovery(Record(r, x), u + [x])
  {
    RunAtTheEnd(u, x, RECOVERY_WINDOW);
    BoundTrailing(u + [x], RECOVERY_WINDOW);
  }

  lemma FitsRecoveryAtStart(s: Fsm, x: real)
    requires s.mode == MODE_DEGRADED && s.degradedClean == DEGRADED_WINDOW - 1 && Clean(x)
    ensures FitsRecovery(Record(s, x), [])
  {
    NoRunInEmpty(RECOVERY_WINDOW);
  }

  /** From the moment of a spike on, the registers are determined by what followed it. */
  lemma {:induction false} AfterSpike(s: Fsm, t: seq<real>)
    requires s.mode == MODE_DEGRADED && s.degradedClean == 0
    requires forall i | 0 <= i < |t| :: !Spike(t[i])
    requires HasRun(t, DEGRADED_WINDOW)
    ensures FitsRecovery(Run(s, t), SinceRecovery(t))
  {
    NoRunInEmpty(DEGRADED_WINDOW);
    var p, x := t[..|t| - 1], t[|t| - 1];
    assert t == p + [x];
    RunAtTheEnd(p, x, DEGRADED_WINDOW);
    if HasRun(p, DEGRADED_WINDOW) {
      AfterSpike(s, p);
      assert SinceRecovery(t) == SinceRecovery(p) + [x];
      FitsRecoveryStep(Run(s, p), SinceRecovery(p), x);
    } else {
      StaysDegraded(s, p);
      BoundTrailing(p, DEGRADED_WINDOW);
      assert SinceRecovery(t) == [];
      FitsRecoveryAtStart(Run(s, p), x);
    }
  }

  lemma {:induction false} BoundTrailing(t: seq<real>, k: nat)
    ensures !HasRun(t, k) ==> Trailing(t) < k
  {
    if k <= Trailing(t) {
      assert CleanRun(t, k, |t|);
    }
  }

  lemma NoRunInEmpty(k: nat)
    requires k > 0
    ensures !HasRun([], k)
  {
    assert forall e: nat :: !CleanRun([], k, e);
  }

  lemma {:induction false} NoSpikeNoChange(s: Fsm, h: seq<real>)
    requires s.mode == MODE_NORMAL && forall i | 0 <= i < |h| :: !Spike(h[i])
    ensures Run(s, h) == s
  {
    if h != [] {
      NoSpikeNoChange(s, h[..|h| - 1]);
    }
  }

  lemma SpikeDegrades(s: Fsm, x: real)
    requires Sound(s) && Spike(x)
    ensures Record(s, x).mode == MODE_DEGRADED && Record(s, x).degradedClean == 0
  {
  }

  /** Closed form: for every latency history, mode and live counter are those read off the history. */
  lemma {:induction false} ClosedForm(h: seq<real>)
    ensures Run(START, h).mode == ModeOf(h)
    ensures Run(START, h).degradedClean == if ModeOf(h) == MODE_DEGRADED then Trailing(SinceSpike(h)) else 0
    ensures ModeOf(h) == MODE_RECOVERY ==>
              Run(START, h).cleanCycles == Trailing(SinceRecovery(SinceSpike(h)))
  {
    var i := LastSpike(h);
    if i < 0 {
      NoSpikeNoChange(START, h);
    } else {
      var before, since := h[..i + 1], SinceSpike(h);
      assert h == before + since;
      assert before[..|before| - 1] == h[..i];
      RunSplit(START, before, since);
      RunIsSound(START, h[..i]);
      SpikeDegrades(Run(START, h[..i]), h[i]);
      if HasRun(since, DEGRADED_WINDOW) {
        AfterSpike(Run(START, before), since);
      } else {
        StaysDegraded(Run(START, before), since);
      }
    }
  }

  lemma {:induction false} SinceSpikeIgnoresThePast(h: seq<real>, x: real, t: seq<real>)
    requires Spike(x)
    ensures LastSpike(h + [x] + t) >= 0 && LastSpike([x] + t) >= 0
    ensures SinceSpike(h + [x] + t) == SinceSpike([x] + t)
  {
    if t == [] {
      assert (h + [x] + t)[|h|] == x;
      assert h + [x] + t == h + [x] && [x] + t == [x];
    } else {
      var t' := t[..|t| - 1];
      SinceSpikeIgnoresThePast(h, x, t');
      assert (h + [x] + t)[..|h + [x] + t| - 1] == h + [x] + t';
      assert ([x] + t)[..|[x] + t| - 1] == [x] + t';
    }
  }

  /** One spike erases the past: whatever came before it, both runs show the same mode ever after. */
  lemma {:induction false} OneSpikeForgetsThePast(h1: seq<real>, h2: seq<real>, x: real, t: seq<real>)
    requires Spike(x)
    ensures Run(START, h1 + [x] + t).mode == Run(START, h2 + [x] + t).mode
  {
    ClosedForm(h1 + [x] + t);
    ClosedForm(h2 + [x] + t);
    SinceSpikeIgnoresThePast(h1, x, t);
    SinceSpikeIgnoresThePast(h2, x, t);
  }

  // ----- Anti-chatter ------------------------------------------------------------------------

  /** How often the run enters `mode` from a different one. */
  function Entries(s: Fsm, h: seq<real>, mode: U8): nat {
    if h == [] then 0
    else
      var p := h[..|h| - 1];
      Entries(s, p, mode) + if Run(s, p).mode != mode && Run(s, h).mode == mode then 1 else 0
  }

  /** Samples already paid towards the next entry into DEGRADED. */
  function DegradedCredit(s: Fsm): nat {
    if s.mode == MODE_DEGRADED then s.degradedClean else DEGRADED_WINDOW
  }

  /** Samples already paid towards the next return to NORMAL. */
  function NormalCredit(s: Fsm): nat {
    if s.mode == MODE_DEGRADED then 1 + s.degradedClean
    else if s.mode == MODE_RECOVERY then 1 + DEGRADED_WINDOW + s.cleanCycles
    else 0
  }

  lemma {:induction false} CreditBalance(h: seq<real>)
    ensures Sound(Run(START, h))
    ensures 26 * Entries(START, h, MODE_DEGRADED) + DegradedCredit(Run(START, h)) <= |h| + 25
    ensures 86 * Entries(START, h, MODE_NORMAL) + NormalCredit(Run(START, h)) <= |h|
  {
    if h != [] {
      CreditBalance(h[..|h| - 1]);
    }
  }

  /** Anti-chatter: n samples cause at most (n + 25) / 26 activations and n / 86 returns to NORMAL. */
  lemma {:induction false} AntiChatter(h: seq<real>)
    ensures 26 * Entries(START, h, MODE_DEGRADED) <= |h| + 25
    ensures 86 * Entries(START, h, MODE_NORMAL) <= |h|
  {
    CreditBalance(h);
  }

  /** A clean streak in DEGRADED of the length that just fails, or just suffices, to leave it. */
  lemma {:induction false} CleanStreak(s: Fsm, x: real, n: nat)
    requires s.mode == MODE_DEGRADED && s.degradedClean == 0 && Clean(x) && n <= 85
    ensures var r := Run(s, seq(n, _ => x));
            && (n < 25 ==> r.mode == MODE_DEGRADED && r.degradedClean == n)
            && (25 <= n < 85 ==> r.mode == MODE_RECOVERY && r.degradedClean == 0 && r.cleanCycles == n - 25)
            && (n == 85 ==> r.mode == MODE_NORMAL && r.degradedClean == 0)
    ensures Entries(s, seq(n, _ => x), MODE_DEGRADED) == 0
    ensures Entries(s, seq(n, _ => x), MODE_NORMAL) == if n == 85 then 1 else 0
  {
    if n > 0 {
      assert seq(n, _ => x)[..n - 1] == seq(n - 1, _ => x);
      CleanStreak(s, x, n - 1);
    }
  }

  lemma {:induction false} EntriesSplit(s: Fsm, a: seq<real>, b: seq<real>, mode: U8)
    ensures Entries(s, a + b, mode) == Entries(s, a, mode) + Entries(Run(s, a), b, mode)
  {
    if b == [] {
      assert a + b == a;
    } else {
      var b' := b[..|b| - 1];
      assert (a + b)[..|a + b| - 1] == a + b';
      EntriesSplit(s, a, b', mode);
      RunSplit(s, a, b');
      RunSplit(s, a, b);
    }
  }

  lemma {:induction false} RunOne(s: Fsm, x: real, mode: U8)
    ensures Run(s, [x]) == Record(s, x)
    ensures Entries(s, [x], mode) == if s.mode != mode && Record(s, x).mode == mode then 1 else 0
  {
    var one := [x];
    assert one[..|one| - 1] == [];
  }

  /** One spike followed by `streak` instantaneous packets. */
  function Burst(streak: nat): seq<real> {
    [3000.0] + seq(streak, _ => 0.0)
  }

  lemma {:induction false} BurstRun(s: Fsm, streak: nat)
    requires s.mode == MODE_NORMAL || s.mode == MODE_RECOVERY
    requires s.degradedClean == 0 && (streak == 25 || streak == 85)
    ensures Run(s, Burst(streak)).degradedClean == 0
    ensures Run(s, Burst(streak)).mode == if streak == 85 then MODE_NORMAL else MODE_RECOVERY
    ensures Entries(s, Burst(streak), MODE_DEGRADED) == 1
    ensures Entries(s, Burst(streak), MODE_NORMAL) == if streak == 85 then 1 else 0
  {
    var quiet := seq(streak, _ => 0.0);
    var s' := Run(s, [3000.0]);
    RunOne(s, 3000.0, MODE_DEGRADED);
    RunOne(s, 3000.0, MODE_NORMAL);
    CleanStreak(s', 0.0, streak);
    RunSplit(s, [3000.0], quiet);
    EntriesSplit(s, [3000.0], quiet, MODE_DEGRADED);
    EntriesSplit(s, [3000.0], quiet, MODE_NORMAL);
  }

  function Bursts(rounds: nat, streak: nat): seq<real> {
    if rounds == 0 then [] else Bursts(rounds - 1, streak) + Burst(streak)
  }

  lemma {:induction false} BurstsLength(rounds: nat, streak: nat)
    ensures |Bursts(rounds, streak)| == rounds * (streak + 1)
  {
    if rounds > 0 {
      BurstsLength(rounds - 1, streak);
    }
  }

  lemma {:induction false} BurstsRun(rounds: nat, streak: nat)
    requires streak == 25 || streak == 85
    ensures var r := Run(START, Bursts(rounds, streak));
            r.degradedClean == 0 && r.mode == if rounds == 0 || streak == 85 then MODE_NORMAL else MODE_RECOVERY
    ensures Entries(START, Bursts(rounds, streak), MODE_DEGRADED) == rounds
    ensures streak == 85 ==> Entries(START, Bursts(rounds, streak), MODE_NORMAL) == rounds
  {
    if rounds > 0 {
      BurstsRun(rounds - 1, streak);
      var before, burst := Bursts(rounds - 1, streak), Burst(streak);
      var s := Run(START, before);
      assert s.mode == MODE_NORMAL || s.mode == MODE_RECOVERY;
      BurstRun(s, streak);
      RunSplit(START, before, burst);
      EntriesSplit(START, before, burst, MODE_DEGRADED);
      EntriesSplit(START, before, burst, MODE_NORMAL);
    }
  }

  /** The bound on activations is attained for every number of them. */
  lemma {:induction false} ActivationBoundIsTight(rounds: nat)
    requires rounds > 0
    ensures var h := Bursts(rounds - 1, 25) + [3000.0];
            Entries(START, h, MODE_DEGRADED) == rounds && 26 * rounds == |h| + 25
  {
    var before := Bursts(rounds - 1, 25);
    BurstsLength(rounds - 1, 25);
    assert Entries(START, before + [3000.0], MODE_DEGRADED) == rounds by {
      BurstsRun(rounds - 1, 25);
      EntriesSplit(START, before, [3000.0], MODE_DEGRADED);
      RunOne(Run(START, before), 3000.0, MODE_DEGRADED);
    }
  }

  /** So is the bound on returns to NORMAL. */
  lemma {:induction false} ReturnBoundIsTight(rounds: nat)
    ensures var h := Bursts(rounds, 85);
            Entries(START, h, MODE_NORMAL) == rounds && 86 * rounds == |h|
  {
    BurstsRun(rounds, 85);
    BurstsLength(rounds, 85);
  }

  // ----- Half-rate admission -----------------------------------------------------------------

  datatype Call = Latency(us: real) | BotQuery

  function CallStep(s: Fsm, c: Call): Fsm {
    if c.BotQuery? then Admit(s).1 else Record(s, c.us)
  }

  /** Bot queries that the run answers in RECOVERY. */
  function RecoveryQueries(s: Fsm, calls: seq<Call>): nat
    decreases |calls|
  {
    if calls == [] then 0
    else (if calls[0].BotQuery? && s.mode == MODE_RECOVERY then 1 else 0)
         + RecoveryQueries(CallStep(s, calls[0]), calls[1..])
  }

  /** Those of them that were admitted. */
  function RecoveryAdmissions(s: Fsm, calls: seq<Call>): nat
    decreases |calls|
  {
    if calls == [] then 0
    else (if calls[0].BotQuery? && s.mode == MODE_RECOVERY && Admit(s).0 then 1 else 0)
         + RecoveryAdmissions(CallStep(s, calls[0]), calls[1..])
  }

  /** Half rate: of k recovery queries in any window of any run, floor(k/2) or ceil(k/2) are admitted;
      which of the two is decided by the parity of the tick, also when the tick wraps around. */
  lemma {:induction false} HalfRate(s: Fsm, calls: seq<Call>)
    ensures RecoveryAdmissions(s, calls) == (RecoveryQueries(s, calls) + 1 - s.recoveryTick % 2) / 2
    decreases |calls|
  {
    if calls != [] {
      HalfRate(CallStep(s, calls[0]), calls[1..]);
    }
  }
}
