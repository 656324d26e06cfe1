/** The fail-safe mode controller: a three-mode machine driven by packet latencies. */
module FailSafeMode {
  import opened Types
  import opened Metrics

  const MODE_NORMAL: U8 := 0
  const MODE_DEGRADED: U8 := 1
  const MODE_RECOVERY: U8 := 2

  /** The registers of the controller, each an atomic of the width given. */
  datatype Fsm = Fsm(mode: U8, degradedClean: U32, cleanCycles: U32, recoveryTick: U32)

  const START: Fsm := Fsm(MODE_NORMAL, 0, 0, 0)

  function Label(mode: U8): string {
    if mode == MODE_DEGRADED then "DEGRADED" else if mode == MODE_RECOVERY then "RECOVERY" else "NORMAL"
  }

  lemma LabelsDiffer()
    ensures Label(0) == "NORMAL" && Label(1) == "DEGRADED" && Label(2) == "RECOVERY"
    ensures Label(0) != Label(1) && Label(1) != Label(2) && Label(0) != Label(2)
  {
    assert |Label(0)| == 6 && |Label(1)| == 8 && Label(1)[0] != Label(2)[0];
  }

  /** One whole `record_latency` call, executed without interference. */
  function Record(s: Fsm, latencyUs: real): Fsm {
    if s.mode == MODE_NORMAL then
      if Spike(latencyUs) then s.(mode := MODE_DEGRADED) else s
    else if s.mode == MODE_DEGRADED then
      if Clean(latencyUs) then
        var n := Succ32(s.degradedClean);
        if n >= DEGRADED_WINDOW then s.(mode := MODE_RECOVERY, degradedClean := 0, cleanCycles := 0)
        else s.(degradedClean := n)
      else s.(degradedClean := 0)
    else if s.mode == MODE_RECOVERY then
      if Clean(latencyUs) then
        var n := Succ32(s.cleanCycles);
        if n >= RECOVERY_WINDOW then s.(mode := MODE_NORMAL, cleanCycles := n) else s.(cleanCycles := n)
      else if Spike(latencyUs) then s.(mode := MODE_DEGRADED, degradedClean := 0, cleanCycles := 0)
      else s.(cleanCycles := 0)
    else s
  }

  /** What a mode change leaves in the metrics, provided their `try_lock` succeeds. */
  function ModeReported(m: MetricsView, before: U8, after: U8, locked: bool): MetricsView {
    if !locked || before == after then m
    else m.(currentMode := Label(after),
            failSafeActivations := m.failSafeActivations + if after == MODE_DEGRADED then 1 else 0)
  }

  /** One `allow_bot_packet` call: the verdict and the registers afterwards. */
  function Admit(s: Fsm): (bool, Fsm) {
    if s.mode == MODE_DEGRADED then (false, s)
    else if s.mode == MODE_RECOVERY then (s.recoveryTick % 2 == 0, s.(recoveryTick := Succ32(s.recoveryTick)))
    else (true, s)
  }

  /** What every uninterrupted call keeps. */
  predicate Sound(s: Fsm) {
    && s.mode <= MODE_RECOVERY
    && (s.mode == MODE_DEGRADED ==> s.degradedClean < DEGRADED_WINDOW)
    && (s.mode != MODE_DEGRADED ==> s.degradedClean == 0)
    && (s.mode == MODE_RECOVERY ==> s.cleanCycles < RECOVERY_WINDOW)
  }

  class FailSafe {
    var mode: U8
    var degradedClean: U32
    var cleanCycles: U32
    var recoveryTick: U32
    const metrics: SharedMetrics

    constructor (metrics: SharedMetrics)
      ensures State() == START && this.metrics == metrics
    {
      mode, degradedClean, cleanCycles, recoveryTick := MODE_NORMAL, 0, 0, 0;
      this.metrics := metrics;
    }

    function State(): Fsm
      reads this
    {
      Fsm(mode, degradedClean, cleanCycles, recoveryTick)
    }

    method IsDegraded() returns (b: bool)
      ensures b <==> State().mode == MODE_DEGRADED
    {
      b := mode == MODE_DEGRADED;
    }

    /** `locked` is the outcome of the metrics `try_lock`, should the call reach it. */
    method RecordLatency(latencyUs: real, locked: bool)
      modifies this, metrics`currentMode, metrics`failSafeActivations
      ensures State() == Record(old(State()), latencyUs)
      ensures metrics.View() == ModeReported(old(metrics.View()), old(mode), mode, locked)
    {
      var current := mode;
      if current == MODE_NORMAL {
        if latencyUs > JITTER_THRESHOLD_US {
          TransitionTo(MODE_DEGRADED, locked);
        }
      } else if current == MODE_DEGRADED {
        if latencyUs < RECOVERY_THRESHOLD_US {
          degradedClean := Succ32(degradedClean);
          var n := degradedClean;
          if n >= 25 {
            degradedClean := 0;
            cleanCycles := 0;
            TransitionTo(MODE_RECOVERY, locked);
          }
        } else {
          degradedClean := 0;
        }
      } else if current == MODE_RECOVERY {
        if latencyUs < RECOVERY_THRESHOLD_US {
          cleanCycles := Succ32(cleanCycles);
          var n := cleanCycles;
          if n >= RECOVERY_WINDOW {
            TransitionTo(MODE_NORMAL, locked);
          }
        } else if latencyUs > JITTER_THRESHOLD_US {
          degradedClean := 0;
          cleanCycles := 0;
          TransitionTo(MODE_DEGRADED, locked);
        } else {
          cleanCycles := 0;
        }
      }
    }

    method AllowBotPacket() returns (allowed: bool)
      modifies this`recoveryTick
      ensures (allowed, State()) == Admit(old(State()))
    {
      if mode == MODE_DEGRADED {
        allowed := false;
      } else if mode == MODE_RECOVERY {
        var tick := recoveryTick;
        recoveryTick := Succ32(recoveryTick);
        allowed := tick % 2 == 0;
      } else {
        allowed := true;
      }
    }

    method TransitionTo(newMode: U8, locked: bool)
      modifies this`mode, metrics`currentMode, metrics`failSafeActivations
      ensures mode == newMode
      ensures metrics.View() == ModeReported(old(metrics.View()), old(mode), mode, locked)
    {
      var previous := mode;
      mode := newMode;
      if previous != newMode && locked {
        metrics.currentMode := Label(newMode);
        if newMode == MODE_DEGRADED {
          metrics.failSafeActivations := metrics.failSafeActivations + 1;
        }
      }
    }
  }
}
