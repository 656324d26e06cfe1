/** Bot admission on a shared fail-safe machine: `allow_bot_packet` cut into its single atomic operations,
    interleaved with one another and with the operations of `record_latency`. */
module SharedAdmission {
  import opened Types
  import opened FailSafeMode
  import opened SharedFailSafe

  /** `asking[i]`: asker `i` has loaded RECOVERY and is about to fetch-and-add the tick.  `ticked` and
      `admitted` count the askers that have done so, and those of them that were let through. */
  datatype Gate = Gate(shared: Shared, asking: seq<bool>, ticked: nat, admitted: nat)

  /** An asker loads the mode, or performs its fetch-and-add, or a thread records.  An impossible step is
      skipped. */
  datatype Move = Ask(asker: nat) | Tick(asker: nat) | Record(choice: Choice)

  function Take(g: Gate, m: Move): Gate {
    match m
    case Ask(i) =>
      if i < |g.asking| && !g.asking[i] && g.shared.regs.mode == MODE_RECOVERY then g.(asking := g.asking[i := true])
      else g
    case Tick(i) =>
      if i >= |g.asking| || !g.asking[i] then g
      else
        var tick := g.shared.regs.recoveryTick;
        Gate(g.shared.(regs := g.shared.regs.(recoveryTick := Succ32(tick))), g.asking[i := false],
             g.ticked + 1, g.admitted + if tick % 2 == 0 then 1 else 0)
    case Record(c) => g.(shared := Next(g.shared, c))
  }

  function TakeAll(g: Gate, moves: seq<Move>): Gate {
    if moves == [] then g else Take(TakeAll(g, moves[..|moves| - 1]), moves[|moves| - 1])
  }

  /** A whole query that nothing interrupts is the atomic `Admit`. */
  lemma UninterruptedQuery(g: Gate, i: nat)
    requires i < |g.asking| && !g.asking[i]
    ensures var g', (verdict, regs) := Take(Take(g, Ask(i)), Tick(i)), Admit(g.shared.regs);
            && g'.shared == g.shared.(regs := regs) && g'.asking == g.asking
            && (g'.admitted > g.admitted <==> verdict && g.shared.regs.mode == MODE_RECOVERY)
            && (g'.ticked > g.ticked <==> g.shared.regs.mode == MODE_RECOVERY)
  {
  }

  lemma RecordingKeepsTick(g: Shared, c: Choice)
    ensures Next(g, c).regs.recoveryTick == g.regs.recoveryTick
  {
  }

  lemma OneMore(n: nat, start: U32, tick: U32)
    requires tick % 2 == (start + n) % 2
    ensures (n + 2 - start % 2) / 2 == (n + 1 - start % 2) / 2 + if tick % 2 == 0 then 1 else 0
    ensures Succ32(tick) % 2 == (start + n + 1) % 2
  {
  }

  /** Of the recovery queries that get through their fetch-and-add in any window of any interleaving, exactly
      floor or ceil of half are admitted, by the parity of the tick, also across its wrap-around. */
  lemma {:induction false} SharedHalfRate(g: Gate, moves: seq<Move>)
    ensures var g' := TakeAll(g, moves);
            && g'.ticked >= g.ticked
            && g'.admitted - g.admitted == (g'.ticked - g.ticked + 1 - g.shared.regs.recoveryTick % 2) / 2
            && g'.shared.regs.recoveryTick % 2 == (g.shared.regs.recoveryTick + g'.ticked - g.ticked) % 2
  {
    if moves != [] {
      var p, m := moves[..|moves| - 1], moves[|moves| - 1];
      SharedHalfRate(g, p);
      var g1 := TakeAll(g, p);
      match m
      case Ask(_) =>
      case Tick(_) => OneMore(g1.ticked - g.ticked, g.shared.regs.recoveryTick, g1.shared.regs.recoveryTick);
      case Record(c) => RecordingKeepsTick(g1.shared, c);
    }
  }
}
