/** Several hot paths whose `process` calls overlap: the skip test, the leaderboard increment and the operations
    of `record_latency` are single steps, in any order across the hot paths. */
module SharedHotPaths {
  import opened Types
  import opened FailSafeMode
  import opened LeaderboardStore
  import opened SharedFailSafe
  import HotPath
  import HotPathRuns

  /** A hot path between two calls or still recording, past the skip test with a packet to count, or about to
      record the latency of a packet it has counted. */
  datatype Stage = Free | Passed(pkt: Packet) | Counted

  /** `taken` lists the packets that each hot path has received. */
  datatype Crew = Crew(shared: Shared, board: Board, stages: seq<Stage>, taken: seq<seq<Packet>>, skipped: nat)

  /** A hot path receives a packet and loads the mode; increments the leaderboard; starts or continues to
      record.  An impossible step is skipped. */
  datatype Move = Receive(path: nat, pkt: Packet) | Count(path: nat) | Record(choice: Choice)

  ghost predicate Valid(c: Crew) {
    |c.stages| == |c.taken| == |c.shared.pcs| && c.board.Valid()
  }

  function Open(paths: nat, board: Board): (c: Crew)
    requires board.Valid()
    ensures Valid(c)
  {
    Crew(Initial(paths), board, seq(paths, _ => Free), seq(paths, _ => []), 0)
  }

  function Take(c: Crew, m: Move): (c': Crew)
    requires Valid(c)
    ensures Valid(c') && |c'.stages| == |c.stages|
  {
    match m
    case Receive(k, pkt) =>
      if k >= |c.stages| || c.stages[k] != Free || c.shared.pcs[k] != Idle then c
      else
        var received := c.(taken := c.taken[k := c.taken[k] + [pkt]]);
        if c.shared.regs.mode == MODE_DEGRADED && pkt.priority == Low then received.(skipped := c.skipped + 1)
        else received.(stages := c.stages[k := Passed(pkt)])
    case Count(k) =>
      if k >= |c.stages| || !c.stages[k].Passed? then c
      else c.(board := LeaderboardStore.Counted(c.board, c.stages[k].pkt.domain), stages := c.stages[k := Counted])
    case Record(choice) =>
      if choice.tid >= |c.stages| || (choice.Begin? && c.stages[choice.tid] != Counted) then c
      else
        c.(shared := Next(c.shared, choice),
           stages := if choice.Begin? then c.stages[choice.tid := Free] else c.stages)
  }

  function TakeAll(c: Crew, moves: seq<Move>): (c': Crew)
    requires Valid(c)
    ensures Valid(c') && |c'.stages| == |c.stages|
  {
    if moves == [] then c else Take(TakeAll(c, moves[..|moves| - 1]), moves[|moves| - 1])
  }

  // ----- One call ----------------------------------------------------------------------------

  lemma {:induction false} RecordAll(c: Crew, choices: seq<Choice>)
    requires Valid(c) && forall i | 0 <= i < |choices| :: choices[i].Continue?
    ensures TakeAll(c, Moves(choices)) == c.(shared := Execute(c.shared, choices))
  {
    if choices != [] {
      var p := choices[..|choices| - 1];
      assert Moves(choices)[..|p|] == Moves(p);
      RecordAll(c, p);
    }
  }

  function Moves(choices: seq<Choice>): (moves: seq<Move>)
    ensures |moves| == |choices|
  {
    seq(|choices|, i requires 0 <= i < |choices| => Record(choices[i]))
  }

  /** A call that nothing interrupts does to machine and leaderboard what `Process` does. */
  lemma UninterruptedCall(c: Crew, k: nat, cfg: HotPath.StressConfig, s: HotPath.HotState, a: HotPath.Arrival)
    requires Valid(c) && k < |c.stages| && c.stages[k] == Free && c.shared.pcs[k] == Idle
    requires s.board == c.board && s.fsm == c.shared.regs
    ensures var o, s' := HotPath.OutcomeOf(cfg, s, a), HotPath.Process(cfg, s, a);
            var c1 := Take(c, Receive(k, a.pkt));
            if o.Skipped? then
              c1 == c.(taken := c1.taken, skipped := c.skipped + 1) && s'.fsm == s.fsm && s'.board == s.board
            else
              var c2 := Take(Take(c1, Count(k)), Record(Begin(k, HotPath.LatencyUs(o.latencyNs))));
              var c' := TakeAll(c2, Moves(Finish(k)));
              && c'.shared.regs == s'.fsm && c'.shared.pcs == c.shared.pcs && c'.board == s'.board
              && c'.stages == c.stages && c'.skipped == c.skipped
  {
    HotPathRuns.ProcessRegisters(cfg, s, a);
    if !HotPath.Skips(s, a.pkt) {
      var us := HotPath.LatencyUs(HotPath.OutcomeOf(cfg, s, a).latencyNs);
      var g := Next(c.shared, Begin(k, us));
      LoadDecides(c.shared.regs, us);
      FinishAlone(g, k);
      RecordAll(Take(Take(Take(c, Receive(k, a.pkt)), Count(k)), Record(Begin(k, us))), Finish(k));
    }
  }

  predicate AtMostOneCall(c: Crew, k: nat)
    requires k < |c.stages| && k < |c.shared.pcs|
  {
    c.stages[k] != Free ==> c.shared.pcs[k] == Idle
  }

  lemma AtMostOneCallStep(c: Crew, m: Move, k: nat)
    requires Valid(c) && k < |c.stages| && AtMostOneCall(c, k)
    ensures AtMostOneCall(Take(c, m), k)
  {
  }

  /** A hot path makes one call at a time: it is not recording while it has a packet to count or to record, so
      that a call that starts to record always does. */
  lemma {:induction false} OneCallAtATime(paths: nat, board: Board, moves: seq<Move>, k: nat)
    requires board.Valid() && k < paths
    ensures var c := TakeAll(Open(paths, board), moves);
            c.stages[k] != Free ==> c.shared.pcs[k] == Idle
  {
    if moves != [] {
      OneCallAtATime(paths, board, moves[..|moves| - 1], k);
      AtMostOneCallStep(TakeAll(Open(paths, board), moves[..|moves| - 1]), moves[|moves| - 1], k);
    }
  }

  // ----- Accounting --------------------------------------------------------------------------

  /** Packets that have passed the skip test and are not yet counted. */
  function Passing(stages: seq<Stage>): nat {
    if stages == [] then 0
    else Passing(stages[..|stages| - 1]) + if stages[|stages| - 1].Passed? then 1 else 0
  }

  lemma {:induction false} PassingAfterMove(stages: seq<Stage>, k: nat, to: Stage)
    requires k < |stages|
    ensures Passing(stages[k := to]) + (if stages[k].Passed? then 1 else 0)
         == Passing(stages) + if to.Passed? then 1 else 0
  {
    var last := |stages| - 1;
    if k == last {
      assert stages[k := to][..last] == stages[..last];
    } else {
      assert stages[k := to][..last] == stages[..last][k := to];
      PassingAfterMove(stages[..last], k, to);
    }
  }

  /** How many packets all hot paths together have received. */
  function Received(taken: seq<seq<Packet>>): nat {
    if taken == [] then 0 else Received(taken[..|taken| - 1]) + |taken[|taken| - 1]|
  }

  lemma {:induction false} ReceivedOneMore(taken: seq<seq<Packet>>, k: nat, pkt: Packet)
    requires k < |taken|
    ensures Received(taken[k := taken[k] + [pkt]]) == Received(taken) + 1
  {
    var last := |taken| - 1;
    if k == last {
      assert taken[k := taken[k] + [pkt]][..last] == taken[..last];
    } else {
      assert taken[k := taken[k] + [pkt]][..last] == taken[..last][k := taken[k] + [pkt]];
      ReceivedOneMore(taken[..last], k, pkt);
    }
  }

  lemma EditAdds(b: Board, domain: string)
    requires b.Valid() && b.strategy != Atomic
    ensures LeaderboardStore.Counted(b, domain).strategy == b.strategy
    ensures TotalEdits(LeaderboardStore.Counted(b, domain)) == TotalEdits(b) + 1
  {
    var one := [domain];
    assert one[..|one| - 1] == [];
    EditsAdd(b, one);
  }

  lemma {:induction false} NothingYet(paths: nat, board: Board)
    requires board.Valid()
    ensures Passing(Open(paths, board).stages) == 0 && Received(Open(paths, board).taken) == 0
  {
    if paths > 0 {
      NothingYet(paths - 1, board);
      assert Open(paths, board).stages[..paths - 1] == Open(paths - 1, board).stages;
      assert Open(paths, board).taken[..paths - 1] == Open(paths - 1, board).taken;
    }
  }

  lemma AccountStep(c: Crew, m: Move)
    requires Valid(c) && c.board.strategy != Atomic
    ensures var c' := Take(c, m);
            && c'.board.strategy == c.board.strategy
            && Received(c'.taken) + TotalEdits(c.board) + c.skipped + Passing(c.stages)
                 == Received(c.taken) + TotalEdits(c'.board) + c'.skipped + Passing(c'.stages)
  {
    match m
    case Receive(k, pkt) =>
      if k < |c.stages| {
        ReceivedOneMore(c.taken, k, pkt);
        PassingAfterMove(c.stages, k, Passed(pkt));
      }
    case Count(k) =>
      if k < |c.stages| && c.stages[k].Passed? {
        EditAdds(c.board, c.stages[k].pkt.domain);
        PassingAfterMove(c.stages, k, Counted);
      }
    case Record(choice) =>
      if choice.tid < |c.stages| {
        PassingAfterMove(c.stages, choice.tid, Free);
      }
  }

  /** In every interleaving each packet received is an edit on the leaderboard, was skipped, or is about to be
      counted. */
  lemma {:induction false} OverlappingCallsAddUp(paths: nat, board: Board, moves: seq<Move>)
    requires board.Valid() && board.strategy != Atomic
    ensures var c := TakeAll(Open(paths, board), moves);
            && c.board.strategy == board.strategy
            && Received(c.taken) == TotalEdits(c.board) - TotalEdits(board) + c.skipped + Passing(c.stages)
    ensures Passing(TakeAll(Open(paths, board), moves).stages) <= paths
  {
    if moves == [] {
      NothingYet(paths, board);
    } else {
      OverlappingCallsAddUp(paths, board, moves[..|moves| - 1]);
      AccountStep(TakeAll(Open(paths, board), moves[..|moves| - 1]), moves[|moves| - 1]);
    }
    PassingBound(TakeAll(Open(paths, board), moves).stages);
  }

  lemma {:induction false} PassingBound(stages: seq<Stage>)
    ensures Passing(stages) <= |stages|
  {
    if stages != [] {
      PassingBound(stages[..|stages| - 1]);
    }
  }
}
