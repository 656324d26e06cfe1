/** The pipeline and the hot path put together: where every parsed change ends up. */
module EndToEnd {
  import opened Types
  import opened LeaderboardStore
  import opened Pipeline
  import HotPath
  import HotPathRuns
  import opened HotPathFleet
  import SharedHotPaths

  /** The hot path handles the consumed packets in order, each under timings of its own. */
  ghost predicate Consumes(s: State, arrivals: seq<HotPath.Arrival>) {
    && |arrivals| == |s.processed|
    && forall i | 0 <= i < |arrivals| :: arrivals[i].pkt == s.processed[i]
  }

  /** Every parsed change is counted on the leaderboard, or was skipped in degraded mode, or evicted, or
      dropped at the output channel, or is still in flight: in every interleaving and under all timings. */
  lemma {:induction false} EveryChangeIsAccountedFor(cfg: Config, steps: seq<Step>, stress: HotPath.StressConfig,
                                                     hot: HotPath.HotState, arrivals: seq<HotPath.Arrival>)
    requires ValidConfig(cfg) && Consumes(Run(cfg, INITIAL, steps), arrivals)
    requires hot.board.Valid() && hot.board.strategy != Atomic
    ensures var s := Run(cfg, INITIAL, steps);
            var after := HotPath.ProcessAll(stress, hot, arrivals);
            && after.board.strategy == hot.board.strategy
            && |s.arrivals| == TotalEdits(after.board) - TotalEdits(hot.board)
                               + HotPathRuns.SkippedCount(stress, hot, arrivals)
                               + |s.evicted| + |s.dropped| + InFlight(s)
  {
    PlacesAddUp(cfg, steps);
    HotPathRuns.EditsEqualHandled(stress, hot, arrivals);
  }

  // ----- Several pipelines and hot paths -----------------------------------------------------

  /** A run of one pipeline. */
  datatype Course = Course(cfg: Config, steps: seq<Step>)

  function End(c: Course): State {
    Run(c.cfg, INITIAL, c.steps)
  }

  function Parsed(courses: seq<Course>): nat {
    if courses == [] then 0 else Parsed(courses[..|courses| - 1]) + |End(courses[|courses| - 1]).arrivals|
  }

  function Consumed(courses: seq<Course>): nat {
    if courses == [] then 0 else Consumed(courses[..|courses| - 1]) + |End(courses[|courses| - 1]).processed|
  }

  /** Packets evicted, dropped at the output channel, or in flight. */
  function Elsewhere(courses: seq<Course>): nat {
    if courses == [] then 0
    else
      var s := End(courses[|courses| - 1]);
      Elsewhere(courses[..|courses| - 1]) + |s.evicted| + |s.dropped| + InFlight(s)
  }

  lemma {:induction false} CoursesAddUp(courses: seq<Course>)
    requires forall i | 0 <= i < |courses| :: ValidConfig(courses[i].cfg)
    ensures Parsed(courses) == Consumed(courses) + Elsewhere(courses)
  {
    if courses != [] {
      CoursesAddUp(courses[..|courses| - 1]);
      PlacesAddUp(courses[|courses| - 1].cfg, courses[|courses| - 1].steps);
    }
  }

  /** What hot path `k` was given. */
  function OfPath(turns: seq<Turn>, k: nat): seq<HotPath.Arrival> {
    if turns == [] then []
    else OfPath(turns[..|turns| - 1], k) + if turns[|turns| - 1].path == k then [turns[|turns| - 1].arrival] else []
  }

  function TurnsBelow(turns: seq<Turn>, k: nat): nat {
    if turns == [] then 0 else TurnsBelow(turns[..|turns| - 1], k) + if turns[|turns| - 1].path < k then 1 else 0
  }

  lemma {:induction false} TurnsByPath(turns: seq<Turn>, k: nat)
    ensures TurnsBelow(turns, 0) == 0
    ensures TurnsBelow(turns, k + 1) == TurnsBelow(turns, k) + |OfPath(turns, k)|
    ensures Staffed(k, turns) ==> TurnsBelow(turns, k) == |turns|
  {
    if turns != [] {
      TurnsByPath(turns[..|turns| - 1], k);
    }
  }

  /** Hot path k consumes what pipeline k delivers; the order across hot paths is arbitrary. */
  ghost predicate Feed(courses: seq<Course>, turns: seq<Turn>) {
    forall k | 0 <= k < |courses| :: Consumes(End(courses[k]), OfPath(turns, k))
  }

  lemma {:induction false} TurnsAreConsumed(courses: seq<Course>, turns: seq<Turn>)
    requires Feed(courses, turns)
    ensures TurnsBelow(turns, |courses|) == Consumed(courses)
  {
    if courses == [] {
      TurnsByPath(turns, 0);
    } else {
      var p := courses[..|courses| - 1];
      assert Feed(p, turns) by {
        assert forall k | 0 <= k < |p| :: p[k] == courses[k];
      }
      TurnsAreConsumed(p, turns);
      TurnsByPath(turns, |p|);
    }
  }

  /** The same with any number of pipelines whose hot paths share one leaderboard and one fail-safe machine:
      the changes parsed by all of them together are the edits added to the leaderboard, those skipped, and
      those evicted, dropped or in flight in their pipeline. */
  lemma {:induction false} AllPipelinesAreAccountedFor(courses: seq<Course>, stress: HotPath.StressConfig, f: Fleet,
                                                       turns: seq<Turn>)
    requires forall i | 0 <= i < |courses| :: ValidConfig(courses[i].cfg)
    requires f.board.Valid() && f.board.strategy != Atomic
    requires |f.counters| == |courses| && Staffed(|courses|, turns) && Feed(courses, turns)
    ensures var f' := PlayAll(stress, f, turns);
            && f'.board.strategy == f.board.strategy
            && Parsed(courses) == TotalEdits(f'.board) - TotalEdits(f.board)
                                  + HotPathFleet.SkippedCount(stress, f, turns) + Elsewhere(courses)
  {
    CoursesAddUp(courses);
    TurnsAreConsumed(courses, turns);
    TurnsByPath(turns, |courses|);
    FleetEdits(stress, f, turns);
  }

  /** Hot path k has received what its pipeline delivered, whatever the others were doing. */
  ghost predicate Delivers(courses: seq<Course>, taken: seq<seq<Packet>>) {
    |taken| == |courses| && forall k | 0 <= k < |courses| :: taken[k] == End(courses[k]).processed
  }

  lemma {:induction false} ReceivedIsConsumed(courses: seq<Course>, taken: seq<seq<Packet>>)
    requires Delivers(courses, taken)
    ensures SharedHotPaths.Received(taken) == Consumed(courses)
  {
    if courses != [] {
      ReceivedIsConsumed(courses[..|courses| - 1], taken[..|taken| - 1]);
    }
  }

  /** The same when the calls of different hot paths overlap, operation by operation: the packets that have
      passed the skip test and are about to be counted, at most one for each hot path, are one more place. */
  lemma {:induction false} OverlappingPathsAreAccountedFor(courses: seq<Course>, board: Board,
                                                           moves: seq<SharedHotPaths.Move>)
    requires forall i | 0 <= i < |courses| :: ValidConfig(courses[i].cfg)
    requires board.Valid() && board.strategy != Atomic
    requires Delivers(courses, SharedHotPaths.TakeAll(SharedHotPaths.Open(|courses|, board), moves).taken)
    ensures var c := SharedHotPaths.TakeAll(SharedHotPaths.Open(|courses|, board), moves);
            && c.board.strategy == board.strategy
            && Parsed(courses) == TotalEdits(c.board) - TotalEdits(board) + c.skipped
                                  + SharedHotPaths.Passing(c.stages) + Elsewhere(courses)
            && SharedHotPaths.Passing(c.stages) <= |courses|
  {
    CoursesAddUp(courses);
    ReceivedIsConsumed(courses, SharedHotPaths.TakeAll(SharedHotPaths.Open(|courses|, board), moves).taken);
    SharedHotPaths.OverlappingCallsAddUp(|courses|, board, moves);
  }
}
