/** The parsing stage of both pipelines: every parsed change is offered to the scheduler, and a full
    queue drops its oldest packet.  Here a loop runs alone; see Pipeline for the interleaving. */
module ParseLoops {
  import opened Types
  import opened Metrics
  import opened Scheduler

  /** What one iteration receives.  `nowMs` is the wall clock; `enqueueNs` and `retryNs` are the instants
      stamped by the two enqueue attempts; `locked` is the outcome of the metrics `try_lock`. */
  datatype Raw =
    | Timeout
    | Malformed
    | Change(bot: bool, domain: Option<string>, nowMs: int, enqueueNs: nat, retryNs: nat, locked: bool)

  /** The owned packet built from a parsed change; `id` is the number of changes parsed before. */
  function FromChange(raw: Raw, id: nat): Packet
    requires raw.Change?
  {
    Packet(id, if raw.bot then Low else High, if raw.domain.Some? then raw.domain.value else "unknown", None)
  }

  datatype ParserState = ParserState(queues: Queues, events: nat, overflows: nat, lastEventMs: int,
                                     metrics: MetricsView)

  /** Drop-oldest: the queue of the packet's class after the packet was offered. */
  function Offered(q: Queues, capacity: nat, pkt: Packet, raw: Raw): Queues
    requires raw.Change?
  {
    var mine := q.Of(pkt.priority);
    if |mine| < capacity then q.With(pkt.priority, mine + [pkt.(t1 := Some(raw.enqueueNs))])
    else if mine == [] then q
    else q.With(pkt.priority, mine[1..] + [pkt.(t1 := Some(raw.retryNs))])
  }

  function Iteration(s: ParserState, capacity: nat, kind: PipelineKind, raw: Raw): ParserState {
    if !raw.Change? then s
    else
      var pkt := FromChange(raw, s.events);
      var s1 := s.(events := s.events + 1, lastEventMs := raw.nowMs, queues := Offered(s.queues, capacity, pkt, raw));
      if |s.queues.Of(pkt.priority)| < capacity then s1
      else
        var ev := OverflowEvent(pkt.domain, pkt.priority, s.overflows + 1);
        s1.(overflows := s.overflows + 1, metrics := if raw.locked then s.metrics.WithOverflow(kind, ev) else s.metrics)
  }

  function Iterations(s: ParserState, capacity: nat, kind: PipelineKind, raws: seq<Raw>): ParserState {
    if raws == [] then s
    else Iteration(Iterations(s, capacity, kind, raws[..|raws| - 1]), capacity, kind, raws[|raws| - 1])
  }

  // ----- What the loop promises --------------------------------------------------------------

  /** The packets parsed from `raws`, numbered from `first`. */
  function Parsed(raws: seq<Raw>, first: nat): seq<Packet> {
    if raws == [] then []
    else
      var p, raw := Parsed(raws[..|raws| - 1], first), raws[|raws| - 1];
      if raw.Change? then p + [FromChange(raw, first + |p|)] else p
  }

  function OfClass(pkts: seq<Packet>, c: Priority): seq<Packet> {
    if pkts == [] then []
    else OfClass(pkts[..|pkts| - 1], c) + if pkts[|pkts| - 1].priority == c then [pkts[|pkts| - 1]] else []
  }

  /** Packets without their queue-entry stamps. */
  function Unstamped(pkts: seq<Packet>): (r: seq<Packet>)
    ensures |r| == |pkts|
    ensures forall i | 0 <= i < |pkts| :: r[i] == pkts[i].(t1 := None)
  {
    seq(|pkts|, i requires 0 <= i < |pkts| => pkts[i].(t1 := None))
  }

  /** How many offers of `n` packets to a queue of length `len` find it full. */
  function Overfull(len: nat, n: nat, capacity: nat): nat {
    if len + n <= capacity then 0 else len + n - capacity
  }

  /** The offer of `x` to a queue that holds the end of `u + h`. */
  lemma SuffixGrows<T>(u: seq<T>, h: seq<T>, x: T, n: nat)
    requires n >= 1
    ensures Suffix(u + (h + [x]), n) == Pushed(Suffix(u + h, n), x, n)
  {
    assert u + (h + [x]) == (u + h) + [x];
    PushMovesSuffix(u + h, x, n);
  }

  lemma {:induction false} OfClassGrows(pkts: seq<Packet>, pkt: Packet, c: Priority)
    ensures OfClass(pkts + [pkt], c) == if pkt.priority == c then OfClass(pkts, c) + [pkt] else OfClass(pkts, c)
  {
    assert (pkts + [pkt])[..|pkts|] == pkts;
  }

  /** One iteration, seen by one class. */
  lemma IterationByClass(s: ParserState, capacity: nat, kind: PipelineKind, raw: Raw, c: Priority)
    requires capacity >= 1 && s.queues.Valid(capacity) && raw.Change?
    ensures var s', pkt := Iteration(s, capacity, kind, raw), FromChange(raw, s.events);
            && s'.queues.Valid(capacity)
            && (pkt.priority != c ==> s'.queues.Of(c) == s.queues.Of(c))
            && (pkt.priority == c ==>
                  Unstamped(s'.queues.Of(c)) == Pushed(Unstamped(s.queues.Of(c)), pkt, capacity))
            && s'.overflows == s.overflows + if |s.queues.Of(pkt.priority)| < capacity then 0 else 1
  {
  }

  lemma {:induction false} IterationsStayValid(s: ParserState, capacity: nat, kind: PipelineKind, raws: seq<Raw>)
    requires capacity >= 1 && s.queues.Valid(capacity)
    ensures Iterations(s, capacity, kind, raws).queues.Valid(capacity)
    ensures Iterations(s, capacity, kind, raws).events == s.events + |Parsed(raws, s.events)|
  {
    if raws != [] {
      var p, raw := raws[..|raws| - 1], raws[|raws| - 1];
      IterationsStayValid(s, capacity, kind, p);
      if raw.Change? {
        IterationByClass(Iterations(s, capacity, kind, p), capacity, kind, raw, High);
      }
    }
  }

  /** Drop-oldest over whole runs: whatever is parsed, each queue ends up holding exactly the last
      packets of its class that fit, in order; the newest is never lost. */
  lemma {:induction false} QueuesHoldTheLatest(s: ParserState, capacity: nat, kind: PipelineKind, raws: seq<Raw>,
                                               c: Priority)
    requires capacity >= 1 && s.queues.Valid(capacity)
    ensures Unstamped(Iterations(s, capacity, kind, raws).queues.Of(c))
         == Suffix(Unstamped(s.queues.Of(c)) + OfClass(Parsed(raws, s.events), c), capacity)
  {
    var u := Unstamped(s.queues.Of(c));
    if raws == [] {
      assert u + [] == u;
    } else {
      var p, raw := raws[..|raws| - 1], raws[|raws| - 1];
      QueuesHoldTheLatest(s, capacity, kind, p, c);
      IterationsStayValid(s, capacity, kind, p);
      var s1, before := Iterations(s, capacity, kind, p), Parsed(p, s.events);
      assert Iterations(s, capacity, kind, raws) == Iteration(s1, capacity, kind, raw);
      if !raw.Change? {
        assert Parsed(raws, s.events) == before;
      } else {
        assert Parsed(raws, s.events) == before + [FromChange(raw, s1.events)];
        OneMoreArrival(s1, capacity, kind, raw, c, u, before);
      }
    }
  }

  lemma {:induction false} OneMoreArrival(s: ParserState, capacity: nat, kind: PipelineKind, raw: Raw, c: Priority,
                                          u: seq<Packet>, before: seq<Packet>)
    requires capacity >= 1 && s.queues.Valid(capacity) && raw.Change?
    requires Unstamped(s.queues.Of(c)) == Suffix(u + OfClass(before, c), capacity)
    ensures Unstamped(Iteration(s, capacity, kind, raw).queues.Of(c))
         == Suffix(u + OfClass(before + [FromChange(raw, s.events)], c), capacity)
  {
    var pkt := FromChange(raw, s.events);
    IterationByClass(s, capacity, kind, raw, c);
    OfClassGrows(before, pkt, c);
    SuffixGrows(u, OfClass(before, c), pkt, capacity);
  }

  lemma {:induction false} QueueLength(s: ParserState, capacity: nat, kind: PipelineKind, raws: seq<Raw>, c: Priority)
    requires capacity >= 1 && s.queues.Valid(capacity)
    ensures |Iterations(s, capacity, kind, raws).queues.Of(c)|
         == Min(|s.queues.Of(c)| + |OfClass(Parsed(raws, s.events), c)|, capacity)
  {
    QueuesHoldTheLatest(s, capacity, kind, raws, c);
    SuffixLength(Unstamped(s.queues.Of(c)) + OfClass(Parsed(raws, s.events), c), capacity);
  }

  lemma SuffixLength<T>(h: seq<T>, n: nat)
    ensures |Suffix(h, n)| == Min(|h|, n)
  {
  }

  lemma IterationOverflows(s: ParserState, capacity: nat, kind: PipelineKind, raw: Raw)
    requires raw.Change?
    ensures Iteration(s, capacity, kind, raw).overflows
         == s.overflows + if |s.queues.Of(FromChange(raw, s.events).priority)| < capacity then 0 else 1
  {
  }

  lemma {:induction false} OverflowOneMore(s: ParserState, capacity: nat, kind: PipelineKind, raw: Raw,
                                           before: seq<Packet>, high: nat, low: nat)
    requires capacity >= 1 && raw.Change?
    requires |s.queues.high| == Min(high + |OfClass(before, High)|, capacity)
    requires |s.queues.low| == Min(low + |OfClass(before, Low)|, capacity)
    ensures var after := before + [FromChange(raw, s.events)];
            Iteration(s, capacity, kind, raw).overflows == s.overflows
              + Overfull(high, |OfClass(after, High)|, capacity) - Overfull(high, |OfClass(before, High)|, capacity)
              + Overfull(low, |OfClass(after, Low)|, capacity) - Overfull(low, |OfClass(before, Low)|, capacity)
  {
    var pkt := FromChange(raw, s.events);
    OfClassGrows(before, pkt, High);
    OfClassGrows(before, pkt, Low);
    IterationOverflows(s, capacity, kind, raw);
  }

  /** The overflow counter is determined by the arrivals alone: per class, by how much they exceed what
      the queue could still take. */
  lemma {:induction false} OverflowsAreExcess(s: ParserState, capacity: nat, kind: PipelineKind, raws: seq<Raw>)
    requires capacity >= 1 && s.queues.Valid(capacity)
    ensures var parsed := Parsed(raws, s.events);
            Iterations(s, capacity, kind, raws).overflows == s.overflows
              + Overfull(|s.queues.high|, |OfClass(parsed, High)|, capacity)
              + Overfull(|s.queues.low|, |OfClass(parsed, Low)|, capacity)
  {
    if raws != [] {
      var p, raw := raws[..|raws| - 1], raws[|raws| - 1];
      OverflowsAreExcess(s, capacity, kind, p);
      IterationsStayValid(s, capacity, kind, p);
      if raw.Change? {
        QueueLength(s, capacity, kind, p, High);
        QueueLength(s, capacity, kind, p, Low);
        OverflowOneMore(Iterations(s, capacity, kind, p), capacity, kind, raw, Parsed(p, s.events),
                        |s.queues.high|, |s.queues.low|);
      }
    }
  }

  // ----- The same in terms of what is received -----------------------------------------------

  function DomainOf(raw: Raw): string
    requires raw.Change?
  {
    match raw.domain case None => "unknown" case Some(d) => d
  }

  /** The domains of the changes whose bot flag is `bot`, in order. */
  function ChangeDomains(raws: seq<Raw>, bot: bool): seq<string> {
    if raws == [] then []
    else
      var raw := raws[|raws| - 1];
      ChangeDomains(raws[..|raws| - 1], bot) + if raw.Change? && raw.bot == bot then [DomainOf(raw)] else []
  }

  function DomainsOf(pkts: seq<Packet>): (r: seq<string>)
    ensures |r| == |pkts| && forall i | 0 <= i < |pkts| :: r[i] == pkts[i].domain
  {
    seq(|pkts|, i requires 0 <= i < |pkts| => pkts[i].domain)
  }

  /** One more change, seen by one class. */
  lemma {:induction false} OneMoreDomain(pkts: seq<Packet>, raw: Raw, id: nat, bot: bool)
    requires raw.Change?
    ensures DomainsOf(OfClass(pkts + [FromChange(raw, id)], if bot then Low else High))
         == DomainsOf(OfClass(pkts, if bot then Low else High)) + if raw.bot == bot then [DomainOf(raw)] else []
  {
    var pkt, c := FromChange(raw, id), if bot then Low else High;
    OfClassGrows(pkts, pkt, c);
    if pkt.priority == c {
      DomainsAppend(OfClass(pkts, c), pkt);
    }
  }

  lemma {:induction false} ParsedDomains(raws: seq<Raw>, first: nat, bot: bool)
    ensures DomainsOf(OfClass(Parsed(raws, first), if bot then Low else High)) == ChangeDomains(raws, bot)
  {
    if raws != [] {
      var p, raw := raws[..|raws| - 1], raws[|raws| - 1];
      ParsedDomains(p, first, bot);
      if raw.Change? {
        OneMoreDomain(Parsed(p, first), raw, first + |Parsed(p, first)|, bot);
      } else {
        assert Parsed(raws, first) == Parsed(p, first);
      }
    }
  }

  lemma DomainsAppend(pkts: seq<Packet>, pkt: Packet)
    ensures DomainsOf(pkts + [pkt]) == DomainsOf(pkts) + [pkt.domain]
  {
  }

  lemma DomainsOfSuffix(queue: seq<Packet>, held: seq<Packet>, more: seq<Packet>, capacity: nat)
    requires Unstamped(queue) == Suffix(Unstamped(held) + more, capacity)
    ensures DomainsOf(queue) == Suffix(DomainsOf(held) + DomainsOf(more), capacity)
  {
    var all, ds := Unstamped(held) + more, DomainsOf(held) + DomainsOf(more);
    assert forall i | 0 <= i < |all| :: all[i].domain == ds[i];
    assert forall i | 0 <= i < |queue| :: queue[i].domain == Unstamped(queue)[i].domain;
  }

  /** Bot edits end up in the low queue and human edits in the high one, each the last that fit, and the
      overflow count is the excess of each kind over the free space of its queue. */
  lemma {:induction false} QueuesByBotFlag(s: ParserState, capacity: nat, kind: PipelineKind, raws: seq<Raw>)
    requires capacity >= 1 && s.queues.Valid(capacity)
    ensures var s' := Iterations(s, capacity, kind, raws);
            && DomainsOf(s'.queues.low) == Suffix(DomainsOf(s.queues.low) + ChangeDomains(raws, true), capacity)
            && DomainsOf(s'.queues.high) == Suffix(DomainsOf(s.queues.high) + ChangeDomains(raws, false), capacity)
            && s'.overflows == s.overflows
                 + Overfull(|s.queues.low|, |ChangeDomains(raws, true)|, capacity)
                 + Overfull(|s.queues.high|, |ChangeDomains(raws, false)|, capacity)
            && s'.events == s.events + |ChangeDomains(raws, true)| + |ChangeDomains(raws, false)|
  {
    var s', parsed := Iterations(s, capacity, kind, raws), Parsed(raws, s.events);
    QueuesHoldTheLatest(s, capacity, kind, raws, Low);
    QueuesHoldTheLatest(s, capacity, kind, raws, High);
    ParsedDomains(raws, s.events, true);
    ParsedDomains(raws, s.events, false);
    DomainsOfSuffix(s'.queues.low, s.queues.low, OfClass(parsed, Low), capacity);
    DomainsOfSuffix(s'.queues.high, s.queues.high, OfClass(parsed, High), capacity);
    OverflowsAreExcess(s, capacity, kind, raws);
    IterationsStayValid(s, capacity, kind, raws);
    EveryPacketHasAClass(parsed);
  }

  lemma {:induction false} EveryPacketHasAClass(pkts: seq<Packet>)
    ensures |OfClass(pkts, High)| + |OfClass(pkts, Low)| == |pkts|
  {
    if pkts != [] {
      EveryPacketHasAClass(pkts[..|pkts| - 1]);
    }
  }

  /** The clock reading of the latest change. */
  function LatestBeat(raws: seq<Raw>, before: int): int {
    if raws == [] then before
    else match raws[|raws| - 1]
      case Change(_, _, nowMs, _, _, _) => nowMs
      case _ => LatestBeat(raws[..|raws| - 1], before)
  }

  /** What is reported of one change that meets `humans` and `bots` packets, offered or held, of either class. */
  function ReportOf(raw: Raw, humans: nat, bots: nat, first: nat, capacity: nat): (r: seq<OverflowEvent>)
    ensures |r| <= 1
  {
    match raw
    case Change(bot, _, _, _, _, locked) =>
      if !locked || (if bot then bots else humans) < capacity then []
      else
        var total := first + (if humans > capacity then humans - capacity else 0)
                           + (if bots > capacity then bots - capacity else 0) + 1;
        [OverflowEvent(DomainOf(raw), if bot then Low else High, total)]
    case _ => []
  }

  /** The overflows that get logged when the queues hold `high` and `low` packets at first and `first` overflows
      have been counted before. */
  function Reports(raws: seq<Raw>, high: nat, low: nat, first: nat, capacity: nat): seq<OverflowEvent> {
    if raws == [] then []
    else
      var p := raws[..|raws| - 1];
      Reports(p, high, low, first, capacity) +
        ReportOf(raws[|raws| - 1], high + |ChangeDomains(p, false)|, low + |ChangeDomains(p, true)|, first, capacity)
  }

  /** `m'` is `m` after the pipeline has reported `reports`. */
  ghost predicate HasReported(m: MetricsView, m': MetricsView, kind: PipelineKind, reports: seq<OverflowEvent>) {
    && m'.overflowLog == PushedAll(m.overflowLog, reports, 10_000)
    && m' == m.(overflowLog := m'.overflowLog, asyncOverflowCount := m'.asyncOverflowCount,
                threadedOverflowCount := m'.threadedOverflowCount)
    && match kind
       case Async =>
         && m'.threadedOverflowCount == m.threadedOverflowCount
         && m'.asyncOverflowCount == LatestTotal(reports, m.asyncOverflowCount)
       case Threaded =>
         && m'.asyncOverflowCount == m.asyncOverflowCount
         && m'.threadedOverflowCount == LatestTotal(reports, m.threadedOverflowCount)
  }

  lemma {:induction false} QueueLengths(s: ParserState, capacity: nat, kind: PipelineKind, raws: seq<Raw>)
    requires capacity >= 1 && s.queues.Valid(capacity)
    ensures var s' := Iterations(s, capacity, kind, raws);
            && |s'.queues.low| == Min(|s.queues.low| + |ChangeDomains(raws, true)|, capacity)
            && |s'.queues.high| == Min(|s.queues.high| + |ChangeDomains(raws, false)|, capacity)
            && s'.overflows == s.overflows
                 + Overfull(0, |s.queues.high| + |ChangeDomains(raws, false)|, capacity)
                 + Overfull(0, |s.queues.low| + |ChangeDomains(raws, true)|, capacity)
  {
    var s' := Iterations(s, capacity, kind, raws);
    QueuesByBotFlag(s, capacity, kind, raws);
    assert |DomainsOf(s'.queues.low)| == |s'.queues.low| && |DomainsOf(s'.queues.high)| == |s'.queues.high|;
  }

  /** One iteration, in the metrics. */
  lemma IterationReports(s: ParserState, capacity: nat, kind: PipelineKind, raw: Raw,
                         humans: nat, bots: nat, first: nat)
    requires capacity >= 1
    requires |s.queues.high| == Min(humans, capacity) && |s.queues.low| == Min(bots, capacity)
    requires s.overflows == first + Overfull(0, humans, capacity) + Overfull(0, bots, capacity)
    ensures HasReported(s.metrics, Iteration(s, capacity, kind, raw).metrics, kind,
                        ReportOf(raw, humans, bots, first, capacity))
  {
    var report := ReportOf(raw, humans, bots, first, capacity);
    assert report != [] ==> report[1..] == [];
  }

  lemma ReportOneMore(m: MetricsView, m1: MetricsView, m2: MetricsView, kind: PipelineKind,
                      reports: seq<OverflowEvent>, more: seq<OverflowEvent>)
    requires HasReported(m, m1, kind, reports) && HasReported(m1, m2, kind, more) && |more| <= 1
    ensures HasReported(m, m2, kind, reports + more)
  {
    PushedUpTo(m.overflowLog, reports, more, 10_000);
    if more == [] {
      assert reports + more == reports;
    }
  }

  /** The heartbeat is the clock reading of the latest change. */
  lemma {:induction false} HeartbeatIsLatest(s: ParserState, capacity: nat, kind: PipelineKind, raws: seq<Raw>)
    ensures Iterations(s, capacity, kind, raws).lastEventMs == LatestBeat(raws, s.lastEventMs)
  {
    if raws != [] {
      HeartbeatIsLatest(s, capacity, kind, raws[..|raws| - 1]);
    }
  }

  /** `s'` has reported exactly the overflows of `raws` since `s`. */
  ghost predicate LogFollows(s: ParserState, s': ParserState, capacity: nat, kind: PipelineKind, raws: seq<Raw>) {
    HasReported(s.metrics, s'.metrics, kind,
                Reports(raws, |s.queues.high|, |s.queues.low|, s.overflows, capacity))
  }

  lemma LogFollowsOneMore(s: ParserState, s1: ParserState, capacity: nat, kind: PipelineKind, raws: seq<Raw>)
    requires capacity >= 1 && raws != []
    requires var humans, bots := Humans(s, raws[..|raws| - 1]), Bots(s, raws[..|raws| - 1]);
             && |s1.queues.high| == Min(humans, capacity) && |s1.queues.low| == Min(bots, capacity)
             && s1.overflows == s.overflows + Overfull(0, humans, capacity) + Overfull(0, bots, capacity)
    requires LogFollows(s, s1, capacity, kind, raws[..|raws| - 1])
    ensures LogFollows(s, Iteration(s1, capacity, kind, raws[|raws| - 1]), capacity, kind, raws)
  {
    var p, raw := raws[..|raws| - 1], raws[|raws| - 1];
    IterationReports(s1, capacity, kind, raw, Humans(s, p), Bots(s, p), s.overflows);
    ReportOneMore(s.metrics, s1.metrics, Iteration(s1, capacity, kind, raw).metrics, kind,
                  Reports(p, |s.queues.high|, |s.queues.low|, s.overflows, capacity),
                  ReportOf(raw, Humans(s, p), Bots(s, p), s.overflows, capacity));
  }

  /** The packets of either class held at first or offered since. */
  function Humans(s: ParserState, raws: seq<Raw>): nat {
    |s.queues.high| + |ChangeDomains(raws, false)|
  }

  function Bots(s: ParserState, raws: seq<Raw>): nat {
    |s.queues.low| + |ChangeDomains(raws, true)|
  }

  /** Nothing but the overflows is reported: the log takes each one that found the lock free, numbered as
      counted, and the counter of this pipeline shows the latest of them. */
  lemma {:induction false} LogIsReports(s: ParserState, capacity: nat, kind: PipelineKind, raws: seq<Raw>)
    requires capacity >= 1 && s.queues.Valid(capacity)
    ensures LogFollows(s, Iterations(s, capacity, kind, raws), capacity, kind, raws)
  {
    if raws != [] {
      var p := raws[..|raws| - 1];
      LogIsReports(s, capacity, kind, p);
      QueueLengths(s, capacity, kind, p);
      LogFollowsOneMore(s, Iterations(s, capacity, kind, p), capacity, kind, raws);
    }
  }

  function LatestTotal(reports: seq<OverflowEvent>, before: nat): nat {
    if reports == [] then before else reports[|reports| - 1].totalDrops
  }

  // ----- The two loops -----------------------------------------------------------------------

  /** The backpressure block, common to both loops. */
  method OfferDropOldest(scheduler: PriorityScheduler, kind: PipelineKind, pkt: Packet, raw: Raw, overflows: nat)
    returns (overflows': nat)
    requires scheduler.Valid() && raw.Change?
    modifies scheduler`high, scheduler`low
    modifies scheduler.metrics`asyncOverflowCount, scheduler.metrics`threadedOverflowCount
    modifies scheduler.metrics`overflowLog
    ensures scheduler.Valid()
    ensures scheduler.Contents() == Offered(old(scheduler.Contents()), scheduler.capacity, pkt, raw)
    ensures var full := |old(scheduler.Contents()).Of(pkt.priority)| >= scheduler.capacity;
            && overflows' == overflows + (if full then 1 else 0)
            && scheduler.metrics.View() ==
                 if full && raw.locked
                 then old(scheduler.metrics.View())
                        .WithOverflow(kind, OverflowEvent(pkt.domain, pkt.priority, overflows + 1))
                 else old(scheduler.metrics.View())
  {
    overflows' := overflows;
    var accepted := scheduler.Enqueue(pkt, raw.enqueueNs);
    if !accepted {
      overflows' := overflows + 1;
      var ev := OverflowEvent(pkt.domain, pkt.priority, overflows');
      if raw.locked {
        scheduler.metrics.RecordOverflow(kind, ev);
      }
      scheduler.EvictOldest(pkt.priority);
      accepted := scheduler.Enqueue(pkt, raw.retryNs);
      assert accepted;
    }
  }

  /** The parser thread; its counters and the heartbeat are shared atomics. */
  class ThreadedParser {
    const scheduler: PriorityScheduler
    var events: nat
    var overflows: nat
    var lastEventMs: int

    constructor (scheduler: PriorityScheduler)
      ensures this.scheduler == scheduler && events == 0 && overflows == 0 && lastEventMs == 0
    {
      this.scheduler, events, overflows, lastEventMs := scheduler, 0, 0, 0;
    }

    function State(): ParserState
      reads this, scheduler, scheduler.metrics, scheduler.metrics.Windows()
    {
      ParserState(scheduler.Contents(), events, overflows, lastEventMs, scheduler.metrics.View())
    }

    method ParseLoop(raws: seq<Raw>)
      requires scheduler.Valid()
      modifies this, scheduler`high, scheduler`low, scheduler.metrics`threadedOverflowCount
      modifies scheduler.metrics`asyncOverflowCount, scheduler.metrics`overflowLog
      ensures scheduler.Valid()
      ensures State() == Iterations(old(State()), scheduler.capacity, Threaded, raws)
      ensures DomainsOf(scheduler.low)
           == Suffix(DomainsOf(old(scheduler.low)) + ChangeDomains(raws, true), scheduler.capacity)
      ensures DomainsOf(scheduler.high)
           == Suffix(DomainsOf(old(scheduler.high)) + ChangeDomains(raws, false), scheduler.capacity)
    {
      for i := 0 to |raws|
        invariant scheduler.Valid()
        invariant State() == Iterations(old(State()), scheduler.capacity, Threaded, raws[..i])
      {
        assert raws[..i + 1][..i] == raws[..i];
        var raw := raws[i];
        if raw.Change? {
          var pkt := FromChange(raw, events);
          events := events + 1;
          lastEventMs := raw.nowMs;
          overflows := OfferDropOldest(scheduler, Threaded, pkt, raw, overflows);
        }
      }
      assert raws[..|raws|] == raws;
      QueuesByBotFlag(old(State()), scheduler.capacity, Threaded, raws);
    }
  }

  /** The asynchronous parsing task: its counters are local and are returned. */
  method DrainAndParse(scheduler: PriorityScheduler, raws: seq<Raw>, lastEventMs: int)
    returns (events: nat, overflows: nat, lastEventMs': int)
    requires scheduler.Valid()
    modifies scheduler`high, scheduler`low, scheduler.metrics`threadedOverflowCount
    modifies scheduler.metrics`asyncOverflowCount, scheduler.metrics`overflowLog
    ensures scheduler.Valid()
    ensures ParserState(scheduler.Contents(), events, overflows, lastEventMs', scheduler.metrics.View())
         == Iterations(ParserState(old(scheduler.Contents()), 0, 0, lastEventMs, old(scheduler.metrics.View())),
                       scheduler.capacity, Async, raws)
    ensures DomainsOf(scheduler.low)
         == Suffix(DomainsOf(old(scheduler.low)) + ChangeDomains(raws, true), scheduler.capacity)
    ensures DomainsOf(scheduler.high)
         == Suffix(DomainsOf(old(scheduler.high)) + ChangeDomains(raws, false), scheduler.capacity)
  {
    events, overflows, lastEventMs' := 0, 0, lastEventMs;
    ghost var start := ParserState(scheduler.Contents(), 0, 0, lastEventMs, scheduler.metrics.View());
    for i := 0 to |raws|
      invariant scheduler.Valid()
      invariant ParserState(scheduler.Contents(), events, overflows, lastEventMs', scheduler.metrics.View())
             == Iterations(start, scheduler.capacity, Async, raws[..i])
    {
      assert raws[..i + 1][..i] == raws[..i];
      var raw := raws[i];
      if raw.Change? {
        var pkt := FromChange(raw, events);
        events := events + 1;
        lastEventMs' := raw.nowMs;
        overflows := OfferDropOldest(scheduler, Async, pkt, raw, overflows);
      }
    }
    assert raws[..|raws|] == raws;
    QueuesByBotFlag(start, scheduler.capacity, Async, raws);
  }
}
