/** One pipeline as an interleaved protocol.  The parser, the dispatcher and the hot-path consumer run
    concurrently; every channel operation, atomic update and `try_lock` is one step.  Any sequence of steps
    is a run: a step that its actor cannot take is skipped, so statements about all step sequences are
    statements about all interleavings. */
module Pipeline {
  import opened Types
  import opened Metrics
  import opened Scheduler
  import opened ParseLoops

  /** Capacities of the class queues (256) and of the output channel (512). */
  datatype Config = Config(capacity: nat, outCapacity: nat)

  ghost predicate ValidConfig(cfg: Config) {
    cfg.capacity >= 1 && cfg.outCapacity >= 1
  }

  /** The parser between two arrivals, or holding the packet of the current one. */
  datatype ParserPc =
    | Ready
    | FirstTry(pkt: Packet)              // about to enqueue a clone
    | Counting(pkt: Packet)              // the clone was refused: about to count the overflow
    | Logging(pkt: Packet, total: nat)   // about to try_lock and log
    | Evicting(pkt: Packet)
    | Retrying(pkt: Packet)

  /** The dispatcher polls the high queue, then the low queue, then forwards what it holds. */
  datatype DispatchPc = PollHigh | PollLow | Holding(pkt: Packet)

  /** Protocol state.  `arrivals`, `enqueued`, `evicted`, `refused`, `dropped` and `overflowed` only record
      what happened: all parsed packets, the successful enqueues, the evictions, packets lost at a retry,
      packets lost at the full output channel, and packets that found their queue full. */
  datatype State = State(
    parser: ParserPc, dispatcher: DispatchPc, queues: Queues, out: seq<Packet>, processed: seq<Packet>,
    arrivals: seq<Packet>, enqueued: Queues, evicted: seq<Packet>, refused: seq<Packet>, dropped: seq<Packet>,
    overflows: nat, emptyEvicts: nat, overflowed: seq<Packet>, log: seq<OverflowEvent>)

  const INITIAL: State := State(Ready, PollHigh, Queues([], []), [], [], [], Queues([], []), [], [], [], 0, 0, [], [])

  datatype Step = Parse(priority: Priority, domain: string) | ParserStep(locked: bool) | DispatchStep | Consume

  function Append(q: Queues, pkt: Packet): Queues {
    q.With(pkt.priority, q.Of(pkt.priority) + [pkt])
  }

  function Enqueue(s: State, pkt: Packet): State {
    s.(queues := Append(s.queues, pkt), enqueued := Append(s.enqueued, pkt), parser := Ready)
  }

  function EvictOldest(s: State, pkt: Packet): State {
    var q := s.queues.Of(pkt.priority);
    if q == [] then s.(emptyEvicts := s.emptyEvicts + 1, parser := Retrying(pkt))
    else s.(queues := s.queues.With(pkt.priority, q[1..]), evicted := s.evicted + [q[0]], parser := Retrying(pkt))
  }

  function ParserMove(cfg: Config, s: State, locked: bool): State {
    match s.parser
    case Ready => s
    case FirstTry(pkt) =>
      if |s.queues.Of(pkt.priority)| < cfg.capacity then Enqueue(s, pkt) else s.(parser := Counting(pkt))
    case Counting(pkt) =>
      s.(overflows := s.overflows + 1, overflowed := s.overflowed + [pkt], parser := Logging(pkt, s.overflows + 1))
    case Logging(pkt, n) =>
      var ev := OverflowEvent(pkt.domain, pkt.priority, n);
      s.(log := if locked then Pushed(s.log, ev, LOG_CAPACITY) else s.log, parser := Evicting(pkt))
    case Evicting(pkt) => EvictOldest(s, pkt)
    case Retrying(pkt) =>
      if |s.queues.Of(pkt.priority)| < cfg.capacity then Enqueue(s, pkt)
      else s.(refused := s.refused + [pkt], parser := Ready)
  }

  function DispatchMove(cfg: Config, s: State): State {
    match s.dispatcher
    case PollHigh =>
      if s.queues.high == [] then s.(dispatcher := PollLow)
      else s.(dispatcher := Holding(s.queues.high[0]), queues := s.queues.(high := s.queues.high[1..]))
    case PollLow =>
      if s.queues.low == [] then s.(dispatcher := PollHigh)
      else s.(dispatcher := Holding(s.queues.low[0]), queues := s.queues.(low := s.queues.low[1..]))
    case Holding(pkt) =>
      if |s.out| < cfg.outCapacity then s.(out := s.out + [pkt], dispatcher := PollHigh)
      else s.(dropped := s.dropped + [pkt], dispatcher := PollHigh)
  }

  function Next(cfg: Config, s: State, step: Step): State {
    match step
    case Parse(priority, domain) =>
      if s.parser != Ready then s
      else
        var pkt := Packet(|s.arrivals|, priority, domain, None);
        s.(arrivals := s.arrivals + [pkt], parser := FirstTry(pkt))
    case ParserStep(locked) => ParserMove(cfg, s, locked)
    case DispatchStep => DispatchMove(cfg, s)
    case Consume =>
      if s.out == [] then s else s.(processed := s.processed + [s.out[0]], out := s.out[1..])
  }

  function Run(cfg: Config, s: State, steps: seq<Step>): State {
    if steps == [] then s else Next(cfg, Run(cfg, s, steps[..|steps| - 1]), steps[|steps| - 1])
  }

  function ParserHand(s: State): seq<Packet> {
    if s.parser.Ready? then [] else [s.parser.pkt]
  }

  function DispatchHand(s: State): seq<Packet> {
    if s.dispatcher.Holding? then [s.dispatcher.pkt] else []
  }

  // ----- Bounds: the retry never fails -------------------------------------------------------

  ghost predicate Bounded(cfg: Config, s: State) {
    && s.queues.Valid(cfg.capacity)
    && |s.out| <= cfg.outCapacity
    && (s.parser.Retrying? ==> |s.queues.Of(s.parser.pkt.priority)| < cfg.capacity)
    && s.refused == []
  }

  lemma BoundedOnParserStep(cfg: Config, s: State, locked: bool)
    requires ValidConfig(cfg) && Bounded(cfg, s)
    ensures Bounded(cfg, ParserMove(cfg, s, locked))
    ensures ParserMove(cfg, s, locked).arrivals == s.arrivals
  {
  }

  lemma BoundedOnDispatchStep(cfg: Config, s: State)
    requires Bounded(cfg, s)
    ensures Bounded(cfg, DispatchMove(cfg, s))
    ensures DispatchMove(cfg, s).arrivals == s.arrivals
  {
  }

  lemma BoundedStep(cfg: Config, s: State, step: Step)
    requires ValidConfig(cfg) && Bounded(cfg, s)
    ensures Bounded(cfg, Next(cfg, s, step))
    ensures Numbered(s) ==> Numbered(Next(cfg, s, step))
  {
    match step
    case ParserStep(locked) => BoundedOnParserStep(cfg, s, locked);
    case DispatchStep => BoundedOnDispatchStep(cfg, s);
    case _ =>
  }

  // ----- Conservation ------------------------------------------------------------------------

  /** Occurrences of `p`. */
  function Count(s: seq<Packet>, p: Packet): nat {
    if s == [] then 0 else Count(s[..|s| - 1], p) + if s[|s| - 1] == p then 1 else 0
  }

  lemma {:induction false} CountSplit(a: seq<Packet>, b: seq<Packet>, p: Packet)
    ensures Count(a + b, p) == Count(a, p) + Count(b, p)
  {
    if b == [] {
      assert a + b == a;
    } else {
      assert (a + b)[..|a + b| - 1] == a + b[..|b| - 1];
      CountSplit(a, b[..|b| - 1], p);
    }
  }

  lemma {:induction false} CountAppend(s: seq<Packet>, x: Packet, p: Packet)
    ensures Count(s + [x], p) == Count(s, p) + Count([x], p)
  {
    CountSplit(s, [x], p);
  }

  lemma {:induction false} CountHead(s: seq<Packet>, p: Packet)
    requires s != []
    ensures Count(s, p) == Count([s[0]], p) + Count(s[1..], p)
  {
    assert s == [s[0]] + s[1..];
    CountSplit([s[0]], s[1..], p);
  }

  lemma {:induction false} CountIn(s: seq<Packet>, p: Packet)
    ensures Count(s, p) > 0 <==> p in s
  {
    if s != [] {
      assert s == s[..|s| - 1] + [s[|s| - 1]];
      CountIn(s[..|s| - 1], p);
    }
  }

  /** Copies of `p` upstream of the output channel, and from there on. */
  function CopiesBefore(s: State, p: Packet): nat {
    Count(ParserHand(s), p) + Count(s.queues.high, p) + Count(s.queues.low, p) + Count(s.evicted, p)
    + Count(s.refused, p)
  }

  function CopiesAfter(s: State, p: Packet): nat {
    Count(DispatchHand(s), p) + Count(s.dropped, p) + Count(s.out, p) + Count(s.processed, p)
  }

  lemma ConservedByEnqueue(s: State, pkt: Packet, p: Packet)
    requires ParserHand(s) == [pkt]
    ensures CopiesBefore(Enqueue(s, pkt), p) == CopiesBefore(s, p)
  {
    CountAppend(s.queues.Of(pkt.priority), pkt, p);
  }

  lemma ConservedByEvict(s: State, pkt: Packet, p: Packet)
    requires ParserHand(s) == [pkt]
    ensures CopiesBefore(EvictOldest(s, pkt), p) == CopiesBefore(s, p)
  {
    var q := s.queues.Of(pkt.priority);
    if q != [] {
      CountHead(q, p);
      CountAppend(s.evicted, q[0], p);
    }
  }

  lemma ConservedByParser(cfg: Config, s: State, locked: bool, p: Packet)
    ensures CopiesBefore(ParserMove(cfg, s, locked), p) == CopiesBefore(s, p)
  {
    var s' := ParserMove(cfg, s, locked);
    if s.parser.Evicting? {
      ConservedByEvict(s, s.parser.pkt, p);
    } else if s.parser != Ready && s' == Enqueue(s, s.parser.pkt) {
      ConservedByEnqueue(s, s.parser.pkt, p);
    } else if s.parser.Retrying? {
      CountAppend(s.refused, s.parser.pkt, p);
    }
  }

  lemma ParserTouchesNothingElse(cfg: Config, s: State, locked: bool)
    ensures var s' := ParserMove(cfg, s, locked);
            && s'.dispatcher == s.dispatcher && s'.out == s.out && s'.processed == s.processed
            && s'.dropped == s.dropped && s'.arrivals == s.arrivals
  {
  }

  lemma ConservedByDispatcher(cfg: Config, s: State, p: Packet)
    ensures var s' := DispatchMove(cfg, s);
            CopiesBefore(s', p) + CopiesAfter(s', p) == CopiesBefore(s, p) + CopiesAfter(s, p)
  {
    match s.dispatcher
    case PollHigh =>
      if s.queues.high != [] {
        CountHead(s.queues.high, p);
      }
    case PollLow =>
      if s.queues.low != [] {
        CountHead(s.queues.low, p);
      }
    case Holding(pkt) =>
      CountAppend(s.out, pkt, p);
      CountAppend(s.dropped, pkt, p);
  }

  lemma ConservedByConsumer(cfg: Config, s: State, p: Packet)
    ensures CopiesBefore(Next(cfg, s, Consume), p) == CopiesBefore(s, p)
    ensures CopiesAfter(Next(cfg, s, Consume), p) == CopiesAfter(s, p)
  {
    if s.out != [] {
      CountHead(s.out, p);
      CountAppend(s.processed, s.out[0], p);
    }
  }

  lemma {:induction false} ConservedByArrival(cfg: Config, s: State, priority: Priority, domain: string, p: Packet)
    ensures var s' := Next(cfg, s, Parse(priority, domain));
            CopiesBefore(s', p) + Count(s.arrivals, p) == CopiesBefore(s, p) + Count(s'.arrivals, p)
    ensures CopiesAfter(Next(cfg, s, Parse(priority, domain)), p) == CopiesAfter(s, p)
  {
    CountAppend(s.arrivals, Packet(|s.arrivals|, priority, domain, None), p);
  }

  lemma {:induction false} ConservedStep(cfg: Config, s: State, step: Step, p: Packet)
    ensures var s' := Next(cfg, s, step);
            CopiesBefore(s', p) + CopiesAfter(s', p) + Count(s.arrivals, p)
              == CopiesBefore(s, p) + CopiesAfter(s, p) + Count(s'.arrivals, p)
  {
    match step
    case Parse(priority, domain) => ConservedByArrival(cfg, s, priority, domain, p);
    case ParserStep(locked) =>
      ConservedByParser(cfg, s, locked, p);
      ParserTouchesNothingElse(cfg, s, locked);
    case DispatchStep => ConservedByDispatcher(cfg, s, p);
    case Consume => ConservedByConsumer(cfg, s, p);
  }

  /** In every interleaving there are exactly as many copies of a packet as were parsed. */
  lemma {:induction false} Conserved(cfg: Config, steps: seq<Step>, p: Packet)
    ensures var s := Run(cfg, INITIAL, steps);
            CopiesBefore(s, p) + CopiesAfter(s, p) == Count(s.arrivals, p)
  {
    if steps != [] {
      Conserved(cfg, steps[..|steps| - 1], p);
      ConservedStep(cfg, Run(cfg, INITIAL, steps[..|steps| - 1]), steps[|steps| - 1], p);
    }
  }

  ghost predicate Numbered(s: State) {
    forall i | 0 <= i < |s.arrivals| :: s.arrivals[i].id == i
  }

  // ----- Order -------------------------------------------------------------------------------

  /** The packets of class `c` in the pipeline, from the furthest to the one just parsed. */
  function Flow(s: State, c: Priority): seq<Packet> {
    Line(OfClass(s.processed, c), OfClass(s.out, c), OfClass(DispatchHand(s), c), s.queues.Of(c),
         OfClass(ParserHand(s), c))
  }

  function Line(processed: seq<Packet>, out: seq<Packet>, held: seq<Packet>, queue: seq<Packet>, hand: seq<Packet>)
    : seq<Packet>
  {
    processed + out + held + queue + hand
  }

  predicate Increasing(pkts: seq<Packet>) {
    forall i, j | 0 <= i < j < |pkts| :: pkts[i].id < pkts[j].id
  }

  predicate Below(pkts: seq<Packet>, n: nat) {
    forall i | 0 <= i < |pkts| :: pkts[i].id < n
  }

  lemma {:induction false} OfClassSplit(a: seq<Packet>, b: seq<Packet>, c: Priority)
    ensures OfClass(a + b, c) == OfClass(a, c) + OfClass(b, c)
  {
    if b == [] {
      assert a + b == a;
    } else {
      var b' := b[..|b| - 1];
      assert (a + b)[..|a + b| - 1] == a + b';
      OfClassSplit(a, b', c);
    }
  }

  lemma {:induction false} OfClassOne(pkt: Packet, c: Priority)
    ensures OfClass([pkt], c) == if pkt.priority == c then [pkt] else []
  {
    OfClassGrows([], pkt, c);
    assert [] + [pkt] == [pkt];
  }

  /** `b` is `a` with at most one packet taken out. */
  ghost predicate Thinned(a: seq<Packet>, b: seq<Packet>) {
    a == b || exists k | 0 <= k < |a| :: b == a[..k] + a[k + 1..]
  }

  lemma ThinnedKeepsOrder(a: seq<Packet>, b: seq<Packet>, n: nat)
    requires Thinned(a, b) && Increasing(a) && Below(a, n)
    ensures Increasing(b) && Below(b, n)
  {
  }

  lemma TakeOutAt(left: seq<Packet>, pkt: Packet, right: seq<Packet>)
    ensures Thinned(left + [pkt] + right, left + right)
  {
    var a, k := left + [pkt] + right, |left|;
    assert a[..k] == left && a[k + 1..] == right;
  }

  lemma LineMoves(a: seq<Packet>, b: seq<Packet>, d: seq<Packet>, q: seq<Packet>, h: seq<Packet>)
    ensures b != [] ==> Line(a + [b[0]], b[1..], d, q, h) == Line(a, b, d, q, h)
    ensures d != [] ==> Line(a, b + [d[0]], d[1..], q, h) == Line(a, b, d, q, h)
    ensures q != [] ==> Line(a, b, d + [q[0]], q[1..], h) == Line(a, b, d, q, h)
    ensures h != [] ==> Line(a, b, d, q + [h[0]], h[1..]) == Line(a, b, d, q, h)
  {
    HeadMoves(a, b);
    HeadMoves(a + b, d);
    HeadMoves(a + b + d, q);
    HeadMoves(a + b + d + q, h);
    assert b != [] ==> a + [b[0]] + b[1..] == a + b;
    assert d != [] ==> a + (b + [d[0]]) == a + b + [d[0]];
    assert q != [] ==> a + b + (d + [q[0]]) == a + b + d + [q[0]];
    assert h != [] ==> a + b + d + (q + [h[0]]) == a + b + d + q + [h[0]];
  }

  lemma HeadMoves(front: seq<Packet>, back: seq<Packet>)
    ensures back != [] ==> front + [back[0]] + back[1..] == front + back
  {
  }

  lemma LineJoins(a: seq<Packet>, b: seq<Packet>, a': seq<Packet>, b': seq<Packet>, d: seq<Packet>, q: seq<Packet>,
                  h: seq<Packet>)
    requires a' + b' == a + b
    ensures Line(a', b', d, q, h) == Line(a, b, d, q, h)
  {
  }

  lemma LineLoses(a: seq<Packet>, b: seq<Packet>, d: seq<Packet>, q: seq<Packet>, h: seq<Packet>)
    ensures d != [] ==> Thinned(Line(a, b, d, q, h), Line(a, b, d[1..], q, h))
    ensures q != [] ==> Thinned(Line(a, b, d, q, h), Line(a, b, d, q[1..], h))
  {
    if d != [] {
      TakeOutAt(a + b, d[0], d[1..] + q + h);
      assert Line(a, b, d, q, h) == (a + b) + [d[0]] + (d[1..] + q + h);
      assert Line(a, b, d[1..], q, h) == (a + b) + (d[1..] + q + h);
    }
    if q != [] {
      TakeOutAt(a + b + d, q[0], q[1..] + h);
      assert Line(a, b, d, q, h) == (a + b + d) + [q[0]] + (q[1..] + h);
      assert Line(a, b, d, q[1..], h) == (a + b + d) + (q[1..] + h);
    }
  }

  /** A parser step, seen by one class: nothing, or the packet in hand is enqueued, or the head is evicted. */
  predicate ParserEffect(s: State, s': State, c: Priority) {
    var (q, q', e, e') := (s.queues.Of(c), s'.queues.Of(c), s.enqueued.Of(c), s'.enqueued.Of(c));
    var (h, h') := (OfClass(ParserHand(s), c), OfClass(ParserHand(s'), c));
    || (q' == q && e' == e && h' == h)
    || (|h| == 1 && q' == q + h && e' == e + h && h' == [])
    || (q != [] && q' == q[1..] && e' == e && h' == h)
  }

  lemma ParserOnClass(cfg: Config, s: State, locked: bool, c: Priority)
    requires Bounded(cfg, s)
    ensures ParserEffect(s, ParserMove(cfg, s, locked), c)
  {
    if s.parser != Ready {
      OfClassOne(s.parser.pkt, c);
    }
  }

  /** A dispatcher step, seen by one class: nothing, or the head is taken, or what is held is forwarded,
      or it is lost. */
  predicate DispatchEffect(s: State, s': State, c: Priority) {
    var (q, q', d, d') := (s.queues.Of(c), s'.queues.Of(c), OfClass(DispatchHand(s), c), OfClass(DispatchHand(s'), c));
    var (b, b') := (OfClass(s.out, c), OfClass(s'.out, c));
    || (q' == q && d' == d && b' == b)
    || (q != [] && d == [] && q' == q[1..] && d' == [q[0]] && b' == b)
    || (|d| == 1 && q' == q && d' == [] && b' == b + d)
    || (|d| == 1 && q' == q && d' == [] && b' == b)
  }

  lemma ForwardOnClass(cfg: Config, s: State, c: Priority)
    requires s.dispatcher.Holding?
    ensures DispatchEffect(s, DispatchMove(cfg, s), c)
  {
    OfClassOne(s.dispatcher.pkt, c);
    OfClassGrows(s.out, s.dispatcher.pkt, c);
  }

  lemma PollOnClass(cfg: Config, s: State, c: Priority)
    requires Bounded(cfg, s) && !s.dispatcher.Holding?
    ensures DispatchEffect(s, DispatchMove(cfg, s), c)
  {
    var s' := DispatchMove(cfg, s);
    if s'.dispatcher.Holding? {
      OfClassOne(s'.dispatcher.pkt, c);
    }
  }

  lemma DispatcherOnClass(cfg: Config, s: State, c: Priority)
    requires Bounded(cfg, s)
    ensures DispatchEffect(s, DispatchMove(cfg, s), c)
  {
    if s.dispatcher.Holding? {
      ForwardOnClass(cfg, s, c);
    } else {
      PollOnClass(cfg, s, c);
    }
  }

  lemma DispatcherTouchesNothingElse(cfg: Config, s: State)
    ensures var s' := DispatchMove(cfg, s);
            && s'.parser == s.parser && s'.processed == s.processed && s'.arrivals == s.arrivals
            && s'.enqueued == s.enqueued
  {
  }

  lemma FlowOnParserStep(s: State, s': State, c: Priority)
    requires ParserEffect(s, s', c)
    requires s'.dispatcher == s.dispatcher && s'.out == s.out && s'.processed == s.processed
    ensures Thinned(Flow(s, c), Flow(s', c))
  {
    var a, b, d := OfClass(s.processed, c), OfClass(s.out, c), OfClass(DispatchHand(s), c);
    var q, h := s.queues.Of(c), OfClass(ParserHand(s), c);
    LineMoves(a, b, d, q, h);
    LineLoses(a, b, d, q, h);
    if |h| == 1 {
      assert h == [h[0]] && h[1..] == [];
    }
  }

  lemma FlowOnDispatchStep(s: State, s': State, c: Priority)
    requires DispatchEffect(s, s', c)
    requires s'.parser == s.parser && s'.processed == s.processed
    ensures Thinned(Flow(s, c), Flow(s', c))
  {
    var a, b, d := OfClass(s.processed, c), OfClass(s.out, c), OfClass(DispatchHand(s), c);
    var q, h := s.queues.Of(c), OfClass(ParserHand(s), c);
    LineMoves(a, b, d, q, h);
    LineLoses(a, b, d, q, h);
    if |d| == 1 {
      assert d == [d[0]] && d[1..] == [];
    }
    if q != [] {
      assert [] + [q[0]] == [q[0]];
    }
  }

  lemma {:induction false} OfClassHead(pkts: seq<Packet>, c: Priority)
    requires pkts != []
    ensures OfClass(pkts, c) ==
              if pkts[0].priority == c then [pkts[0]] + OfClass(pkts[1..], c) else OfClass(pkts[1..], c)
  {
    assert pkts == [pkts[0]] + pkts[1..];
    OfClassSplit([pkts[0]], pkts[1..], c);
    OfClassOne(pkts[0], c);
  }

  lemma {:induction false} ConsumeOnClass(processed: seq<Packet>, out: seq<Packet>, c: Priority)
    requires out != []
    ensures OfClass(processed + [out[0]], c) + OfClass(out[1..], c) == OfClass(processed, c) + OfClass(out, c)
  {
    OfClassGrows(processed, out[0], c);
    OfClassHead(out, c);
    Append3(OfClass(processed, c), [out[0]], OfClass(out[1..], c));
  }

  lemma FlowOnConsume(cfg: Config, s: State, c: Priority)
    ensures Flow(Next(cfg, s, Consume), c) == Flow(s, c)
  {
    if s.out != [] {
      ConsumeOnClass(s.processed, s.out, c);
      LineJoins(OfClass(s.processed, c), OfClass(s.out, c),
                OfClass(s.processed + [s.out[0]], c), OfClass(s.out[1..], c),
                OfClass(DispatchHand(s), c), s.queues.Of(c), OfClass(ParserHand(s), c));
    }
  }

  lemma FlowOnParse(cfg: Config, s: State, step: Step, c: Priority)
    requires step.Parse?
    ensures Flow(Next(cfg, s, step), c) == Flow(s, c) +
              if s.parser == Ready && step.priority == c then [Packet(|s.arrivals|, c, step.domain, None)] else []
  {
    if s.parser == Ready {
      OfClassOne(Packet(|s.arrivals|, step.priority, step.domain, None), c);
      var s' := Next(cfg, s, step);
      LineEnd(OfClass(s.processed, c), OfClass(s.out, c), OfClass(DispatchHand(s), c), s.queues.Of(c),
              OfClass(ParserHand(s'), c));
      assert OfClass(ParserHand(s), c) == [];
    }
  }

  lemma OrderedAppend(flow: seq<Packet>, pkt: Packet)
    requires Increasing(flow) && Below(flow, pkt.id)
    ensures Increasing(flow + [pkt]) && Below(flow + [pkt], pkt.id + 1)
  {
  }

  lemma LineEnd(a: seq<Packet>, b: seq<Packet>, d: seq<Packet>, q: seq<Packet>, h: seq<Packet>)
    ensures Line(a, b, d, q, h) == Line(a, b, d, q, []) + h
  {
  }

  ghost predicate Ordered(s: State, c: Priority) {
    Increasing(Flow(s, c)) && Below(Flow(s, c), |s.arrivals|)
  }

  lemma OrderedOnParserStep(cfg: Config, s: State, locked: bool, c: Priority)
    requires Bounded(cfg, s) && Ordered(s, c)
    ensures Ordered(ParserMove(cfg, s, locked), c)
  {
    var s' := ParserMove(cfg, s, locked);
    ParserOnClass(cfg, s, locked, c);
    ParserTouchesNothingElse(cfg, s, locked);
    FlowOnParserStep(s, s', c);
    ThinnedKeepsOrder(Flow(s, c), Flow(s', c), |s.arrivals|);
  }

  lemma OrderedOnDispatchStep(cfg: Config, s: State, c: Priority)
    requires Bounded(cfg, s) && Ordered(s, c)
    ensures Ordered(DispatchMove(cfg, s), c)
  {
    var s' := DispatchMove(cfg, s);
    DispatcherOnClass(cfg, s, c);
    DispatcherTouchesNothingElse(cfg, s);
    FlowOnDispatchStep(s, s', c);
    ThinnedKeepsOrder(Flow(s, c), Flow(s', c), |s.arrivals|);
  }

  lemma OrderedOnParse(cfg: Config, s: State, step: Step, c: Priority)
    requires step.Parse? && Ordered(s, c)
    ensures Ordered(Next(cfg, s, step), c)
  {
    FlowOnParse(cfg, s, step, c);
    if s.parser == Ready && step.priority == c {
      OrderedAppend(Flow(s, c), Packet(|s.arrivals|, c, step.domain, None));
    } else {
      assert Flow(Next(cfg, s, step), c) == Flow(s, c);
    }
  }

  lemma OrderedStep(cfg: Config, s: State, step: Step, c: Priority)
    requires Bounded(cfg, s) && Ordered(s, c)
    ensures Ordered(Next(cfg, s, step), c)
  {
    match step
    case Parse(_, _) => OrderedOnParse(cfg, s, step, c);
    case ParserStep(locked) => OrderedOnParserStep(cfg, s, locked, c);
    case DispatchStep => OrderedOnDispatchStep(cfg, s, c);
    case Consume => FlowOnConsume(cfg, s, c);
  }

  // ----- Queues and enqueue histories --------------------------------------------------------

  /** Each queue is the unserved end of its class's enqueues, and every arrival of the class has been
      enqueued, except the one the parser holds. */
  ghost predicate Queued(s: State, c: Priority) {
    && IsEnd(s.queues.Of(c), s.enqueued.Of(c))
    && OfClass(s.arrivals, c) == s.enqueued.Of(c) + OfClass(ParserHand(s), c)
  }

  lemma QueuedOnParse(cfg: Config, s: State, step: Step, c: Priority)
    requires step.Parse? && Queued(s, c)
    ensures Queued(Next(cfg, s, step), c)
  {
    if s.parser == Ready {
      var pkt := Packet(|s.arrivals|, step.priority, step.domain, None);
      var s' := Next(cfg, s, step);
      assert OfClass(s'.arrivals, c) == OfClass(s.arrivals, c) + OfClass(ParserHand(s'), c) by {
        OfClassSplit(s.arrivals, [pkt], c);
      }
      assert OfClass(ParserHand(s), c) == [];
      assert s.enqueued.Of(c) + [] == s.enqueued.Of(c);
    }
  }

  lemma BothGrow(queue: seq<Packet>, enqueued: seq<Packet>, hand: seq<Packet>)
    requires IsEnd(queue, enqueued) && |hand| == 1
    ensures IsEnd(queue + hand, enqueued + hand)
    ensures enqueued + hand + [] == enqueued + hand
  {
    assert hand == [hand[0]];
    IsEndMoves(queue, enqueued, hand[0]);
  }

  lemma HeadLeaves(queue: seq<Packet>, enqueued: seq<Packet>)
    requires IsEnd(queue, enqueued) && queue != []
    ensures IsEnd(queue[1..], enqueued)
  {
    IsEndMoves(queue, enqueued, queue[0]);
  }

  lemma QueuedOnParserStep(s: State, s': State, c: Priority)
    requires ParserEffect(s, s', c) && s'.arrivals == s.arrivals && Queued(s, c)
    ensures Queued(s', c)
  {
    var q, e, h := s.queues.Of(c), s.enqueued.Of(c), OfClass(ParserHand(s), c);
    if |h| == 1 {
      BothGrow(q, e, h);
    }
    if q != [] {
      HeadLeaves(q, e);
    }
  }

  lemma QueuedOnDispatchStep(s: State, s': State, c: Priority)
    requires DispatchEffect(s, s', c) && s'.arrivals == s.arrivals && s'.enqueued == s.enqueued
    requires s'.parser == s.parser && Queued(s, c)
    ensures Queued(s', c)
  {
    if s.queues.Of(c) != [] {
      HeadLeaves(s.queues.Of(c), s.enqueued.Of(c));
    }
  }

  lemma QueuedStep(cfg: Config, s: State, step: Step, c: Priority)
    requires Bounded(cfg, s) && Queued(s, c)
    ensures Queued(Next(cfg, s, step), c)
  {
    match step
    case Parse(_, _) => QueuedOnParse(cfg, s, step, c);
    case ParserStep(locked) =>
      ParserOnClass(cfg, s, locked, c);
      ParserTouchesNothingElse(cfg, s, locked);
      QueuedOnParserStep(s, ParserMove(cfg, s, locked), c);
    case DispatchStep =>
      DispatcherOnClass(cfg, s, c);
      DispatcherTouchesNothingElse(cfg, s);
      QueuedOnDispatchStep(s, DispatchMove(cfg, s), c);
    case Consume =>
  }

  // ----- Overflow accounting -----------------------------------------------------------------

  ghost predicate Accounted(s: State) {
    && s.overflows == |s.overflowed|
    && s.overflows == |s.evicted| + s.emptyEvicts + (if s.parser.Logging? || s.parser.Evicting? then 1 else 0)
    && (s.parser.Logging? ==> s.parser.total == s.overflows && s.overflowed[s.overflows - 1] == s.parser.pkt)
  }

  /** The running totals of a log. */
  predicate Growing(log: seq<OverflowEvent>) {
    forall i, j | 0 <= i < j < |log| :: log[i].totalDrops < log[j].totalDrops
  }

  /** An entry not from the future that describes the packet that overflowed. */
  predicate Fits(ev: OverflowEvent, overflowed: seq<Packet>, latest: int) {
    1 <= ev.totalDrops <= latest <= |overflowed| && Describes(ev, overflowed[ev.totalDrops - 1])
  }

  predicate Describes(ev: OverflowEvent, pkt: Packet) {
    ev.domain == pkt.domain && ev.priority == pkt.priority
  }

  ghost predicate LogFits(log: seq<OverflowEvent>, overflowed: seq<Packet>, latest: int) {
    && |log| <= LOG_CAPACITY && Growing(log)
    && forall i | 0 <= i < |log| :: Fits(log[i], overflowed, latest)
  }

  ghost predicate Logged(s: State) {
    LogFits(s.log, s.overflowed, s.overflows - if s.parser.Logging? then 1 else 0)
  }

  lemma LogDrops(log: seq<OverflowEvent>, overflowed: seq<Packet>, latest: int)
    requires LogFits(log, overflowed, latest) && log != []
    ensures LogFits(log[1..], overflowed, latest)
  {
    var rest := log[1..];
    assert forall i | 0 <= i < |rest| :: rest[i] == log[i + 1];
  }

  lemma LogAppends(log: seq<OverflowEvent>, overflowed: seq<Packet>, latest: int, ev: OverflowEvent)
    requires LogFits(log, overflowed, latest) && 0 <= latest < |overflowed| && |log| < LOG_CAPACITY
    requires ev.totalDrops == latest + 1 && Describes(ev, overflowed[latest])
    ensures LogFits(log + [ev], overflowed, latest + 1)
  {
    var longer := log + [ev];
    assert forall i | 0 <= i < |log| :: longer[i] == log[i] && Fits(log[i], overflowed, latest);
  }

  lemma LogPush(log: seq<OverflowEvent>, overflowed: seq<Packet>, latest: int, ev: OverflowEvent)
    requires LogFits(log, overflowed, latest) && 0 <= latest < |overflowed|
    requires ev.totalDrops == latest + 1 && Describes(ev, overflowed[latest])
    ensures LogFits(Pushed(log, ev, LOG_CAPACITY), overflowed, latest + 1)
  {
    if |log| < LOG_CAPACITY {
      LogAppends(log, overflowed, latest, ev);
    } else {
      LogDrops(log, overflowed, latest);
      LogAppends(log[1..], overflowed, latest, ev);
    }
  }

  lemma LogGrows(log: seq<OverflowEvent>, overflowed: seq<Packet>, latest: int, pkt: Packet)
    requires LogFits(log, overflowed, latest)
    ensures LogFits(log, overflowed + [pkt], latest)
  {
    forall i | 0 <= i < |log|
      ensures Fits(log[i], overflowed + [pkt], latest)
    {
      assert Fits(log[i], overflowed, latest);
    }
  }

  lemma AccountedStep(cfg: Config, s: State, step: Step)
    requires Accounted(s)
    ensures Accounted(Next(cfg, s, step))
  {
  }

  lemma OnlyTheParserLogs(cfg: Config, s: State, step: Step)
    requires step.ParserStep? ==> !s.parser.Counting? && !s.parser.Logging?
    ensures var s' := Next(cfg, s, step);
            && s'.log == s.log && s'.overflowed == s.overflowed && s'.overflows == s.overflows
            && s'.parser.Logging? == s.parser.Logging?
  {
  }

  lemma LoggedOnCount(cfg: Config, s: State, locked: bool)
    requires Accounted(s) && Logged(s) && s.parser.Counting?
    ensures Logged(ParserMove(cfg, s, locked))
  {
    LogGrows(s.log, s.overflowed, s.overflows, s.parser.pkt);
  }

  lemma LoggedOnLog(cfg: Config, s: State, locked: bool)
    requires Accounted(s) && Logged(s) && s.parser.Logging?
    ensures Logged(ParserMove(cfg, s, locked))
  {
    if locked {
      var ev := OverflowEvent(s.parser.pkt.domain, s.parser.pkt.priority, s.parser.total);
      LogPush(s.log, s.overflowed, s.overflows - 1, ev);
    } else {
      LogWaits(s.log, s.overflowed, s.overflows - 1);
    }
  }

  lemma LoggedStep(cfg: Config, s: State, step: Step)
    requires Accounted(s) && Logged(s)
    ensures Logged(Next(cfg, s, step))
  {
    if step.ParserStep? && s.parser.Counting? {
      LoggedOnCount(cfg, s, step.locked);
    } else if step.ParserStep? && s.parser.Logging? {
      LoggedOnLog(cfg, s, step.locked);
    } else {
      OnlyTheParserLogs(cfg, s, step);
    }
  }

  lemma LogWaits(log: seq<OverflowEvent>, overflowed: seq<Packet>, latest: int)
    requires LogFits(log, overflowed, latest) && latest < |overflowed|
    ensures LogFits(log, overflowed, latest + 1)
  {
    forall i | 0 <= i < |log|
      ensures Fits(log[i], overflowed, latest + 1)
    {
      assert Fits(log[i], overflowed, latest);
    }
  }

  // ----- Invariants of every run -------------------------------------------------------------

  lemma {:induction false} BoundedAlways(cfg: Config, steps: seq<Step>)
    requires ValidConfig(cfg)
    ensures Bounded(cfg, Run(cfg, INITIAL, steps)) && Numbered(Run(cfg, INITIAL, steps))
  {
    if steps != [] {
      var p, step := steps[..|steps| - 1], steps[|steps| - 1];
      BoundedAlways(cfg, p);
      BoundedStep(cfg, Run(cfg, INITIAL, p), step);
    }
  }

  lemma {:induction false} OrderedAlways(cfg: Config, steps: seq<Step>, c: Priority)
    requires ValidConfig(cfg)
    ensures Ordered(Run(cfg, INITIAL, steps), c)
  {
    if steps != [] {
      var p, step := steps[..|steps| - 1], steps[|steps| - 1];
      OrderedAlways(cfg, p, c);
      BoundedAlways(cfg, p);
      OrderedStep(cfg, Run(cfg, INITIAL, p), step, c);
    }
  }

  lemma {:induction false} QueuedAlways(cfg: Config, steps: seq<Step>, c: Priority)
    requires ValidConfig(cfg)
    ensures Queued(Run(cfg, INITIAL, steps), c)
  {
    if steps != [] {
      var p, step := steps[..|steps| - 1], steps[|steps| - 1];
      QueuedAlways(cfg, p, c);
      BoundedAlways(cfg, p);
      QueuedStep(cfg, Run(cfg, INITIAL, p), step, c);
    }
  }

  lemma {:induction false} LoggedAlways(cfg: Config, steps: seq<Step>)
    requires ValidConfig(cfg)
    ensures Accounted(Run(cfg, INITIAL, steps)) && Logged(Run(cfg, INITIAL, steps))
  {
    if steps != [] {
      var p, step := steps[..|steps| - 1], steps[|steps| - 1];
      LoggedAlways(cfg, p);
      AccountedStep(cfg, Run(cfg, INITIAL, p), step);
      LoggedStep(cfg, Run(cfg, INITIAL, p), step);
    }
  }

  // ----- Main results ------------------------------------------------------------------------

  /** Exactly once: in every state of every interleaving each parsed packet is in exactly one place. */
  lemma {:induction false} ExactlyOnce(cfg: Config, steps: seq<Step>, i: nat)
    requires ValidConfig(cfg) && i < |Run(cfg, INITIAL, steps).arrivals|
    ensures var s := Run(cfg, INITIAL, steps);
            var p := s.arrivals[i];
            Count(ParserHand(s), p) + Count(s.queues.high, p) + Count(s.queues.low, p) + Count(s.evicted, p)
            + Count(DispatchHand(s), p) + Count(s.dropped, p) + Count(s.out, p) + Count(s.processed, p) == 1
  {
    BoundedAlways(cfg, steps);
    var s := Run(cfg, INITIAL, steps);
    Conserved(cfg, steps, s.arrivals[i]);
    OccursOnce(s.arrivals, i);
  }

  lemma {:induction false} OccursOnce(pkts: seq<Packet>, i: nat)
    requires i < |pkts| && forall k | 0 <= k < |pkts| :: pkts[k].id == k
    ensures Count(pkts, pkts[i]) == 1
  {
    var p := pkts[..|pkts| - 1];
    if i < |p| {
      OccursOnce(p, i);
    } else {
      CountIn(p, pkts[i]);
    }
  }

  /** The newest packet is never lost at the scheduler: no retry fails, and once the parser is back at the
      head of its loop, every arrival of a class has been enqueued, in arrival order. */
  lemma {:induction false} RetryNeverFails(cfg: Config, steps: seq<Step>, c: Priority)
    requires ValidConfig(cfg)
    ensures var s := Run(cfg, INITIAL, steps);
            && s.refused == []
            && OfClass(s.arrivals, c) == s.enqueued.Of(c) + OfClass(ParserHand(s), c)
            && (s.parser.Retrying? ==> Next(cfg, s, ParserStep(true)).queues == Append(s.queues, s.parser.pkt))
  {
    BoundedAlways(cfg, steps);
    QueuedAlways(cfg, steps, c);
  }

  /** Order through three lossy stages: a queue is always a contiguous end of its class's enqueues, and
      what reaches the hot path is a subsequence of the arrivals, each packet the arrival that its id
      names, with strictly growing ids. */
  lemma {:induction false} OrderIsPreserved(cfg: Config, steps: seq<Step>, c: Priority)
    requires ValidConfig(cfg)
    ensures var s := Run(cfg, INITIAL, steps);
            && IsEnd(s.queues.Of(c), s.enqueued.Of(c))
            && Increasing(OfClass(s.processed, c))
            && (forall k | 0 <= k < |s.processed| ::
                  s.processed[k].id < |s.arrivals| && s.arrivals[s.processed[k].id] == s.processed[k])
  {
    OrderedAlways(cfg, steps, c);
    QueuedAlways(cfg, steps, c);
    var s := Run(cfg, INITIAL, steps);
    assert forall k | 0 <= k < |OfClass(s.processed, c)| :: OfClass(s.processed, c)[k] == Flow(s, c)[k];
    forall k | 0 <= k < |s.processed|
      ensures s.processed[k].id < |s.arrivals| && s.arrivals[s.processed[k].id] == s.processed[k]
    {
      ProcessedWasParsed(cfg, steps, k);
    }
  }

  lemma {:induction false} ProcessedWasParsed(cfg: Config, steps: seq<Step>, k: nat)
    requires ValidConfig(cfg) && k < |Run(cfg, INITIAL, steps).processed|
    ensures var s := Run(cfg, INITIAL, steps);
            s.processed[k].id < |s.arrivals| && s.arrivals[s.processed[k].id] == s.processed[k]
  {
    BoundedAlways(cfg, steps);
    var s := Run(cfg, INITIAL, steps);
    var p := s.processed[k];
    Conserved(cfg, steps, p);
    CountIn(s.processed, p);
    CountIn(s.arrivals, p);
    var i :| 0 <= i < |s.arrivals| && s.arrivals[i] == p;
  }

  /** Overflow accounting: every overflow is an eviction, or an evict call that found the queue already
      drained, or still in progress; the log never exceeds its capacity, and its running totals grow
      strictly, are bounded by the counter and name the packet that arrived, whichever locks failed. */
  lemma {:induction false} OverflowsAreAccounted(cfg: Config, steps: seq<Step>)
    requires ValidConfig(cfg)
    ensures var s := Run(cfg, INITIAL, steps);
            && s.overflows == |s.evicted| + s.emptyEvicts + (if s.parser.Logging? || s.parser.Evicting? then 1 else 0)
            && |s.log| <= LOG_CAPACITY && Growing(s.log)
            && (forall i | 0 <= i < |s.log| :: Fits(s.log[i], s.overflowed, s.overflows))
            && s.overflows == |s.overflowed|
  {
    LoggedAlways(cfg, steps);
    var s := Run(cfg, INITIAL, steps);
    forall i | 0 <= i < |s.log|
      ensures Fits(s.log[i], s.overflowed, s.overflows)
    {
      assert Fits(s.log[i], s.overflowed, s.overflows - if s.parser.Logging? then 1 else 0);
    }
  }

  /** The overflows that were to be logged when the lock was free. */
  function Loggable(cfg: Config, steps: seq<Step>): seq<OverflowEvent> {
    if steps == [] then []
    else
      var p, step := steps[..|steps| - 1], steps[|steps| - 1];
      match Run(cfg, INITIAL, p).parser
      case Logging(pkt, total) =>
        if step != ParserStep(true) then Loggable(cfg, p)
        else Loggable(cfg, p) + [OverflowEvent(pkt.domain, pkt.priority, total)]
      case _ => Loggable(cfg, p)
  }

  /** The log holds exactly the latest of them. */
  lemma {:induction false} LogHoldsTheLatest(cfg: Config, steps: seq<Step>)
    ensures Run(cfg, INITIAL, steps).log == Suffix(Loggable(cfg, steps), 10_000)
  {
    if steps != [] {
      var p, step := steps[..|steps| - 1], steps[|steps| - 1];
      var s := Run(cfg, INITIAL, p);
      LogHoldsTheLatest(cfg, p);
      if s.parser.Logging? && step == ParserStep(true) {
        var ev := OverflowEvent(s.parser.pkt.domain, s.parser.pkt.priority, s.parser.total);
        PushMovesSuffix(Loggable(cfg, p), ev, 10_000);
      }
    }
  }

  // ----- Priority ----------------------------------------------------------------------------

  lemma WaitStep(cfg: Config, s: State, step: Step)
    requires step != DispatchStep
    ensures var s' := Next(cfg, s, step);
            && s'.dispatcher == s.dispatcher
            && s.enqueued.high <= s'.enqueued.high
            && |s'.enqueued.high| - |s'.queues.high| >= |s.enqueued.high| - |s.queues.high|
  {
  }

  lemma {:induction false} WhileDispatcherWaits(cfg: Config, s: State, steps: seq<Step>)
    requires forall i | 0 <= i < |steps| :: steps[i] != DispatchStep
    ensures var s' := Run(cfg, s, steps);
            && s'.dispatcher == s.dispatcher
            && s.enqueued.high <= s'.enqueued.high
            && |s'.enqueued.high| - |s'.queues.high| >= |s.enqueued.high| - |s.queues.high|
  {
    if steps != [] {
      WhileDispatcherWaits(cfg, s, steps[..|steps| - 1]);
      WaitStep(cfg, Run(cfg, s, steps[..|steps| - 1]), steps[|steps| - 1]);
    }
  }

  lemma {:induction false} RunSplit(cfg: Config, s: State, a: seq<Step>, b: seq<Step>)
    ensures Run(cfg, s, a + b) == Run(cfg, Run(cfg, s, a), b)
  {
    if b == [] {
      assert a + b == a;
    } else {
      assert (a + b)[..|a + b| - 1] == a + b[..|b| - 1];
      RunSplit(cfg, s, a, b[..|b| - 1]);
    }
  }

  /** No priority inversion, although the two polls are separate steps: when the dispatcher takes a bot
      packet, every human packet enqueued before that call polled the high queue has left the high queue,
      whatever the others did between the two polls. */
  lemma {:induction false} NoPriorityInversion(cfg: Config, before: seq<Step>, between: seq<Step>)
    requires ValidConfig(cfg)
    requires forall i | 0 <= i < |between| :: between[i] != DispatchStep
    requires var s := Run(cfg, INITIAL, before);
             s.dispatcher == PollHigh && Next(cfg, s, DispatchStep).dispatcher == PollLow
    ensures var s := Run(cfg, INITIAL, before);
            var low := Run(cfg, Next(cfg, s, DispatchStep), between);
            && low.dispatcher == PollLow
            && s.enqueued.high <= low.enqueued.high
            && IsEnd(low.queues.high, low.enqueued.high)
            && |low.queues.high| <= |low.enqueued.high| - |s.enqueued.high|
            && (low.queues.low != [] ==> Next(cfg, low, DispatchStep).dispatcher == Holding(low.queues.low[0]))
  {
    var s := Run(cfg, INITIAL, before);
    WhileDispatcherWaits(cfg, Next(cfg, s, DispatchStep), between);
    assert (before + [DispatchStep])[..|before|] == before;
    RunSplit(cfg, INITIAL, before + [DispatchStep], between);
    QueuedAlways(cfg, before + [DispatchStep] + between, High);
  }

  /** Where the dispatcher last moved. */
  function LastDispatch(steps: seq<Step>): (n: nat)
    requires DispatchStep in steps
    ensures n < |steps| && steps[n] == DispatchStep
    ensures forall i | n < i < |steps| :: steps[i] != DispatchStep
  {
    if steps[|steps| - 1] == DispatchStep then |steps| - 1 else LastDispatch(steps[..|steps| - 1])
  }

  lemma {:induction false} DispatcherMoved(cfg: Config, steps: seq<Step>)
    requires Run(cfg, INITIAL, steps).dispatcher != PollHigh
    ensures DispatchStep in steps
  {
    if DispatchStep !in steps {
      WhileDispatcherWaits(cfg, INITIAL, steps);
    }
  }

  lemma OnlyPollHighLeadsToPollLow(cfg: Config, s: State)
    ensures DispatchMove(cfg, s).dispatcher == PollLow ==> s.dispatcher == PollHigh
  {
  }

  /** So it is with every bot packet ever taken: whenever the dispatcher is about to poll the low queue, every
      human packet enqueued before its last step, which polled the high queue, has left the high queue. */
  lemma {:induction false} NoPriorityInversionEver(cfg: Config, steps: seq<Step>)
    requires ValidConfig(cfg) && Run(cfg, INITIAL, steps).dispatcher == PollLow
    ensures DispatchStep in steps
    ensures var low, s := Run(cfg, INITIAL, steps), Run(cfg, INITIAL, steps[..LastDispatch(steps)]);
            && s.dispatcher == PollHigh && s.queues.high == []
            && s.enqueued.high <= low.enqueued.high
            && IsEnd(low.queues.high, low.enqueued.high)
            && |low.queues.high| <= |low.enqueued.high| - |s.enqueued.high|
            && (low.queues.low != [] ==> Next(cfg, low, DispatchStep).dispatcher == Holding(low.queues.low[0]))
  {
    DispatcherMoved(cfg, steps);
    var n := LastDispatch(steps);
    var before, between := steps[..n], steps[n + 1..];
    var s := Run(cfg, INITIAL, before);
    assert steps == (before + [DispatchStep]) + between;
    assert (before + [DispatchStep])[..n] == before;
    RunSplit(cfg, INITIAL, before + [DispatchStep], between);
    WhileDispatcherWaits(cfg, Next(cfg, s, DispatchStep), between);
    OnlyPollHighLeadsToPollLow(cfg, s);
    NoPriorityInversion(cfg, before, between);
  }

  lemma DrainStep(cfg: Config, s: State, step: Step)
    requires step == DispatchStep || step == Consume
    requires s.dispatcher == PollLow ==> s.queues.high == []
    ensures var s' := Next(cfg, s, step);
            && (s'.dispatcher == PollLow ==> s'.queues.high == [])
            && (s'.queues == s.queues || s'.queues == s.queues.Rest())
  {
  }

  /** How often the dispatcher took a packet out of a queue. */
  function Taken(cfg: Config, s: State, steps: seq<Step>): nat {
    if steps == [] then 0
    else
      var p := steps[..|steps| - 1];
      Taken(cfg, s, p) + if Run(cfg, s, steps).queues == Run(cfg, s, p).queues then 0 else 1
  }

  lemma {:induction false} Drains(cfg: Config, s: State, steps: seq<Step>)
    requires s.dispatcher == PollLow ==> s.queues.high == []
    requires forall i | 0 <= i < |steps| :: steps[i] == DispatchStep || steps[i] == Consume
    ensures Run(cfg, s, steps).queues == Rests(s.queues, Taken(cfg, s, steps))
    ensures Run(cfg, s, steps).dispatcher == PollLow ==> Run(cfg, s, steps).queues.high == []
  {
    if steps != [] {
      var p, step := steps[..|steps| - 1], steps[|steps| - 1];
      var s1 := Run(cfg, s, p);
      Drains(cfg, s, p);
      DrainStep(cfg, s1, step);
      if Next(cfg, s1, step).queues != s1.queues {
        assert Taken(cfg, s, steps) == Taken(cfg, s, p) + 1;
      }
    }
  }

  /** With no enqueues going on, draining yields all human packets first in first out, then all bot packets
      first in first out: at any time what has left is the front of "all human, then all bot". */
  lemma {:induction false} DrainsInOrder(cfg: Config, s: State, steps: seq<Step>)
    requires s.dispatcher == PollLow ==> s.queues.high == []
    requires forall i | 0 <= i < |steps| :: steps[i] == DispatchStep || steps[i] == Consume
    ensures Run(cfg, s, steps).queues == s.queues.After(Taken(cfg, s, steps))
    ensures Run(cfg, s, steps).dispatcher == PollLow ==> Run(cfg, s, steps).queues.high == []
  {
    Drains(cfg, s, steps);
    RestsAreAfter(s.queues, Taken(cfg, s, steps));
  }

  // ----- What reaches the hot path -----------------------------------------------------------

  /** Packets that are still on their way. */
  function InFlight(s: State): nat {
    |ParserHand(s)| + |s.queues.high| + |s.queues.low| + |DispatchHand(s)| + |s.out|
  }

  lemma PlacesStep(cfg: Config, s: State, step: Step)
    requires Bounded(cfg, s) && Bounded(cfg, Next(cfg, s, step))
    ensures var s' := Next(cfg, s, step);
            InFlight(s') + |s'.evicted| + |s'.dropped| + |s'.processed| + |s.arrivals|
              == InFlight(s) + |s.evicted| + |s.dropped| + |s.processed| + |s'.arrivals|
  {
  }

  lemma {:induction false} PlacesAddUp(cfg: Config, steps: seq<Step>)
    requires ValidConfig(cfg)
    ensures var s := Run(cfg, INITIAL, steps);
            |s.arrivals| == InFlight(s) + |s.evicted| + |s.dropped| + |s.processed|
  {
    if steps != [] {
      var p := steps[..|steps| - 1];
      PlacesAddUp(cfg, p);
      BoundedAlways(cfg, p);
      BoundedAlways(cfg, steps);
      PlacesStep(cfg, Run(cfg, INITIAL, p), steps[|steps| - 1]);
    }
  }

  lemma {:induction false} RunOneMore(cfg: Config, s: State, steps: seq<Step>, step: Step)
    ensures Run(cfg, s, steps + [step]) == Next(cfg, Run(cfg, s, steps), step)
  {
    assert (steps + [step])[..|steps|] == steps;
  }

  /** Only a full output channel loses a packet: in every run a packet is dropped exactly when the dispatcher
      moves with that packet in hand and the channel holds `outCapacity` packets; with room left, what it holds
      goes to the back of the channel. */
  lemma {:induction false} DropsExactlyWhenFull(cfg: Config, steps: seq<Step>, step: Step)
    requires ValidConfig(cfg)
    ensures var s, s' := Run(cfg, INITIAL, steps), Run(cfg, INITIAL, steps + [step]);
            && |s.out| <= cfg.outCapacity
            && (s'.dropped != s.dropped <==>
                  step == DispatchStep && s.dispatcher.Holding? && |s.out| == cfg.outCapacity)
            && (s'.dropped != s.dropped ==> s'.dropped == s.dropped + DispatchHand(s) && s'.out == s.out)
            && (step == DispatchStep && s.dispatcher.Holding? && |s.out| < cfg.outCapacity ==>
                  s'.out == s.out + [s.dispatcher.pkt])
            && (step == DispatchStep && s.dispatcher.Holding? ==> s'.dispatcher == PollHigh)
  {
    BoundedAlways(cfg, steps);
    RunOneMore(cfg, INITIAL, steps, step);
    var s := Run(cfg, INITIAL, steps);
    assert s.dispatcher.Holding? ==> s.dropped + [s.dispatcher.pkt] != s.dropped;
  }

  /** A run that parses no more packets than the output channel holds drops none of them. */
  lemma {:induction false} FewArrivalsAreNotDropped(cfg: Config, steps: seq<Step>)
    requires ValidConfig(cfg) && |Run(cfg, INITIAL, steps).arrivals| <= cfg.outCapacity
    ensures Run(cfg, INITIAL, steps).dropped == []
  {
    if steps != [] {
      var p, step := steps[..|steps| - 1], steps[|steps| - 1];
      assert steps == p + [step];
      ArrivalsStay(cfg, Run(cfg, INITIAL, p), step);
      FewArrivalsAreNotDropped(cfg, p);
      DropsExactlyWhenFull(cfg, p, step);
      PlacesAddUp(cfg, p);
    }
  }

  lemma ArrivalsStay(cfg: Config, s: State, step: Step)
    ensures |s.arrivals| <= |Next(cfg, s, step).arrivals|
  {
  }

  function Dispatches(n: nat): (steps: seq<Step>)
    ensures |steps| == n && forall i | 0 <= i < n :: steps[i] == DispatchStep
  {
    seq(n, _ => DispatchStep)
  }

  lemma {:induction false} DispatchesSplit(cfg: Config, s: State, m: nat, n: nat)
    ensures Run(cfg, s, Dispatches(m + n)) == Run(cfg, Run(cfg, s, Dispatches(m)), Dispatches(n))
  {
    RunSplit(cfg, s, Dispatches(m), Dispatches(n));
    assert Dispatches(m) + Dispatches(n) == Dispatches(m + n);
  }

  lemma {:induction false} ThreeDispatches(cfg: Config, s: State)
    ensures Run(cfg, s, Dispatches(2)) == DispatchMove(cfg, DispatchMove(cfg, s))
    ensures Run(cfg, s, Dispatches(3)) == DispatchMove(cfg, DispatchMove(cfg, DispatchMove(cfg, s)))
  {
    assert Dispatches(3)[..2] == Dispatches(2) && Dispatches(2)[..1] == Dispatches(1) && Dispatches(1)[..0] == [];
    assert Run(cfg, s, Dispatches(1)) == DispatchMove(cfg, s);
  }

  /** A whole poll takes the next packet, if there is one, and sends it or drops it. */
  ghost predicate Polled(cfg: Config, s: State, s': State) {
    var next := Scheduler.Next(s.queues);
    && s'.dispatcher == PollHigh && s'.queues == s.queues.Rest() && s'.processed == s.processed
    && (next.None? ==> s'.out == s.out && s'.dropped == s.dropped)
    && (next.Some? && |s.out| < cfg.outCapacity ==> s'.out == s.out + [next.value] && s'.dropped == s.dropped)
    && (next.Some? && |s.out| >= cfg.outCapacity ==> s'.out == s.out && s'.dropped == s.dropped + [next.value])
  }

  lemma OnePoll(cfg: Config, s: State) returns (n: nat)
    requires s.dispatcher == PollHigh
    ensures Polled(cfg, s, Run(cfg, s, Dispatches(n)))
  {
    n := if s.queues.high == [] && s.queues.low != [] then 3 else 2;
    ThreeDispatches(cfg, s);
  }

  /** `s'` is what `polls` polls make of `s`: what they take is sent as far as it fits, and the rest dropped. */
  ghost predicate Forwarded(cfg: Config, s: State, s': State, polls: nat) {
    var taken := Scheduler.Taken(s.queues, polls);
    && s'.dispatcher == PollHigh && s'.queues == Rests(s.queues, polls) && s'.processed == s.processed
    && s'.out == Sent(s.out, taken, cfg.outCapacity)
    && s'.dropped == s.dropped + Lost(s.out, taken, cfg.outCapacity)
  }

  lemma ForwardedOneMore(cfg: Config, s: State, s1: State, s2: State, polls: nat)
    requires Forwarded(cfg, s, s1, polls) && Polled(cfg, s1, s2)
    ensures Forwarded(cfg, s, s2, polls + 1)
  {
    var taken, next := Scheduler.Taken(s.queues, polls), Scheduler.Next(s1.queues);
    if next.Some? {
      SendOneMore(s.out, taken, next.value, cfg.outCapacity);
      Append3(s.dropped, Lost(s.out, taken, cfg.outCapacity), [next.value]);
    }
  }

  lemma OnePollMore(cfg: Config, s: State, m: nat, polls: nat) returns (n: nat)
    requires Forwarded(cfg, s, Run(cfg, s, Dispatches(m)), polls)
    ensures Forwarded(cfg, s, Run(cfg, s, Dispatches(n)), polls + 1)
  {
    var s1 := Run(cfg, s, Dispatches(m));
    var k := OnePoll(cfg, s1);
    DispatchesSplit(cfg, s, m, k);
    ForwardedOneMore(cfg, s, s1, Run(cfg, s1, Dispatches(k)), polls);
    n := m + k;
  }

  lemma {:induction false} NothingForwarded(cfg: Config, s: State)
    requires s.dispatcher == PollHigh
    ensures Forwarded(cfg, s, s, 0) && Run(cfg, s, Dispatches(0)) == s
  {
    assert s.dropped + [] == s.dropped;
  }

  lemma {:induction false} DispatcherAlone(cfg: Config, s: State, polls: nat) returns (n: nat)
    requires s.dispatcher == PollHigh
    ensures Forwarded(cfg, s, Run(cfg, s, Dispatches(n)), polls)
    decreases polls
  {
    if polls == 0 {
      n := 0;
      NothingForwarded(cfg, s);
    } else {
      var m := DispatcherAlone(cfg, s, polls - 1);
      n := OnePollMore(cfg, s, m, polls - 1);
    }
  }

  /** The dispatcher of the protocol, left alone, does what the dispatch loop does: the front of "all human, then
      all bot" goes to the output channel as far as it fits, and the rest of that front is dropped. */
  lemma DispatcherAloneIsTheLoop(cfg: Config, s: State, polls: nat) returns (n: nat, lost: seq<Packet>)
    requires s.dispatcher == PollHigh && |s.out| <= cfg.outCapacity
    ensures var s' := Run(cfg, s, Dispatches(n));
            && s'.dispatcher == PollHigh && s'.queues == s.queues.After(polls) && s'.processed == s.processed
            && s'.dropped == s.dropped + lost
            && s'.out + lost == s.out + Front(s.queues, polls)
            && |s'.out| == Min(|s.out| + |Front(s.queues, polls)|, cfg.outCapacity)
  {
    n := DispatcherAlone(cfg, s, polls);
    lost := Lost(s.out, Scheduler.Taken(s.queues, polls), cfg.outCapacity);
    RestsAreAfter(s.queues, polls);
    TakenIsFront(s.queues, polls);
    SentOrLost(s.out, Scheduler.Taken(s.queues, polls), cfg.outCapacity);
  }

  /** What the dispatcher and the consumer still have before them, in the order in which they will get to it. */
  function Pending(s: State): seq<Packet> {
    s.out + DispatchHand(s) + (s.queues.high + s.queues.low)
  }

  /** Bounds the number of draining steps. */
  function Work(s: State): nat {
    5 * (|s.queues.high| + |s.queues.low|) + 3 * |DispatchHand(s)| + |s.out| + if s.dispatcher == PollHigh then 1 else 0
  }

  lemma ConsumeDelivers(cfg: Config, s: State)
    requires s.out != []
    ensures var s' := Next(cfg, s, Consume);
            && s'.processed + Pending(s') == s.processed + Pending(s)
            && Work(s') < Work(s) && s'.dropped == s.dropped && s'.parser == s.parser
            && s'.dispatcher == s.dispatcher && s'.queues == s.queues
  {
    HeadMoves(s.processed, s.out);
    Append3(s.processed, s.out, DispatchHand(s));
    Append3(s.processed, s.out + DispatchHand(s), s.queues.high + s.queues.low);
    Append3(s.processed + [s.out[0]], s.out[1..], DispatchHand(s));
    Append3(s.processed + [s.out[0]], s.out[1..] + DispatchHand(s), s.queues.high + s.queues.low);
  }

  lemma DispatchDelivers(cfg: Config, s: State)
    requires ValidConfig(cfg) && s.out == [] && (s.dispatcher == PollLow ==> s.queues.high == [])
    requires s.dispatcher.Holding? || s.queues.high != [] || s.queues.low != []
    ensures var s' := DispatchMove(cfg, s);
            && s'.processed == s.processed && Pending(s') == Pending(s)
            && Work(s') < Work(s) && s'.dropped == s.dropped && s'.parser == s.parser
            && (s'.dispatcher == PollLow ==> s'.queues.high == [])
  {
  }

  lemma {:induction false} RunFirst(cfg: Config, s: State, step: Step, rest: seq<Step>)
    ensures Run(cfg, s, [step] + rest) == Run(cfg, Next(cfg, s, step), rest)
  {
    RunSplit(cfg, s, [step], rest);
    RunOneMore(cfg, s, [], step);
    assert [] + [step] == [step];
  }

  /** Nothing need be lost: from every state, some draining steps bring everything that has been enqueued to the
      hot path, what was sent already first, then all human, then all bot packets. */
  lemma {:induction false} EverythingCanBeDelivered(cfg: Config, s: State) returns (steps: seq<Step>)
    requires ValidConfig(cfg) && (s.dispatcher == PollLow ==> s.queues.high == [])
    ensures forall i | 0 <= i < |steps| :: steps[i] == DispatchStep || steps[i] == Consume
    ensures var s' := Run(cfg, s, steps);
            s'.processed == s.processed + Pending(s) && Pending(s') == [] && s'.dropped == s.dropped
    decreases Work(s)
  {
    if Pending(s) == [] {
      steps := [];
      assert s.processed + [] == s.processed;
    } else {
      var step := if s.out != [] then Consume else DispatchStep;
      if s.out != [] {
        ConsumeDelivers(cfg, s);
      } else {
        DispatchDelivers(cfg, s);
      }
      var rest := EverythingCanBeDelivered(cfg, Next(cfg, s, step));
      RunFirst(cfg, s, step, rest);
      steps := [step] + rest;
    }
  }

  // ----- Without interference ----------------------------------------------------------------

  /** `n` parser steps in a row. */
  function ParserAlone(cfg: Config, s: State, n: nat, locked: bool): State
    decreases n
  {
    if n == 0 then s else ParserAlone(cfg, ParserMove(cfg, s, locked), n - 1, locked)
  }

  /** A retry, and an eviction followed by one, with nothing in between. */
  lemma EvictAndRetry(cfg: Config, s: State, locked: bool)
    requires ValidConfig(cfg) && s.queues.Valid(cfg.capacity)
    requires s.parser.Evicting? && |s.queues.Of(s.parser.pkt.priority)| == cfg.capacity
    ensures var pkt, s' := s.parser.pkt, ParserMove(cfg, ParserMove(cfg, s, locked), locked);
            s'.parser == Ready
            && s'.queues == s.queues.With(pkt.priority, Pushed(s.queues.Of(pkt.priority), pkt, cfg.capacity))
  {
  }

  /** Left alone, the parser is done with a packet after five steps at most, and what it does to the
      queue is what the sequential drop-oldest block does: append, or replace the oldest. */
  lemma {:induction false} OfferAlone(cfg: Config, s: State, locked: bool)
    requires ValidConfig(cfg) && s.queues.Valid(cfg.capacity) && s.parser.FirstTry?
    ensures var pkt, s' := s.parser.pkt, ParserAlone(cfg, s, 5, locked);
            s'.parser == Ready
            && s'.queues == s.queues.With(pkt.priority, Pushed(s.queues.Of(pkt.priority), pkt, cfg.capacity))
  {
    var s1 := ParserMove(cfg, s, locked);
    var s2 := ParserMove(cfg, s1, locked);
    var s3 := ParserMove(cfg, s2, locked);
    if |s.queues.Of(s.parser.pkt.priority)| == cfg.capacity {
      EvictAndRetry(cfg, s3, locked);
    }
    var s4 := ParserMove(cfg, s3, locked);
    assert ParserAlone(cfg, s, 5, locked) == ParserAlone(cfg, s2, 3, locked);
    assert ParserAlone(cfg, s2, 3, locked) == ParserAlone(cfg, s4, 1, locked);
    assert ParserAlone(cfg, s4, 1, locked) == ParserMove(cfg, s4, locked);
  }

  // ----- Without a dispatcher ----------------------------------------------------------------

  /** How a queue relates to its enqueue history when nothing but the parser takes packets out of it. */
  ghost predicate IsLatest(capacity: nat, q: seq<Packet>, e: seq<Packet>, pc: ParserPc)
    requires capacity >= 1
  {
    if pc.Retrying? then |e| >= capacity && q == Suffix(e, capacity - 1)
    else q == Suffix(e, capacity) && (pc.Counting? || pc.Logging? || pc.Evicting? ==> |q| >= capacity)
  }

  ghost predicate Latest(cfg: Config, s: State, c: Priority)
    requires ValidConfig(cfg)
  {
    IsLatest(cfg.capacity, s.queues.Of(c), s.enqueued.Of(c),
             if s.parser != Ready && s.parser.pkt.priority == c then s.parser else Ready)
  }

  lemma SuffixFacts(e: seq<Packet>, x: Packet, n: nat)
    requires n >= 1
    ensures |Suffix(e, n)| < n ==> Suffix(e + [x], n) == Suffix(e, n) + [x]
    ensures |e| >= n ==> |Suffix(e, n)| == n && Suffix(e, n)[1..] == Suffix(e, n - 1) && |Suffix(e, n - 1)| == n - 1
    ensures |e| >= n ==> Suffix(e + [x], n) == Suffix(e, n - 1) + [x]
  {
  }

  lemma LatestOnParserStep(cfg: Config, s: State, locked: bool, c: Priority)
    requires ValidConfig(cfg) && Latest(cfg, s, c)
    ensures Latest(cfg, ParserMove(cfg, s, locked), c)
  {
    if s.parser != Ready && s.parser.pkt.priority == c {
      SuffixFacts(s.enqueued.Of(c), s.parser.pkt, cfg.capacity);
    }
  }

  lemma LatestStep(cfg: Config, s: State, step: Step, c: Priority)
    requires ValidConfig(cfg) && Latest(cfg, s, c) && step != DispatchStep
    ensures Latest(cfg, Next(cfg, s, step), c)
  {
    if step.ParserStep? {
      LatestOnParserStep(cfg, s, step.locked, c);
    }
  }

  /** Drop-oldest: as long as the dispatcher does not run, a queue holds exactly the last arrivals of its
      class that fit, whenever the parser is at the head of its loop. */
  lemma {:induction false} WithoutDispatcher(cfg: Config, steps: seq<Step>, c: Priority)
    requires ValidConfig(cfg)
    requires forall i | 0 <= i < |steps| :: steps[i] != DispatchStep
    ensures var s := Run(cfg, INITIAL, steps);
            && Latest(cfg, s, c)
            && (s.parser == Ready ==> s.queues.Of(c) == Suffix(OfClass(s.arrivals, c), cfg.capacity))
  {
    if steps != [] {
      var p := steps[..|steps| - 1];
      WithoutDispatcher(cfg, p, c);
      LatestStep(cfg, Run(cfg, INITIAL, p), steps[|steps| - 1], c);
    }
    QueuedAlways(cfg, steps, c);
    var s := Run(cfg, INITIAL, steps);
    if s.parser == Ready {
      assert OfClass(s.arrivals, c) == s.enqueued.Of(c);
    }
  }
}
