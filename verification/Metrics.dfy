/** The observability store: rolling sample windows with percentile queries and bounded event logs. */
module Metrics {
  import opened Types

  const WINDOW: nat := 10_000
  const LOG_CAPACITY: nat := 10_000

  // ----- Sorting and ranks -------------------------------------------------------------------

  predicate Ascending(s: seq<real>) {
    forall i, j | 0 <= i < j < |s| :: s[i] <= s[j]
  }

  /** Where `x` goes in an ascending sequence: before the first element that is not smaller. */
  function Position(x: real, s: seq<real>): (k: nat)
    requires Ascending(s)
    ensures k <= |s|
    ensures forall i | 0 <= i < k :: s[i] < x
    ensures forall i | k <= i < |s| :: x <= s[i]
  {
    if s == [] || x <= s[0] then 0 else 1 + Position(x, s[1..])
  }

  function Insert(x: real, s: seq<real>): (r: seq<real>)
    requires Ascending(s)
    ensures Ascending(r) && multiset(r) == multiset(s) + multiset{x}
  {
    var k := Position(x, s);
    MultisetOfInsertion(x, s, k);
    s[..k] + [x] + s[k..]
  }

  /** The sorted copy of a window. */
  function Sorted(s: seq<real>): (r: seq<real>)
    ensures Ascending(r) && multiset(r) == multiset(s) && |r| == |s|
  {
    if s == [] then []
    else
      assert s == [s[0]] + s[1..];
      Insert(s[0], Sorted(s[1..]))
  }

  /** How many samples are at most `v`. */
  function AtMost(s: seq<real>, v: real): nat {
    if s == [] then 0 else (if s[0] <= v then 1 else 0) + AtMost(s[1..], v)
  }

  /** How many samples are at least `v`. */
  function AtLeast(s: seq<real>, v: real): nat {
    if s == [] then 0 else (if s[0] >= v then 1 else 0) + AtLeast(s[1..], v)
  }

  lemma {:induction false} AtMostAt(s: seq<real>, k: nat, v: real)
    requires k < |s|
    ensures AtMost(s, v) == AtMost(s[..k] + s[k + 1..], v) + if s[k] <= v then 1 else 0
    ensures AtLeast(s, v) == AtLeast(s[..k] + s[k + 1..], v) + if s[k] >= v then 1 else 0
  {
    if k == 0 {
      assert s[..0] + s[1..] == s[1..];
    } else {
      AtMostAt(s[1..], k - 1, v);
      assert (s[..k] + s[k + 1..])[1..] == s[1..][..k - 1] + s[1..][k..];
    }
  }

  /** Ranks depend on the samples only, not on their order. */
  lemma {:induction false} RanksArePermutationInvariant(a: seq<real>, b: seq<real>, v: real)
    requires multiset(a) == multiset(b)
    ensures AtMost(a, v) == AtMost(b, v) && AtLeast(a, v) == AtLeast(b, v)
    decreases |a|
  {
    if a == [] {
      assert |multiset(b)| == 0;
    } else {
      assert a[0] in multiset(b);
      var k :| 0 <= k < |b| && b[k] == a[0];
      assert b == b[..k] + ([a[0]] + b[k + 1..]);
      TakeOut(a, b[..k], b[k + 1..]);
      RanksArePermutationInvariant(a[1..], b[..k] + b[k + 1..], v);
      AtMostAt(b, k, v);
    }
  }

  lemma {:induction false} RanksInSorted(s: seq<real>, k: nat)
    requires Ascending(s) && k < |s|
    ensures AtMost(s, s[k]) >= k + 1 && AtLeast(s, s[k]) >= |s| - k
  {
    if k > 0 {
      RanksInSorted(s[1..], k - 1);
    } else {
      AllAtLeast(s, s[0]);
    }
  }

  lemma {:induction false} AllAtLeast(s: seq<real>, v: real)
    requires forall i | 0 <= i < |s| :: s[i] >= v
    ensures AtLeast(s, v) == |s|
  {
    if s != [] {
      AllAtLeast(s[1..], v);
    }
  }

  // ----- Percentile index --------------------------------------------------------------------

  /** `f64::round` (half away from zero) followed by the saturating cast to `usize`. */
  function RoundToIndex(x: real): (r: nat)
    ensures x >= 0.0 ==> -0.5 <= x - r as real < 0.5
    ensures x < 0.0 ==> r == 0
  {
    if x < 0.0 then 0 else (x + 0.5).Floor
  }

  /** Position in the sorted window of the p-th percentile; any `p` is accepted. */
  function PercentileIndex(p: real, len: nat): (idx: nat)
    requires len > 0
    ensures idx < len
    ensures p <= 0.0 ==> idx == 0
    ensures p >= 100.0 ==> idx == len - 1
    ensures 0.0 <= p <= 100.0 ==> idx as real - 0.5 <= (p / 100.0) * (len - 1) as real < idx as real + 0.5
  {
    PercentileIndexArithmetic(p, len);
    Min(RoundToIndex((p / 100.0) * (len - 1) as real), len - 1)
  }

  lemma PercentileIndexArithmetic(p: real, len: nat)
    requires len > 0
    ensures p <= 0.0 ==> RoundToIndex((p / 100.0) * (len - 1) as real) == 0
    ensures p >= 100.0 ==> RoundToIndex((p / 100.0) * (len - 1) as real) >= len - 1
    ensures 0.0 <= p <= 100.0 ==> 0.0 <= (p / 100.0) * (len - 1) as real <= (len - 1) as real
  {
    var part, m := p / 100.0, (len - 1) as real;
    if p <= 0.0 {
      MulMonotone(part, 0.0, m);
      RoundMonotone(part * m, 0.0);
    } else {
      MulMonotone(0.0, part, m);
    }
    if p <= 100.0 {
      MulMonotone(part, 1.0, m);
    }
    if p >= 100.0 {
      MulMonotone(1.0, part, m);
      RoundMonotone(m, part * m);
      RoundOfIndex(len - 1);
    }
  }

  lemma RoundOfIndex(n: nat)
    ensures RoundToIndex(n as real) == n
  {
  }

  lemma MulMonotone(a: real, b: real, m: real)
    requires a <= b && m >= 0.0
    ensures a * m <= b * m
  {
    assert (b - a) * m >= 0.0;
  }

  lemma PercentileIndexMonotone(p: real, q: real, len: nat)
    requires len > 0 && p <= q
    ensures PercentileIndex(p, len) <= PercentileIndex(q, len)
  {
    MulMonotone(p / 100.0, q / 100.0, (len - 1) as real);
    RoundMonotone((p / 100.0) * (len - 1) as real, (q / 100.0) * (len - 1) as real);
  }

  lemma RoundMonotone(x: real, y: real)
    requires x <= y
    ensures RoundToIndex(x) <= RoundToIndex(y)
  {
  }

  /** The percentile of a window as a value of the window alone. */
  function PercentileOf(s: seq<real>, p: real): real {
    if s == [] then 0.0 else Sorted(s)[PercentileIndex(p, |s|)]
  }

  /** `v` is the sample of rank `idx` (counted from 0) among the samples of `s`. */
  predicate IsOrderStatistic(s: seq<real>, idx: nat, v: real) {
    v in s && AtMost(s, v) >= idx + 1 && AtLeast(s, v) >= |s| - idx
  }

  lemma {:induction false} RanksOverlapOnlyAtEqual(s: seq<real>, u: real, v: real)
    requires u < v
    ensures AtMost(s, u) + AtLeast(s, v) <= |s|
  {
    if s != [] {
      RanksOverlapOnlyAtEqual(s[1..], u, v);
    }
  }

  /** The percentile is the order statistic at the percentile index, and nothing else is. */
  lemma PercentileIsOrderStatistic(s: seq<real>, p: real, v: real)
    requires s != []
    ensures v == PercentileOf(s, p) <==> IsOrderStatistic(s, PercentileIndex(p, |s|), v)
  {
    var t, k := Sorted(s), PercentileIndex(p, |s|);
    RanksInSorted(t, k);
    RanksArePermutationInvariant(t, s, t[k]);
    assert t[k] in multiset(t);
    if v < t[k] {
      RanksOverlapOnlyAtEqual(s, v, t[k]);
    } else if v > t[k] {
      RanksOverlapOnlyAtEqual(s, t[k], v);
    }
  }

  /** The ranks of a percentile in terms of `p` and the window alone: more than x + 1/2 samples are at most it
      and at least |s| - x - 1/2 are at least it, where x is p percent of |s| - 1; no other value is like that. */
  lemma {:induction false} PercentileRanks(s: seq<real>, p: real, v: real)
    requires s != [] && 0.0 <= p <= 100.0
    ensures var x := (p / 100.0) * (|s| - 1) as real;
            v == PercentileOf(s, p) <==>
              v in s && AtMost(s, v) as real > x + 0.5 && AtLeast(s, v) as real >= |s| as real - x - 0.5
  {
    PercentileIsOrderStatistic(s, p, v);
  }

  /** Percentiles do not decrease with `p`, and none exceeds the maximum: p50 <= p90 <= p99 <= max. */
  lemma PercentilesAreOrdered(s: seq<real>, p: real, q: real, max: real)
    requires p <= q
    requires s != [] ==> forall i | 0 <= i < |s| :: s[i] <= max
    ensures PercentileOf(s, p) <= PercentileOf(s, q)
    ensures s != [] ==> PercentileOf(s, q) <= max
  {
    if s != [] {
      assert PercentileOf(s, p) <= PercentileOf(s, q) by {
        PercentileIndexMonotone(p, q, |s|);
      }
      assert PercentileOf(s, q) in s by {
        PercentileIsOrderStatistic(s, q, PercentileOf(s, q));
      }
    }
  }

  // ----- Rolling windows ---------------------------------------------------------------------

  /** One bounded append, as `LatencySamples::push` and the two event logs do it. */
  function Pushed<T>(log: seq<T>, x: T, bound: nat): seq<T> {
    (if |log| >= bound && |log| > 0 then log[1..] else log) + [x]
  }

  /** One push moves a full window on by one item. */
  lemma PushMovesSuffix<T>(h: seq<T>, x: T, bound: nat)
    requires bound >= 1
    ensures Suffix(h + [x], bound) == Pushed(Suffix(h, bound), x, bound)
  {
  }

  function PushedAll<T>(log: seq<T>, xs: seq<T>, bound: nat): seq<T>
    decreases |xs|
  {
    if xs == [] then log else PushedAll(Pushed(log, xs[0], bound), xs[1..], bound)
  }

  lemma {:induction false} PushedLast<T>(log: seq<T>, xs: seq<T>, x: T, bound: nat)
    ensures PushedAll(log, xs + [x], bound) == Pushed(PushedAll(log, xs, bound), x, bound)
    decreases |xs|
  {
    if xs == [] {
      assert xs + [x] == [x] && [x][1..] == [];
    } else {
      assert (xs + [x])[1..] == xs[1..] + [x];
      PushedLast(Pushed(log, xs[0], bound), xs[1..], x, bound);
    }
  }

  lemma {:induction false} PushedUpTo<T>(log: seq<T>, xs: seq<T>, more: seq<T>, bound: nat)
    requires |more| <= 1
    ensures PushedAll(PushedAll(log, xs, bound), more, bound) == PushedAll(log, xs + more, bound)
  {
    if more == [] {
      assert xs + more == xs;
    } else {
      assert more == [more[0]] && more[1..] == [];
      PushedLast(log, xs, more[0], bound);
    }
  }

  /** Whatever was pushed, a window holds exactly the most recent `bound` items. */
  lemma {:induction false} WindowIsSuffix<T>(log: seq<T>, xs: seq<T>, bound: nat)
    requires 1 <= bound && |log| <= bound
    ensures PushedAll(log, xs, bound) == Suffix(log + xs, bound)
    decreases |xs|
  {
    if xs == [] {
      assert log + xs == log;
    } else {
      PushMovesSuffix(log, xs[0], bound);
      WindowIsSuffix(Pushed(log, xs[0], bound), xs[1..], bound);
      SuffixOfSuffix(log + [xs[0]], xs[1..], bound);
      assert log + xs == log + [xs[0]] + xs[1..];
    }
  }

  lemma SuffixOfSuffix<T>(h: seq<T>, t: seq<T>, n: nat)
    ensures Suffix(Suffix(h, n) + t, n) == Suffix(h + t, n)
  {
  }

  class LatencySamples {
    var samples: seq<real>

    constructor ()
      ensures samples == []
    {
      samples := [];
    }

    method Push(v: real)
      modifies this
      ensures samples == Pushed(old(samples), v, 10_000)
    {
      if |samples| >= WINDOW {
        samples := samples[1..];
      }
      samples := samples + [v];
    }

    /** Pushing a whole history leaves exactly its last 10 000 values, in order. */
    method PushAll(vs: seq<real>)
      requires |samples| <= 10_000
      modifies this
      ensures samples == Suffix(old(samples) + vs, 10_000)
    {
      for i := 0 to |vs|
        invariant |samples| <= WINDOW
        invariant samples == Suffix(old(samples) + vs[..i], WINDOW)
      {
        assert vs[..i + 1] == vs[..i] + [vs[i]];
        assert old(samples) + vs[..i + 1] == (old(samples) + vs[..i]) + [vs[i]];
        PushMovesSuffix(old(samples) + vs[..i], vs[i], WINDOW);
        Push(vs[i]);
      }
      assert vs[..|vs|] == vs;
    }

    /** `None` stands for the negative infinity that an empty window yields. */
    method Max() returns (m: Option<real>)
      ensures m == None <==> samples == []
      ensures m.Some? ==> m.value in samples && forall x | x in samples :: x <= m.value
    {
      m := None;
      for i := 0 to |samples|
        invariant m == None <==> i == 0
        invariant m.Some? ==> m.value in samples[..i] && forall x | x in samples[..i] :: x <= m.value
      {
        assert samples[..i + 1] == samples[..i] + [samples[i]];
        if m == None || m.value < samples[i] {
          m := Some(samples[i]);
        }
      }
      assert samples[..|samples|] == samples;
    }

    method Percentile(p: real) returns (v: real)
      ensures v == PercentileOf(samples, p)
      ensures samples == [] ==> v == 0.0
      ensures samples != [] ==> IsOrderStatistic(samples, PercentileIndex(p, |samples|), v)
      ensures samples != [] && 0.0 <= p <= 100.0 ==>
                var x := (p / 100.0) * (|samples| - 1) as real;
                && AtMost(samples, v) as real > x + 0.5
                && AtLeast(samples, v) as real >= |samples| as real - x - 0.5
    {
      if samples == [] {
        return 0.0;
      }
      var sorted := Sorted(samples);
      v := sorted[PercentileIndex(p, |sorted|)];
      PercentileIsOrderStatistic(samples, p, v);
      if 0.0 <= p <= 100.0 {
        PercentileRanks(samples, p, v);
      }
    }
  }

  datatype OverflowEvent = OverflowEvent(domain: string, priority: Priority, totalDrops: nat)

  datatype DeadlineMissEvent = DeadlineMissEvent(latencyUs: real, domain: string, priority: Priority)

  /** The two pipelines keep separate overflow counters and share one log. */
  datatype PipelineKind = Async | Threaded

  /** Everything the modelled components store in the metrics, as one value. */
  datatype MetricsView = MetricsView(
    humanLatency: seq<real>, botLatency: seq<real>, humanDrift: seq<real>, botDrift: seq<real>,
    deadlineMisses: nat, deadlineMissLog: seq<DeadlineMissEvent>,
    asyncOverflowCount: nat, threadedOverflowCount: nat, overflowLog: seq<OverflowEvent>,
    failSafeActivations: nat, currentMode: string, watchdogResets: nat)
  {
    function WithDrift(priority: Priority, us: real): MetricsView {
      if priority.High? then this.(humanDrift := Pushed(humanDrift, us, WINDOW))
      else this.(botDrift := Pushed(botDrift, us, WINDOW))
    }

    function WithLatency(priority: Priority, ns: real): MetricsView {
      if priority.High? then this.(humanLatency := Pushed(humanLatency, ns, WINDOW))
      else this.(botLatency := Pushed(botLatency, ns, WINDOW))
    }

    function WithMiss(ev: DeadlineMissEvent): MetricsView {
      this.(deadlineMisses := deadlineMisses + 1, deadlineMissLog := Pushed(deadlineMissLog, ev, LOG_CAPACITY))
    }

    function WithOverflow(kind: PipelineKind, ev: OverflowEvent): MetricsView {
      var m := this.(overflowLog := Pushed(overflowLog, ev, LOG_CAPACITY));
      if kind == Threaded then m.(threadedOverflowCount := ev.totalDrops)
      else m.(asyncOverflowCount := ev.totalDrops)
    }
  }

  /** The part of `SharedMetrics` that the modelled components write.  The sample windows are separate
      objects; every write happens only when `try_lock` succeeded. */
  class SharedMetrics {
    const humanLatency: LatencySamples
    const botLatency: LatencySamples
    const humanDrift: LatencySamples
    const botDrift: LatencySamples
    var deadlineMisses: nat
    var deadlineMissLog: seq<DeadlineMissEvent>
    var asyncOverflowCount: nat
    var threadedOverflowCount: nat
    var overflowLog: seq<OverflowEvent>
    var failSafeActivations: nat
    var currentMode: string
    var watchdogResets: nat

    constructor ()
      ensures Valid()
      ensures fresh(humanLatency) && fresh(botLatency) && fresh(humanDrift) && fresh(botDrift)
      ensures View() == MetricsView([], [], [], [], 0, [], 0, 0, [], 0, "NORMAL", 0)
    {
      humanLatency := new LatencySamples();
      botLatency := new LatencySamples();
      humanDrift := new LatencySamples();
      botDrift := new LatencySamples();
      deadlineMisses, deadlineMissLog, asyncOverflowCount, threadedOverflowCount, overflowLog := 0, [], 0, 0, [];
      failSafeActivations, currentMode, watchdogResets := 0, "NORMAL", 0;
    }

    /** The four windows do not share storage. */
    ghost predicate Valid() {
      && humanLatency != botLatency && humanLatency != humanDrift && humanLatency != botDrift
      && botLatency != humanDrift && botLatency != botDrift && humanDrift != botDrift
    }

    function Windows(): set<LatencySamples> {
      {humanLatency, botLatency, humanDrift, botDrift}
    }

    function View(): MetricsView
      reads this, Windows()
    {
      MetricsView(humanLatency.samples, botLatency.samples, humanDrift.samples, botDrift.samples,
                  deadlineMisses, deadlineMissLog, asyncOverflowCount, threadedOverflowCount, overflowLog,
                  failSafeActivations, currentMode, watchdogResets)
    }

    method PushDrift(priority: Priority, us: real)
      requires Valid()
      modifies Windows()
      ensures View() == old(View()).WithDrift(priority, us)
    {
      match priority {
        case High => humanDrift.Push(us);
        case Low => botDrift.Push(us);
      }
    }

    method PushLatency(priority: Priority, ns: real)
      requires Valid()
      modifies Windows()
      ensures View() == old(View()).WithLatency(priority, ns)
    {
      match priority {
        case High => humanLatency.Push(ns);
        case Low => botLatency.Push(ns);
      }
    }

    method PushOverflow(ev: OverflowEvent)
      modifies this`overflowLog
      ensures overflowLog == Pushed(old(overflowLog), ev, 10_000)
    {
      if |overflowLog| >= LOG_CAPACITY {
        overflowLog := overflowLog[1..];
      }
      overflowLog := overflowLog + [ev];
    }

    method RecordOverflow(kind: PipelineKind, ev: OverflowEvent)
      modifies this`asyncOverflowCount, this`threadedOverflowCount, this`overflowLog
      ensures View() == old(View()).WithOverflow(kind, ev)
    {
      match kind {
        case Threaded => threadedOverflowCount := ev.totalDrops;
        case Async => asyncOverflowCount := ev.totalDrops;
      }
      PushOverflow(ev);
    }

    method PushDeadlineMiss(ev: DeadlineMissEvent)
      modifies this`deadlineMissLog
      ensures deadlineMissLog == Pushed(old(deadlineMissLog), ev, 10_000)
    {
      if |deadlineMissLog| >= LOG_CAPACITY {
        deadlineMissLog := deadlineMissLog[1..];
      }
      deadlineMissLog := deadlineMissLog + [ev];
    }
  }
}
