/** The priority scheduler: two bounded FIFO queues, human packets before bot packets, and the
    drop-oldest primitive.  Methods here run without interference; see Pipeline for the interleaving. */
module Scheduler {
  import opened Types
  import opened Metrics

  datatype Queues = Queues(high: seq<Packet>, low: seq<Packet>) {
    function Of(c: Priority): seq<Packet> {
      if c.High? then high else low
    }

    function With(c: Priority, q: seq<Packet>): Queues {
      if c.High? then this.(high := q) else this.(low := q)
    }

    predicate Valid(capacity: nat) {
      && |high| <= capacity && |low| <= capacity
      && (forall i | 0 <= i < |high| :: high[i].priority == High)
      && (forall i | 0 <= i < |low| :: low[i].priority == Low)
    }

    /** The queues after one dequeue. */
    function Rest(): Queues {
      if high != [] then this.(high := high[1..]) else if low != [] then this.(low := low[1..]) else this
    }

    /** The queues after `n` dequeues: the first `n` packets of "all human, then all bot" are gone. */
    function After(n: nat): Queues {
      Queues(high[Min(n, |high|)..], low[if n <= |high| then 0 else Min(n - |high|, |low|)..])
    }
  }

  /** The packet dequeued next: the oldest human packet, else the oldest bot packet. */
  function Next(q: Queues): Option<Packet> {
    if q.high != [] then Some(q.high[0]) else if q.low != [] then Some(q.low[0]) else None
  }

  class PriorityScheduler {
    const capacity: nat
    const metrics: SharedMetrics
    var high: seq<Packet>
    var low: seq<Packet>

    constructor (capacity: nat, metrics: SharedMetrics)
      requires capacity >= 1 && metrics.Valid()
      ensures Valid() && Contents() == Queues([], [])
      ensures this.capacity == capacity && this.metrics == metrics
    {
      this.capacity, this.metrics := capacity, metrics;
      high, low := [], [];
    }

    ghost predicate Valid()
      reads this
    {
      capacity >= 1 && metrics.Valid() && Contents().Valid(capacity)
    }

    function Contents(): Queues
      reads this
    {
      Queues(high, low)
    }

    /** Stamps T1 and appends, unless the queue of the packet's class is full. */
    method Enqueue(pkt: Packet, now: nat) returns (accepted: bool)
      requires Valid()
      modifies this`high, this`low
      ensures Valid()
      ensures accepted <==> |old(Contents()).Of(pkt.priority)| < capacity
      ensures Contents() ==
                if !accepted then old(Contents())
                else old(Contents()).With(pkt.priority, old(Contents()).Of(pkt.priority) + [pkt.(t1 := Some(now))])
    {
      var stamped := pkt.(t1 := Some(now));
      match pkt.priority {
        case High =>
          accepted := |high| < capacity;
          if accepted {
            high := high + [stamped];
          }
        case Low =>
          accepted := |low| < capacity;
          if accepted {
            low := low + [stamped];
          }
      }
    }

    /** Human first.  The drift of the packet is recorded when the metrics lock is free. */
    method DequeueNext(now: nat, locked: bool) returns (r: Option<Packet>)
      requires Valid()
      modifies this`high, this`low, metrics.Windows()
      ensures Valid()
      ensures r == Next(old(Contents()))
      ensures Contents() == old(Contents()).Rest()
      ensures metrics.View() ==
                if r.Some? && r.value.t1.Some? && locked
                then old(metrics.View()).WithDrift(r.value.priority, DriftUs(r.value.t1.value, now))
                else old(metrics.View())
    {
      if high != [] {
        r, high := Some(high[0]), high[1..];
      } else if low != [] {
        r, low := Some(low[0]), low[1..];
      } else {
        return None;
      }
      if r.value.t1.Some? && locked {
        metrics.PushDrift(r.value.priority, DriftUs(r.value.t1.value, now));
      }
    }

    /** Discards the head of one queue, if there is one. */
    method EvictOldest(c: Priority)
      requires Valid()
      modifies this`high, this`low
      ensures Valid()
      ensures var q := old(Contents()).Of(c);
              Contents() == if q == [] then old(Contents()) else old(Contents()).With(c, q[1..])
    {
      match c {
        case High =>
          if high != [] {
            high := high[1..];
          }
        case Low =>
          if low != [] {
            low := low[1..];
          }
      }
    }

    /** `polls` rounds of the dispatch loop before `stop` is seen, feeding a bounded output channel that
        nobody drains meanwhile: the packets leave in the order "all human, then all bot", each class
        first in first out; those that find the channel full are lost. */
    method RunDispatchLoop(out: seq<Packet>, outCapacity: nat, polls: seq<(nat, bool)>)
      returns (sent: seq<Packet>, lost: seq<Packet>)
      requires Valid() && |out| <= outCapacity
      modifies this`high, this`low, metrics.Windows()
      ensures Valid()
      ensures Contents() == old(Contents()).After(|polls|)
      ensures sent + lost == out + Front(old(Contents()), |polls|)
      ensures |sent| == Min(|out| + |Front(old(Contents()), |polls|)|, outCapacity)
    {
      sent, lost := out, [];
      ghost var q, taken := Contents(), [];
      for i := 0 to |polls|
        invariant Valid()
        invariant Contents() == Rests(q, i) && taken == Taken(q, i)
        invariant sent == Sent(out, taken, outCapacity) && lost == Lost(out, taken, outCapacity)
      {
        var next := DequeueNext(polls[i].0, polls[i].1);
        if next.Some? {
          SendOneMore(out, taken, next.value, outCapacity);
          taken := taken + [next.value];
          if |sent| < outCapacity {
            sent := sent + [next.value];
          } else {
            lost := lost + [next.value];
          }
        }
      }
      RestsAreAfter(q, |polls|);
      TakenIsFront(q, |polls|);
      SentOrLost(out, taken, outCapacity);
    }
  }

  function Rests(q: Queues, n: nat): Queues {
    if n == 0 then q else Rests(q, n - 1).Rest()
  }

  lemma {:induction false} RestsAreAfter(q: Queues, n: nat)
    ensures Rests(q, n) == q.After(n)
  {
    if n == 0 {
      AfterNone(q);
    } else {
      RestsAreAfter(q, n - 1);
      AfterOneMore(q, n - 1);
    }
  }

  /** What `n` polls take. */
  function Taken(q: Queues, n: nat): seq<Packet> {
    if n == 0 then []
    else match Next(Rests(q, n - 1))
      case None => Taken(q, n - 1)
      case Some(pkt) => Taken(q, n - 1) + [pkt]
  }

  /** The first `n` packets of "all human, then all bot". */
  function Front(q: Queues, n: nat): seq<Packet> {
    (q.high + q.low)[..Min(n, |q.high + q.low|)]
  }

  lemma NextIsFirst(q: Queues)
    ensures q.high + q.low ==
              if Next(q).Some? then [Next(q).value] + (q.Rest().high + q.Rest().low) else q.Rest().high + q.Rest().low
    ensures Next(q).None? ==> q.high + q.low == []
  {
  }

  lemma {:induction false} TakenAndRest(q: Queues, n: nat)
    ensures Taken(q, n) + (Rests(q, n).high + Rests(q, n).low) == q.high + q.low
    ensures |Taken(q, n)| < n ==> Rests(q, n).high + Rests(q, n).low == []
    ensures |Taken(q, n)| <= n
  {
    if n > 0 {
      var r := Rests(q, n - 1);
      TakenAndRest(q, n - 1);
      NextIsFirst(r);
      if Next(r).Some? {
        Append3(Taken(q, n - 1), [Next(r).value], r.Rest().high + r.Rest().low);
      }
    }
  }

  lemma {:induction false} TakenIsFront(q: Queues, n: nat)
    ensures Taken(q, n) == Front(q, n)
  {
    TakenAndRest(q, n);
  }

  /** The output after offering it `taken`, when a send to a full channel fails, and what was lost. */
  function Sent<T>(out: seq<T>, taken: seq<T>, capacity: nat): seq<T> {
    if taken == [] then out
    else
      var s := Sent(out, taken[..|taken| - 1], capacity);
      if |s| < capacity then s + [taken[|taken| - 1]] else s
  }

  function Lost<T>(out: seq<T>, taken: seq<T>, capacity: nat): seq<T> {
    if taken == [] then []
    else
      var p, x := taken[..|taken| - 1], taken[|taken| - 1];
      if |Sent(out, p, capacity)| < capacity then Lost(out, p, capacity) else Lost(out, p, capacity) + [x]
  }

  lemma {:induction false} SendOneMore<T>(out: seq<T>, taken: seq<T>, x: T, capacity: nat)
    ensures var s, l := Sent(out, taken, capacity), Lost(out, taken, capacity);
            && Sent(out, taken + [x], capacity) == (if |s| < capacity then s + [x] else s)
            && Lost(out, taken + [x], capacity) == if |s| < capacity then l else l + [x]
  {
    assert (taken + [x])[..|taken|] == taken;
  }

  lemma {:induction false} SentOrLost<T>(out: seq<T>, taken: seq<T>, capacity: nat)
    requires |out| <= capacity
    ensures var s, l := Sent(out, taken, capacity), Lost(out, taken, capacity);
            s + l == out + taken && |s| == Min(|out| + |taken|, capacity) && (l != [] ==> |s| == capacity)
  {
    if taken != [] {
      var p, x := taken[..|taken| - 1], taken[|taken| - 1];
      SentOrLost(out, p, capacity);
      assert taken == p + [x];
      Append3(out, p, [x]);
      Append3(Sent(out, p, capacity), Lost(out, p, capacity), [x]);
      if |Sent(out, p, capacity)| < capacity {
        assert Lost(out, p, capacity) == [];
        NothingInBetween(Sent(out, p, capacity), x);
      }
    }
  }

  lemma NothingInBetween<T>(s: seq<T>, x: T)
    ensures s + [] == s && s + [x] + [] == s + [x]
  {
  }

  lemma AfterNone(q: Queues)
    ensures q.After(0) == q
  {
  }

  lemma AfterOneMore(q: Queues, n: nat)
    ensures q.After(n).Rest() == q.After(n + 1)
  {
  }
}
