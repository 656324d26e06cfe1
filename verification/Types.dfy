/** Vocabulary shared by every component: packets, priorities, fixed-width integers and the
    thresholds of the fail-safe machine. */
module Types {
  datatype Option<+T> = None | Some(value: T)

  type U8 = x: int | 0 <= x < 0x100
  type U32 = x: int | 0 <= x < 0x1_0000_0000
  type U64 = x: int | 0 <= x < 0x1_0000_0000_0000_0000

  /** `fetch_add(1)` on an `AtomicU32`: wraps around. */
  function Succ32(x: U32): (r: U32)
    ensures r == (x + 1) % 0x1_0000_0000
  {
    if x == 0xFFFF_FFFF then 0 else x + 1
  }

  /** `fetch_add(1)` on an `AtomicU64`: wraps around. */
  function Succ64(x: U64): (r: U64)
    ensures r == (x + 1) % 0x1_0000_0000_0000_0000
  {
    if x == 0xFFFF_FFFF_FFFF_FFFF then 0 else x + 1
  }

  datatype Priority = Low | High

  /** A parsed change.  `id` numbers packets in the order in which they were parsed; the program has
      no such field, it only serves to tell two packets apart.  `t1` is the queue-entry instant (ns). */
  datatype Packet = Packet(id: nat, priority: Priority, domain: string, t1: Option<nat>)

  /** Scheduling drift in whole microseconds, truncated; an instant in the future counts as zero. */
  function DriftUs(t1: nat, t2: nat): (us: real)
    ensures us == us.Floor as real && us >= 0.0
    ensures t1 <= t2 ==> us * 1000.0 <= (t2 - t1) as real < (us + 1.0) * 1000.0
    ensures t1 > t2 ==> us == 0.0
  {
    if t2 < t1 then 0.0 else ((t2 - t1) / 1000) as real
  }

  const JITTER_THRESHOLD_US: real := 2000.0
  const RECOVERY_THRESHOLD_US: real := 500.0
  const RECOVERY_WINDOW: U32 := 60
  const DEGRADED_WINDOW: U32 := 25

  predicate Spike(latencyUs: real) { latencyUs > JITTER_THRESHOLD_US }

  predicate Clean(latencyUs: real) { latencyUs < RECOVERY_THRESHOLD_US }

  function Min(a: int, b: int): int {
    if a <= b then a else b
  }

  /** The last `min(|s|, n)` elements of `s`. */
  function Suffix<T>(s: seq<T>, n: nat): seq<T> {
    if |s| <= n then s else s[|s| - n..]
  }

  /** `s` is a contiguous end of `whole`. */
  ghost predicate IsEnd<T>(s: seq<T>, whole: seq<T>) {
    |s| <= |whole| && s == whole[|whole| - |s|..]
  }

  lemma IsEndMoves<T>(s: seq<T>, whole: seq<T>, x: T)
    requires IsEnd(s, whole)
    ensures IsEnd(s + [x], whole + [x])
    ensures s != [] ==> IsEnd(s[1..], whole)
  {
  }

  lemma TakeOut<T>(a: seq<T>, left: seq<T>, right: seq<T>)
    requires a != [] && multiset(a) == multiset(left + ([a[0]] + right))
    ensures multiset(a[1..]) == multiset(left + right)
  {
    assert a == [a[0]] + a[1..];
    assert multiset(a[1..]) == multiset(a) - multiset{a[0]};
    assert multiset(left + right) == multiset(left + ([a[0]] + right)) - multiset{a[0]};
  }

  lemma MultisetOfInsertion<T>(x: T, s: seq<T>, k: nat)
    requires k <= |s|
    ensures multiset(s[..k] + [x] + s[k..]) == multiset(s) + multiset{x}
  {
    assert s == s[..k] + s[k..];
    assert multiset(s) == multiset(s[..k]) + multiset(s[k..]);
  }

  lemma Append3<T>(a: seq<T>, b: seq<T>, c: seq<T>)
    ensures a + (b + c) == a + b + c
  {
  }

  lemma MulSucc(c: int, n: int)
    ensures (c + 1) * n == c * n + n
  {
  }
}
