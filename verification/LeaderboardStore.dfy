/** The edit leaderboard with its three storage strategies and one counting specification. */
module LeaderboardStore {
  import opened Types

  datatype SyncStrategy = Mutex | RwLock | Atomic

  const DOMAIN_SLOTS: nat := 10
  const KNOWN_DOMAINS: seq<string> := [
    "en.wikipedia.org", "de.wikipedia.org", "fr.wikipedia.org",
    "es.wikipedia.org", "ru.wikipedia.org", "ja.wikipedia.org",
    "zh.wikipedia.org", "pt.wikipedia.org", "it.wikipedia.org",
    "nl.wikipedia.org"
  ]

  type Entry = (string, nat)

  /** Contents of all three stores; only the one selected by `strategy` is ever written.  `slots` are the
      domains that own an atomic counter: the known domains, in every board the program makes. */
  datatype Board = Board(strategy: SyncStrategy, slots: seq<string>, mutexMap: map<string, nat>,
                         rwlockMap: map<string, nat>, atomicCounts: seq<nat>)
  {
    predicate Valid() { |atomicCounts| == |slots| && Distinct(slots) }
  }

  predicate Distinct<T(==)>(s: seq<T>) {
    forall i, j | 0 <= i < j < |s| :: s[i] != s[j]
  }

  function EmptyBoard(strategy: SyncStrategy): (b: Board)
    ensures b.Valid()
  {
    KnownDomainsAreDistinct();
    Board(strategy, KNOWN_DOMAINS, map[], map[], seq(DOMAIN_SLOTS, _ => 0))
  }

  /** First position of `d`, as `iter().position` finds it. */
  function IndexOf(ds: seq<string>, d: string): (i: Option<nat>)
    ensures i.Some? <==> d in ds
    ensures i.Some? ==> i.value < |ds| && ds[i.value] == d && d !in ds[..i.value]
  {
    if ds == [] then None
    else if ds[0] == d then Some(0)
    else match IndexOf(ds[1..], d)
      case None => None
      case Some(i) => assert ds[..i + 1] == [ds[0]] + ds[1..][..i]; Some(i + 1)
  }

  function Bumped(m: map<string, nat>, d: string): map<string, nat> {
    m[d := 1 + if d in m then m[d] else 0]
  }

  function Counted(b: Board, d: string): (b': Board)
    requires b.Valid()
    ensures b'.Valid()
  {
    match b.strategy
    case Mutex => b.(mutexMap := Bumped(b.mutexMap, d))
    case RwLock => b.(rwlockMap := Bumped(b.rwlockMap, d))
    case Atomic => b.(atomicCounts := SlotBumped(b.atomicCounts, IndexOf(b.slots, d)))
  }

  function SlotBumped(counts: seq<nat>, slot: Option<nat>): (r: seq<nat>)
    ensures |r| == |counts|
  {
    if slot.Some? && slot.value < |counts| then counts[slot.value := counts[slot.value] + 1] else counts
  }

  function CountedAll(b: Board, ds: seq<string>): (b': Board)
    requires b.Valid()
    ensures b'.Valid()
  {
    if ds == [] then b else Counted(CountedAll(b, ds[..|ds| - 1]), ds[|ds| - 1])
  }

  // ----- The counting specification ----------------------------------------------------------

  function Occurrences(ds: seq<string>, d: string): nat {
    multiset(ds)[d]
  }

  predicate CountsExactly(m: map<string, nat>, ds: seq<string>) {
    && (forall d | d in m :: d in ds)
    && (forall d | d in ds :: d in m && m[d] == Occurrences(ds, d))
  }

  lemma BumpCounts(m: map<string, nat>, ds: seq<string>, d: string)
    requires CountsExactly(m, ds)
    ensures CountsExactly(Bumped(m, d), ds + [d])
  {
    forall e | e in ds + [d]
      ensures e in Bumped(m, d) && Bumped(m, d)[e] == Occurrences(ds + [d], e)
    {
      if e !in ds {
        assert e !in multiset(ds);
      }
    }
  }

  lemma KnownDomainsAreDistinct()
    ensures |KNOWN_DOMAINS| == DOMAIN_SLOTS && Distinct(KNOWN_DOMAINS)
  {
    var k := KNOWN_DOMAINS;
    assert k[0][0] == 'e' && k[0][1] == 'n' && k[1][0] == 'd' && k[2][0] == 'f' && k[3][0] == 'e' && k[3][1] == 's';
    assert k[4][0] == 'r' && k[5][0] == 'j' && k[6][0] == 'z' && k[7][0] == 'p' && k[8][0] == 'i' && k[9][0] == 'n';
  }

  predicate SlotsCount(known: seq<string>, counts: seq<nat>, ds: seq<string>) {
    |counts| == |known| && forall i | 0 <= i < |known| :: counts[i] == Occurrences(ds, known[i])
  }

  lemma {:induction false} BumpSlots(known: seq<string>, counts: seq<nat>, ds: seq<string>, d: string)
    requires Distinct(known) && SlotsCount(known, counts, ds)
    ensures SlotsCount(known, SlotBumped(counts, IndexOf(known, d)), ds + [d])
  {
    assert multiset(ds + [d]) == multiset(ds) + multiset{d};
  }

  /** For every sequence of increments the two maps hold exactly the occurrence count of every domain,
      and the atomic slots hold its restriction to the ten known domains. */
  lemma {:induction false} StoresCount(strategy: SyncStrategy, ds: seq<string>)
    ensures var b := CountedAll(EmptyBoard(strategy), ds);
            && b.strategy == strategy
            && (strategy == Mutex ==> CountsExactly(b.mutexMap, ds))
            && (strategy == RwLock ==> CountsExactly(b.rwlockMap, ds))
            && b.slots == KNOWN_DOMAINS
            && (strategy == Atomic ==> SlotsCount(b.slots, b.atomicCounts, ds))
  {
    if ds != [] {
      var p, d := ds[..|ds| - 1], ds[|ds| - 1];
      assert ds == p + [d];
      StoresCount(strategy, p);
      var b := CountedAll(EmptyBoard(strategy), p);
      match strategy
      case Mutex => BumpCounts(b.mutexMap, p, d);
      case RwLock => BumpCounts(b.rwlockMap, p, d);
      case Atomic =>
        BumpSlots(b.slots, b.atomicCounts, p, d);
    }
  }

  /** Sum of all counts of a map. */
  ghost function Total(m: map<string, nat>): nat
    decreases |m|
  {
    if m == map[] then 0
    else
      var d :| d in m;
      m[d] + Total(m - {d})
  }

  lemma {:induction false} TotalWithout(m: map<string, nat>, d: string)
    requires d in m
    ensures Total(m) == m[d] + Total(m - {d})
    decreases |m|
  {
    var c :| c in m && Total(m) == m[c] + Total(m - {c});
    if c != d {
      TotalWithout(m - {c}, d);
      TotalWithout(m - {d}, c);
      assert m - {c} - {d} == m - {d} - {c};
    }
  }

  lemma {:induction false} TotalBumped(m: map<string, nat>, d: string)
    ensures Total(Bumped(m, d)) == Total(m) + 1
  {
    TotalWithout(Bumped(m, d), d);
    if d in m {
      TotalWithout(m, d);
      assert Bumped(m, d) - {d} == m - {d};
    } else {
      assert Bumped(m, d) - {d} == m;
    }
  }

  /** All edits counted under the map strategies. */
  ghost function TotalEdits(b: Board): nat
    requires b.strategy != Atomic
  {
    Total(if b.strategy == Mutex then b.mutexMap else b.rwlockMap)
  }

  lemma {:induction false} EditsAdd(b: Board, ds: seq<string>)
    requires b.Valid() && b.strategy != Atomic
    ensures CountedAll(b, ds).strategy == b.strategy
    ensures TotalEdits(CountedAll(b, ds)) == TotalEdits(b) + |ds|
  {
    if ds != [] {
      var p := ds[..|ds| - 1];
      EditsAdd(b, p);
      TotalBumped(if b.strategy == Mutex then CountedAll(b, p).mutexMap else CountedAll(b, p).rwlockMap, ds[|ds| - 1]);
    }
  }

  // ----- Ranking -----------------------------------------------------------------------------

  /** The pairs that the leaderboard ranks. */
  ghost function Entries(b: Board): set<Entry>
    requires b.Valid()
  {
    match b.strategy
    case Mutex => set d | d in b.mutexMap :: (d, b.mutexMap[d])
    case RwLock => set d | d in b.rwlockMap :: (d, b.rwlockMap[d])
    case Atomic => SlotEntries(b.slots, b.atomicCounts)
  }

  ghost function SlotEntries(known: seq<string>, counts: seq<nat>): set<Entry> {
    set i: nat | i < |known| && i < |counts| && counts[i] > 0 :: (known[i], counts[i])
  }

  lemma SlotEntriesGrow(known: seq<string>, counts: seq<nat>, i: nat)
    requires Distinct(known) && |counts| == |known| && i < |known|
    ensures var before, e := SlotEntries(known[..i], counts[..i]), (known[i], counts[i]);
            && e !in before
            && SlotEntries(known[..i + 1], counts[..i + 1]) == if counts[i] > 0 then before + {e} else before
  {
    var before, after := SlotEntries(known[..i], counts[..i]), SlotEntries(known[..i + 1], counts[..i + 1]);
    forall x | x in before
      ensures x in after
    {
      var k: nat :| k < i && counts[k] > 0 && x == (known[k], counts[k]);
      assert (known[..i + 1][k], counts[..i + 1][k]) == x;
    }
    if counts[i] > 0 {
      assert (known[..i + 1][i], counts[..i + 1][i]) in after;
    }
  }

  lemma SlotEntriesAreCounts(known: seq<string>, counts: seq<nat>, ds: seq<string>)
    requires SlotsCount(known, counts, ds)
    ensures SlotEntries(known, counts) == set d | d in ds && d in known :: (d, Occurrences(ds, d))
  {
    forall d | d in ds && d in known
      ensures (d, Occurrences(ds, d)) in SlotEntries(known, counts)
    {
      assert d in multiset(ds);
      var i := IndexOf(known, d).value;
      assert counts[i] == Occurrences(ds, d);
    }
    forall e | e in SlotEntries(known, counts)
      ensures e.0 in ds && e.0 in known && e.1 == Occurrences(ds, e.0)
    {
      assert e.0 in multiset(ds);
    }
  }

  /** Whatever the strategy, the ranked pairs are the domains seen, each with its number of edits;
      the atomic strategy knows only ten domains. */
  lemma {:induction false} EntriesAreCounts(strategy: SyncStrategy, ds: seq<string>)
    ensures Entries(CountedAll(EmptyBoard(strategy), ds))
         == set d | d in ds && (strategy == Atomic ==> d in KNOWN_DOMAINS) :: (d, Occurrences(ds, d))
  {
    StoresCount(strategy, ds);
    var b := CountedAll(EmptyBoard(strategy), ds);
    if strategy == Atomic {
      SlotEntriesAreCounts(b.slots, b.atomicCounts, ds);
    }
  }

  predicate Descending(s: seq<Entry>) {
    forall i, j | 0 <= i < j < |s| :: s[i].1 >= s[j].1
  }

  /** `r` is what remains of some descending arrangement of the entries after truncation to `n`. */
  ghost predicate IsTop(r: seq<Entry>, entries: set<Entry>, n: nat) {
    exists order: seq<Entry> ::
      Descending(order) && multiset(order) == multiset(entries) && r == order[..Min(n, |order|)]
  }

  lemma RankingIsEnumeration(order: seq<Entry>, entries: set<Entry>)
    requires multiset(order) == multiset(entries)
    ensures |order| == |entries| && Distinct(order)
    ensures forall i | 0 <= i < |order| :: order[i] in entries
    ensures forall e | e in entries :: e in order
  {
    assert |order| == |multiset(order)| == |entries|;
    forall i | 0 <= i < |order|
      ensures order[i] in entries
    {
      assert order[i] in multiset(order);
    }
    forall e | e in entries
      ensures e in order
    {
      assert e in multiset(order);
    }
    forall i, j | 0 <= i < j < |order|
      ensures order[i] != order[j]
    {
      assert order == order[..j] + order[j..];
      assert order[i] in order[..j] && order[j] in order[j..];
      assert multiset(order)[order[i]] <= 1;
    }
  }

  /** A top list has min(n, entries) distinct pairs in descending order, and no omitted pair beats a
      listed one. */
  lemma TopIsTop(r: seq<Entry>, entries: set<Entry>, n: nat)
    requires IsTop(r, entries, n)
    ensures |r| == Min(n, |entries|) && Descending(r) && Distinct(r)
    ensures forall i | 0 <= i < |r| :: r[i] in entries
    ensures forall e | e in entries && e !in r :: AtMostAll(e, r)
  {
    var order: seq<Entry> :|
      Descending(order) && multiset(order) == multiset(entries) && r == order[..Min(n, |order|)];
    RankingIsEnumeration(order, entries);
    forall e | e in entries && e !in r
      ensures AtMostAll(e, r)
    {
      assert e in order;
      OmittedIsSmaller(order, |r|, e);
    }
  }

  predicate AtMostAll(e: Entry, r: seq<Entry>) {
    forall i | 0 <= i < |r| :: e.1 <= r[i].1
  }

  lemma OmittedIsSmaller(order: seq<Entry>, n: nat, e: Entry)
    requires Descending(order) && n <= |order| && e in order && e !in order[..n]
    ensures AtMostAll(e, order[..n])
  {
    assert order == order[..n] + order[n..];
    var k :| 0 <= k < |order[n..]| && order[n..][k] == e;
    assert order[n + k] == e;
  }

  function CountsOf(s: seq<Entry>): (c: seq<nat>)
    ensures |c| == |s| && forall i | 0 <= i < |s| :: c[i] == s[i].1
  {
    if s == [] then [] else [s[0].1] + CountsOf(s[1..])
  }

  lemma {:induction false} CountsOfSplit(a: seq<Entry>, b: seq<Entry>)
    ensures CountsOf(a + b) == CountsOf(a) + CountsOf(b)
  {
  }

  lemma {:induction false} CountsOfPermutation(a: seq<Entry>, b: seq<Entry>)
    requires multiset(a) == multiset(b)
    ensures multiset(CountsOf(a)) == multiset(CountsOf(b))
    decreases |a|
  {
    if a == [] {
      assert |multiset(b)| == 0;
    } else {
      assert a[0] in multiset(b);
      var k :| 0 <= k < |b| && b[k] == a[0];
      var left, right := b[..k], b[k + 1..];
      assert b == left + ([a[0]] + right);
      TakeOut(a, left, right);
      CountsOfPermutation(a[1..], left + right);
      CountsOfSplit(left, right);
      CountsOfSplit(left, [a[0]] + right);
      assert CountsOf([a[0]] + right) == [a[0].1] + CountsOf(right);
      PutBack(CountsOf(a[1..]), CountsOf(left), CountsOf(right), a[0].1);
    }
  }

  lemma PutBack(rest: seq<nat>, left: seq<nat>, right: seq<nat>, x: nat)
    requires multiset(rest) == multiset(left + right)
    ensures multiset([x] + rest) == multiset(left + ([x] + right))
  {
  }

  lemma TakeOutFirst<T>(a: seq<T>, b: seq<T>)
    requires a != [] && b != [] && a[0] == b[0] && multiset(a) == multiset(b)
    ensures multiset(a[1..]) == multiset(b[1..])
  {
    assert b == [] + ([a[0]] + b[1..]);
    TakeOut(a, [], b[1..]);
    assert [] + b[1..] == b[1..];
  }

  predicate Falling(s: seq<nat>) {
    forall i, j | 0 <= i < j < |s| :: s[i] >= s[j]
  }

  lemma FirstIsLargest(a: seq<nat>, x: nat)
    requires Falling(a) && x in multiset(a)
    ensures a != [] && a[0] >= x
  {
  }

  lemma {:induction false} FallingIsUnique(a: seq<nat>, b: seq<nat>)
    requires multiset(a) == multiset(b) && Falling(a) && Falling(b)
    ensures a == b
    decreases |a|
  {
    assert |a| == |multiset(a)| == |multiset(b)| == |b|;
    if a != [] {
      assert a[0] in multiset(a) && b[0] in multiset(b);
      FirstIsLargest(a, b[0]);
      FirstIsLargest(b, a[0]);
      TakeOutFirst(a, b);
      FallingIsUnique(a[1..], b[1..]);
    }
  }

  lemma {:induction false} ArrangementsCountAlike(o1: seq<Entry>, o2: seq<Entry>)
    requires Descending(o1) && Descending(o2) && multiset(o1) == multiset(o2)
    ensures CountsOf(o1) == CountsOf(o2)
  {
    CountsOfPermutation(o1, o2);
    FallingIsUnique(CountsOf(o1), CountsOf(o2));
  }

  lemma {:induction false} CountsOfPrefix(s: seq<Entry>, n: nat)
    ensures CountsOf(s[..Min(n, |s|)]) == CountsOf(s)[..Min(n, |s|)]
  {
  }

  /** Ties may be listed in either order, but the counts of a top list are determined. */
  lemma {:induction false} TopCountsAreUnique(r1: seq<Entry>, r2: seq<Entry>, entries: set<Entry>, n: nat)
    requires IsTop(r1, entries, n) && IsTop(r2, entries, n)
    ensures CountsOf(r1) == CountsOf(r2)
  {
    var o1: seq<Entry> :| Descending(o1) && multiset(o1) == multiset(entries) && r1 == o1[..Min(n, |o1|)];
    var o2: seq<Entry> :| Descending(o2) && multiset(o2) == multiset(entries) && r2 == o2[..Min(n, |o2|)];
    ArrangementsCountAlike(o1, o2);
    CountsOfPrefix(o1, n);
    CountsOfPrefix(o2, n);
  }

  // ----- Sorting by count --------------------------------------------------------------------

  function Place(e: Entry, s: seq<Entry>): (k: nat)
    requires Descending(s)
    ensures k <= |s|
    ensures forall i | 0 <= i < k :: s[i].1 > e.1
    ensures forall i | k <= i < |s| :: e.1 >= s[i].1
  {
    if s == [] || e.1 >= s[0].1 then 0 else 1 + Place(e, s[1..])
  }

  function InsertByCount(e: Entry, s: seq<Entry>): (r: seq<Entry>)
    requires Descending(s)
    ensures Descending(r) && multiset(r) == multiset(s) + multiset{e}
  {
    var k := Place(e, s);
    MultisetOfInsertion(e, s, k);
    s[..k] + [e] + s[k..]
  }

  /** Stable sort by descending count. */
  function SortedByCount(s: seq<Entry>): (r: seq<Entry>)
    ensures Descending(r) && multiset(r) == multiset(s)
  {
    if s == [] then []
    else
      assert s == [s[0]] + s[1..];
      InsertByCount(s[0], SortedByCount(s[1..]))
  }

  // ----- Agreement ---------------------------------------------------------------------------

  /** Top lists of any length show the same counts under both strategies after the same increments. */
  ghost predicate Agree(s1: SyncStrategy, s2: SyncStrategy, ds: seq<string>) {
    forall n: nat, r1: seq<Entry>, r2: seq<Entry> |
      && IsTop(r1, Entries(CountedAll(EmptyBoard(s1), ds)), n)
      && IsTop(r2, Entries(CountedAll(EmptyBoard(s2), ds)), n)
      :: CountsOf(r1) == CountsOf(r2)
  }

  lemma {:induction false} SomeArrangement(entries: set<Entry>) returns (order: seq<Entry>)
    ensures multiset(order) == multiset(entries)
    decreases |entries|
  {
    order := [];
    if entries != {} {
      var e :| e in entries;
      var rest := SomeArrangement(entries - {e});
      order := rest + [e];
      assert entries == (entries - {e}) + {e};
    }
  }

  /** There is a top list with all entries. */
  lemma FullTop(entries: set<Entry>) returns (r: seq<Entry>)
    ensures IsTop(r, entries, |entries|) && |r| == |entries|
  {
    var some := SomeArrangement(entries);
    var order := SortedByCount(some);
    RankingIsEnumeration(order, entries);
    r := order;
    assert r == order[..Min(|entries|, |order|)];
  }

  /** A list that is long enough shows all entries, whatever its length. */
  lemma LongTop(r: seq<Entry>, entries: set<Entry>, n: nat)
    requires IsTop(r, entries, |entries|) && n >= |entries|
    ensures IsTop(r, entries, n)
  {
    var order: seq<Entry> :|
      Descending(order) && multiset(order) == multiset(entries) && r == order[..Min(|entries|, |order|)];
    RankingIsEnumeration(order, entries);
    assert r == order[..Min(n, |order|)];
  }

  lemma {:induction false} DifferentNumbersDisagree(s1: SyncStrategy, s2: SyncStrategy, ds: seq<string>)
    requires |Entries(CountedAll(EmptyBoard(s1), ds))| < |Entries(CountedAll(EmptyBoard(s2), ds))|
    ensures !Agree(s1, s2, ds) && !Agree(s2, s1, ds)
  {
    var e1, e2 := Entries(CountedAll(EmptyBoard(s1), ds)), Entries(CountedAll(EmptyBoard(s2), ds));
    var r1 := FullTop(e1);
    var r2 := FullTop(e2);
    LongTop(r1, e1, |e2|);
    assert |CountsOf(r1)| < |CountsOf(r2)|;
  }

  lemma {:induction false} UnknownDomainIsMissing(s: SyncStrategy, ds: seq<string>, d: string)
    requires s != Atomic && d in ds && d !in KNOWN_DOMAINS
    ensures |Entries(CountedAll(EmptyBoard(Atomic), ds))| < |Entries(CountedAll(EmptyBoard(s), ds))|
  {
    EntriesAreCounts(s, ds);
    EntriesAreCounts(Atomic, ds);
    var known, all := Entries(CountedAll(EmptyBoard(Atomic), ds)), Entries(CountedAll(EmptyBoard(s), ds));
    SmallerSet(known, all, (d, Occurrences(ds, d)));
  }

  lemma SmallerSet<T>(a: set<T>, b: set<T>, x: T)
    requires a <= b && x in b && x !in a
    ensures |a| < |b|
  {
    assert b == (b - a) + a && x in b - a;
  }

  /** Exactly when two strategies agree on what is shown: both or neither have the ten slots only, or no other
      domain was counted. */
  lemma StrategiesAgree(s1: SyncStrategy, s2: SyncStrategy, ds: seq<string>)
    ensures Agree(s1, s2, ds) <==> ((s1 == Atomic <==> s2 == Atomic) || forall d | d in ds :: d in KNOWN_DOMAINS)
  {
    if (s1 == Atomic <==> s2 == Atomic) || forall d | d in ds :: d in KNOWN_DOMAINS {
      EntriesAreCounts(s1, ds);
      EntriesAreCounts(s2, ds);
      var entries := Entries(CountedAll(EmptyBoard(s1), ds));
      assert entries == Entries(CountedAll(EmptyBoard(s2), ds));
      forall n: nat, r1: seq<Entry>, r2: seq<Entry> | IsTop(r1, entries, n) && IsTop(r2, entries, n)
        ensures CountsOf(r1) == CountsOf(r2)
      {
        TopCountsAreUnique(r1, r2, entries, n);
      }
    } else {
      var d :| d in ds && d !in KNOWN_DOMAINS;
      if s1 == Atomic {
        UnknownDomainIsMissing(s2, ds, d);
        DifferentNumbersDisagree(s1, s2, ds);
      } else {
        UnknownDomainIsMissing(s1, ds, d);
        DifferentNumbersDisagree(s2, s1, ds);
      }
    }
  }

  class Leaderboard {
    const strategy: SyncStrategy
    const slots: seq<string>
    var mutexMap: map<string, nat>
    var rwlockMap: map<string, nat>
    const atomicCounts: array<nat>

    constructor (strategy: SyncStrategy)
      ensures Valid() && fresh(atomicCounts)
      ensures Contents() == EmptyBoard(strategy)
    {
      KnownDomainsAreDistinct();
      this.strategy, slots := strategy, KNOWN_DOMAINS;
      mutexMap, rwlockMap := map[], map[];
      atomicCounts := new nat[DOMAIN_SLOTS](_ => 0);
      new;
      assert atomicCounts[..] == seq(DOMAIN_SLOTS, _ => 0);
    }

    ghost predicate Valid() {
      atomicCounts.Length == |slots| && Distinct(slots)
    }

    ghost function Contents(): (b: Board)
      requires Valid()
      reads this, atomicCounts
      ensures b.Valid()
    {
      Board(strategy, slots, mutexMap, rwlockMap, atomicCounts[..])
    }

    method Increment(domain: string)
      requires Valid()
      modifies this`mutexMap, this`rwlockMap, atomicCounts
      ensures Contents() == Counted(old(Contents()), domain)
    {
      match strategy {
        case Mutex =>
          mutexMap := mutexMap[domain := (if domain in mutexMap then mutexMap[domain] else 0) + 1];
        case RwLock =>
          rwlockMap := rwlockMap[domain := (if domain in rwlockMap then rwlockMap[domain] else 0) + 1];
        case Atomic =>
          FetchAdd(IndexOf(slots, domain));
      }
    }

    method FetchAdd(slot: Option<nat>)
      modifies atomicCounts
      ensures atomicCounts[..] == SlotBumped(old(atomicCounts[..]), slot)
    {
      if slot.Some? && slot.value < atomicCounts.Length {
        atomicCounts[slot.value] := atomicCounts[slot.value] + 1;
      }
    }

    /** The pairs of a map in whatever order the map yields them. */
    static method Collect(m: map<string, nat>) returns (entries: seq<Entry>)
      ensures multiset(entries) == multiset(set d | d in m :: (d, m[d]))
    {
      entries := [];
      var left := m.Keys;
      ghost var done: set<string> := {};
      while left != {}
        invariant left + done == m.Keys && left !! done
        invariant multiset(entries) == multiset(set d | d in done :: (d, m[d]))
        decreases |left|
      {
        var d :| d in left;
        ghost var before := set e | e in done :: (e, m[e]);
        assert (set e | e in done + {d} :: (e, m[e])) == before + {(d, m[d])};
        assert (d, m[d]) !in before;
        entries := entries + [(d, m[d])];
        left, done := left - {d}, done + {d};
      }
      assert done == m.Keys;
    }

    /** The non-zero slots in slot order. */
    method CollectSlots() returns (entries: seq<Entry>)
      requires Valid() && strategy == Atomic
      ensures multiset(entries) == multiset(Entries(Contents()))
    {
      entries := NonZeroSlots(slots, atomicCounts);
    }

    static method NonZeroSlots(known: seq<string>, counts: array<nat>) returns (entries: seq<Entry>)
      requires Distinct(known) && counts.Length == |known|
      ensures multiset(entries) == multiset(SlotEntries(known, counts[..]))
    {
      entries := [];
      for i := 0 to |known|
        invariant multiset(entries) == multiset(SlotEntries(known[..i], counts[..i]))
      {
        SlotEntriesGrow(known, counts[..], i);
        assert counts[..][..i] == counts[..i] && counts[..][..i + 1] == counts[..i + 1];
        if counts[i] > 0 {
          entries := entries + [(known[i], counts[i])];
        }
      }
      assert known[..|known|] == known && counts[..|known|] == counts[..];
    }

    method TopN(n: nat) returns (top: seq<Entry>)
      requires Valid()
      ensures IsTop(top, Entries(Contents()), n)
    {
      var entries: seq<Entry>;
      match strategy {
        case Mutex => entries := Collect(mutexMap);
        case RwLock => entries := Collect(rwlockMap);
        case Atomic => entries := CollectSlots();
      }
      entries := SortedByCount(entries);
      top := entries[..Min(n, |entries|)];
    }
  }
}
