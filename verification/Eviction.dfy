/**
  The bounded-map discipline every capped map of the correlator shares: when an insert takes a
  map above its cap, one pass reclaims a whole batch of the oldest entries.

  `stamps` is the timestamp every resident entry carries; `less` is the `Ord` of the key type.
 */
module Eviction {
  import opened Wrappers

  const EVICT_BATCH_DIVISOR: nat := 10

  function Max(a: nat, b: nat): nat { if a < b then b else a }

  function Min(a: nat, b: nat): nat { if a < b then a else b }

  /** How many entries one pass reclaims. */
  function EvictTarget(len: nat, cap: nat): nat {
    Max(Max(SatSub(len, cap), cap / EVICT_BATCH_DIVISOR), 1)
  }

  /** The laws of a strict total order, at three keys. */
  predicate OrderLaws<K(==)>(less: (K, K) -> bool, a: K, b: K, c: K) {
    && !less(a, a)
    && (a != b ==> less(a, b) || less(b, a))
    && (less(a, b) && less(b, c) ==> less(a, c))
  }

  ghost predicate StrictTotal<K(!new)>(less: (K, K) -> bool) {
    forall a, b, c :: OrderLaws(less, a, b, c)
  }

  datatype Entry<K> = Entry(ts: nat, key: K)

  /** The composite `(ts, key)` order. */
  predicate Older<K>(less: (K, K) -> bool, a: Entry<K>, b: Entry<K>) {
    a.ts < b.ts || (a.ts == b.ts && less(a.key, b.key))
  }

  predicate Leq<K(==)>(less: (K, K) -> bool, a: Entry<K>, b: Entry<K>) {
    Older(less, a, b) || a == b
  }

  ghost predicate IsOldest<K(!new)>(less: (K, K) -> bool, stamps: map<K, nat>, k: K) {
    k in stamps &&
    forall j :: j in stamps && j != k ==> Older(less, Entry(stamps[k], k), Entry(stamps[j], j))
  }

  lemma OlderTotal<K(!new)>(less: (K, K) -> bool, a: Entry<K>, b: Entry<K>)
    requires StrictTotal(less)
    ensures a != b ==> Older(less, a, b) || Older(less, b, a)
    ensures !(Older(less, a, b) && Older(less, b, a))
  {
    assert OrderLaws(less, a.key, b.key, a.key);
  }

  lemma OlderTransitive<K(!new)>(less: (K, K) -> bool, a: Entry<K>, b: Entry<K>, c: Entry<K>)
    requires StrictTotal(less) && Older(less, a, b) && Older(less, b, c)
    ensures Older(less, a, c)
  {
    assert OrderLaws(less, a.key, b.key, c.key);
  }

  /** A nonempty map has an oldest entry. */
  lemma {:induction false} OldestExists<K(!new)>(less: (K, K) -> bool, stamps: map<K, nat>) returns (k: K)
    requires StrictTotal(less) && stamps != map[]
    ensures IsOldest(less, stamps, k)
    decreases |stamps|
  {
    var x :| x in stamps;
    var rest := stamps - {x};
    if rest == map[] {
      k := x;
      assert forall j :: j in stamps ==> j == x || j in rest;
    } else {
      assert |rest| < |stamps| by {
        assert rest.Keys == stamps.Keys - {x};
      }
      var y := OldestExists(less, rest);
      OlderTotal(less, Entry(stamps[x], x), Entry(stamps[y], y));
      if Older(less, Entry(stamps[x], x), Entry(stamps[y], y)) {
        k := x;
        forall j | j in stamps && j != x ensures Older(less, Entry(stamps[x], x), Entry(stamps[j], j)) {
          assert j in rest;
          if j != y {
            OlderTransitive(less, Entry(stamps[x], x), Entry(stamps[y], y), Entry(stamps[j], j));
          }
        }
      } else {
        k := y;
        forall j | j in stamps && j != y ensures Older(less, Entry(stamps[y], y), Entry(stamps[j], j)) {
          if j != x {
            assert j in rest;
          }
        }
      }
    }
  }

  /** The single oldest entry: what a one-victim policy would evict. */
  ghost function Oldest<K(!new)>(less: (K, K) -> bool, stamps: map<K, nat>): (k: K)
    requires StrictTotal(less) && stamps != map[]
    ensures IsOldest(less, stamps, k)
  {
    assert exists k :: IsOldest(less, stamps, k) by {
      var k := OldestExists(less, stamps);
    }
    var k :| IsOldest(less, stamps, k);
    k
  }

  /** `n` rounds of single-victim eviction: the victims, in the order the rounds take them. */
  ghost function Victims<K(!new)>(less: (K, K) -> bool, stamps: map<K, nat>, n: nat): (r: seq<K>)
    requires StrictTotal(less)
    ensures |r| == Min(n, |stamps|)
    ensures forall i :: 0 <= i < |r| ==> r[i] in stamps
    ensures forall i, j :: 0 <= i < j < |r| ==> r[i] != r[j]
    decreases n
  {
    if n == 0 || stamps == map[] then []
    else
      var k := Oldest(less, stamps);
      assert |stamps - {k}| == |stamps| - 1 by {
        assert (stamps - {k}).Keys == stamps.Keys - {k};
      }
      [k] + Victims(less, stamps - {k}, n - 1)
  }

  /** `r` is a batch of the `n` oldest entries of `stamps`, oldest first. */
  ghost predicate IsBatch<K(!new)>(less: (K, K) -> bool, stamps: map<K, nat>, n: nat, r: seq<K>) {
    && |r| == Min(n, |stamps|)
    && (forall i :: 0 <= i < |r| ==> r[i] in stamps)
    && (forall i, j :: 0 <= i < j < |r| ==> Older(less, Entry(stamps[r[i]], r[i]), Entry(stamps[r[j]], r[j])))
    && (forall i, k :: 0 <= i < |r| && k in stamps && k !in r ==>
          Older(less, Entry(stamps[r[i]], r[i]), Entry(stamps[k], k)))
  }

  /** The first victim of a batch is the oldest entry. */
  lemma BatchHead<K(!new)>(less: (K, K) -> bool, stamps: map<K, nat>, n: nat, r: seq<K>)
    requires StrictTotal(less) && IsBatch(less, stamps, n, r) && n != 0 && stamps != map[]
    ensures r[0] == Oldest(less, stamps)
  {
    var k := Oldest(less, stamps);
    if r[0] != k {
      assert Older(less, Entry(stamps[k], k), Entry(stamps[r[0]], r[0]));
      assert Older(less, Entry(stamps[r[0]], r[0]), Entry(stamps[k], k)) by {
        if k in r {
          var i :| 0 <= i < |r| && r[i] == k;
        }
      }
      OlderTotal(less, Entry(stamps[k], k), Entry(stamps[r[0]], r[0]));
    }
  }

  /** The rest of a batch is the batch of what remains. */
  lemma BatchTail<K(!new)>(less: (K, K) -> bool, stamps: map<K, nat>, n: nat, r: seq<K>)
    requires StrictTotal(less) && IsBatch(less, stamps, n, r) && n != 0 && stamps != map[]
    ensures IsBatch(less, stamps - {r[0]}, n - 1, r[1..])
  {
    var k, rest, tail := r[0], stamps - {r[0]}, r[1..];
    assert rest.Keys == stamps.Keys - {k};
    assert r == [k] + tail;
    forall i | 0 <= i < |tail| ensures tail[i] in rest {
      assert tail[i] == r[i + 1];
      assert Older(less, Entry(stamps[r[0]], r[0]), Entry(stamps[r[i + 1]], r[i + 1]));
      OlderTotal(less, Entry(stamps[k], k), Entry(stamps[k], k));
    }
    forall i, j | 0 <= i < j < |tail|
      ensures Older(less, Entry(rest[tail[i]], tail[i]), Entry(rest[tail[j]], tail[j]))
    {
      assert tail[i] == r[i + 1] && tail[j] == r[j + 1];
    }
    forall i, j | 0 <= i < |tail| && j in rest && j !in tail
      ensures Older(less, Entry(rest[tail[i]], tail[i]), Entry(rest[j], j))
    {
      assert tail[i] == r[i + 1];
    }
  }

  /** The batch is determined by the entries alone: no choice is left to map iteration order. */
  lemma {:induction false} BatchIsVictims<K(!new)>(less: (K, K) -> bool, stamps: map<K, nat>, n: nat, r: seq<K>)
    requires StrictTotal(less) && IsBatch(less, stamps, n, r)
    ensures r == Victims(less, stamps, n)
    decreases n
  {
    hide StrictTotal, IsBatch, IsOldest;
    BatchLength(less, stamps, n, r);
    if n != 0 && stamps != map[] {
      hide Victims;
      BatchHead(less, stamps, n, r);
      BatchTail(less, stamps, n, r);
      BatchIsVictims(less, stamps - {r[0]}, n - 1, r[1..]);
      VictimsStep(less, stamps, n);
      assert r == [r[0]] + r[1..];
    }
  }

  lemma BatchLength<K(!new)>(less: (K, K) -> bool, stamps: map<K, nat>, n: nat, r: seq<K>)
    requires IsBatch(less, stamps, n, r)
    ensures |r| == Min(n, |stamps|)
  {
    hide Older;
  }

  lemma VictimsStep<K(!new)>(less: (K, K) -> bool, stamps: map<K, nat>, n: nat)
    requires StrictTotal(less) && n != 0 && stamps != map[]
    ensures var k := Oldest(less, stamps);
            Victims(less, stamps, n) == [k] + Victims(less, stamps - {k}, n - 1)
  {
    hide StrictTotal, IsOldest;
  }

  /** Putting the oldest entry in front of the batch of the others makes a batch. */
  lemma ConsBatch<K(!new)>(less: (K, K) -> bool, stamps: map<K, nat>, n: nat, k: K, tail: seq<K>)
    requires IsOldest(less, stamps, k) && n > 0 && IsBatch(less, stamps - {k}, n - 1, tail)
    ensures IsBatch(less, stamps, n, [k] + tail)
  {
    hide Older;
    var r, rest := [k] + tail, stamps - {k};
    assert rest.Keys == stamps.Keys - {k};
    forall i, j | 0 <= i < |r| && j in stamps && j !in r
      ensures Older(less, Entry(stamps[r[i]], r[i]), Entry(stamps[j], j))
    {
      assert r[0] == k;
      assert j in rest && j !in tail;
      if i > 0 { assert r[i] == tail[i - 1]; }
    }
    forall i, j | 0 <= i < j < |r|
      ensures Older(less, Entry(stamps[r[i]], r[i]), Entry(stamps[r[j]], r[j]))
    {
      assert r[j] == tail[j - 1] && tail[j - 1] in rest;
      if i > 0 { assert r[i] == tail[i - 1]; }
    }
  }

  /** The converse: the rounds produce such a batch, so the description above is not vacuous. */
  lemma {:induction false} VictimsAreBatch<K(!new)>(less: (K, K) -> bool, stamps: map<K, nat>, n: nat)
    requires StrictTotal(less)
    ensures IsBatch(less, stamps, n, Victims(less, stamps, n))
    decreases n
  {
    if n != 0 && stamps != map[] {
      hide IsBatch, StrictTotal;
      var k := Oldest(less, stamps);
      VictimsAreBatch(less, stamps - {k}, n - 1);
      ConsBatch(less, stamps, n, k, Victims(less, stamps - {k}, n - 1));
    }
  }

  ghost predicate Sorted<K>(less: (K, K) -> bool, es: seq<Entry<K>>) {
    forall i, j :: 0 <= i < j < |es| ==> Leq(less, es[i], es[j])
  }

  /** `slice::sort_unstable` on the composite order. */
  method SortUnstable<K(!new, ==)>(less: (K, K) -> bool, es: seq<Entry<K>>) returns (r: seq<Entry<K>>)
    requires StrictTotal(less)
    ensures multiset(r) == multiset(es)
    ensures Sorted(less, r)
  {
    r := [];
    for n := 0 to |es|
      invariant multiset(r) == multiset(es[..n])
      invariant Sorted(less, r)
    {
      r := Insert(less, r, es[n]);
      assert es[..n + 1] == es[..n] + [es[n]];
    }
    assert es[..|es|] == es;
  }

  method Insert<K(!new, ==)>(less: (K, K) -> bool, es: seq<Entry<K>>, e: Entry<K>) returns (r: seq<Entry<K>>)
    requires StrictTotal(less) && Sorted(less, es)
    ensures multiset(r) == multiset(es) + multiset{e}
    ensures Sorted(less, r)
  {
    var i := 0;
    while i < |es| && Older(less, es[i], e)
      invariant 0 <= i <= |es|
      invariant forall j :: 0 <= j < i ==> Older(less, es[j], e)
    {
      i := i + 1;
    }
    r := es[..i] + [e] + es[i..];
    assert es == es[..i] + es[i..];
    assert multiset(r) == multiset(es[..i]) + multiset{e} + multiset(es[i..]);
    InsertKeepsOrder(less, es, i, e);
  }

  lemma InsertKeepsOrder<K(!new)>(less: (K, K) -> bool, es: seq<Entry<K>>, i: nat, e: Entry<K>)
    requires StrictTotal(less) && Sorted(less, es) && i <= |es|
    requires forall j :: 0 <= j < i ==> Older(less, es[j], e)
    requires i < |es| ==> !Older(less, es[i], e)
    ensures Sorted(less, es[..i] + [e] + es[i..])
  {
    forall b | i <= b < |es| ensures Leq(less, e, es[b]) {
      OlderTotal(less, es[i], e);
      if Older(less, e, es[i]) && Older(less, es[i], es[b]) {
        OlderTransitive(less, e, es[i], es[b]);
      }
    }
    var r := es[..i] + [e] + es[i..];
    forall a, b | 0 <= a < b < |r| ensures Leq(less, r[a], r[b]) {
      if a < i && b > i { assert Leq(less, es[a], es[b - 1]); }
      else if a > i { assert Leq(less, es[a - 1], es[b - 1]); }
      else if b < i { assert Leq(less, es[a], es[b]); }
    }
  }

  /** `slice::select_nth_unstable(n - 1)`: a partition, not a sort. */
  method SelectNth<K(!new, ==)>(less: (K, K) -> bool, es: seq<Entry<K>>, n: nat) returns (r: seq<Entry<K>>)
    requires StrictTotal(less) && 0 < n <= |es|
    ensures multiset(r) == multiset(es)
    ensures |r| == |es|
    ensures forall i, j :: 0 <= i < n <= j < |r| ==> Leq(less, r[i], r[j])
  {
    r := SortUnstable(less, es);
    assert |r| == |multiset(r)| == |multiset(es)|;
  }

  ghost function Entries<K(!new)>(stamps: map<K, nat>): set<Entry<K>> {
    set k | k in stamps :: Entry(stamps[k], k)
  }

  lemma EntriesAdd<K(!new)>(stamps: map<K, nat>, k: K)
    requires k in stamps
    ensures Entries(stamps) == Entries(stamps - {k}) + {Entry(stamps[k], k)}
    ensures Entry(stamps[k], k) !in Entries(stamps - {k})
  {
    var rest := stamps - {k};
    forall e | e in Entries(stamps) ensures e in Entries(rest) + {Entry(stamps[k], k)} {
      if e.key != k {
        assert e.key in rest;
      }
    }
    forall e | e in Entries(rest) ensures e in Entries(stamps) {
      assert e.key in stamps;
    }
  }

  lemma {:induction false} EntriesCount<K(!new)>(stamps: map<K, nat>)
    ensures |Entries(stamps)| == |stamps|
    decreases |stamps|
  {
    if stamps != map[] {
      var k :| k in stamps;
      var rest := stamps - {k};
      assert rest.Keys == stamps.Keys - {k};
      EntriesCount(rest);
      EntriesAdd(stamps, k);
    }
  }

  lemma NoRepeats<T>(es: seq<T>)
    requires forall e :: multiset(es)[e] <= 1
    ensures forall i, j :: 0 <= i < j < |es| ==> es[i] != es[j]
  {
    forall i, j | 0 <= i < j < |es| ensures es[i] != es[j] {
      assert es == es[..j] + [es[j]] + es[j + 1..];
      assert es[i] == es[..j][i];
      assert es[j] in es[..j] ==> multiset(es)[es[j]] >= 2;
    }
  }

  lemma InMultiset<T>(xs: seq<T>, x: T)
    ensures x in multiset(xs) <==> x in xs
  {
  }

  /** The first `m` of a partitioned listing of `stamps`, sorted, is the batch of its `n` oldest. */
  lemma ChosenIsBatch<K(!new)>(less: (K, K) -> bool, stamps: map<K, nat>, n: nat,
                               part: seq<Entry<K>>, m: nat, chosen: seq<Entry<K>>, r: seq<K>)
    requires multiset(part) == multiset(Entries(stamps))
    requires m == Min(n, |stamps|) && m <= |part|
    requires forall i, j :: 0 <= i < m <= j < |part| ==> Leq(less, part[i], part[j])
    requires multiset(chosen) == multiset(part[..m]) && Sorted(less, chosen)
    requires |r| == |chosen| && forall i :: 0 <= i < |r| ==> r[i] == chosen[i].key
    ensures IsBatch(less, stamps, n, r)
  {
    ListsEntries(stamps, part, m, chosen);
    forall i, k | 0 <= i < |r| && k in stamps && k !in r
      ensures Older(less, Entry(stamps[r[i]], r[i]), Entry(stamps[k], k))
    {
      var e := Entry(stamps[k], k);
      InMultiset(part, e);
      var j :| 0 <= j < |part| && part[j] == e;
      assert e !in chosen;
      InMultiset(chosen, e);
      InMultiset(part[..m], e);
      InMultiset(part[..m], chosen[i]);
      InMultiset(chosen, chosen[i]);
      var a :| 0 <= a < m && part[a] == chosen[i];
      assert a < m <= j && Leq(less, part[a], part[j]);
    }
  }

  lemma ListsEntries<K(!new)>(stamps: map<K, nat>, part: seq<Entry<K>>, m: nat, chosen: seq<Entry<K>>)
    requires multiset(part) == multiset(Entries(stamps)) && m <= |part|
    requires multiset(chosen) == multiset(part[..m])
    ensures |chosen| == m
    ensures forall i :: 0 <= i < |chosen| ==> chosen[i].key in stamps && chosen[i].ts == stamps[chosen[i].key]
    ensures forall i, j :: 0 <= i < j < |chosen| ==> chosen[i] != chosen[j]
  {
    assert part == part[..m] + part[m..];
    assert multiset(part) == multiset(part[..m]) + multiset(part[m..]);
    assert |chosen| == |multiset(chosen)| == |multiset(part[..m])| == m;
    forall e ensures multiset(chosen)[e] <= 1 {
      assert multiset(part)[e] <= 1;
    }
    NoRepeats(chosen);
    forall i | 0 <= i < |chosen| ensures chosen[i] in Entries(stamps) {
      assert chosen[i] in multiset(chosen);
      assert chosen[i] in multiset(part);
    }
  }

  lemma NextCandidate<K(!new)>(stamps: map<K, nat>, keep: set<K>, rest: set<K>, k: K)
    requires k in rest && rest <= stamps.Keys
    ensures var seen, after := stamps - keep - rest, stamps - keep - (rest - {k});
            && (k in keep ==> after == seen)
            && (k !in keep ==>
                  Entries(after) == Entries(seen) + {Entry(stamps[k], k)} && Entry(stamps[k], k) !in Entries(seen))
  {
    var seen, after := stamps - keep - rest, stamps - keep - (rest - {k});
    if k in keep {
      assert after == seen;
    } else {
      assert seen == after - {k};
      EntriesAdd(after, k);
    }
  }

  lemma EmptyEntries<K(!new)>()
    ensures Entries<K>(map[]) == {}
  {
  }

  /** The eligible entries, in whatever order the map yields them. */
  method Candidates<K(!new, ==)>(stamps: map<K, nat>, keep: set<K>) returns (cand: seq<Entry<K>>)
    ensures multiset(cand) == multiset(Entries(stamps - keep))
  {
    EmptyEntries<K>();
    hide Entries;
    cand := [];
    var rest := stamps.Keys;
    ghost var seen: map<K, nat> := map[];
    while rest != {}
      invariant rest <= stamps.Keys
      invariant seen == stamps - keep - rest
      invariant multiset(cand) == multiset(Entries(seen))
      decreases |rest|
    {
      var k :| k in rest;
      NextCandidate(stamps, keep, rest, k);
      rest := rest - {k};
      seen := stamps - keep - rest;
      if k !in keep {
        cand := cand + [Entry(stamps[k], k)];
      }
    }
    assert seen == stamps - keep;
  }

  /**
    The `n` oldest keys outside `keep`, oldest first. The candidates are collected in whatever
    order the map yields them; the result is nevertheless the one sequence that `n` rounds of
    single-victim eviction produce.
   */
  method OldestKeys<K(!new, ==)>(less: (K, K) -> bool, stamps: map<K, nat>, n: nat, keep: set<K>)
    returns (r: seq<K>)
    requires StrictTotal(less)
    ensures r == Victims(less, stamps - keep, n)
  {
    if n == 0 {
      return [];
    }
    var cand := Candidates(stamps, keep);
    EntriesCount(stamps - keep);
    assert |cand| == |multiset(cand)|;
    var m := Min(n, |cand|);
    if m == 0 {
      return [];
    }
    if m < |cand| {
      cand := SelectNth(less, cand, m);
    }
    ghost var part := cand;
    cand := cand[..m];
    cand := SortUnstable(less, cand);
    r := seq(|cand|, i requires 0 <= i < |cand| => cand[i].key);
    ChosenIsBatch(less, stamps - keep, n, part, m, cand, r);
    BatchIsVictims(less, stamps - keep, n, r);
  }

  // ---------------------------------------------------------------------------------------
  // The pass: bounded, sparing, and rare
  // ---------------------------------------------------------------------------------------

  /** The victims of the pass that follows an insert; none while the map is within its cap. */
  ghost function PassVictims<K(!new)>(less: (K, K) -> bool, stamps: map<K, nat>, cap: nat, keep: set<K>): (r: seq<K>)
    requires StrictTotal(less)
    ensures forall i :: 0 <= i < |r| ==> r[i] in stamps && r[i] !in keep
  {
    if |stamps| > cap then Victims(less, stamps - keep, EvictTarget(|stamps|, cap)) else []
  }

  function AsSet<T>(xs: seq<T>): set<T> { set x | x in xs }

  lemma AsSetLast<T>(xs: seq<T>)
    requires xs != []
    ensures AsSet(xs) == AsSet(xs[..|xs| - 1]) + {xs[|xs| - 1]}
  {
    assert xs == xs[..|xs| - 1] + [xs[|xs| - 1]];
  }

  function Drop<K, V>(m: map<K, V>, victims: seq<K>): (r: map<K, V>) {
    m - AsSet(victims)
  }

  lemma {:induction false} DistinctCount<T>(xs: seq<T>)
    requires forall i, j :: 0 <= i < j < |xs| ==> xs[i] != xs[j]
    ensures |AsSet(xs)| == |xs|
  {
    if xs != [] {
      DistinctCount(xs[..|xs| - 1]);
      AsSetLast(xs);
    }
  }

  lemma DropCount<K, V>(m: map<K, V>, victims: seq<K>)
    requires forall i :: 0 <= i < |victims| ==> victims[i] in m
    requires forall i, j :: 0 <= i < j < |victims| ==> victims[i] != victims[j]
    ensures |Drop(m, victims)| == |m| - |victims|
  {
    var gone := AsSet(victims);
    DistinctCount(victims);
    assert Drop(m, victims).Keys == m.Keys - gone;
    assert gone <= m.Keys;
    assert |m.Keys - gone| == |m.Keys| - |gone|;
  }

  /** The entries a pass leaves resident. */
  ghost function AfterPass<K(!new)>(less: (K, K) -> bool, stamps: map<K, nat>, cap: nat, keep: set<K>): map<K, nat>
    requires StrictTotal(less)
  {
    Drop(stamps, PassVictims(less, stamps, cap, keep))
  }

  /**
    A pass leaves the map at or below its cap with every exempt key still resident, whatever
    burst of up to `cap` exempt keys pushed it over.
   */
  lemma PassBounds<K(!new)>(less: (K, K) -> bool, stamps: map<K, nat>, cap: nat, keep: set<K>)
    requires StrictTotal(less) && |keep| <= cap
    ensures |AfterPass(less, stamps, cap, keep)| <= cap
    ensures forall k :: k in keep && k in stamps ==> k in AfterPass(less, stamps, cap, keep)
  {
    var vs := PassVictims(less, stamps, cap, keep);
    DropCount(stamps, vs);
    if |stamps| > cap {
      var kept := stamps.Keys * keep;
      assert (stamps - keep).Keys == stamps.Keys - kept;
      assert |stamps - keep| == |stamps.Keys| - |kept|;
      Subset(kept, keep);
    }
  }

  lemma {:induction false} Subset<T>(a: set<T>, b: set<T>)
    requires a <= b
    ensures |a| <= |b|
  {
    if a != {} {
      var x :| x in a;
      Subset(a - {x}, b - {x});
    }
  }

  /** What happens to one capped map: an insert of a key (fresh or not), or a removal. */
  datatype MapOp<K> = InsertOp(key: K, ts: nat) | RemoveOp(key: K)

  /** A capped map with the accounting of its passes. */
  datatype Ledger<K> = Ledger(stamps: map<K, nat>, arrivals: nat, passes: nat, visits: nat)

  ghost function Step<K(!new)>(less: (K, K) -> bool, cap: nat, l: Ledger<K>, op: MapOp<K>): Ledger<K>
    requires StrictTotal(less)
  {
    match op
    case RemoveOp(k) => l.(stamps := l.stamps - {k})
    case InsertOp(k, ts) =>
      var grown := l.stamps[k := ts];
      var arrivals := l.arrivals + (if k in l.stamps then 0 else 1);
      if |grown| > cap then
        Ledger(AfterPass(less, grown, cap, {k}), arrivals, l.passes + 1, l.visits + |grown|)
      else
        Ledger(grown, arrivals, l.passes, l.visits)
  }

  ghost function Run<K(!new)>(less: (K, K) -> bool, cap: nat, l: Ledger<K>, ops: seq<MapOp<K>>): Ledger<K>
    requires StrictTotal(less)
  {
    if ops == [] then l else Step(less, cap, Run(less, cap, l, ops[..|ops| - 1]), ops[|ops| - 1])
  }

  /** Headroom one pass buys when inserts arrive one key at a time. */
  function Batch(cap: nat): nat { Max(1, cap / EVICT_BATCH_DIVISOR) }

  /** One operation: a fresh insert pays for one slot, a pass gives back at least a batch. */
  lemma StepAccount<K(!new)>(less: (K, K) -> bool, cap: nat, l: Ledger<K>, op: MapOp<K>)
    requires StrictTotal(less) && cap >= 1 && |l.stamps| <= cap
    ensures var l' := Step(less, cap, l, op);
            && |l'.stamps| <= cap
            && l.arrivals <= l'.arrivals
            && (l'.passes == l.passes ==>
                  l'.visits == l.visits && |l'.stamps| - |l.stamps| <= l'.arrivals - l.arrivals)
            && (l'.passes != l.passes ==>
                  && l'.passes == l.passes + 1 && l'.visits == l.visits + cap + 1
                  && |l.stamps| == cap && |l'.stamps| == cap + 1 - Batch(cap)
                  && l'.arrivals == l.arrivals + 1)
  {
    match op
    case RemoveOp(k) =>
      Subset((l.stamps - {k}).Keys, l.stamps.Keys);
    case InsertOp(k, ts) =>
      var grown := l.stamps[k := ts];
      assert grown.Keys == l.stamps.Keys + {k};
      if |grown| > cap {
        PassSize(less, grown, cap, k);
      }
  }

  /** The pass one fresh key triggers takes exactly one batch. */
  lemma PassSize<K(!new)>(less: (K, K) -> bool, stamps: map<K, nat>, cap: nat, k: K)
    requires StrictTotal(less) && cap >= 1 && |stamps| == cap + 1 && k in stamps
    ensures |AfterPass(less, stamps, cap, {k})| == cap + 1 - Batch(cap)
  {
    assert EvictTarget(|stamps|, cap) == Batch(cap);
    DropCount(stamps, PassVictims(less, stamps, cap, {k}));
    assert (stamps - {k}).Keys == stamps.Keys - {k};
  }

  /** The amortization invariant: arrivals cover the residents and every batch reclaimed so far. */
  ghost predicate Prepaid<K>(cap: nat, batch: nat, l: Ledger<K>) {
    && |l.stamps| <= cap
    && l.visits == l.passes * (cap + 1)
    && |l.stamps| + l.passes * batch <= l.arrivals
  }

  lemma PrepaidStep<K(!new)>(less: (K, K) -> bool, cap: nat, batch: nat, l: Ledger<K>, op: MapOp<K>)
    requires StrictTotal(less) && cap >= 1 && batch == Batch(cap) && Prepaid(cap, batch, l)
    ensures Prepaid(cap, batch, Step(less, cap, l, op))
  {
    hide Step, Batch;
    StepAccount(less, cap, l, op);
    var l' := Step(less, cap, l, op);
    if l'.passes != l.passes {
      OneMore(l.passes, batch);
      OneMore(l.passes, cap + 1);
    }
  }

  lemma OneMore(p: nat, b: nat)
    ensures (p + 1) * b == p * b + b
  {
  }

  lemma {:induction false} PrepaidRun<K(!new)>(less: (K, K) -> bool, cap: nat, ops: seq<MapOp<K>>)
    requires StrictTotal(less) && cap >= 1
    ensures Prepaid(cap, Batch(cap), Run(less, cap, Ledger(map[], 0, 0, 0), ops))
  {
    if ops != [] {
      PrepaidRun(less, cap, ops[..|ops| - 1]);
      PrepaidStep(less, cap, Batch(cap), Run(less, cap, Ledger(map[], 0, 0, 0), ops[..|ops| - 1]), ops[|ops| - 1]);
    }
  }

  /**
    The amortized cost of a run of any inserts and removals: passes are paid for by fresh
    inserts, so the elements ever scanned stay within `(cap + 1) / batch` per fresh insert.
   */
  lemma AmortizedScan<K(!new)>(less: (K, K) -> bool, cap: nat, batch: nat, ops: seq<MapOp<K>>, l: Ledger<K>)
    requires StrictTotal(less) && cap >= 1 && batch == (if cap < 10 then 1 else cap / 10)
    requires l == Run(less, cap, Ledger(map[], 0, 0, 0), ops)
    ensures |l.stamps| <= cap
    ensures l.passes * batch <= l.arrivals
    ensures l.visits * batch <= l.arrivals * (cap + 1)
  {
    PrepaidRun(less, cap, ops);
    FundedVisits(cap, batch, l);
  }

  lemma FundedVisits<K>(cap: nat, batch: nat, l: Ledger<K>)
    requires Prepaid(cap, batch, l)
    ensures l.passes * batch <= l.arrivals
    ensures l.visits * batch <= l.arrivals * (cap + 1)
  {
    Charge(l.passes, batch, l.arrivals, cap + 1);
  }

  lemma Charge(passes: nat, batch: nat, arrivals: nat, scan: nat)
    requires passes * batch <= arrivals
    ensures (passes * scan) * batch <= arrivals * scan
  {
    calc {
      (passes * scan) * batch;
      (passes * batch) * scan;
    <= { MulLe(passes * batch, arrivals, scan); }
      arrivals * scan;
    }
  }

  lemma MulLe(a: nat, b: nat, c: nat)
    requires a <= b
    ensures a * c <= b * c
  {
  }

  /** Right after a pass, no further pass runs until a whole batch of fresh keys has come in. */
  lemma {:induction false} PassGap<K(!new)>(less: (K, K) -> bool, cap: nat, batch: nat, l: Ledger<K>, ops: seq<MapOp<K>>)
    requires StrictTotal(less) && cap >= 1 && batch == (if cap < 10 then 1 else cap / 10)
    requires |l.stamps| <= cap + 1 - batch
    requires Run(less, cap, l, ops).arrivals < l.arrivals + batch
    ensures Run(less, cap, l, ops).passes == l.passes
    ensures Run(less, cap, l, ops).arrivals >= l.arrivals
    ensures |Run(less, cap, l, ops).stamps| <= cap + 1 - batch + (Run(less, cap, l, ops).arrivals - l.arrivals)
  {
    if ops != [] {
      var before := Run(less, cap, l, ops[..|ops| - 1]);
      FreshGrows(less, cap, before, ops[|ops| - 1]);
      PassGap(less, cap, batch, l, ops[..|ops| - 1]);
      StepAccount(less, cap, before, ops[|ops| - 1]);
      match ops[|ops| - 1]
      case RemoveOp(k) =>
      case InsertOp(k, ts) =>
        assert before.stamps[k := ts].Keys == before.stamps.Keys + {k};
    }
  }

  lemma FreshGrows<K(!new)>(less: (K, K) -> bool, cap: nat, l: Ledger<K>, op: MapOp<K>)
    requires StrictTotal(less)
    ensures l.arrivals <= Step(less, cap, l, op).arrivals
  {
  }
}
