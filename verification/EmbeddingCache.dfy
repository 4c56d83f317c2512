/** The LRU embedding cache: a hash map, a recency list and counters
    (crates/atomr-accel-agents/src/embedding_cache.rs). */
module EmbeddingCache {
  import opened Wrappers

  /** The 64-bit value of `hash_key`. The cache never looks at the key bytes again. */
  type Hash = n: nat | n < 0x1_0000_0000_0000_0000

  datatype Stats = Stats(hits: nat, misses: nat, size: nat, capacity: nat)

  datatype Msg<K, V> = Get(key: K) | Insert(key: K, value: V) | Invalidate(key: K) | ReadStats

  datatype Reply<V> = Found(found: Option<V>) | Inserted | Removed(removed: bool) | Report(stats: Stats)

  /** `order` lists keys from least to most recently used. */
  datatype State<V> = State(capacity: nat, entries: map<Hash, V>, order: seq<Hash>, stats: Stats)

  function Empty<V>(capacity: nat): State<V> {
    State(capacity, map[], [], Stats(0, 0, 0, capacity))
  }

  /** `s` without the first occurrence of `k`. */
  function Without(s: seq<Hash>, k: Hash): seq<Hash> {
    if s == [] then [] else if s[0] == k then s[1..] else [s[0]] + Without(s[1..], k)
  }

  function Touched(s: seq<Hash>, k: Hash): seq<Hash> {
    Without(s, k) + [k]
  }

  /** Make room for `h`: drop the least recently used entry if the map is full and `h` is new. */
  function Evicted<V>(c: State<V>, h: Hash): State<V> {
    if |c.entries| >= c.capacity && h !in c.entries && c.order != [] then
      c.(entries := c.entries - {c.order[0]}, order := c.order[1..])
    else c
  }

  /** One message, with the key already hashed. */
  function Step<V>(c: State<V>, m: Msg<Hash, V>): (State<V>, Reply<V>) {
    match m
    case Get(h) =>
      if h in c.entries then
        (c.(order := Touched(c.order, h), stats := c.stats.(hits := c.stats.hits + 1)), Found(Some(c.entries[h])))
      else
        (c.(stats := c.stats.(misses := c.stats.misses + 1)), Found(None))
    case Insert(h, v) =>
      var e := Evicted(c, h);
      var entries := e.entries[h := v];
      (e.(entries := entries, order := Touched(e.order, h), stats := c.stats.(size := |entries|)), Inserted)
    case Invalidate(h) =>
      if h in c.entries then
        var entries := c.entries - {h};
        (c.(entries := entries, order := Without(c.order, h), stats := c.stats.(size := |entries|)), Removed(true))
      else (c, Removed(false))
    case ReadStats => (c, Report(c.stats))
  }

  /** A whole run, oldest message first. */
  function Run<V>(c: State<V>, ms: seq<Msg<Hash, V>>): (State<V>, seq<Reply<V>>) {
    if ms == [] then (c, [])
    else
      var (c', rs) := Run(c, ms[..|ms| - 1]);
      var (c'', r) := Step(c', ms[|ms| - 1]);
      (c'', rs + [r])
  }

  // ----- what every message keeps -----

  function Slots(capacity: nat): nat {
    if capacity == 0 then 1 else capacity
  }

  /** The recency list lists the map's keys once each, and the map fits.
      A cache configured with capacity 0 still holds one entry. */
  ghost predicate Valid<V>(c: State<V>) {
    && NoDup(c.order) && Elems(c.order) == c.entries.Keys
    && |c.entries| <= Slots(c.capacity)
    && c.stats.size == |c.entries| && c.stats.capacity == c.capacity
  }

  lemma {:induction false} WithoutProps(s: seq<Hash>, k: Hash)
    requires NoDup(s)
    ensures NoDup(Without(s, k)) && Elems(Without(s, k)) == Elems(s) - {k}
    ensures k !in s ==> Without(s, k) == s
    ensures |Without(s, k)| == |s| - (if k in s then 1 else 0)
  {
    if s != [] {
      var t := s[1..];
      assert s == [s[0]] + t;
      assert Elems(s) == {s[0]} + Elems(t);
      WithoutProps(t, k);
      assert s[0] !in t;
      if s[0] != k {
        assert s[0] !in Elems(Without(t, k));
        assert Elems(Without(s, k)) == {s[0]} + Elems(Without(t, k));
      } else {
        assert k !in t && k !in Elems(t);
      }
    }
  }

  lemma TouchedProps(s: seq<Hash>, k: Hash)
    requires NoDup(s)
    ensures NoDup(Touched(s, k)) && Elems(Touched(s, k)) == Elems(s) + {k}
    ensures |Touched(s, k)| == |s| + (if k in s then 0 else 1)
  {
    WithoutProps(s, k);
    assert k !in Elems(Without(s, k));
    assert Elems(Touched(s, k)) == Elems(Without(s, k)) + {k};
  }

  lemma DropFront(s: seq<Hash>)
    requires NoDup(s) && s != []
    ensures NoDup(s[1..]) && Elems(s[1..]) == Elems(s) - {s[0]}
  {
    assert s == [s[0]] + s[1..];
    assert Elems(s) == {s[0]} + Elems(s[1..]);
    assert s[0] !in s[1..];
  }

  lemma EvictedValid<V>(c: State<V>, h: Hash)
    requires Valid(c)
    ensures var e := Evicted(c, h);
            && NoDup(e.order) && Elems(e.order) == e.entries.Keys
            && (h in c.entries ==> e == c)
            && (h !in c.entries ==> h !in e.entries && |e.entries| < Slots(c.capacity))
            && |e.order| == |e.entries|
  {
    NoDupCount(c.order);
    assert |c.entries.Keys| == |c.entries|;
    if |c.entries| >= c.capacity && h !in c.entries && c.order != [] {
      DropFront(c.order);
      assert c.order[0] in Elems(c.order);
      SizeWithout(c, c.order[0]);
      var e := Evicted(c, h);
      assert e.entries.Keys == c.entries.Keys - {c.order[0]};
    }
  }

  /** Every message keeps the recency list, the map and the counters in step, at any capacity. */
  lemma StepValid<V>(c: State<V>, m: Msg<Hash, V>)
    requires Valid(c)
    ensures Valid(Step(c, m).0) && Step(c, m).0.capacity == c.capacity
  {
    match m
    case Get(h) =>
      TouchedProps(c.order, h);
    case Insert(h, v) =>
      InsertValid(c, h, v);
    case Invalidate(h) =>
      WithoutProps(c.order, h);
      SizeWithout(c, h);
    case ReadStats =>
  }

  lemma InsertValid<V>(c: State<V>, h: Hash, v: V)
    requires Valid(c)
    ensures Valid(Step(c, Insert(h, v)).0)
  {
    EvictedValid(c, h);
    PutValid(Evicted(c, h), h, v);
  }

  /** Putting an entry where there is room for it. */
  lemma PutValid<V>(e: State<V>, h: Hash, v: V)
    requires NoDup(e.order) && Elems(e.order) == e.entries.Keys && e.stats.capacity == e.capacity
    requires |e.entries| + (if h in e.entries then 0 else 1) <= Slots(e.capacity)
    ensures var entries := e.entries[h := v];
            Valid(e.(entries := entries, order := Touched(e.order, h), stats := e.stats.(size := |entries|)))
  {
    TouchedProps(e.order, h);
    SizeWith(e, h, v);
    assert e.entries[h := v].Keys == e.entries.Keys + {h};
  }

  /** On every run: the map never holds more than max(1, capacity) entries, and the reported size is right.
      So the configured bound is broken exactly by a capacity of 0 that holds an entry. */
  lemma {:induction false} RunValid<V>(capacity: nat, ms: seq<Msg<Hash, V>>)
    ensures var c := Run(Empty(capacity), ms).0;
            && Valid(c) && c.capacity == capacity
            && (|c.entries| > capacity <==> capacity == 0 && |c.entries| == 1)
            && |Run(Empty<V>(capacity), ms).1| == |ms|
  {
    if ms != [] {
      RunValid(capacity, ms[..|ms| - 1]);
      StepValid(Run(Empty(capacity), ms[..|ms| - 1]).0, ms[|ms| - 1]);
    }
  }

  /** The last entry inserted, unless its key was invalidated afterwards. */
  function LastInserted<V>(ms: seq<Msg<Hash, V>>): map<Hash, V> {
    if ms == [] then map[]
    else
      var before := LastInserted(ms[..|ms| - 1]);
      match ms[|ms| - 1]
      case Insert(h, v) => map[h := v]
      case Invalidate(h) => before - {h}
      case _ => before
  }

  /** What a cache of capacity 1 holds, and one of capacity 0 all the same. */
  lemma {:induction false} OneSlotHoldsLast<V>(capacity: nat, ms: seq<Msg<Hash, V>>)
    requires capacity <= 1
    ensures Run(Empty<V>(capacity), ms).0.entries == LastInserted(ms)
  {
    if ms != [] {
      var before := ms[..|ms| - 1];
      OneSlotHoldsLast(capacity, before);
      RunValid(capacity, before);
      OneSlotStep(Run(Empty<V>(capacity), before).0, ms[|ms| - 1]);
    }
  }

  lemma OneSlotStep<V>(c: State<V>, m: Msg<Hash, V>)
    requires Valid(c) && c.capacity <= 1
    ensures Step(c, m).0.entries ==
            match m
            case Insert(h, v) => map[h := v]
            case Invalidate(h) => c.entries - {h}
            case _ => c.entries
  {
    match m
    case Insert(h, v) =>
      OneSlotEvicted(c, h);
      OnlyKey(Evicted(c, h).entries, h, v);
    case Invalidate(h) =>
      if h !in c.entries {
        assert c.entries - {h} == c.entries;
      }
    case _ =>
  }

  lemma OnlyKey<V>(m: map<Hash, V>, h: Hash, v: V)
    requires m.Keys <= {h}
    ensures m[h := v] == map[h := v]
  {}

  lemma OneSlotEvicted<V>(c: State<V>, h: Hash)
    requires Valid(c) && c.capacity <= 1
    ensures Evicted(c, h).entries.Keys <= {h}
  {
    NoDupCount(c.order);
    assert |c.entries.Keys| == |c.entries|;
    forall k | k in Evicted(c, h).entries ensures k == h {
      assert k in Elems(c.order) && (h in c.entries ==> h in Elems(c.order));
    }
  }

  /** The configured capacity bounds the number of entries on every run exactly if it is not 0:
      a cache of capacity 0 holds the first entry it is given. */
  lemma CapacityKeptIff<V(!new)>(capacity: nat, v: V)
    ensures (forall ms: seq<Msg<Hash, V>> :: |Run(Empty<V>(capacity), ms).0.entries| <= capacity) <==> capacity > 0
  {
    if capacity > 0 {
      forall ms: seq<Msg<Hash, V>> ensures |Run(Empty<V>(capacity), ms).0.entries| <= capacity {
        RunValid(capacity, ms);
      }
    } else {
      var ms: seq<Msg<Hash, V>> := [Insert(0, v)];
      OneSlotHoldsLast(capacity, ms);
      assert |Run(Empty<V>(capacity), ms).0.entries| == 1;
    }
  }

  // ----- LRU inclusion -----

  /** `a` is obtained from `b` by leaving elements out. */
  ghost predicate Subsequence(a: seq<Hash>, b: seq<Hash>) {
    a == [] ||
    (b != [] && if a[0] == b[0] then Subsequence(a[1..], b[1..]) else Subsequence(a, b[1..]))
  }

  lemma {:induction false} SubMember(a: seq<Hash>, b: seq<Hash>)
    requires Subsequence(a, b)
    ensures Elems(a) <= Elems(b) && |a| <= |b|
  {
    if a != [] {
      if a[0] == b[0] {
        SubMember(a[1..], b[1..]);
        assert a == [a[0]] + a[1..] && b == [b[0]] + b[1..];
        assert Elems(a) == {a[0]} + Elems(a[1..]) && Elems(b) == {b[0]} + Elems(b[1..]);
      } else {
        SubMember(a, b[1..]);
        assert Elems(b[1..]) <= Elems(b);
      }
    }
  }

  lemma {:induction false} SubTail(a: seq<Hash>, b: seq<Hash>)
    requires Subsequence(a, b) && a != []
    ensures Subsequence(a[1..], b)
  {
    if a[0] == b[0] {
      if |a| > 1 && a[1] == b[0] {
        SubTail(a[1..], b[1..]);
      }
    } else {
      SubTail(a, b[1..]);
      if |a| > 1 && a[1] == b[0] {
        SubTail(a[1..], b[1..]);
      }
    }
  }

  lemma {:induction false} SubAppend(a: seq<Hash>, b: seq<Hash>, k: Hash)
    requires Subsequence(a, b)
    ensures Subsequence(a + [k], b + [k])
  {
    if b != [] {
      assert (b + [k])[1..] == b[1..] + [k];
      if a == [] {
        SubAppend([], b[1..], k);
        assert [] + [k] == [k];
        SubLast(b, k);
      } else {
        assert (a + [k])[1..] == a[1..] + [k];
        if a[0] == b[0] {
          SubAppend(a[1..], b[1..], k);
        } else {
          SubAppend(a, b[1..], k);
        }
      }
    }
  }

  lemma {:induction false} SubLast(b: seq<Hash>, k: Hash)
    ensures Subsequence([k], b + [k])
  {
    if b != [] {
      assert (b + [k])[1..] == b[1..] + [k];
      SubLast(b[1..], k);
    }
  }

  lemma {:induction false} SubWithout(a: seq<Hash>, b: seq<Hash>, k: Hash)
    requires Subsequence(a, b) && NoDup(a) && NoDup(b)
    ensures Subsequence(Without(a, k), Without(b, k))
  {
    if a != [] {
      assert a == [a[0]] + a[1..] && b == [b[0]] + b[1..];
      if a[0] == b[0] {
        SubWithout(a[1..], b[1..], k);
      } else if b[0] == k {
        SubMember(a, b[1..]);
        assert k !in Elems(b[1..]);
        assert k !in Elems(a);
        WithoutProps(a, k);
      } else {
        SubWithout(a, b[1..], k);
        var wa, wb := Without(a, k), Without(b[1..], k);
        assert Without(b, k)[1..] == wb;
        if wa != [] && wa[0] == b[0] {
          SubTail(wa, wb);
        }
      }
    }
  }

  /** The relation between a smaller and a larger cache fed the same messages. */
  ghost predicate Inside<V>(a: State<V>, b: State<V>) {
    Valid(a) && Valid(b) && Within(a, b)
  }

  ghost predicate Within<V>(a: State<V>, b: State<V>) {
    && Slots(a.capacity) <= Slots(b.capacity)
    && Subsequence(a.order, b.order)
    && (forall h :: h in a.entries ==> h in b.entries && a.entries[h] == b.entries[h])
    && |b.entries| - |a.entries| <= Slots(b.capacity) - Slots(a.capacity)
    && a.stats.hits <= b.stats.hits
    && a.stats.hits + a.stats.misses == b.stats.hits + b.stats.misses
  }

  /** Whatever the smaller cache answers from its entries, the larger one answers alike. */
  ghost predicate NoWorse<V>(small: Reply<V>, large: Reply<V>) {
    && (small.Found? && small.found.Some? ==> large == small)
    && (small.Found? <==> large.Found?)
  }

  lemma EvictInside<V>(a: State<V>, b: State<V>, h: Hash)
    requires Inside(a, b)
    ensures var ea, eb := Evicted(a, h), Evicted(b, h);
            && Subsequence(ea.order, eb.order)
            && (forall k :: k in ea.entries ==> k in eb.entries && ea.entries[k] == eb.entries[k])
            && (h !in b.entries ==> |eb.entries| - |ea.entries| <= Slots(b.capacity) - Slots(a.capacity))
            && (h in b.entries && h !in a.entries ==>
                  |eb.entries| - |ea.entries| <= Slots(b.capacity) - Slots(a.capacity) + 1)
  {
    EvictedValid(a, h);
    EvictedValid(b, h);
    NoDupCount(a.order);
    NoDupCount(b.order);
    SubMember(a.order, b.order);
    assert |a.entries.Keys| == |a.entries| && |b.entries.Keys| == |b.entries|;
    var ea, eb := Evicted(a, h), Evicted(b, h);
    if eb != b {
      // the larger cache is full, hence so is the smaller one: both drop their front
      assert a.order != [];
      assert ea.order == a.order[1..] && eb.order == b.order[1..];
      FrontsAgree(a.order, b.order);
      SubMember(ea.order, eb.order);
      forall k | k in ea.entries ensures k in eb.entries && ea.entries[k] == eb.entries[k] {
        assert k in Elems(ea.order);
      }
    } else if ea != a {
      SubTail(a.order, b.order);
    }
  }

  /** Dropping both fronts keeps the inclusion. */
  lemma FrontsAgree(a: seq<Hash>, b: seq<Hash>)
    requires Subsequence(a, b) && a != []
    ensures Subsequence(a[1..], b[1..])
  {
    if a[0] != b[0] {
      SubTail(a, b[1..]);
    }
  }

  /** One message keeps the smaller cache inside the larger one, and the larger answers no worse. */
  lemma StepInside<V>(a: State<V>, b: State<V>, m: Msg<Hash, V>)
    requires Inside(a, b)
    ensures Inside(Step(a, m).0, Step(b, m).0)
    ensures NoWorse(Step(a, m).1, Step(b, m).1)
  {
    StepValid(a, m);
    StepValid(b, m);
    match m
    case Get(h) =>
      GetInside(a, b, h);
    case Insert(h, v) =>
      InsertInside(a, b, h, v);
    case Invalidate(h) =>
      InvalidateInside(a, b, h);
    case ReadStats =>
  }

  lemma InvalidateInside<V>(a: State<V>, b: State<V>, h: Hash)
    requires Inside(a, b)
    ensures var (a', b') := (Step(a, Invalidate(h)).0, Step(b, Invalidate(h)).0);
            && Subsequence(a'.order, b'.order)
            && (forall k :: k in a'.entries ==> k in b'.entries && a'.entries[k] == b'.entries[k])
            && |b'.entries| - |a'.entries| <= Slots(b.capacity) - Slots(a.capacity)
  {
    SubWithout(a.order, b.order, h);
    WithoutProps(a.order, h);
    assert h !in a.entries ==> h !in Elems(a.order);
    SizeWithout(a, h);
    SizeWithout(b, h);
  }

  lemma SizeWithout<V>(c: State<V>, h: Hash)
    ensures |c.entries - {h}| == |c.entries| - (if h in c.entries then 1 else 0)
  {
    var less := c.entries - {h};
    assert less.Keys == c.entries.Keys - {h};
    assert |less.Keys| == |less| && |c.entries.Keys| == |c.entries|;
  }

  lemma GetInside<V>(a: State<V>, b: State<V>, h: Hash)
    requires Inside(a, b)
    ensures Subsequence(Step(a, Get(h)).0.order, Step(b, Get(h)).0.order)
  {
    SubWithout(a.order, b.order, h);
    if h in a.entries {
      SubAppend(Without(a.order, h), Without(b.order, h), h);
    } else if h in b.entries {
      WithoutProps(a.order, h);
      assert h !in Elems(a.order);
      SubWeaken(a.order, Without(b.order, h), h);
    }
  }

  lemma {:induction false} SubWeaken(a: seq<Hash>, b: seq<Hash>, k: Hash)
    requires Subsequence(a, b)
    ensures Subsequence(a, b + [k])
  {
    if a != [] {
      assert (b + [k])[1..] == b[1..] + [k];
      if a[0] == b[0] {
        SubWeaken(a[1..], b[1..], k);
      } else {
        SubWeaken(a, b[1..], k);
      }
    }
  }

  lemma InsertInside<V>(a: State<V>, b: State<V>, h: Hash, v: V)
    requires Inside(a, b)
    ensures Within(Step(a, Insert(h, v)).0, Step(b, Insert(h, v)).0)
  {
    EvictInside(a, b, h);
    InsertGap(a, b, h, v);
    InsertOrder(a, b, h);
  }

  lemma InsertGap<V>(a: State<V>, b: State<V>, h: Hash, v: V)
    requires Inside(a, b)
    ensures |Evicted(b, h).entries[h := v]| - |Evicted(a, h).entries[h := v]| <= Slots(b.capacity) - Slots(a.capacity)
  {
    EvictInside(a, b, h);
    EvictedValid(a, h);
    EvictedValid(b, h);
    SizeWith(Evicted(a, h), h, v);
    SizeWith(Evicted(b, h), h, v);
  }

  lemma InsertOrder<V>(a: State<V>, b: State<V>, h: Hash)
    requires Inside(a, b)
    ensures Subsequence(Touched(Evicted(a, h).order, h), Touched(Evicted(b, h).order, h))
  {
    EvictInside(a, b, h);
    EvictedValid(a, h);
    EvictedValid(b, h);
    PutInside(Evicted(a, h).order, Evicted(b, h).order, h);
  }

  lemma PutInside(a: seq<Hash>, b: seq<Hash>, h: Hash)
    requires Subsequence(a, b) && NoDup(a) && NoDup(b)
    ensures Subsequence(Touched(a, h), Touched(b, h))
  {
    SubWithout(a, b, h);
    SubAppend(Without(a, h), Without(b, h), h);
  }

  lemma SizeWith<V>(c: State<V>, h: Hash, v: V)
    ensures |c.entries[h := v]| == |c.entries| + (if h in c.entries then 0 else 1)
  {
    var more := c.entries[h := v];
    assert more.Keys == c.entries.Keys + {h};
    assert |more.Keys| == |more| && |c.entries.Keys| == |c.entries|;
  }

  /** LRU inclusion. Two caches of capacities `small <= large` see the same messages: whenever the smaller
      one hits, the larger one hits with the same value; the smaller recency list stays a subsequence of the
      larger; the larger never has fewer hits. There is no capacity at which adding slots hurts. */
  lemma {:induction false} Inclusion<V>(small: nat, large: nat, ms: seq<Msg<Hash, V>>)
    requires small <= large
    ensures Inside(Run(Empty<V>(small), ms).0, Run(Empty<V>(large), ms).0)
    ensures var (rs, rl) := (Run(Empty<V>(small), ms).1, Run(Empty<V>(large), ms).1);
            |rs| == |rl| == |ms| && forall i :: 0 <= i < |ms| ==> NoWorse(rs[i], rl[i])
  {
    if ms != [] {
      var before := ms[..|ms| - 1];
      Inclusion<V>(small, large, before);
      StepInside(Run(Empty<V>(small), before).0, Run(Empty<V>(large), before).0, ms[|ms| - 1]);
    }
  }

  // ----- freshness and recency -----

  /** The unbounded reference: the last value inserted for each hash and not invalidated since. */
  function Stored<V>(ms: seq<Msg<Hash, V>>): map<Hash, V> {
    if ms == [] then map[]
    else
      var before := Stored(ms[..|ms| - 1]);
      match ms[|ms| - 1]
      case Insert(h, v) => before[h := v]
      case Invalidate(h) => before - {h}
      case _ => before
  }

  /** A hit is never stale: it returns what the unbounded reference holds at that moment. */
  lemma {:induction false} NeverStale<V>(capacity: nat, ms: seq<Msg<Hash, V>>, h: Hash)
    ensures var c := Run(Empty<V>(capacity), ms).0;
            && (forall k :: k in c.entries ==> k in Stored(ms) && Stored(ms)[k] == c.entries[k])
            && (var r := Step(c, Get(h)).1;
                r.found.Some? ==> h in Stored(ms) && r.found.value == Stored(ms)[h])
  {
    if ms != [] {
      NeverStale(capacity, ms[..|ms| - 1], h);
    }
  }

  /** An insert of `h`, or a lookup that hit it. */
  predicate Uses<V(==)>(m: Msg<Hash, V>, r: Reply<V>, h: Hash) {
    (m.Insert? && m.key == h) || (m.Get? && m.key == h && r.Found? && r.found.Some?)
  }

  /** The index just after the last message that used `h`. 0 if none. */
  function LastUse<V(==)>(ms: seq<Msg<Hash, V>>, rs: seq<Reply<V>>, h: Hash): nat
    requires |rs| == |ms|
  {
    if ms == [] then 0
    else
      var m, r := ms[|ms| - 1], rs[|rs| - 1];
      if Uses(m, r, h) then |ms|
      else LastUse(ms[..|ms| - 1], rs[..|rs| - 1], h)
  }

  ghost predicate ByRecency<V>(ms: seq<Msg<Hash, V>>, rs: seq<Reply<V>>, order: seq<Hash>)
    requires |rs| == |ms|
  {
    && (forall i :: 0 <= i < |order| ==> LastUse(ms, rs, order[i]) <= |ms|)
    && (forall i, j :: 0 <= i < j < |order| ==> LastUse(ms, rs, order[i]) < LastUse(ms, rs, order[j]))
  }

  lemma {:induction false} WithoutKeepsOrder(s: seq<Hash>, k: Hash, rank: Hash -> int)
    requires forall i, j :: 0 <= i < j < |s| ==> rank(s[i]) < rank(s[j])
    ensures forall i, j :: 0 <= i < j < |Without(s, k)| ==> rank(Without(s, k)[i]) < rank(Without(s, k)[j])
    ensures forall x :: x in Without(s, k) ==> x in s
  {
    if s != [] && s[0] != k {
      var t := s[1..];
      WithoutKeepsOrder(t, k, rank);
      forall x | x in Without(t, k) ensures rank(s[0]) < rank(x) {
        var i :| 0 <= i < |t| && t[i] == x;
        assert s[i + 1] == x;
      }
    }
  }

  lemma LastUseStep<V>(ms: seq<Msg<Hash, V>>, rs: seq<Reply<V>>, m: Msg<Hash, V>, r: Reply<V>, h: Hash)
    requires |rs| == |ms|
    ensures LastUse(ms + [m], rs + [r], h) == if Uses(m, r, h) then |ms| + 1 else LastUse(ms, rs, h)
  {
    assert (ms + [m])[..|ms|] == ms && (rs + [r])[..|rs|] == rs;
  }

  lemma WithoutByRecency<V>(ms: seq<Msg<Hash, V>>, rs: seq<Reply<V>>, s: seq<Hash>, h: Hash)
    requires |rs| == |ms| && NoDup(s) && ByRecency(ms, rs, s)
    ensures ByRecency(ms, rs, Without(s, h)) && h !in Without(s, h)
  {
    WithoutKeepsOrder(s, h, (x: Hash) => LastUse(ms, rs, x));
    WithoutProps(s, h);
    assert h !in Elems(Without(s, h));
    forall x | x in Without(s, h) ensures LastUse(ms, rs, x) <= |ms| {
      var i :| 0 <= i < |s| && s[i] == x;
    }
  }

  /** A message that does not use any listed key keeps the list sorted, with or without one more use at the end. */
  lemma ByRecencyStep<V>(ms: seq<Msg<Hash, V>>, rs: seq<Reply<V>>, m: Msg<Hash, V>, r: Reply<V>, s: seq<Hash>, h: Hash)
    requires |rs| == |ms| && ByRecency(ms, rs, s)
    requires forall x :: x in s ==> !Uses(m, r, x)
    ensures ByRecency(ms + [m], rs + [r], s)
    ensures Uses(m, r, h) ==> ByRecency(ms + [m], rs + [r], s + [h])
  {
    forall x ensures LastUse(ms + [m], rs + [r], x) == if Uses(m, r, x) then |ms| + 1 else LastUse(ms, rs, x) {
      LastUseStep(ms, rs, m, r, x);
    }
  }

  lemma EvictedByRecency<V>(ms: seq<Msg<Hash, V>>, rs: seq<Reply<V>>, c: State<V>, h: Hash) returns (base: seq<Hash>)
    requires Valid(c) && |rs| == |ms| && ByRecency(ms, rs, c.order)
    ensures base == Evicted(c, h).order && NoDup(base) && ByRecency(ms, rs, base)
  {
    base := Evicted(c, h).order;
    if c.order != [] {
      DropFront(c.order);
    }
  }

  /** One message keeps the recency list sorted by last use. */
  lemma StepByRecency<V>(ms: seq<Msg<Hash, V>>, rs: seq<Reply<V>>, c: State<V>, m: Msg<Hash, V>)
    requires Valid(c) && |rs| == |ms| && ByRecency(ms, rs, c.order)
    ensures ByRecency(ms + [m], rs + [Step(c, m).1], Step(c, m).0.order)
  {
    var r := Step(c, m).1;
    match m
    case Insert(h, _) =>
      var base := EvictedByRecency(ms, rs, c, h);
      WithoutByRecency(ms, rs, base, h);
      ByRecencyStep(ms, rs, m, r, Without(base, h), h);
    case Get(h) =>
      if h in c.entries {
        WithoutByRecency(ms, rs, c.order, h);
        ByRecencyStep(ms, rs, m, r, Without(c.order, h), h);
      } else {
        ByRecencyStep(ms, rs, m, r, c.order, h);
      }
    case Invalidate(h) =>
      WithoutByRecency(ms, rs, c.order, h);
      ByRecencyStep(ms, rs, m, r, if h in c.entries then Without(c.order, h) else c.order, h);
    case ReadStats =>
      ByRecencyStep(ms, rs, m, r, c.order, 0);
  }

  ghost predicate SortedByUse<V>(capacity: nat, ms: seq<Msg<Hash, V>>) {
    var (c, rs) := Run(Empty<V>(capacity), ms);
    |rs| == |ms| && ByRecency(ms, rs, c.order)
  }

  /** Eviction takes the least recently used entry: on every run the recency list is sorted by
      the time of the last insert or hit of each key. */
  lemma {:induction false} OrderIsRecency<V>(capacity: nat, ms: seq<Msg<Hash, V>>)
    ensures SortedByUse(capacity, ms)
  {
    if ms != [] {
      var before := ms[..|ms| - 1];
      OrderIsRecency(capacity, before);
      RecencyOnward(capacity, before, ms[|ms| - 1]);
      assert before + [ms[|ms| - 1]] == ms;
    }
  }

  lemma RecencyOnward<V>(capacity: nat, ms: seq<Msg<Hash, V>>, m: Msg<Hash, V>)
    requires SortedByUse(capacity, ms)
    ensures SortedByUse(capacity, ms + [m])
  {
    RunValid(capacity, ms);
    var (c, rs) := Run(Empty<V>(capacity), ms);
    StepByRecency(ms, rs, c, m);
    assert (ms + [m])[..|ms|] == ms;
  }

  // ----- what stays -----

  ghost function Keys<V>(ms: seq<Msg<Hash, V>>): set<Hash> {
    set m | m in ms && !m.ReadStats? :: m.key
  }

  /** The keys used after the last use of `h`. */
  ghost function Newer<V>(ms: seq<Msg<Hash, V>>, rs: seq<Reply<V>>, h: Hash): set<Hash>
    requires |rs| == |ms|
  {
    set k | k in Keys(ms) && LastUse(ms, rs, k) > LastUse(ms, rs, h)
  }

  /** `h` has been used, and not been invalidated since. */
  ghost predicate InUse<V>(ms: seq<Msg<Hash, V>>, rs: seq<Reply<V>>, h: Hash)
    requires |rs| == |ms|
  {
    LastUse(ms, rs, h) > 0 && forall i :: LastUse(ms, rs, h) <= i < |ms| ==> ms[i] != Invalidate(h)
  }

  lemma {:induction false} LastUseProps<V>(ms: seq<Msg<Hash, V>>, rs: seq<Reply<V>>, h: Hash)
    requires |rs| == |ms|
    ensures LastUse(ms, rs, h) <= |ms|
    ensures LastUse(ms, rs, h) > 0 ==> h in Keys(ms)
  {
    if ms != [] {
      LastUseProps(ms[..|ms| - 1], rs[..|rs| - 1], h);
      assert ms == ms[..|ms| - 1] + [ms[|ms| - 1]];
    }
  }

  /** No message makes room before it has to: an entry leaves only by its own invalidation, or as the least recently
      used one when another key is inserted into a full cache. */
  lemma LeavesOnlyWhenFull<V>(c: State<V>, m: Msg<Hash, V>, h: Hash)
    requires Valid(c) && h in c.entries && h !in Step(c, m).0.entries
    ensures m == Invalidate(h) ||
            (m.Insert? && m.key !in c.entries && |c.entries| == Slots(c.capacity) && c.order != [] && c.order[0] == h)
  {
    assert h in Elems(c.order);
  }

  /** A message leaves the keys newer than `h` as they are, or uses `h`, or adds the key it uses. */
  lemma NewerStep<V>(ms: seq<Msg<Hash, V>>, rs: seq<Reply<V>>, m: Msg<Hash, V>, r: Reply<V>, h: Hash)
    requires |rs| == |ms| && !Uses(m, r, h)
    ensures Newer(ms, rs, h) <= Newer(ms + [m], rs + [r], h)
    ensures !m.ReadStats? && Uses(m, r, m.key) ==> m.key in Newer(ms + [m], rs + [r], h)
  {
    forall x ensures LastUse(ms + [m], rs + [r], x) == if Uses(m, r, x) then |ms| + 1 else LastUse(ms, rs, x) {
      LastUseStep(ms, rs, m, r, x);
    }
    LastUseProps(ms, rs, h);
    forall k | k in Newer(ms, rs, h) ensures k in Newer(ms + [m], rs + [r], h) {
      LastUseProps(ms, rs, k);
    }
  }

  lemma InUseBefore<V>(ms: seq<Msg<Hash, V>>, rs: seq<Reply<V>>, m: Msg<Hash, V>, r: Reply<V>, h: Hash)
    requires |rs| == |ms| && !Uses(m, r, h) && InUse(ms + [m], rs + [r], h)
    ensures InUse(ms, rs, h) && m != Invalidate(h)
  {
    LastUseStep(ms, rs, m, r, h);
    LastUseProps(ms, rs, h);
    assert (ms + [m])[|ms|] == m;
    forall i | LastUse(ms, rs, h) <= i < |ms| ensures ms[i] != Invalidate(h) {
      assert (ms + [m])[i] == ms[i];
    }
  }

  /** What stands behind the front of the recency list is newer than the front. */
  lemma BehindIsNewer<V>(ms: seq<Msg<Hash, V>>, rs: seq<Reply<V>>, order: seq<Hash>)
    requires |rs| == |ms| && ByRecency(ms, rs, order) && order != []
    requires forall k :: k in order ==> k in Keys(ms)
    ensures Elems(order[1..]) <= Newer(ms, rs, order[0])
  {
    forall k | k in Elems(order[1..]) ensures k in Newer(ms, rs, order[0]) {
      var i :| 0 <= i < |order[1..]| && order[1..][i] == k;
      assert order[i + 1] == k;
    }
  }

  lemma FrontCount<V>(c: State<V>, k: Hash)
    requires Valid(c) && c.order != [] && k !in c.entries
    ensures k !in Elems(c.order) && |Elems(c.order[1..]) + {k}| == |c.entries|
  {
    assert k !in Elems(c.order);
    DropFront(c.order);
    NoDupCount(c.order[1..]);
    NoDupCount(c.order);
    assert |c.entries.Keys| == |c.entries|;
  }

  /** Making room for a new key, every entry but the evicted one is newer than it, and so is the new key. */
  lemma EvictedIsOldest<V>(ms: seq<Msg<Hash, V>>, rs: seq<Reply<V>>, c: State<V>, m: Msg<Hash, V>, r: Reply<V>)
    requires Valid(c) && |rs| == |ms| && ByRecency(ms, rs, c.order) && c.order != []
    requires m.Insert? && m.key !in c.entries && |c.entries| == Slots(c.capacity)
    requires forall k :: k in c.order ==> k in Keys(ms)
    ensures |Newer(ms + [m], rs + [r], c.order[0])| >= Slots(c.capacity)
  {
    var newer := Newer(ms + [m], rs + [r], c.order[0]);
    FrontCount(c, m.key);
    assert c.order[0] in Elems(c.order);
    BehindIsNewer(ms, rs, c.order);
    NewerStep(ms, rs, m, r, c.order[0]);
    SubsetSize(Elems(c.order[1..]) + {m.key}, newer);
  }

  ghost predicate AllUsed<V>(ms: seq<Msg<Hash, V>>, rs: seq<Reply<V>>, c: State<V>)
    requires |rs| == |ms|
  {
    forall k :: k in c.order ==> LastUse(ms, rs, k) > 0
  }

  lemma {:induction false} ListedWereUsed<V>(capacity: nat, ms: seq<Msg<Hash, V>>)
    ensures var (c, rs) := Run(Empty<V>(capacity), ms);
            |rs| == |ms| && AllUsed(ms, rs, c)
  {
    RunValid(capacity, ms);
    if ms != [] {
      var (before, m) := (ms[..|ms| - 1], ms[|ms| - 1]);
      ListedWereUsed(capacity, before);
      RunValid(capacity, before);
      assert before + [m] == ms;
      var (c, rs) := Run(Empty<V>(capacity), before);
      ListedStep(before, rs, c, m);
    }
  }

  lemma ListedStep<V>(ms: seq<Msg<Hash, V>>, rs: seq<Reply<V>>, c: State<V>, m: Msg<Hash, V>)
    requires Valid(c) && |rs| == |ms| && AllUsed(ms, rs, c)
    ensures AllUsed(ms + [m], rs + [Step(c, m).1], Step(c, m).0)
  {
    var (c', r) := Step(c, m);
    StepValid(c, m);
    forall k | k in c'.order ensures LastUse(ms + [m], rs + [r], k) > 0 {
      LastUseStep(ms, rs, m, r, k);
      assert k in Elems(c'.order);
      if !Uses(m, r, k) {
        assert k in c.entries && k in Elems(c.order);
      }
    }
  }

  /** The step from one message to the next of what follows. */
  lemma KeptStep<V>(ms: seq<Msg<Hash, V>>, rs: seq<Reply<V>>, c: State<V>, m: Msg<Hash, V>, h: Hash)
    requires Valid(c) && |rs| == |ms| && ByRecency(ms, rs, c.order) && AllUsed(ms, rs, c)
    requires InUse(ms, rs, h) && |Newer(ms, rs, h)| < Slots(c.capacity) ==> h in c.entries
    requires var (ms', rs') := (ms + [m], rs + [Step(c, m).1]);
             InUse(ms', rs', h) && |Newer(ms', rs', h)| < Slots(c.capacity)
    ensures h in Step(c, m).0.entries
  {
    var r := Step(c, m).1;
    if !Uses(m, r, h) {
      InUseBefore(ms, rs, m, r, h);
      NewerStep(ms, rs, m, r, h);
      SubsetSize(Newer(ms, rs, h), Newer(ms + [m], rs + [r], h));
      if h !in Step(c, m).0.entries {
        LeavesOnlyWhenFull(c, m, h);
        forall k | k in c.order ensures k in Keys(ms) {
          LastUseProps(ms, rs, k);
        }
        EvictedIsOldest(ms, rs, c, m, r);
      }
    }
  }

  /** A cache keeps what is recent: on every run, a key that has been used and not invalidated since, and after which
      fewer than max(1, capacity) other keys have been used, is still there. */
  lemma {:induction false} RecentIsKept<V>(capacity: nat, ms: seq<Msg<Hash, V>>, h: Hash)
    requires |Run(Empty<V>(capacity), ms).1| == |ms|
    requires InUse(ms, Run(Empty<V>(capacity), ms).1, h)
    requires |Newer(ms, Run(Empty<V>(capacity), ms).1, h)| < Slots(capacity)
    ensures h in Run(Empty<V>(capacity), ms).0.entries
    decreases |ms|
  {
    if ms != [] {
      var (before, m) := (ms[..|ms| - 1], ms[|ms| - 1]);
      RunValid(capacity, before);
      OrderIsRecency(capacity, before);
      ListedWereUsed(capacity, before);
      var (c, rs) := Run(Empty<V>(capacity), before);
      if InUse(before, rs, h) && |Newer(before, rs, h)| < Slots(capacity) {
        RecentIsKept(capacity, before, h);
      }
      assert before + [m] == ms;
      KeptStep(before, rs, c, m, h);
    }
  }

  /** So a lookup of it finds the value last inserted. */
  lemma RecentIsFound<V>(capacity: nat, ms: seq<Msg<Hash, V>>, h: Hash)
    requires |Run(Empty<V>(capacity), ms).1| == |ms|
    requires InUse(ms, Run(Empty<V>(capacity), ms).1, h)
    requires |Newer(ms, Run(Empty<V>(capacity), ms).1, h)| < Slots(capacity)
    ensures h in Stored(ms) && Step(Run(Empty<V>(capacity), ms).0, Get(h)).1 == Found(Some(Stored(ms)[h]))
  {
    RecentIsKept(capacity, ms, h);
    NeverStale(capacity, ms, h);
  }

  /** Without invalidations all that is newer than an entry is there as well. */
  lemma {:induction false} NewerAreHeld<V>(capacity: nat, ms: seq<Msg<Hash, V>>, rs: seq<Reply<V>>, h: Hash, k: Hash)
    requires rs == Run(Empty<V>(capacity), ms).1 && |rs| == |ms| && forall m :: m in ms ==> !m.Invalidate?
    requires h in Run(Empty<V>(capacity), ms).0.entries && k in Newer(ms, rs, h)
    ensures k in Run(Empty<V>(capacity), ms).0.entries
    decreases |ms| - LastUse(ms, rs, k)
  {
    var c := Run(Empty<V>(capacity), ms).0;
    forall x | x in Newer(ms, rs, k) ensures x in c.entries.Keys - {h} {
      LastUseProps(ms, rs, x);
      NewerAreHeld(capacity, ms, rs, h, x);
    }
    RunValid(capacity, ms);
    SubsetSize(Newer(ms, rs, k), c.entries.Keys - {h});
    assert |c.entries.Keys - {h}| == |c.entries.Keys| - 1;
    assert |c.entries.Keys| == |c.entries|;
    RecentIsKept(capacity, ms, k);
  }

  /** On runs without invalidations a cache holds exactly the max(1, capacity) most recently used keys. */
  lemma HoldsMostRecent<V>(capacity: nat, ms: seq<Msg<Hash, V>>, h: Hash)
    requires forall m :: m in ms ==> !m.Invalidate?
    ensures var (c, rs) := Run(Empty<V>(capacity), ms);
            && |rs| == |ms|
            && (h in c.entries <==> LastUse(ms, rs, h) > 0 && |Newer(ms, rs, h)| < Slots(capacity))
  {
    RunValid(capacity, ms);
    ListedWereUsed(capacity, ms);
    var (c, rs) := Run(Empty<V>(capacity), ms);
    if h in c.entries {
      assert h in Elems(c.order);
      forall k | k in Newer(ms, rs, h) ensures k in c.entries.Keys - {h} {
        NewerAreHeld(capacity, ms, rs, h, k);
      }
      SubsetSize(Newer(ms, rs, h), c.entries.Keys - {h});
      assert |c.entries.Keys - {h}| == |c.entries.Keys| - 1;
      assert |c.entries.Keys| == |c.entries|;
    } else if LastUse(ms, rs, h) > 0 && |Newer(ms, rs, h)| < Slots(capacity) {
      RecentIsKept(capacity, ms, h);
    }
  }

  // ----- what is reported -----

  function CountHits<V>(rs: seq<Reply<V>>): nat {
    if rs == [] then 0
    else
      var r := rs[|rs| - 1];
      CountHits(rs[..|rs| - 1]) + (if r.Found? && r.found.Some? then 1 else 0)
  }

  function CountMisses<V>(rs: seq<Reply<V>>): nat {
    if rs == [] then 0
    else
      var r := rs[|rs| - 1];
      CountMisses(rs[..|rs| - 1]) + (if r.Found? && r.found.None? then 1 else 0)
  }

  /** The reported counters are the numbers of lookups that found something and that did not, the number of entries
      and the configured capacity. */
  lemma {:induction false} StatsCount<V>(capacity: nat, ms: seq<Msg<Hash, V>>)
    ensures var (c, rs) := Run(Empty<V>(capacity), ms);
            c.stats == Stats(CountHits(rs), CountMisses(rs), |c.entries|, capacity)
  {
    RunValid(capacity, ms);
    if ms != [] {
      var before := ms[..|ms| - 1];
      StatsCount(capacity, before);
      var (c, rs) := Run(Empty<V>(capacity), before);
      StatsStep(c, ms[|ms| - 1]);
      var r := Step(c, ms[|ms| - 1]).1;
      assert (rs + [r])[..|rs|] == rs;
    }
  }

  lemma StatsStep<V>(c: State<V>, m: Msg<Hash, V>)
    ensures var (c', r) := Step(c, m);
            && c'.stats.hits == c.stats.hits + (if r.Found? && r.found.Some? then 1 else 0)
            && c'.stats.misses == c.stats.misses + (if r.Found? && r.found.None? then 1 else 0)
  {}

  /** An invalidation reports whether a lookup would have found the key, and afterwards none does. */
  lemma RemovedMeansThere<V>(c: State<V>, h: Hash)
    ensures var (c', r) := Step(c, Invalidate(h));
            && r.Removed? && (r.removed <==> Step(c, Get(h)).1.found.Some?)
            && Step(c', Get(h)).1 == Found(None)
  {}

  // ----- the actor -----

  lemma {:induction false} WithoutAt(s: seq<Hash>, k: Hash, pos: nat)
    requires pos <= |s| && k !in s[..pos] && (pos < |s| ==> s[pos] == k)
    ensures Without(s, k) == if pos < |s| then s[..pos] + s[pos + 1..] else s
  {
    if s != [] && pos > 0 {
      var t := s[1..];
      assert s[..pos] == [s[0]] + t[..pos - 1];
      assert s[0] in s[..pos];
      WithoutAt(t, k, pos - 1);
      assert Without(s, k) == [s[0]] + Without(t, k);
      if pos < |s| {
        SpliceOnward(s, pos);
      } else {
        assert s == [s[0]] + t;
      }
    }
  }

  lemma SpliceOnward(s: seq<Hash>, pos: nat)
    requires 0 < pos < |s|
    ensures var t := s[1..];
            [s[0]] + (t[..pos - 1] + t[pos..]) == s[..pos] + s[pos + 1..]
  {}

  /** `iter().position` followed by `remove`. */
  method RemoveFirst(s: seq<Hash>, k: Hash) returns (t: seq<Hash>)
    ensures t == Without(s, k)
  {
    var pos := 0;
    while pos < |s| && s[pos] != k
      invariant 0 <= pos <= |s| && k !in s[..pos]
    {
      pos := pos + 1;
    }
    WithoutAt(s, k, pos);
    t := if pos < |s| then s[..pos] + s[pos + 1..] else s;
  }

  function Hashed<K, V>(m: Msg<K, V>, hashKey: K -> Hash): Msg<Hash, V> {
    match m
    case Get(k) => Get(hashKey(k))
    case Insert(k, v) => Insert(hashKey(k), v)
    case Invalidate(k) => Invalidate(hashKey(k))
    case ReadStats => ReadStats
  }

  function HashedAll<K, V>(ms: seq<Msg<K, V>>, hashKey: K -> Hash): seq<Msg<Hash, V>> {
    if ms == [] then [] else HashedAll(ms[..|ms| - 1], hashKey) + [Hashed(ms[|ms| - 1], hashKey)]
  }

  /** The unbounded reference by key instead of by hash. */
  function StoredByKey<K, V>(ms: seq<Msg<K, V>>): map<K, V> {
    if ms == [] then map[]
    else
      var before := StoredByKey(ms[..|ms| - 1]);
      match ms[|ms| - 1]
      case Insert(k, v) => before[k := v]
      case Invalidate(k) => before - {k}
      case _ => before
  }

  lemma {:induction false} StoredAlike<K, V>(ms: seq<Msg<K, V>>, hashKey: K -> Hash, k: K)
    requires forall a, b :: hashKey(a) == hashKey(b) ==> a == b
    ensures hashKey(k) in Stored(HashedAll(ms, hashKey)) <==> k in StoredByKey(ms)
    ensures k in StoredByKey(ms) ==> Stored(HashedAll(ms, hashKey))[hashKey(k)] == StoredByKey(ms)[k]
  {
    if ms != [] {
      var before := ms[..|ms| - 1];
      StoredAlike(before, hashKey, k);
      assert HashedAll(ms, hashKey)[..|HashedAll(ms, hashKey)| - 1] == HashedAll(before, hashKey);
    }
  }

  /** A lookup of `k` after the messages `ms` misses or finds what was last inserted for `k` itself. */
  ghost predicate FindsItsOwn<K, V>(capacity: nat, hashKey: K -> Hash, ms: seq<Msg<K, V>>, k: K) {
    var c := Run(Empty<V>(capacity), HashedAll(ms, hashKey)).0;
    var found := Step(c, Get(hashKey(k))).1.found;
    found.Some? ==> k in StoredByKey(ms) && found.value == StoredByKey(ms)[k]
  }

  /** Keys are told apart by their hashes only: every lookup on every run finds its own key's value
      exactly if no two keys share a hash. */
  lemma OwnValuesIff<K(!new), V(!new)>(capacity: nat, hashKey: K -> Hash, v: V)
    ensures (forall ms: seq<Msg<K, V>>, k: K :: FindsItsOwn(capacity, hashKey, ms, k)) <==>
            (forall a, b :: hashKey(a) == hashKey(b) ==> a == b)
  {
    if forall a, b :: hashKey(a) == hashKey(b) ==> a == b {
      forall ms: seq<Msg<K, V>>, k: K ensures FindsItsOwn(capacity, hashKey, ms, k) {
        NeverStale(capacity, HashedAll(ms, hashKey), hashKey(k));
        StoredAlike(ms, hashKey, k);
      }
    }
    if a, b :| hashKey(a) == hashKey(b) && a != b {
      FindsAnothers(capacity, hashKey, a, b, v);
    }
  }

  /** On a collision, a lookup of `b` finds what was inserted for `a`. */
  lemma FindsAnothers<K, V>(capacity: nat, hashKey: K -> Hash, a: K, b: K, v: V)
    requires a != b && hashKey(a) == hashKey(b)
    ensures !FindsItsOwn(capacity, hashKey, [Insert(a, v)], b)
  {
    var ms: seq<Msg<K, V>> := [Insert(a, v)];
    assert ms[..0] == [];
    assert StoredByKey(ms[..0]) == map[] && StoredByKey(ms) == map[a := v];
    assert HashedAll(ms, hashKey) == [Insert(hashKey(a), v)];
    var hs: seq<Msg<Hash, V>> := [Insert(hashKey(a), v)];
    assert hs[..0] == [];
    assert hashKey(a) in Run(Empty<V>(capacity), hs).0.entries;
  }

  class EmbeddingCache<K, V> {
    const capacityEntries: nat
    const hashKey: K -> Hash
    var cache: map<Hash, V>
    var order: seq<Hash>
    var stats: Stats

    function Model(): State<V> reads this {
      State(capacityEntries, cache, order, stats)
    }

    constructor (capacityEntries: nat, hashKey: K -> Hash)
      ensures Model() == Empty(capacityEntries) && this.hashKey == hashKey
    {
      this.capacityEntries, this.hashKey := capacityEntries, hashKey;
      cache, order, stats := map[], [], Stats(0, 0, 0, capacityEntries);
    }

    method Touch(k: Hash)
      modifies this
      ensures Model() == old(Model()).(order := Touched(old(order), k))
    {
      order := RemoveFirst(order, k);
      order := order + [k];
    }

    method DoGet(h: Hash) returns (found: Option<V>)
      modifies this
      ensures (Model(), Found(found)) == Step(old(Model()), Get(h))
    {
      if h in cache {
        var v := cache[h];
        stats := stats.(hits := stats.hits + 1);
        Touch(h);
        found := Some(v);
      } else {
        stats := stats.(misses := stats.misses + 1);
        found := None;
      }
    }

    method DoInsert(h: Hash, value: V)
      modifies this
      ensures (Model(), Reply<V>.Inserted) == Step(old(Model()), Insert(h, value))
    {
      if |cache| >= capacityEntries && h !in cache {
        if order != [] {
          var victim := order[0];
          order := order[1..];
          cache := cache - {victim};
        }
      }
      cache := cache[h := value];
      Touch(h);
      stats := stats.(size := |cache|);
    }

    method DoInvalidate(h: Hash) returns (removed: bool)
      modifies this
      ensures (Model(), Reply<V>.Removed(removed)) == Step(old(Model()), Invalidate(h))
    {
      removed := h in cache;
      if removed {
        cache := cache - {h};
        order := RemoveFirst(order, h);
        stats := stats.(size := |cache|);
      }
    }

    method Handle(msg: Msg<K, V>) returns (reply: Reply<V>)
      modifies this
      ensures (Model(), reply) == Step(old(Model()), Hashed(msg, hashKey))
    {
      match msg
      case Get(key) =>
        var found := DoGet(hashKey(key));
        reply := Found(found);
      case Insert(key, value) =>
        DoInsert(hashKey(key), value);
        reply := Inserted;
      case Invalidate(key) =>
        var removed := DoInvalidate(hashKey(key));
        reply := Removed(removed);
      case ReadStats =>
        reply := Report(stats);
    }
  }
}
