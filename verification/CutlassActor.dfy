/** The plan cache and the actor that fills it (crates/atomr-accel-cutlass/src/plan_cache.rs, actor.rs). */
module CutlassActor {
  import opened Wrappers
  import opened PlanKey

  /** Rendered source and kernel name. */
  datatype Plan = Plan(source: string, kernelName: string)

  /** The source emitter, a function of the request. */
  type RenderFn = Request -> Plan

  // ----- the LRU map -----

  datatype Entry = Entry(key: Key, plan: Plan)

  /** From least to most recently used. */
  datatype Lru = Lru(capacity: nat, entries: seq<Entry>)

  function Find(es: seq<Entry>, k: Key): Option<Plan> {
    if es == [] then None else if es[0].key == k then Some(es[0].plan) else Find(es[1..], k)
  }

  function Drop(es: seq<Entry>, k: Key): seq<Entry> {
    if es == [] then [] else if es[0].key == k then Drop(es[1..], k) else [es[0]] + Drop(es[1..], k)
  }

  /** A hit moves the entry to the recent end. */
  function LruGet(c: Lru, k: Key): (Lru, Option<Plan>) {
    match Find(c.entries, k)
    case None => (c, None)
    case Some(p) => (c.(entries := Drop(c.entries, k) + [Entry(k, p)]), Some(p))
  }

  /** A new key pushes out the least recently used entry of a full map. */
  function LruPut(c: Lru, k: Key, p: Plan): Lru {
    var rest := Drop(c.entries, k);
    var kept := if |rest| == |c.entries| && |rest| >= c.capacity && rest != [] then rest[1..] else rest;
    c.(entries := kept + [Entry(k, p)])
  }

  ghost predicate Distinct(es: seq<Entry>) {
    forall i, j :: 0 <= i < j < |es| ==> es[i].key != es[j].key
  }

  ghost predicate Valid(c: Lru) {
    c.capacity >= 1 && |c.entries| <= c.capacity && Distinct(c.entries)
  }

  lemma {:induction false} DropMembers(es: seq<Entry>, k: Key)
    ensures forall e :: e in Drop(es, k) <==> e in es && e.key != k
  {
    if es != [] {
      DropMembers(es[1..], k);
      assert es == [es[0]] + es[1..];
    }
  }

  lemma {:induction false} DropProps(es: seq<Entry>, k: Key)
    requires Distinct(es)
    ensures Distinct(Drop(es, k))
    ensures |Drop(es, k)| == |es| - (if Find(es, k).Some? then 1 else 0)
  {
    if es != [] {
      var t := es[1..];
      DropProps(t, k);
      DropMembers(t, k);
      if es[0].key == k {
        assert forall e :: e in t ==> e.key != k;
        FindNone(t, k);
      } else {
        assert forall e :: e in t ==> e.key != es[0].key;
      }
    }
  }

  lemma {:induction false} FindNone(es: seq<Entry>, k: Key)
    requires forall e :: e in es ==> e.key != k
    ensures Find(es, k).None?
  {
    if es != [] {
      assert es[0] in es;
      FindNone(es[1..], k);
    }
  }

  lemma {:induction false} FindProps(es: seq<Entry>, k: Key)
    ensures Find(es, k).Some? ==> Entry(k, Find(es, k).value) in es
    ensures Find(es, k).None? ==> forall e :: e in es ==> e.key != k
  {
    if es != [] {
      FindProps(es[1..], k);
      assert es == [es[0]] + es[1..];
    }
  }

  lemma {:induction false} FindLast(es: seq<Entry>, e: Entry, k: Key)
    requires forall x :: x in es ==> x.key != e.key
    ensures Find(es + [e], k) == if k == e.key then Some(e.plan) else Find(es, k)
  {
    if es != [] {
      assert (es + [e])[1..] == es[1..] + [e] && (es + [e])[0] == es[0];
      assert es[0] in es;
      FindLast(es[1..], e, k);
    }
  }

  lemma {:induction false} FindAfterDrop(es: seq<Entry>, d: Key, k: Key)
    ensures Find(Drop(es, d), k) == if k == d then None else Find(es, k)
  {
    if es != [] {
      FindAfterDrop(es[1..], d, k);
      if es[0].key != d {
        assert Drop(es, d)[1..] == Drop(es[1..], d);
      }
    }
  }

  /** A lookup changes no binding. */
  lemma GetKeeps(c: Lru, k: Key, k': Key)
    requires Valid(c)
    ensures Valid(LruGet(c, k).0) && Find(LruGet(c, k).0.entries, k') == Find(c.entries, k')
    ensures LruGet(c, k).1 == Find(c.entries, k)
  {
    DropProps(c.entries, k);
    DropMembers(c.entries, k);
    FindProps(c.entries, k);
    if Find(c.entries, k).Some? {
      FindLast(Drop(c.entries, k), Entry(k, Find(c.entries, k).value), k');
      FindAfterDrop(c.entries, k, k');
    }
  }

  /** Dropping the least recently used entry unbinds its key and keeps the rest. */
  lemma EvictFront(es: seq<Entry>, k: Key)
    requires Distinct(es) && es != []
    ensures Distinct(es[1..]) && Find(es[1..], k) == if k == es[0].key then None else Find(es, k)
  {
    if k == es[0].key {
      assert forall e :: e in es[1..] ==> e.key != k;
      FindNone(es[1..], k);
    }
  }

  /** The key whose entry an insert of `k` pushes out, if any: the least recently used one of a full map. */
  ghost predicate PushesOut(c: Lru, k: Key, k': Key) {
    Find(c.entries, k).None? && |c.entries| == c.capacity && c.entries != [] && c.entries[0].key == k'
  }

  /** After an insert the key is bound to the new plan, and every other binding is as it was, except that
      of the entry pushed out. */
  lemma PutBinds(c: Lru, k: Key, p: Plan, k': Key)
    requires Valid(c)
    ensures Valid(LruPut(c, k, p))
    ensures Find(LruPut(c, k, p).entries, k) == Some(p)
    ensures k' != k ==>
              Find(LruPut(c, k, p).entries, k') == if PushesOut(c, k, k') then None else Find(c.entries, k')
  {
    var rest := Drop(c.entries, k);
    DropProps(c.entries, k);
    DropMembers(c.entries, k);
    FindAfterDrop(c.entries, k, k');
    var evict := |rest| == |c.entries| && |rest| >= c.capacity && rest != [];
    var kept := if evict then rest[1..] else rest;
    if evict {
      DropNothing(c.entries, k);
      EvictFront(rest, k');
    }
    AddLast(kept, Entry(k, p), k');
    AddLast(kept, Entry(k, p), k);
  }

  lemma {:induction false} DropNothing(es: seq<Entry>, k: Key)
    requires Find(es, k).None?
    ensures Drop(es, k) == es
  {
    if es != [] {
      DropNothing(es[1..], k);
    }
  }

  lemma AddLast(es: seq<Entry>, e: Entry, k: Key)
    requires Distinct(es) && forall x :: x in es ==> x.key != e.key
    ensures Distinct(es + [e]) && Find(es + [e], k) == if k == e.key then Some(e.plan) else Find(es, k)
  {
    FindLast(es, e, k);
  }

  // ----- the actor -----

  datatype Msg = Submit(request: Request) | Refit(key: Key)

  /** `sent` lists what went to the compile sink. */
  datatype State = State(dispatched: nat, cache: Lru, sent: seq<Plan>)

  /** `capacity.max(1)`. */
  function Slots(capacity: nat): nat {
    if capacity == 0 then 1 else capacity
  }

  function Fresh(capacity: nat): State {
    State(0, Lru(Slots(capacity), []), [])
  }

  /** The flag answers a refit: whether there is a plan for its key. */
  function Step(hash: HashFn, render: RenderFn, s: State, m: Msg): (State, Option<bool>) {
    var counted := s.(dispatched := s.dispatched + 1);
    match m
    case Submit(r) =>
      var k := KeyOf(hash, r);
      var (touched, hit) := LruGet(s.cache, k);
      if hit.Some? then (counted.(cache := touched), None)
      else (counted.(cache := LruPut(touched, k, render(r)), sent := s.sent + [render(r)]), None)
    case Refit(k) =>
      var (touched, hit) := LruGet(s.cache, k);
      (counted.(cache := touched), Some(hit.Some?))
  }

  function Run(hash: HashFn, render: RenderFn, capacity: nat, ms: seq<Msg>): State {
    if ms == [] then Fresh(capacity)
    else Step(hash, render, Run(hash, render, capacity, ms[..|ms| - 1]), ms[|ms| - 1]).0
  }

  ghost predicate Submitted(ms: seq<Msg>, r: Request) {
    Submit(r) in ms
  }

  /** Each binding is the render of a submitted request with that key. */
  ghost predicate Sound(hash: HashFn, render: RenderFn, s: State, ms: seq<Msg>) {
    Valid(s.cache) &&
    forall k :: Find(s.cache.entries, k).Some? ==>
      exists r :: Submitted(ms, r) && KeyOf(hash, r) == k && Find(s.cache.entries, k).value == render(r)
  }

  lemma StepSound(hash: HashFn, render: RenderFn, s: State, ms: seq<Msg>, m: Msg)
    requires Sound(hash, render, s, ms)
    ensures Sound(hash, render, Step(hash, render, s, m).0, ms + [m])
  {
    var s' := Step(hash, render, s, m).0;
    var key := if m.Submit? then KeyOf(hash, m.request) else m.key;
    GetKeeps(s.cache, key, key);
    var touched := LruGet(s.cache, key).0;
    if m.Submit? && Find(s.cache.entries, key).None? {
      PutBinds(touched, key, render(m.request), key);
    }
    forall k | Find(s'.cache.entries, k).Some?
      ensures exists r :: Submitted(ms + [m], r) && KeyOf(hash, r) == k && Find(s'.cache.entries, k).value == render(r)
    {
      GetKeeps(s.cache, key, k);
      if m.Submit? && Find(s.cache.entries, key).None? {
        PutBinds(touched, key, render(m.request), k);
      }
      if m.Submit? && k == key && Find(s.cache.entries, key).None? {
        assert Submitted(ms + [m], m.request);
      } else {
        assert Find(s.cache.entries, k) == Find(s'.cache.entries, k);
        var r :| Submitted(ms, r) && KeyOf(hash, r) == k && Find(s.cache.entries, k).value == render(r);
        assert Submitted(ms + [m], r);
      }
    }
  }

  lemma {:induction false} RunSound(hash: HashFn, render: RenderFn, capacity: nat, ms: seq<Msg>)
    ensures Sound(hash, render, Run(hash, render, capacity, ms), ms)
    ensures Run(hash, render, capacity, ms).dispatched == |ms|
  {
    if ms != [] {
      var before := ms[..|ms| - 1];
      RunSound(hash, render, capacity, before);
      StepSound(hash, render, Run(hash, render, capacity, before), before, ms[|ms| - 1]);
      assert before + [ms[|ms| - 1]] == ms;
    }
  }

  /** The two requests are of different kinds, or the hash function does not collide on them in some lane. */
  ghost predicate Separated(hash: HashFn, x: Request, y: Request) {
    x.Gemm? != y.Gemm? || exists l :: !LaneCollides(hash, l, x, y)
  }

  lemma SeparatedKeys(hash: HashFn, x: Request, y: Request)
    ensures Separated(hash, x, y) <==> (KeyOf(hash, x) == KeyOf(hash, y) ==> x == y)
  {
    KeyClashNeedsThreeCollisions(hash, x, y);
    if x == y {
      assert !LaneCollides(hash, A, x, y);
    }
  }

  /** Whatever the actor was sent before, the plan it holds under a request's key is the render of that request,
      if it holds one at all, and right after the request it does. Needed of the hash function: no other submitted
      request of the same kind collides with this one in all three lanes. */
  lemma PlansAreFaithful(hash: HashFn, render: RenderFn, capacity: nat, ms: seq<Msg>, r: Request)
    requires Submitted(ms, r)
    requires forall x :: Submitted(ms, x) ==> Separated(hash, x, r)
    ensures var found := Find(Run(hash, render, capacity, ms).cache.entries, KeyOf(hash, r));
            && (found.Some? ==> found.value == render(r))
            && (ms[|ms| - 1] == Submit(r) ==> found.Some?)
  {
    RunSound(hash, render, capacity, ms);
    var s := Run(hash, render, capacity, ms);
    var k := KeyOf(hash, r);
    if Find(s.cache.entries, k).Some? {
      var x :| Submitted(ms, x) && KeyOf(hash, x) == k && Find(s.cache.entries, k).value == render(x);
      SeparatedKeys(hash, x, r);
    }
    if ms[|ms| - 1] == Submit(r) {
      SubmitBinds(hash, render, capacity, ms[..|ms| - 1], r);
    }
  }

  /** After a submit its key is bound. */
  lemma SubmitBinds(hash: HashFn, render: RenderFn, capacity: nat, before: seq<Msg>, r: Request)
    ensures var s := Run(hash, render, capacity, before);
            Find(Step(hash, render, s, Submit(r)).0.cache.entries, KeyOf(hash, r)) ==
            Some(match Find(s.cache.entries, KeyOf(hash, r)) case Some(p) => p case None => render(r))
  {
    RunSound(hash, render, capacity, before);
    var (s, k) := (Run(hash, render, capacity, before), KeyOf(hash, r));
    GetKeeps(s.cache, k, k);
    if Find(s.cache.entries, k).None? {
      PutBinds(LruGet(s.cache, k).0, k, render(r), k);
    }
  }

  /** The condition on keys is exact: after `x` and then `y`, the plan under `y`'s key is `y`'s own render
      if and only if the keys differ or the renders agree. */
  lemma ServesOwnPlanIff(hash: HashFn, render: RenderFn, capacity: nat, x: Request, y: Request)
    ensures Find(Run(hash, render, capacity, [Submit(x), Submit(y)]).cache.entries, KeyOf(hash, y)) == Some(render(y)) <==>
            KeyOf(hash, x) != KeyOf(hash, y) || render(x) == render(y)
  {
    var ms := [Submit(x), Submit(y)];
    assert ms[..1] == [Submit(x)] && ms[..1][..0] == [];
    SubmitBinds(hash, render, capacity, [], x);
    SubmitBinds(hash, render, capacity, [Submit(x)], y);
    RunSound(hash, render, capacity, [Submit(x)]);
    var s := Run(hash, render, capacity, [Submit(x)]);
    assert forall r :: Submitted([Submit(x)], r) ==> r == x;
    assert Find(s.cache.entries, KeyOf(hash, x)) == Some(render(x));
  }

  /** Sending the same request again renders nothing, sends nothing to the compile sink and changes no binding. */
  lemma RepeatIsFree(hash: HashFn, render: RenderFn, capacity: nat, before: seq<Msg>, r: Request, k: Key)
    ensures var once := Step(hash, render, Run(hash, render, capacity, before), Submit(r)).0;
            var twice := Step(hash, render, once, Submit(r)).0;
            && twice.sent == once.sent
            && Find(twice.cache.entries, k) == Find(once.cache.entries, k)
            && |twice.cache.entries| == |once.cache.entries|
  {
    RunSound(hash, render, capacity, before);
    var s := Run(hash, render, capacity, before);
    StepSound(hash, render, s, before, Submit(r));
    SubmitBinds(hash, render, capacity, before, r);
    var once := Step(hash, render, s, Submit(r)).0;
    GetKeeps(once.cache, KeyOf(hash, r), k);
    DropProps(once.cache.entries, KeyOf(hash, r));
  }

  // ----- what stays -----

  /** `m` submits a request with key `k`, or refits a plan found under it. */
  predicate Touches(hash: HashFn, s: State, m: Msg, k: Key) {
    match m
    case Submit(r) => KeyOf(hash, r) == k
    case Refit(k') => k' == k && Find(s.cache.entries, k).Some?
  }

  /** The index just after the last message that touched `k`. 0 if none. */
  function LastTouch(hash: HashFn, render: RenderFn, capacity: nat, ms: seq<Msg>, k: Key): nat {
    if ms == [] then 0
    else
      var before := ms[..|ms| - 1];
      if Touches(hash, Run(hash, render, capacity, before), ms[|ms| - 1], k) then |ms|
      else LastTouch(hash, render, capacity, before, k)
  }

  function KeyIn(hash: HashFn, m: Msg): Key {
    match m
    case Submit(r) => KeyOf(hash, r)
    case Refit(k) => k
  }

  function KeysIn(hash: HashFn, ms: seq<Msg>): set<Key> {
    set m | m in ms :: KeyIn(hash, m)
  }

  /** The keys touched after the last touch of `k`. */
  ghost function Newer(hash: HashFn, render: RenderFn, capacity: nat, ms: seq<Msg>, k: Key): set<Key> {
    set x | x in KeysIn(hash, ms) &&
            LastTouch(hash, render, capacity, ms, x) > LastTouch(hash, render, capacity, ms, k)
  }

  lemma {:induction false} LastTouchProps(hash: HashFn, render: RenderFn, capacity: nat, ms: seq<Msg>, k: Key)
    ensures LastTouch(hash, render, capacity, ms, k) <= |ms|
    ensures LastTouch(hash, render, capacity, ms, k) > 0 ==> k in KeysIn(hash, ms)
  {
    if ms != [] {
      var (before, m) := (ms[..|ms| - 1], ms[|ms| - 1]);
      LastTouchProps(hash, render, capacity, before, k);
      assert m in ms && KeyIn(hash, m) in KeysIn(hash, ms);
      assert forall x :: x in before ==> x in ms;
      if k in KeysIn(hash, before) {
        var x :| x in before && KeyIn(hash, x) == k;
        assert x in ms;
      }
    }
  }

  /** Entries sorted by a rank, all of it positive. */
  ghost predicate Sorted(es: seq<Entry>, rank: Key -> nat) {
    && (forall i :: 0 <= i < |es| ==> rank(es[i].key) > 0)
    && (forall i, j :: 0 <= i < j < |es| ==> rank(es[i].key) < rank(es[j].key))
  }

  lemma {:induction false} DropKeepsSorted(es: seq<Entry>, k: Key, rank: Key -> nat)
    requires Sorted(es, rank)
    ensures Sorted(Drop(es, k), rank)
  {
    if es != [] {
      var t := es[1..];
      DropKeepsSorted(t, k, rank);
      DropMembers(t, k);
      forall e | e in Drop(t, k) ensures rank(es[0].key) < rank(e.key) {
        var i :| 0 <= i < |t| && t[i] == e;
        assert es[i + 1] == e;
      }
    }
  }

  /** The new rank agrees with the old one except on `k`, which it puts above everything. */
  lemma AppendKeepsSorted(es: seq<Entry>, e: Entry, rank: Key -> nat, rank': Key -> nat, top: nat)
    requires Sorted(es, rank) && forall x :: x in es ==> x.key != e.key && rank(x.key) <= top
    requires forall x :: rank'(x) == if x == e.key then top + 1 else rank(x)
    ensures Sorted(es + [e], rank')
  {
    forall i | 0 <= i < |es| ensures es[i].key != e.key {
      assert es[i] in es;
    }
  }

  lemma PutSorted(c: Lru, k: Key, p: Plan, rank: Key -> nat, rank': Key -> nat, top: nat)
    requires Valid(c) && Sorted(c.entries, rank) && forall x :: rank(x) <= top
    requires forall x :: rank'(x) == if x == k then top + 1 else rank(x)
    ensures Sorted(LruPut(c, k, p).entries, rank')
  {
    var rest := Drop(c.entries, k);
    DropKeepsSorted(c.entries, k, rank);
    DropMembers(c.entries, k);
    var evict := |rest| == |c.entries| && |rest| >= c.capacity && rest != [];
    var kept := if evict then rest[1..] else rest;
    assert Sorted(kept, rank) && forall x :: x in kept ==> x in rest;
    AppendKeepsSorted(kept, Entry(k, p), rank, rank', top);
  }

  lemma GetSorted(c: Lru, k: Key, rank: Key -> nat, rank': Key -> nat, top: nat)
    requires Valid(c) && Sorted(c.entries, rank) && forall x :: rank(x) <= top
    requires forall x :: rank'(x) == if x == k && Find(c.entries, k).Some? then top + 1 else rank(x)
    ensures Sorted(LruGet(c, k).0.entries, rank')
  {
    if Find(c.entries, k).Some? {
      DropKeepsSorted(c.entries, k, rank);
      DropMembers(c.entries, k);
      AppendKeepsSorted(Drop(c.entries, k), Entry(k, Find(c.entries, k).value), rank, rank', top);
    }
  }

  /** On every run the entries are sorted by their last touch. */
  lemma {:induction false} SortedByTouch(hash: HashFn, render: RenderFn, capacity: nat, ms: seq<Msg>)
    ensures Valid(Run(hash, render, capacity, ms).cache)
    ensures Sorted(Run(hash, render, capacity, ms).cache.entries, k => LastTouch(hash, render, capacity, ms, k))
  {
    RunSound(hash, render, capacity, ms);
    if ms != [] {
      var (before, m) := (ms[..|ms| - 1], ms[|ms| - 1]);
      SortedByTouch(hash, render, capacity, before);
      forall x ensures LastTouch(hash, render, capacity, before, x) <= |before| {
        LastTouchProps(hash, render, capacity, before, x);
      }
      var s := Run(hash, render, capacity, before);
      var rank := (x: Key) => LastTouch(hash, render, capacity, before, x);
      var rank' := (x: Key) => LastTouch(hash, render, capacity, ms, x);
      var k := KeyIn(hash, m);
      if m.Submit? && Find(s.cache.entries, k).None? {
        PutSorted(s.cache, k, render(m.request), rank, rank', |before|);
      } else {
        GetSorted(s.cache, k, rank, rank', |before|);
      }
    }
  }

  /** A key loses its plan only when another key is submitted to a full cache and its own entry is the oldest. */
  lemma LeavesOnlyWhenFull(hash: HashFn, render: RenderFn, s: State, m: Msg, k: Key)
    requires Valid(s.cache) && Find(s.cache.entries, k).Some?
    ensures Find(Step(hash, render, s, m).0.cache.entries, k).None? ==>
              m.Submit? && KeyOf(hash, m.request) != k && PushesOut(s.cache, KeyOf(hash, m.request), k)
  {
    var key := KeyIn(hash, m);
    GetKeeps(s.cache, key, k);
    if m.Submit? && Find(s.cache.entries, key).None? {
      PutBinds(s.cache, key, render(m.request), k);
    }
  }

  lemma NewerStep(hash: HashFn, render: RenderFn, capacity: nat, ms: seq<Msg>, m: Msg, k: Key)
    requires !Touches(hash, Run(hash, render, capacity, ms), m, k)
    ensures LastTouch(hash, render, capacity, ms + [m], k) == LastTouch(hash, render, capacity, ms, k)
    ensures Newer(hash, render, capacity, ms, k) <= Newer(hash, render, capacity, ms + [m], k)
    ensures m.Submit? ==> KeyOf(hash, m.request) in Newer(hash, render, capacity, ms + [m], k)
  {
    assert (ms + [m])[..|ms|] == ms;
    LastTouchProps(hash, render, capacity, ms, k);
    forall x | x in Newer(hash, render, capacity, ms, k) ensures x in Newer(hash, render, capacity, ms + [m], k) {
      LastTouchProps(hash, render, capacity, ms, x);
      LastTouchProps(hash, render, capacity, ms + [m], x);
    }
    if m.Submit? {
      LastTouchProps(hash, render, capacity, ms + [m], KeyOf(hash, m.request));
    }
  }

  ghost function Bound(es: seq<Entry>): set<Key> {
    set e | e in es :: e.key
  }

  lemma {:induction false} BoundCount(es: seq<Entry>)
    requires Distinct(es)
    ensures |Bound(es)| == |es|
  {
    if es != [] {
      BoundCount(es[1..]);
      assert es == [es[0]] + es[1..];
      assert Bound(es) == {es[0].key} + Bound(es[1..]);
      assert forall e :: e in es[1..] ==> e.key != es[0].key;
    }
  }

  lemma BoundMeansFound(es: seq<Entry>, k: Key)
    ensures k in Bound(es) <==> Find(es, k).Some?
  {
    FindProps(es, k);
  }

  /** When an entry is pushed out, the others and the new key are all newer. */
  lemma PushedOutIsOldest(hash: HashFn, render: RenderFn, capacity: nat, ms: seq<Msg>, m: Msg, k: Key)
    requires m.Submit? && KeyOf(hash, m.request) != k
    requires PushesOut(Run(hash, render, capacity, ms).cache, KeyOf(hash, m.request), k)
    ensures |Newer(hash, render, capacity, ms + [m], k)| >= Run(hash, render, capacity, ms).cache.capacity
  {
    var es := Run(hash, render, capacity, ms).cache.entries;
    var added := KeyOf(hash, m.request);
    var newer := Newer(hash, render, capacity, ms + [m], k);
    SortedByTouch(hash, render, capacity, ms);
    NewerStep(hash, render, capacity, ms, m, k);
    BoundMeansFound(es, added);
    BehindIsNewer(hash, render, capacity, ms);
    BoundCount(es[1..]);
    assert added !in Bound(es[1..]);
    assert |Bound(es[1..]) + {added}| == |es|;
    SubsetSize(Bound(es[1..]) + {added}, newer);
  }

  lemma BehindIsNewer(hash: HashFn, render: RenderFn, capacity: nat, ms: seq<Msg>)
    requires Run(hash, render, capacity, ms).cache.entries != []
    ensures var es := Run(hash, render, capacity, ms).cache.entries;
            Bound(es[1..]) <= Newer(hash, render, capacity, ms, es[0].key)
  {
    SortedByTouch(hash, render, capacity, ms);
    var es := Run(hash, render, capacity, ms).cache.entries;
    var rank := (x: Key) => LastTouch(hash, render, capacity, ms, x);
    forall x | x in Bound(es[1..]) ensures x in Newer(hash, render, capacity, ms, es[0].key) {
      var i :| 0 <= i < |es[1..]| && es[1..][i].key == x;
      assert es[i + 1].key == x && rank(es[0].key) < rank(es[i + 1].key);
      LastTouchProps(hash, render, capacity, ms, x);
    }
  }

  lemma {:induction false} CapacityStays(hash: HashFn, render: RenderFn, capacity: nat, ms: seq<Msg>)
    ensures Run(hash, render, capacity, ms).cache.capacity == Slots(capacity)
  {
    if ms != [] {
      CapacityStays(hash, render, capacity, ms[..|ms| - 1]);
    }
  }

  /** A plan touched recently is kept: with fewer than max(1, capacity) other keys touched since, it is still there. */
  lemma {:induction false} RecentIsKept(hash: HashFn, render: RenderFn, capacity: nat, ms: seq<Msg>, k: Key)
    requires LastTouch(hash, render, capacity, ms, k) > 0
    requires |Newer(hash, render, capacity, ms, k)| < Slots(capacity)
    ensures Find(Run(hash, render, capacity, ms).cache.entries, k).Some?
    decreases |ms|
  {
    var (before, m) := (ms[..|ms| - 1], ms[|ms| - 1]);
    var s := Run(hash, render, capacity, before);
    assert before + [m] == ms;
    SortedByTouch(hash, render, capacity, before);
    CapacityStays(hash, render, capacity, before);
    if Touches(hash, s, m, k) {
      TouchedIsFound(hash, render, capacity, before, m, k);
    } else {
      NewerStep(hash, render, capacity, before, m, k);
      SubsetSize(Newer(hash, render, capacity, before, k), Newer(hash, render, capacity, ms, k));
      RecentIsKept(hash, render, capacity, before, k);
      LeavesOnlyWhenFull(hash, render, s, m, k);
      if m.Submit? && PushesOut(s.cache, KeyOf(hash, m.request), k) {
        PushedOutIsOldest(hash, render, capacity, before, m, k);
      }
    }
  }

  lemma TouchedIsFound(hash: HashFn, render: RenderFn, capacity: nat, before: seq<Msg>, m: Msg, k: Key)
    requires Touches(hash, Run(hash, render, capacity, before), m, k)
    ensures Find(Step(hash, render, Run(hash, render, capacity, before), m).0.cache.entries, k).Some?
  {
    match m
    case Submit(r) =>
      SubmitBinds(hash, render, capacity, before, r);
    case Refit(_) =>
      RunSound(hash, render, capacity, before);
      GetKeeps(Run(hash, render, capacity, before).cache, k, k);
  }

  /** All that is newer than a plan is there as well. */
  lemma {:induction false} NewerAreFound(hash: HashFn, render: RenderFn, capacity: nat, ms: seq<Msg>, k: Key, x: Key)
    requires Find(Run(hash, render, capacity, ms).cache.entries, k).Some? && x in Newer(hash, render, capacity, ms, k)
    ensures x in Bound(Run(hash, render, capacity, ms).cache.entries) - {k}
    decreases |ms| - LastTouch(hash, render, capacity, ms, x)
  {
    var es := Run(hash, render, capacity, ms).cache.entries;
    forall y | y in Newer(hash, render, capacity, ms, x) ensures y in Bound(es) - {k} {
      LastTouchProps(hash, render, capacity, ms, y);
      NewerAreFound(hash, render, capacity, ms, k, y);
    }
    FewNewer(hash, render, capacity, ms, k, x);
    RecentIsKept(hash, render, capacity, ms, x);
    BoundMeansFound(es, x);
  }

  lemma FewNewer(hash: HashFn, render: RenderFn, capacity: nat, ms: seq<Msg>, k: Key, x: Key)
    requires Find(Run(hash, render, capacity, ms).cache.entries, k).Some?
    requires Newer(hash, render, capacity, ms, x) <= Bound(Run(hash, render, capacity, ms).cache.entries) - {k}
    ensures |Newer(hash, render, capacity, ms, x)| < Slots(capacity)
  {
    var es := Run(hash, render, capacity, ms).cache.entries;
    RunSound(hash, render, capacity, ms);
    CapacityStays(hash, render, capacity, ms);
    BoundMeansFound(es, k);
    BoundCount(es);
    SubsetSize(Newer(hash, render, capacity, ms, x), Bound(es) - {k});
    assert |Bound(es) - {k}| == |Bound(es)| - 1;
  }

  /** The cache holds exactly the plans of the max(1, capacity) most recently touched keys. */
  lemma HoldsMostRecent(hash: HashFn, render: RenderFn, capacity: nat, ms: seq<Msg>, k: Key)
    ensures Find(Run(hash, render, capacity, ms).cache.entries, k).Some? <==>
            LastTouch(hash, render, capacity, ms, k) > 0 && |Newer(hash, render, capacity, ms, k)| < Slots(capacity)
  {
    var es := Run(hash, render, capacity, ms).cache.entries;
    if Find(es, k).Some? {
      SortedByTouch(hash, render, capacity, ms);
      FindProps(es, k);
      var i :| 0 <= i < |es| && es[i] == Entry(k, Find(es, k).value);
      var rank := (x: Key) => LastTouch(hash, render, capacity, ms, x);
      assert rank(es[i].key) > 0;
      forall x | x in Newer(hash, render, capacity, ms, k) ensures x in Bound(es) - {k} {
        NewerAreFound(hash, render, capacity, ms, k, x);
      }
      FewNewer(hash, render, capacity, ms, k, k);
    } else if LastTouch(hash, render, capacity, ms, k) > 0 && |Newer(hash, render, capacity, ms, k)| < Slots(capacity) {
      RecentIsKept(hash, render, capacity, ms, k);
    }
  }

  /** What a submit costs and what a refit is told, on every run: a request is rendered and sent to the compile sink
      exactly if its key is not among the most recently touched, and a refit finds a plan exactly if its key is. */
  lemma SendsExactlyForgotten(hash: HashFn, render: RenderFn, capacity: nat, ms: seq<Msg>, r: Request, k: Key)
    ensures var s := Run(hash, render, capacity, ms);
            Step(hash, render, s, Submit(r)).0.sent ==
            s.sent + if Remembered(hash, render, capacity, ms, KeyOf(hash, r)) then [] else [render(r)]
    ensures Step(hash, render, Run(hash, render, capacity, ms), Refit(k)).1 ==
            Some(Remembered(hash, render, capacity, ms, k))
    ensures Step(hash, render, Run(hash, render, capacity, ms), Refit(k)).0.sent == Run(hash, render, capacity, ms).sent
  {
    HoldsMostRecent(hash, render, capacity, ms, KeyOf(hash, r));
    HoldsMostRecent(hash, render, capacity, ms, k);
  }

  /** Used, and fewer other keys than the cache has room for were used since; capacity 0 holds one plan. */
  ghost predicate Remembered(hash: HashFn, render: RenderFn, capacity: nat, ms: seq<Msg>, k: Key) {
    && LastTouch(hash, render, capacity, ms, k) > 0
    && |Newer(hash, render, capacity, ms, k)| < (if capacity == 0 then 1 else capacity)
  }

  class PlanCache {
    const capacity: nat
    var entries: seq<Entry>

    function Model(): Lru reads this {
      Lru(capacity, entries)
    }

    constructor (capacity: nat)
      ensures Model() == Lru(Slots(capacity), [])
    {
      this.capacity := if capacity == 0 then 1 else capacity;
      entries := [];
    }

    method Get(key: Key) returns (r: Option<Plan>)
      modifies this
      ensures (Model(), r) == LruGet(old(Model()), key)
    {
      r := Find(entries, key);
      if r.Some? {
        entries := Drop(entries, key) + [Entry(key, r.value)];
      }
    }

    method Insert(key: Key, plan: Plan)
      modifies this
      ensures Model() == LruPut(old(Model()), key, plan)
    {
      var rest := Drop(entries, key);
      if |rest| == |entries| && |rest| >= capacity && rest != [] {
        rest := rest[1..];
      }
      entries := rest + [Entry(key, plan)];
    }
  }

  class CutlassActor {
    const hash: HashFn
    const render: RenderFn
    const planCache: PlanCache
    var dispatched: nat
    var sent: seq<Plan>

    function Model(): State reads this, planCache {
      State(dispatched, planCache.Model(), sent)
    }

    constructor (hash: HashFn, render: RenderFn, capacity: nat)
      ensures Model() == Fresh(capacity) && this.hash == hash && this.render == render
      ensures fresh(planCache)
    {
      this.hash, this.render := hash, render;
      planCache := new PlanCache(capacity);
      dispatched, sent := 0, [];
    }

    method Handle(msg: Msg) returns (reply: Option<bool>)
      modifies this, planCache
      ensures (Model(), reply) == Step(hash, render, old(Model()), msg)
    {
      dispatched := dispatched + 1;
      reply := None;
      match msg
      case Submit(r) =>
        var key := MakeKey(r);
        var hit := planCache.Get(key);
        if hit.None? {
          var plan := render(r);
          sent := sent + [plan];
          planCache.Insert(key, plan);
        }
      case Refit(key) =>
        var hit := planCache.Get(key);
        reply := Some(hit.Some?);
    }

    method MakeKey(r: Request) returns (key: Key)
      ensures key == KeyOf(hash, r)
    {
      match r
      case Gemm(g) => key := GemmKey(hash, g);
      case Conv(c) => key := ConvKey(hash, c);
    }
  }
}
