/** Weighted fair queueing across tenants by virtual finish time
    (crates/atomr-accel-patterns/src/scheduler.rs). Virtual times are exact reals. */
module FairShare {
  import opened Wrappers

  /** `TenantId(pub u32)`. */
  type TenantId = n: nat | n < 0x1_0000_0000

  datatype Tenant<Req> = Tenant(weight: nat, queue: seq<Req>, vfinish: real)

  datatype State<Req> = State(cap: nat, tenants: map<TenantId, Tenant<Req>>, inFlight: nat, total: nat)

  /** What happens to the scheduler, one event at a time. `Dispatch` is one round of the dispatch loop. */
  datatype Action<Req> =
    | Submit(tenant: TenantId, req: Req)
    | Finished(tenant: TenantId)
    | Dispatch(tenant: TenantId, req: Req)

  /** Weight 0 counts as 1. */
  function Effective(weight: nat): real {
    (if weight == 0 then 1 else weight) as real
  }

  /** Virtual time that one request of this weight costs. */
  function Cost(weight: nat): real {
    1.0 / Effective(weight)
  }

  predicate Backlogged<Req>(s: State<Req>, t: TenantId) {
    t in s.tenants && s.tenants[t].queue != []
  }

  ghost predicate AllIdle<Req>(s: State<Req>) {
    forall t :: !Backlogged(s, t)
  }

  /** The dispatch loop stops here. */
  ghost predicate Quiescent<Req>(s: State<Req>) {
    s.inFlight >= s.cap || AllIdle(s)
  }

  /** `t` has work and no tenant with work has a smaller virtual finish time. */
  ghost predicate IsBest<Req>(s: State<Req>, t: TenantId) {
    Backlogged(s, t) && forall u :: Backlogged(s, u) ==> s.tenants[t].vfinish <= s.tenants[u].vfinish
  }

  ghost predicate Enabled<Req>(s: State<Req>, a: Action<Req>) {
    match a
    case Submit(_, _) => true
    case Finished(_) => true
    case Dispatch(t, req) => s.inFlight < s.cap && IsBest(s, t) && s.tenants[t].queue[0] == req
  }

  function Enqueue<Req>(s: State<Req>, t: TenantId, req: Req): State<Req>
    requires t in s.tenants
  {
    s.(tenants := s.tenants[t := s.tenants[t].(queue := s.tenants[t].queue + [req])])
  }

  function Take<Req>(s: State<Req>, t: TenantId): State<Req>
    requires Backlogged(s, t)
  {
    var tenant := s.tenants[t];
    s.(tenants := s.tenants[t := tenant.(queue := tenant.queue[1..], vfinish := tenant.vfinish + Cost(tenant.weight))],
       inFlight := s.inFlight + 1, total := s.total + 1)
  }

  /** A submit for an unknown tenant is refused and changes nothing; a `Finished` never goes below zero. */
  function Apply<Req>(s: State<Req>, a: Action<Req>): State<Req> {
    match a
    case Submit(t, req) => if t in s.tenants then Enqueue(s, t, req) else s
    case Finished(_) => s.(inFlight := if s.inFlight > 0 then s.inFlight - 1 else 0)
    case Dispatch(t, _) => if Backlogged(s, t) then Take(s, t) else s
  }

  function After<Req>(s: State<Req>, acts: seq<Action<Req>>): State<Req> {
    if acts == [] then s else Apply(After(s, acts[..|acts| - 1]), acts[|acts| - 1])
  }

  ghost predicate Legal<Req>(s: State<Req>, acts: seq<Action<Req>>) {
    acts == [] ||
    (Legal(s, acts[..|acts| - 1]) && Enabled(After(s, acts[..|acts| - 1]), acts[|acts| - 1]))
  }

  /** A run of the actor: besides being legal, every message finds the dispatch loop finished. */
  ghost predicate ActorRun<Req>(s: State<Req>, acts: seq<Action<Req>>) {
    acts == [] ||
    (&& ActorRun(s, acts[..|acts| - 1])
     && Enabled(After(s, acts[..|acts| - 1]), acts[|acts| - 1])
     && (!acts[|acts| - 1].Dispatch? ==> Quiescent(After(s, acts[..|acts| - 1]))))
  }

  lemma {:induction false} ActorRunLegal<Req>(s: State<Req>, acts: seq<Action<Req>>)
    requires ActorRun(s, acts)
    ensures Legal(s, acts)
  {
    if acts != [] {
      ActorRunLegal(s, acts[..|acts| - 1]);
    }
  }

  // ----- counting along a run -----

  function Count<Req>(acts: seq<Action<Req>>, t: TenantId): nat {
    if acts == [] then 0
    else
      var a := acts[|acts| - 1];
      Count(acts[..|acts| - 1], t) + (if a.Dispatch? && a.tenant == t then 1 else 0)
  }

  function Dispatches<Req>(acts: seq<Action<Req>>): nat {
    if acts == [] then 0
    else Dispatches(acts[..|acts| - 1]) + (if acts[|acts| - 1].Dispatch? then 1 else 0)
  }

  function Finishes<Req>(acts: seq<Action<Req>>): nat {
    if acts == [] then 0
    else Finishes(acts[..|acts| - 1]) + (if acts[|acts| - 1].Finished? then 1 else 0)
  }

  function AcceptedNow<Req>(a: Action<Req>, t: TenantId): seq<Req> {
    if a.Submit? && a.tenant == t then [a.req] else []
  }

  function ServedNow<Req>(a: Action<Req>, t: TenantId): seq<Req> {
    if a.Dispatch? && a.tenant == t then [a.req] else []
  }

  lemma QueueStep<Req>(s: State<Req>, a: Action<Req>, t: TenantId)
    requires Enabled(s, a) && t in s.tenants
    ensures t in Apply(s, a).tenants
    ensures s.tenants[t].queue + AcceptedNow(a, t) == ServedNow(a, t) + Apply(s, a).tenants[t].queue
  {
    var q := s.tenants[t].queue;
    if a.Dispatch? && a.tenant == t {
      assert q == [q[0]] + q[1..];
    }
  }

  /** The requests of `t` that were accepted, in order. */
  function Accepted<Req>(acts: seq<Action<Req>>, t: TenantId): seq<Req> {
    if acts == [] then []
    else
      Accepted(acts[..|acts| - 1], t) + AcceptedNow(acts[|acts| - 1], t)
  }

  /** The requests of `t` handed to the dispatcher, in order. */
  function Served<Req>(acts: seq<Action<Req>>, t: TenantId): seq<Req> {
    if acts == [] then []
    else
      Served(acts[..|acts| - 1], t) + ServedNow(acts[|acts| - 1], t)
  }

  lemma {:induction false} TenantsFixed<Req>(s: State<Req>, acts: seq<Action<Req>>)
    ensures var s' := After(s, acts);
            && s'.tenants.Keys == s.tenants.Keys && s'.cap == s.cap
            && forall t :: t in s.tenants ==> s'.tenants[t].weight == s.tenants[t].weight
  {
    if acts != [] {
      TenantsFixed(s, acts[..|acts| - 1]);
    }
  }

  /** Conservation and FIFO order. For each tenant, the requests queued at the start followed by those accepted
      since are exactly the ones served, in that order, followed by the ones still queued. */
  lemma {:induction false} Conservation<Req>(s: State<Req>, acts: seq<Action<Req>>, t: TenantId)
    requires Legal(s, acts) && t in s.tenants
    ensures t in After(s, acts).tenants
    ensures s.tenants[t].queue + Accepted(acts, t) == Served(acts, t) + After(s, acts).tenants[t].queue
    ensures |Served(acts, t)| == Count(acts, t)
    ensures After(s, acts).total == s.total + Dispatches(acts)
  {
    TenantsFixed(s, acts);
    if acts != [] {
      var before := acts[..|acts| - 1];
      TenantsFixed(s, before);
      Conservation(s, before, t);
      var a := acts[|acts| - 1];
      QueueStep(After(s, before), a, t);
      Shift(s.tenants[t].queue, Accepted(before, t), AcceptedNow(a, t), Served(before, t),
            After(s, before).tenants[t].queue, ServedNow(a, t), After(s, acts).tenants[t].queue);
    }
  }

  lemma Shift<T>(q0: seq<T>, acc: seq<T>, a: seq<T>, srv: seq<T>, q: seq<T>, d: seq<T>, q': seq<T>)
    requires q0 + acc == srv + q && q + a == d + q'
    ensures q0 + (acc + a) == (srv + d) + q'
  {
    calc {
      q0 + (acc + a);
      (q0 + acc) + a;
      (srv + q) + a;
      srv + (q + a);
      srv + (d + q');
      (srv + d) + q';
    }
  }

  /** `n` requests of cost `c`. */
  function Times(n: nat, c: real): real {
    if n == 0 then 0.0 else Times(n - 1, c) + c
  }

  lemma {:induction false} TimesIsProduct(n: nat, c: real)
    ensures Times(n, c) == (n as real) * c
  {
    if n > 0 {
      TimesIsProduct(n - 1, c);
      assert (n as real) * c == ((n - 1) as real) * c + c;
    }
  }

  /** A tenant's virtual time grows by one cost per dispatched request, and never otherwise. */
  lemma {:induction false} VirtualTime<Req>(s: State<Req>, acts: seq<Action<Req>>, t: TenantId)
    requires Legal(s, acts) && t in s.tenants
    ensures t in After(s, acts).tenants
    ensures V(After(s, acts), t) == V(s, t) + Times(Count(acts, t), Cost(s.tenants[t].weight))
  {
    if acts != [] {
      var before := acts[..|acts| - 1];
      TenantsFixed(s, before);
      VirtualTime(s, before, t);
      VirtualTimeStep(After(s, before), acts[|acts| - 1], t);
    }
  }

  lemma VirtualTimeStep<Req>(s: State<Req>, a: Action<Req>, t: TenantId)
    requires Enabled(s, a) && t in s.tenants
    ensures t in Apply(s, a).tenants
    ensures V(Apply(s, a), t) == V(s, t) + (if a.Dispatch? && a.tenant == t then Cost(s.tenants[t].weight) else 0.0)
  {}

  /** No `Finished` comes while no slot is taken: none exceeds the dispatches and the slots taken at the start. */
  ghost predicate NoneTooMany<Req>(s: State<Req>, acts: seq<Action<Req>>) {
    forall n :: 0 <= n <= |acts| ==> Covered(s, acts[..n])
  }

  predicate Covered<Req>(s: State<Req>, acts: seq<Action<Req>>) {
    Finishes(acts) <= s.inFlight + Dispatches(acts)
  }

  lemma NoneTooManyOnward<Req>(s: State<Req>, acts: seq<Action<Req>>)
    requires acts != []
    ensures NoneTooMany(s, acts) <==>
            NoneTooMany(s, acts[..|acts| - 1]) && Covered(s, acts)
  {
    var before := acts[..|acts| - 1];
    assert acts[..|acts|] == acts;
    forall n | 0 <= n < |acts| ensures before[..n] == acts[..n] {}
    if NoneTooMany(s, acts) {
      forall n | 0 <= n <= |before| ensures Covered(s, before[..n]) {
        assert Covered(s, acts[..n]);
      }
    }
    if NoneTooMany(s, before) && Covered(s, acts) {
      forall n | 0 <= n <= |acts| ensures Covered(s, acts[..n]) {
        if n <= |before| {
          assert Covered(s, before[..n]);
        }
      }
    }
  }

  /** The in-flight count never exceeds the cap. It is the number of dispatched requests that have not finished
      exactly if there was never a `Finished` too many; otherwise it is larger. */
  lemma {:induction false} InFlightAccounting<Req>(s: State<Req>, acts: seq<Action<Req>>)
    requires Legal(s, acts) && s.inFlight <= s.cap
    ensures After(s, acts).inFlight <= s.cap
    ensures After(s, acts).inFlight >= s.inFlight + Dispatches(acts) - Finishes(acts)
    ensures After(s, acts).inFlight == s.inFlight + Dispatches(acts) - Finishes(acts) <==> NoneTooMany(s, acts)
  {
    if acts != [] {
      var before := acts[..|acts| - 1];
      InFlightAccounting(s, before);
      TenantsFixed(s, before);
      NoneTooManyOnward(s, acts);
    }
  }

  // ----- fairness -----

  function V<Req>(s: State<Req>, t: TenantId): real
    requires t in s.tenants
  {
    s.tenants[t].vfinish
  }

  /** `t` has work queued whenever a dispatch happens. */
  ghost predicate Busy<Req>(s: State<Req>, acts: seq<Action<Req>>, t: TenantId) {
    forall k :: 0 <= k < |acts| && acts[k].Dispatch? ==> Backlogged(After(s, acts[..k]), t)
  }

  lemma BusyPrefix<Req>(s: State<Req>, acts: seq<Action<Req>>, t: TenantId)
    requires acts != [] && Busy(s, acts, t)
    ensures Busy(s, acts[..|acts| - 1], t)
    ensures acts[|acts| - 1].Dispatch? ==> Backlogged(After(s, acts[..|acts| - 1]), t)
  {
    var before := acts[..|acts| - 1];
    forall k | 0 <= k < |before| && before[k].Dispatch? ensures Backlogged(After(s, before[..k]), t) {
      assert before[..k] == acts[..k];
    }
  }

  /** Pairwise fairness. While two tenants both have work at every dispatch, the lead of one over the other
      never exceeds the lead it started with or the cost of one of its own requests, whichever is larger. */
  lemma {:induction false} LeadIsBounded<Req>(s: State<Req>, acts: seq<Action<Req>>, i: TenantId, j: TenantId, bound: real)
    requires Legal(s, acts) && i in s.tenants && j in s.tenants
    requires Busy(s, acts, i) && Busy(s, acts, j)
    requires V(s, i) - V(s, j) <= bound && Cost(s.tenants[i].weight) <= bound
    ensures i in After(s, acts).tenants && j in After(s, acts).tenants
    ensures V(After(s, acts), i) - V(After(s, acts), j) <= bound
  {
    TenantsFixed(s, acts);
    if acts != [] {
      var before := acts[..|acts| - 1];
      TenantsFixed(s, before);
      BusyPrefix(s, acts, i);
      BusyPrefix(s, acts, j);
      LeadIsBounded(s, before, i, j, bound);
      CostPositive(s.tenants[j].weight);
    }
  }

  lemma CostPositive(weight: nat)
    ensures Cost(weight) > 0.0
    ensures Cost(weight) * Effective(weight) == 1.0
  {}

  /** From equal virtual times, the weight-normalised numbers of served requests of two busy tenants
      differ by at most the cost of one request of the lighter one. */
  lemma FairShares<Req>(s: State<Req>, acts: seq<Action<Req>>, i: TenantId, j: TenantId)
    requires Legal(s, acts) && i in s.tenants && j in s.tenants
    requires Busy(s, acts, i) && Busy(s, acts, j) && V(s, i) == V(s, j)
    ensures var (ci, cj) := (Cost(s.tenants[i].weight), Cost(s.tenants[j].weight));
            -cj <= Times(Count(acts, i), ci) - Times(Count(acts, j), cj) <= ci
  {
    CostPositive(s.tenants[i].weight);
    CostPositive(s.tenants[j].weight);
    LeadIsBounded(s, acts, i, j, Cost(s.tenants[i].weight));
    LeadIsBounded(s, acts, j, i, Cost(s.tenants[j].weight));
    VirtualTime(s, acts, i);
    VirtualTime(s, acts, j);
  }

  /** `p` is the virtual time of `n` requests of cost `c` at weight `w`; `scale` is `w` times the other weight. */
  lemma Rescale(n: real, c: real, w: real, other: real, p: real, scale: real)
    requires c * w == 1.0 && p == n * c && scale == w * other
    ensures p * scale == n * other
  {
    assert p * scale == (p * w) * other;
    assert p * w == n * (c * w);
  }

  lemma ScaleWindow(lo: real, p: real, q: real, hi: real, scale: real)
    requires lo <= p - q <= hi && scale > 0.0
    ensures lo * scale <= p * scale - q * scale <= hi * scale
  {
    var d := p - q;
    assert (d - lo) * scale >= 0.0 && (hi - d) * scale >= 0.0;
  }

  /** The same in counts and weights: the shares of two busy tenants are proportional to their weights, up to one
      request of either. Weight 0 counts as 1. */
  lemma SharesFollowWeights<Req>(s: State<Req>, acts: seq<Action<Req>>, i: TenantId, j: TenantId, wi: nat, wj: nat)
    requires Legal(s, acts) && i in s.tenants && j in s.tenants
    requires Busy(s, acts, i) && Busy(s, acts, j) && V(s, i) == V(s, j)
    requires wi == (if s.tenants[i].weight == 0 then 1 else s.tenants[i].weight)
    requires wj == (if s.tenants[j].weight == 0 then 1 else s.tenants[j].weight)
    ensures Count(acts, i) * wj <= Count(acts, j) * wi + wj
    ensures Count(acts, j) * wi <= Count(acts, i) * wj + wi
  {
    FairShares(s, acts, i, j);
    CountsFollow(Count(acts, i), Count(acts, j), s.tenants[i].weight, s.tenants[j].weight, wi, wj);
  }

  lemma CountsFollow(ni: nat, nj: nat, weighti: nat, weightj: nat, wi: nat, wj: nat)
    requires wi == (if weighti == 0 then 1 else weighti) && wj == (if weightj == 0 then 1 else weightj)
    requires -Cost(weightj) <= Times(ni, Cost(weighti)) - Times(nj, Cost(weightj)) <= Cost(weighti)
    ensures ni * wj <= nj * wi + wj && nj * wi <= ni * wj + wi
  {
    CostTimesWeight(weighti, wi);
    CostTimesWeight(weightj, wj);
    ToWeights(ni, nj, wi, wj, Cost(weighti), Cost(weightj));
  }

  lemma CostTimesWeight(weight: nat, w: nat)
    requires w == if weight == 0 then 1 else weight
    ensures w > 0 && Times(w, Cost(weight)) == 1.0
  {
    CostPositive(weight);
    TimesIsProduct(w, Cost(weight));
  }

  lemma ToWeights(ni: nat, nj: nat, wi: nat, wj: nat, ci: real, cj: real)
    requires wi > 0 && wj > 0 && Times(wi, ci) == 1.0 && Times(wj, cj) == 1.0
    requires -cj <= Times(ni, ci) - Times(nj, cj) <= ci
    ensures ni * wj <= nj * wi + wj && nj * wi <= ni * wj + wi
  {
    TimesIsProduct(ni, ci);
    TimesIsProduct(nj, cj);
    TimesIsProduct(wi, ci);
    TimesIsProduct(wj, cj);
    InReals(ni as real, nj as real, ci, cj, wi as real, wj as real, Times(ni, ci), Times(nj, cj));
    InIntegers(ni, nj, wi, wj);
  }

  lemma InReals(ni: real, nj: real, ci: real, cj: real, wi: real, wj: real, p: real, q: real)
    requires wi > 0.0 && wj > 0.0 && ci * wi == 1.0 && cj * wj == 1.0
    requires p == ni * ci && q == nj * cj && -cj <= p - q <= ci
    ensures -wi <= ni * wj - nj * wi <= wj
  {
    var scale := wi * wj;
    assert scale > 0.0 && scale == wj * wi;
    Rescale(ni, ci, wi, wj, p, scale);
    Rescale(nj, cj, wj, wi, q, scale);
    Rescale(1.0, ci, wi, wj, ci, scale);
    Rescale(1.0, cj, wj, wi, cj, scale);
    ScaleWindow(-cj, p, q, ci, scale);
  }

  lemma InIntegers(ni: nat, nj: nat, wi: nat, wj: nat)
    requires -(wi as real) <= (ni as real) * (wj as real) - (nj as real) * (wi as real) <= wj as real
    ensures ni * wj <= nj * wi + wj && nj * wi <= ni * wj + wi
  {
    ProductAsReal(ni, wj);
    ProductAsReal(nj, wi);
  }

  lemma ProductAsReal(a: nat, b: nat)
    ensures (a as real) * (b as real) == (a * b) as real
  {}

  /** How often a tenant at virtual time `vj` can overtake a waiting head at virtual time `vi`. */
  function Overtakes(vi: real, vj: real, weight: nat): nat {
    if vi < vj then 0
    else
      assert (vi - vj) * Effective(weight) >= 0.0;
      ((vi - vj) * Effective(weight)).Floor + 1
  }

  /** While the head of `i` waits, its virtual time stands still, and the last overtaking dispatch of `j`
      happened at a virtual time not above it. */
  lemma {:induction false} WaitingHead<Req>(s: State<Req>, acts: seq<Action<Req>>, i: TenantId, j: TenantId)
    requires Legal(s, acts) && i in s.tenants && j in s.tenants && i != j
    requires Busy(s, acts, i) && Count(acts, i) == 0
    ensures i in After(s, acts).tenants && j in After(s, acts).tenants
    ensures V(After(s, acts), i) == V(s, i)
    ensures Count(acts, j) > 0 ==> V(s, j) + Times(Count(acts, j) - 1, Cost(s.tenants[j].weight)) <= V(s, i)
  {
    if acts != [] {
      var (before, a) := (acts[..|acts| - 1], acts[|acts| - 1]);
      BusyPrefix(s, acts, i);
      WaitingHead(s, before, i, j);
      VirtualTime(s, before, j);
      VirtualTimeStep(After(s, before), a, i);
      VirtualTimeStep(After(s, before), a, j);
      if a.Dispatch? && a.tenant == j {
        NoneAhead(After(s, before), a, i);
      }
    }
  }

  lemma NoneAhead<Req>(s: State<Req>, a: Action<Req>, i: TenantId)
    requires Enabled(s, a) && a.Dispatch? && Backlogged(s, i)
    ensures a.tenant in s.tenants && V(s, a.tenant) <= V(s, i)
  {}

  /** Bounded bypass: while the head of `i` waits, every other tenant is dispatched at most so many times. */
  lemma BoundedBypass<Req>(s: State<Req>, acts: seq<Action<Req>>, i: TenantId, j: TenantId)
    requires Legal(s, acts) && i in s.tenants && j in s.tenants && i != j
    requires Busy(s, acts, i) && Count(acts, i) == 0
    ensures Count(acts, j) <= Overtakes(V(s, i), V(s, j), s.tenants[j].weight)
  {
    WaitingHead(s, acts, i, j);
    if Count(acts, j) > 0 {
      OvertakesEnough(Count(acts, j), V(s, i), V(s, j), s.tenants[j].weight);
    }
  }

  lemma OvertakesEnough(n: nat, vi: real, vj: real, weight: nat)
    requires n > 0 && vj + Times(n - 1, Cost(weight)) <= vi
    ensures n <= Overtakes(vi, vj, weight)
  {
    CostPositive(weight);
    TimesIsProduct(n - 1, Cost(weight));
    ScaleUp((n - 1) as real, Cost(weight), vi - vj, Effective(weight));
  }

  lemma ScaleUp(n: real, c: real, lead: real, w: real)
    requires n >= 0.0 && c > 0.0 && w > 0.0 && c * w == 1.0 && n * c <= lead
    ensures n <= lead * w && lead >= 0.0
  {
    assert (n * c) * w <= lead * w;
    assert (n * c) * w == n * (c * w);
  }

  function TotalOvertakes<Req>(s: State<Req>, i: TenantId, others: seq<TenantId>): nat
    requires i in s.tenants
  {
    if others == [] then 0
    else
      var j := others[0];
      (if j in s.tenants && j != i then Overtakes(V(s, i), V(s, j), s.tenants[j].weight) else 0)
      + TotalOvertakes(s, i, others[1..])
  }

  function SumCounts<Req>(acts: seq<Action<Req>>, ts: seq<TenantId>): nat {
    if ts == [] then 0 else Count(acts, ts[0]) + SumCounts(acts, ts[1..])
  }

  lemma {:induction false} SumCountsStep<Req>(acts: seq<Action<Req>>, ts: seq<TenantId>)
    requires acts != []
    ensures SumCounts(acts, ts) >= SumCounts(acts[..|acts| - 1], ts)
            + (if acts[|acts| - 1].Dispatch? && acts[|acts| - 1].tenant in ts then 1 else 0)
  {
    if ts != [] {
      SumCountsStep(acts, ts[1..]);
      assert ts == [ts[0]] + ts[1..];
    }
  }

  lemma {:induction false} DispatchesAreCounted<Req>(s: State<Req>, acts: seq<Action<Req>>, ts: seq<TenantId>)
    requires Legal(s, acts) && forall t :: t in s.tenants ==> t in ts
    ensures Dispatches(acts) <= SumCounts(acts, ts)
  {
    if acts != [] {
      var before := acts[..|acts| - 1];
      DispatchesAreCounted(s, before, ts);
      TenantsFixed(s, before);
      SumCountsStep(acts, ts);
    }
  }

  lemma {:induction false} SumIsBounded<Req>(s: State<Req>, acts: seq<Action<Req>>, i: TenantId, ts: seq<TenantId>)
    requires Legal(s, acts) && i in s.tenants && Busy(s, acts, i) && Count(acts, i) == 0
    requires forall t :: t in ts ==> t in s.tenants
    ensures SumCounts(acts, ts) <= TotalOvertakes(s, i, ts)
  {
    if ts != [] {
      assert ts == [ts[0]] + ts[1..];
      if ts[0] != i {
        BoundedBypass(s, acts, i, ts[0]);
      }
      SumIsBounded(s, acts, i, ts[1..]);
    }
  }

  /** While a head waits, the dispatcher serves a bounded number of requests of everybody else together. */
  lemma BoundedWait<Req>(s: State<Req>, acts: seq<Action<Req>>, i: TenantId, ts: seq<TenantId>)
    requires Legal(s, acts) && i in s.tenants && Busy(s, acts, i) && Count(acts, i) == 0
    requires Elems(ts) == s.tenants.Keys
    ensures Dispatches(acts) <= TotalOvertakes(s, i, ts)
  {
    forall t ensures t in ts <==> t in s.tenants {
      assert t in Elems(ts) <==> t in s.tenants;
    }
    DispatchesAreCounted(s, acts, ts);
    SumIsBounded(s, acts, i, ts);
  }

  /** In a run during which `i` always has work, the scheduler stays saturated: whenever it is quiescent
      every slot is taken, so each `Finished` is paid back by a dispatch. */
  lemma {:induction false} Saturated<Req>(s: State<Req>, acts: seq<Action<Req>>, i: TenantId)
    requires ActorRun(s, acts) && s.cap > 0 && s.inFlight == s.cap
    requires forall k :: 0 <= k <= |acts| ==> Backlogged(After(s, acts[..k]), i)
    ensures After(s, acts).cap == s.cap
    ensures After(s, acts).inFlight == s.inFlight + Dispatches(acts) - Finishes(acts)
    ensures After(s, acts).inFlight <= s.cap
  {
    if acts != [] {
      var before := acts[..|acts| - 1];
      forall k | 0 <= k <= |before| ensures Backlogged(After(s, before[..k]), i) {
        assert before[..k] == acts[..k];
      }
      Saturated(s, before, i);
      assert before[..|before|] == before;
      assert Backlogged(After(s, before), i);
    }
  }

  /** No starvation. Start with every slot taken and work queued for `i`. If the head of `i` has still not been
      dispatched at the end of a run, then only a bounded number of `Finished` messages have been handled:
      one more and the head would have gone. */
  lemma NoStarvation<Req>(s: State<Req>, acts: seq<Action<Req>>, i: TenantId, ts: seq<TenantId>)
    requires ActorRun(s, acts) && s.cap > 0 && s.inFlight == s.cap && Quiescent(After(s, acts))
    requires Backlogged(s, i) && Count(acts, i) == 0
    requires Elems(ts) == s.tenants.Keys
    ensures Finishes(acts) <= TotalOvertakes(s, i, ts)
  {
    ActorRunLegal(s, acts);
    forall k | 0 <= k <= |acts| ensures Backlogged(After(s, acts[..k]), i) {
      WaitingStaysQueued(s, acts, i, k);
    }
    Saturated(s, acts, i);
    assert acts[..|acts|] == acts;
    BoundedWait(s, acts, i, ts);
  }

  lemma {:induction false} WaitingStaysQueued<Req>(s: State<Req>, acts: seq<Action<Req>>, i: TenantId, k: nat)
    requires k <= |acts| && Backlogged(s, i) && Count(acts, i) == 0
    ensures Backlogged(After(s, acts[..k]), i)
    decreases |acts|
  {
    if k < |acts| {
      WaitingStaysQueued(s, acts[..|acts| - 1], i, k);
      assert acts[..|acts| - 1][..k] == acts[..k];
    } else if acts != [] {
      assert acts[..k] == acts;
      WaitingStaysQueued(s, acts[..|acts| - 1], i, |acts| - 1);
      assert acts[..|acts| - 1][..|acts| - 1] == acts[..|acts| - 1];
    }
  }

  /** The positive cap is needed: with a cap of 0 nothing is ever dispatched. */
  lemma {:induction false} ZeroCapStarves<Req>(s: State<Req>, acts: seq<Action<Req>>)
    requires Legal(s, acts) && s.cap == 0
    ensures Dispatches(acts) == 0
  {
    if acts != [] {
      ZeroCapStarves(s, acts[..|acts| - 1]);
      TenantsFixed(s, acts[..|acts| - 1]);
    }
  }

  // ----- the actor -----

  /** And only then: an idle scheduler with a tenant can dispatch on some run exactly if its cap is positive. */
  lemma CapServesIff<Req(!new)>(s: State<Req>, t: TenantId, req: Req)
    requires AllIdle(s) && s.inFlight == 0 && t in s.tenants
    ensures (exists acts :: Legal(s, acts) && Dispatches(acts) > 0) <==> s.cap > 0
  {
    if s.cap == 0 {
      forall acts: seq<Action<Req>> | Legal(s, acts) ensures Dispatches(acts) == 0 {
        ZeroCapStarves(s, acts);
      }
    } else {
      var first: seq<Action<Req>> := [Submit(t, req)];
      var acts := first + [Dispatch(t, req)];
      assert first[..|first| - 1] == [] && acts[..|acts| - 1] == first;
      assert After(s, []) == s && After(s, first) == Apply(s, first[0]) == Enqueue(s, t, req);
      assert forall u :: Backlogged(Enqueue(s, t, req), u) ==> u == t || Backlogged(s, u);
      assert Legal(s, []) && Legal(s, first);
      assert !Backlogged(s, t);
      assert Enqueue(s, t, req).tenants[t].queue == [req];
      assert acts[|acts| - 1] == Action.Dispatch(t, req) && Enabled(After(s, first), acts[|acts| - 1]);
      assert Legal(s, acts) && Dispatches(acts) > 0;
    }
  }

  /** The history `now` is `before` followed by dispatches. */
  ghost predicate DispatchedSince<Req>(before: seq<Action<Req>>, now: seq<Action<Req>>) {
    |before| <= |now| && now[..|before|] == before && forall k :: |before| <= k < |now| ==> now[k].Dispatch?
  }

  lemma ExtendRun<Req>(s: State<Req>, acts: seq<Action<Req>>, a: Action<Req>)
    requires ActorRun(s, acts) && Enabled(After(s, acts), a)
    requires !a.Dispatch? ==> Quiescent(After(s, acts))
    ensures ActorRun(s, acts + [a]) && After(s, acts + [a]) == Apply(After(s, acts), a)
  {
    assert (acts + [a])[..|acts|] == acts;
  }

  /** Handling a message adds it to the history, followed by dispatches only. */
  ghost predicate Handled<Req>(before: seq<Action<Req>>, msg: Action<Req>, now: seq<Action<Req>>) {
    && |before| < |now| && now[..|before| + 1] == before + [msg]
    && forall k :: |before| < k < |now| ==> now[k].Dispatch?
  }

  /** The weight that the last entry for `t` gives it. */
  function LastWeight(configs: seq<(TenantId, nat)>, t: TenantId): nat {
    if configs == [] then 0
    else if configs[|configs| - 1].0 == t then configs[|configs| - 1].1
    else LastWeight(configs[..|configs| - 1], t)
  }

  /** Of several entries for one id the last one counts. */
  lemma {:induction false} LastListedCounts(configs: seq<(TenantId, nat)>, t: TenantId, k: nat)
    requires k < |configs| && configs[k].0 == t
    requires forall j :: k < j < |configs| ==> configs[j].0 != t
    ensures LastWeight(configs, t) == configs[k].1
  {
    if k < |configs| - 1 {
      LastListedCounts(configs[..|configs| - 1], t, k);
    }
  }

  class FairShareScheduler<Req> {
    const maxInFlight: nat
    var tenants: map<TenantId, Tenant<Req>>
    var inFlight: nat
    var totalDispatched: nat
    /** Everything that has happened since the scheduler was built. */
    ghost var history: seq<Action<Req>>
    ghost const start: State<Req>

    function Model(): State<Req> reads this {
      State(maxInFlight, tenants, inFlight, totalDispatched)
    }

    /** The fields are what the recorded actor run leads to. */
    ghost predicate Valid() reads this {
      && start.cap == maxInFlight && start.inFlight == 0 && start.total == 0 && AllIdle(start)
      && (forall t :: t in start.tenants ==> start.tenants[t].vfinish == 0.0)
      && ActorRun(start, history) && After(start, history) == Model()
    }

    /** A later entry for the same id replaces an earlier one. */
    constructor (configs: seq<(TenantId, nat)>, maxInFlight: nat)
      ensures Valid() && Quiescent(Model()) && history == []
      ensures this.maxInFlight == maxInFlight
      ensures tenants.Keys == set c | c in configs :: c.0
      ensures forall t :: t in tenants ==> tenants[t] == Tenant(LastWeight(configs, t), [], 0.0)
    {
      var ts: map<TenantId, Tenant<Req>> := map[];
      for k := 0 to |configs|
        invariant ts.Keys == set c | c in configs[..k] :: c.0
        invariant forall t :: t in ts ==> ts[t] == Tenant(LastWeight(configs[..k], t), [], 0.0)
      {
        ts := ts[configs[k].0 := Tenant(configs[k].1, [], 0.0)];
        assert configs[..k + 1] == configs[..k] + [configs[k]];
      }
      assert configs[..|configs|] == configs;
      this.maxInFlight := maxInFlight;
      tenants, inFlight, totalDispatched := ts, 0, 0;
      history := [];
      start := State(maxInFlight, ts, 0, 0);
    }

    /** The scan for the smallest virtual finish time, in whatever order the hash map lists the tenants. */
    method PickTenant() returns (best: Option<TenantId>)
      ensures best.None? ==> AllIdle(Model())
      ensures best.Some? ==> IsBest(Model(), best.value)
    {
      best := None;
      var rest := tenants.Keys;
      while rest != {}
        invariant rest <= tenants.Keys
        invariant best.None? ==> forall u :: u in tenants && u !in rest ==> !Backlogged(Model(), u)
        invariant best.Some? ==> Backlogged(Model(), best.value) && best.value !in rest
        invariant best.Some? ==> forall u :: u in tenants && u !in rest && Backlogged(Model(), u) ==>
          tenants[best.value].vfinish <= tenants[u].vfinish
        decreases rest
      {
        var id :| id in rest;
        rest := rest - {id};
        if tenants[id].queue != [] {
          if best.None? || tenants[id].vfinish < tenants[best.value].vfinish {
            best := Some(id);
          }
        }
      }
    }

    method TryDispatch()
      requires Valid()
      modifies this`tenants, this`inFlight, this`totalDispatched, this`history
      ensures Valid() && Quiescent(Model())
      ensures DispatchedSince(old(history), history)
    {
      while inFlight < maxInFlight
        invariant Valid() && DispatchedSince(old(history), history)
        decreases maxInFlight - inFlight
      {
        var best := PickTenant();
        if best.None? {
          return;
        }
        ServeHead(best.value);
      }
    }

    /** The rest of a round of the dispatch loop: hand the head of the chosen queue to the dispatcher. */
    method ServeHead(tid: TenantId)
      requires Valid() && inFlight < maxInFlight && IsBest(Model(), tid)
      modifies this`tenants, this`inFlight, this`totalDispatched, this`history
      ensures Valid() && Model() == Take(old(Model()), tid)
      ensures history == old(history) + [Dispatch(tid, old(tenants[tid].queue[0]))]
    {
      var t := tenants[tid];
      var req := t.queue[0];
      ExtendRun(start, history, Dispatch(tid, req));
      tenants := tenants[tid := t.(queue := t.queue[1..], vfinish := t.vfinish + Cost(t.weight))];
      inFlight := inFlight + 1;
      totalDispatched := totalDispatched + 1;
      history := history + [Dispatch(tid, req)];
    }

    /** `accepted` is false when the tenant is unknown and the caller got an error reply. */
    method Submit(tenant: TenantId, req: Req) returns (accepted: bool)
      requires Valid() && Quiescent(Model())
      modifies this`tenants, this`inFlight, this`totalDispatched, this`history
      ensures Valid() && Quiescent(Model())
      ensures accepted == (tenant in old(tenants))
      ensures !accepted ==> Model() == old(Model()) && history == old(history)
      ensures accepted ==> Handled(old(history), Action.Submit(tenant, req), history)
    {
      if tenant !in tenants {
        return false;
      }
      accepted := true;
      ExtendRun(start, history, Action.Submit(tenant, req));
      tenants := tenants[tenant := tenants[tenant].(queue := tenants[tenant].queue + [req])];
      history := history + [Action.Submit(tenant, req)];
      TryDispatch();
    }

    method Finished(tenant: TenantId)
      requires Valid() && Quiescent(Model())
      modifies this`tenants, this`inFlight, this`totalDispatched, this`history
      ensures Valid() && Quiescent(Model())
      ensures Handled(old(history), Action.Finished(tenant), history)
    {
      ExtendRun(start, history, Action.Finished(tenant));
      inFlight := if inFlight > 0 then inFlight - 1 else 0;
      history := history + [Action.Finished(tenant)];
      TryDispatch();
    }
  }
}
