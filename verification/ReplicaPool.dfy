/** Routing requests over replicas, by turns or by load
    (crates/atomr-accel-patterns/src/replica_pool.rs). */
module ReplicaPool {
  import opened Wrappers
  import opened Bytes

  datatype Policy = RoundRobin | LeastLoaded

  const MAX32: u32 := 0xffff_ffff
  const MAX64: u64 := 0xffff_ffff_ffff_ffff
  const TWO64: nat := 0x1_0000_0000_0000_0000

  /** The cursor is a 64-bit `usize` that wraps; the counters are `u32` and wrap in a release build. */
  datatype State = State(policy: Policy, cursor: u64, counters: seq<u32>)

  function Bump32(c: u32): u32 {
    if c == MAX32 then 0 else c + 1
  }

  function Bump64(c: u64): u64 {
    if c == MAX64 then 0 else c + 1
  }

  /** The first replica with the smallest counter. */
  ghost predicate IsLeast(cs: seq<u32>, i: nat) {
    i < |cs| && (forall j :: 0 <= j < |cs| ==> cs[i] <= cs[j]) && (forall j :: 0 <= j < i ==> cs[i] < cs[j])
  }

  function LeastOf(cs: seq<u32>): (i: nat)
    requires cs != []
    ensures IsLeast(cs, i)
  {
    if |cs| == 1 then 0
    else
      var before := LeastOf(cs[..|cs| - 1]);
      if cs[|cs| - 1] < cs[before] then |cs| - 1 else before
  }

  function Pick(s: State): nat
    requires s.counters != []
  {
    match s.policy
    case RoundRobin => s.cursor % |s.counters|
    case LeastLoaded => LeastOf(s.counters)
  }

  lemma PickInRange(s: State)
    requires s.counters != []
    ensures Pick(s) < |s.counters|
  {}

  /** One submit to a non-empty pool. */
  function Submit(s: State): State
    requires s.counters != []
  {
    PickInRange(s);
    State(s.policy, if s.policy.RoundRobin? then Bump64(s.cursor) else s.cursor,
          s.counters[Pick(s) := Bump32(s.counters[Pick(s)])])
  }

  function Run(policy: Policy, n: nat, t: nat): (s: State)
    requires n > 0
    ensures |s.counters| == n && s.policy == policy
  {
    if t == 0 then State(policy, 0, seq(n, _ => 0)) else Submit(Run(policy, n, t - 1))
  }

  // ----- taking turns -----

  lemma MulMonotone(k: nat, m: nat, n: nat)
    requires k < m
    ensures k * n + n <= m * n
  {
    assert m * n == k * n + (m - k) * n;
    assert (m - k) * n == n + (m - k - 1) * n;
  }

  lemma DivUnique(x: nat, n: nat, q: nat, r: nat)
    requires x == q * n + r && r < n
    ensures x / n == q && x % n == r
  {
    var q' := x / n;
    assert x == q' * n + x % n;
    if q' > q {
      MulMonotone(q, q', n);
    } else if q > q' {
      MulMonotone(q', q, n);
    }
  }

  lemma NextTurn(t: nat, n: nat)
    requires n > 0
    ensures (t + 1) % n == (if t % n == n - 1 then 0 else t % n + 1)
    ensures (t + 1) / n == (if t % n == n - 1 then t / n + 1 else t / n)
  {
    var (q, r) := (t / n, t % n);
    assert t == q * n + r;
    if r == n - 1 {
      assert (q + 1) * n == q * n + n;
      DivUnique(t + 1, n, q + 1, 0);
    } else {
      DivUnique(t + 1, n, q, r + 1);
    }
  }

  /** Loads after `t` requests dealt out in turns: full rounds, and one more for the replicas already served in this one. */
  ghost predicate Dealt(cs: seq<u32>, n: nat, t: nat)
    requires n > 0
  {
    |cs| == n && forall i :: 0 <= i < n ==> cs[i] == t / n + (if i < t % n then 1 else 0)
  }

  lemma DealtStep(cs: seq<u32>, n: nat, t: nat)
    requires n > 0 && Dealt(cs, n, t) && t / n < MAX32
    ensures t % n < n && Dealt(cs[t % n := Bump32(cs[t % n])], n, t + 1)
  {
    NextTurn(t, n);
  }

  /** On dealt loads the first least loaded replica is the next in turn. */
  lemma LeastIsNextInTurn(cs: seq<u32>, n: nat, t: nat)
    requires n > 0 && Dealt(cs, n, t)
    ensures LeastOf(cs) == t % n
  {
    var i := LeastOf(cs);
    assert IsLeast(cs, i);
    assert cs[t % n] == t / n;
  }

  /** Up to n * (2^32 - 1) requests fit the counters when dealt in turns. */
  lemma RoomLeft(n: nat, t: nat)
    requires n > 0 && t < n * MAX32
    ensures t / n < MAX32
  {
    var q := t / n;
    assert t == q * n + t % n;
    assert n * MAX32 == (MAX32 - 1) * n + n;
    if q > MAX32 - 1 {
      MulMonotone(MAX32 - 1, q, n);
    }
  }

  /** How many requests the policy deals in turns: round robin until its cursor wraps, or forever if that wrap
      falls on a full round; by load until the counters are full. */
  ghost predicate TurnLimit(policy: Policy, n: nat, t: nat)
    requires n > 0
  {
    match policy
    case RoundRobin => t < TWO64 || TWO64 % n == 0
    case LeastLoaded => n == 1 || t <= n * MAX32
  }

  /** The cursor never depends on the counters. */
  lemma {:induction false} CursorRun(n: nat, t: nat)
    requires n > 0
    ensures Run(RoundRobin, n, t).cursor == t % TWO64
  {
    if t > 0 {
      CursorRun(n, t - 1);
      NextTurn(t - 1, TWO64);
    }
  }

  lemma ModOfMod(t: nat, m: nat, n: nat)
    requires n > 0 && m > 0 && m % n == 0
    ensures (t % m) % n == t % n
  {
    var (a, b, k) := (t / m, t % m, m / n);
    var (c, d) := (b / n, b % n);
    assert m == k * n && b == c * n + d;
    assert t == a * m + b;
    MulAssoc(a, k, n);
    Distribute(a * k, c, n);
    DivUnique(t, n, a * k + c, d);
  }

  lemma Distribute(a: nat, b: nat, c: nat)
    ensures (a + b) * c == a * c + b * c
  {}

  lemma MulAssoc(a: nat, b: nat, c: nat)
    ensures a * (b * c) == (a * b) * c
  {}

  lemma RoundRobinPick(n: nat, t: nat)
    requires n > 0
    ensures Pick(Run(RoundRobin, n, t)) == (t % TWO64) % n
  {
    CursorRun(n, t);
  }

  lemma RoundRobinInTurn(n: nat, t: nat)
    requires n > 0 && TurnLimit(RoundRobin, n, t)
    ensures Pick(Run(RoundRobin, n, t)) == t % n
  {
    RoundRobinPick(n, t);
    if t >= TWO64 {
      ModOfMod(t, TWO64, n);
    }
  }

  /** The first request after the cursor wraps goes to the first replica. */
  lemma PickAfterWrap(n: nat, t: nat)
    requires n > 0 && t == TWO64
    ensures Pick(Run(RoundRobin, n, t)) == 0
  {
    RoundRobinPick(n, t);
    DivUnique(0, n, 0, 0);
  }

  /** As long as the requests come in turns and fit, the loads are dealt. */
  lemma {:induction false} DealtRun(policy: Policy, n: nat, t: nat)
    requires n > 0 && t <= n * MAX32
    requires policy.RoundRobin? && t > 0 ==> TurnLimit(policy, n, t - 1)
    ensures Dealt(Run(policy, n, t).counters, n, t)
  {
    if t == 0 {
      DivUnique(0, n, 0, 0);
    } else {
      var u := t - 1;
      var before := Run(policy, n, u);
      DealtRun(policy, n, u);
      RoomLeft(n, u);
      if policy.RoundRobin? {
        RoundRobinInTurn(n, u);
      } else {
        LeastIsNextInTurn(before.counters, n, u);
      }
      DealtSubmit(before, n, u);
    }
  }

  lemma DealtSubmit(s: State, n: nat, t: nat)
    requires n > 0 && Dealt(s.counters, n, t) && t / n < MAX32 && Pick(s) == t % n
    ensures Dealt(Submit(s).counters, n, t + 1)
  {
    DealtStep(s.counters, n, t);
  }

  /** After exactly n * (2^32 - 1) requests every counter is at its maximum. */
  lemma CountersFillUp(policy: Policy, n: nat, t: nat)
    requires n > 0 && t == n * MAX32
    requires policy.RoundRobin? ==> TurnLimit(policy, n, t - 1)
    ensures forall i :: 0 <= i < n ==> Run(policy, n, t).counters[i] == MAX32
  {
    DealtRun(policy, n, t);
    DivUnique(t, n, MAX32, 0);
  }

  /** Every counter but the first is at its maximum. */
  ghost predicate FirstIsLeast(s: State) {
    s.policy.LeastLoaded? && s.counters != [] && forall i :: 1 <= i < |s.counters| ==> s.counters[i] == MAX32
  }

  /** Then routing by load picks the first replica, and that stays so: its counter wraps, the others never move. */
  lemma WrappedCounterAttracts(s: State)
    requires FirstIsLeast(s)
    ensures Pick(s) == 0 && FirstIsLeast(Submit(s))
  {
    assert IsLeast(s.counters, Pick(s));
    assert s.counters[Pick(s)] <= s.counters[0];
  }

  /** Once the counters are full, routing by load sends every request to the first replica, forever. */
  lemma {:induction false} StuckOnFirst(n: nat, t: nat)
    requires n > 0 && t >= n * MAX32
    ensures FirstIsLeast(Run(LeastLoaded, n, t)) && Pick(Run(LeastLoaded, n, t)) == 0
    decreases t
  {
    if t == n * MAX32 {
      CountersFillUp(LeastLoaded, n, t);
    } else {
      StuckOnFirst(n, t - 1);
      WrappedCounterAttracts(Run(LeastLoaded, n, t - 1));
    }
    WrappedCounterAttracts(Run(LeastLoaded, n, t));
  }

  /** Where the t-th request goes, for every t. */
  lemma LeastLoadedPick(n: nat, t: nat)
    requires n > 0
    ensures Pick(Run(LeastLoaded, n, t)) == if t <= n * MAX32 then t % n else 0
  {
    if t <= n * MAX32 {
      DealtRun(LeastLoaded, n, t);
      LeastIsNextInTurn(Run(LeastLoaded, n, t).counters, n, t);
    } else {
      StuckOnFirst(n, t);
    }
  }

  lemma PicksInTurn(policy: Policy, n: nat, t: nat)
    requires n > 0 && TurnLimit(policy, n, t)
    ensures Pick(Run(policy, n, t)) == t % n
  {
    if policy.RoundRobin? {
      RoundRobinInTurn(n, t);
    } else {
      LeastLoadedPick(n, t);
      DivUnique(t, 1, t, 0);
    }
  }

  /** The first request after the full counters that goes astray. */
  lemma FirstAstray(n: nat)
    requires n > 0
    ensures (n * MAX32 + 1) % n == if n == 1 then 0 else 1
  {
    if n == 1 {
      DivUnique(MAX32 + 1, 1, MAX32 + 1, 0);
    } else {
      DivUnique(n * MAX32 + 1, n, MAX32, 1);
    }
  }

  /** From a fresh pool the requests go round in turns, the t-th to replica t mod n, exactly as long as the limit
      of the policy lasts. */
  lemma PicksInTurnIff(policy: Policy, n: nat, t: nat)
    requires n > 0
    ensures (forall u: nat :: u <= t ==> Pick(Run(policy, n, u)) == u % n) <==> TurnLimit(policy, n, t)
  {
    if TurnLimit(policy, n, t) {
      forall u: nat | u <= t ensures Pick(Run(policy, n, u)) == u % n {
        PicksInTurn(policy, n, u);
      }
    } else if policy.RoundRobin? {
      PickAfterWrap(n, TWO64);
      var u: nat := TWO64;
      assert u <= t && Pick(Run(policy, n, u)) != u % n;
    } else {
      var u := n * MAX32 + 1;
      FirstAstray(n);
      LeastLoadedPick(n, u);
      assert u <= t && Pick(Run(policy, n, u)) != u % n;
    }
  }

  /** As long as the counters have room, and the cursor has not wrapped in the middle of a round. */
  ghost predicate EvenLimit(policy: Policy, n: nat, t: nat)
    requires n > 0
  {
    n == 1 || (t <= n * MAX32 && (policy.RoundRobin? ==> t <= TWO64 || TWO64 % n == 0))
  }

  /** The loads never differ by more than one exactly within that limit; up to 2^32 replicas, exactly as long as
      the counters have room. */
  lemma LoadsEvenIff(policy: Policy, n: nat, t: nat)
    requires n > 0
    ensures (forall u: nat :: u <= t ==> Spread(Run(policy, n, u).counters, 1)) <==> EvenLimit(policy, n, t)
    ensures n <= MAX32 + 1 ==> (EvenLimit(policy, n, t) <==> n == 1 || t <= n * MAX32)
  {
    if n <= MAX32 + 1 {
      FullFits(n);
    }
    if EvenLimit(policy, n, t) {
      if n > 1 {
        forall u: nat | u <= t ensures Spread(Run(policy, n, u).counters, 1) {
          DealtRun(policy, n, u);
        }
      }
    } else {
      var u := SomeUneven(policy, n, t);
      assert !Spread(Run(policy, n, u).counters, 1);
    }
  }

  lemma SomeUneven(policy: Policy, n: nat, t: nat) returns (u: nat)
    requires n > 0 && !EvenLimit(policy, n, t)
    ensures u <= t && !Spread(Run(policy, n, u).counters, 1)
  {
    var full := n * MAX32;
    if policy.LeastLoaded? || TurnLimit(policy, n, full) {
      UnevenAfterFull(policy, n, full);
      u := full + 1;
    } else {
      if full == TWO64 {
        DivUnique(TWO64, n, MAX32, 0);
      }
      UnevenAfterWrap(n, TWO64);
      u := TWO64 + 1;
    }
  }

  /** If the cursor wraps in the middle of a round the first replica is served again before the last. */
  lemma UnevenAfterWrap(n: nat, t: nat)
    requires n > 1 && t == TWO64 && t < n * MAX32 && t % n != 0
    ensures !Spread(Run(RoundRobin, n, t + 1).counters, 1)
  {
    DealtRun(RoundRobin, n, t);
    PickAfterWrap(n, t);
    RoomLeft(n, t);
    WrapIsUneven(Run(RoundRobin, n, t), n, t);
  }

  lemma WrapIsUneven(s: State, n: nat, t: nat)
    requires n > 1 && Dealt(s.counters, n, t) && t % n > 0 && t / n < MAX32 && Pick(s) == 0
    ensures !Spread(Submit(s).counters, 1)
  {
    var cs := Submit(s).counters;
    assert cs[0] == Bump32(s.counters[0]) && cs[n - 1] == t / n;
  }

  /** The next request wraps the first counter. */
  lemma UnevenAfterFull(policy: Policy, n: nat, full: nat)
    requires n > 1 && full == n * MAX32 && (policy.RoundRobin? ==> TurnLimit(policy, n, full))
    ensures !Spread(Run(policy, n, full + 1).counters, 1)
  {
    CountersFillUp(policy, n, full);
    DivUnique(full, n, MAX32, 0);
    PicksInTurn(policy, n, full);
    var cs := Run(policy, n, full + 1).counters;
    assert cs == Submit(Run(policy, n, full)).counters;
    assert cs[0] == 0 && cs[1] == MAX32;
  }

  /** So the two policies route identically within both limits; in a pool of at most 2^32 replicas, exactly until
      the counters are full. */
  lemma PoliciesAgree(n: nat, t: nat)
    requires n > 0
    ensures TurnLimit(RoundRobin, n, t) && TurnLimit(LeastLoaded, n, t) ==>
              Pick(Run(RoundRobin, n, t)) == Pick(Run(LeastLoaded, n, t))
    ensures n <= MAX32 + 1 ==>
              ((forall u: nat :: u <= t ==> Pick(Run(RoundRobin, n, u)) == Pick(Run(LeastLoaded, n, u))) <==>
               n == 1 || t <= n * MAX32)
  {
    if TurnLimit(RoundRobin, n, t) && TurnLimit(LeastLoaded, n, t) {
      PicksInTurn(RoundRobin, n, t);
      PicksInTurn(LeastLoaded, n, t);
    }
    if n <= MAX32 + 1 {
      PoliciesAgreeIff(n, t);
    }
  }

  lemma PoliciesAgreeIff(n: nat, t: nat)
    requires 0 < n <= MAX32 + 1
    ensures (forall u: nat :: u <= t ==> Pick(Run(RoundRobin, n, u)) == Pick(Run(LeastLoaded, n, u))) <==>
            n == 1 || t <= n * MAX32
  {
    if n == 1 {
    } else if t <= n * MAX32 {
      FullFits(n);
      forall u: nat | u <= t ensures Pick(Run(RoundRobin, n, u)) == Pick(Run(LeastLoaded, n, u)) {
        PicksInTurn(RoundRobin, n, u);
        PicksInTurn(LeastLoaded, n, u);
      }
    } else {
      DisagreeAfterFull(n, n * MAX32 + 1);
    }
  }

  lemma FullFits(n: nat)
    requires n <= MAX32 + 1
    ensures n * MAX32 + 1 < TWO64
  {
    assert n * MAX32 <= (MAX32 + 1) * MAX32;
  }

  lemma DisagreeAfterFull(n: nat, u: nat)
    requires 1 < n <= MAX32 + 1 && u == n * MAX32 + 1
    ensures Pick(Run(RoundRobin, n, u)) != Pick(Run(LeastLoaded, n, u))
  {
    FullFits(n);
    FirstAstray(n);
    PicksInTurn(RoundRobin, n, u);
    LeastLoadedPick(n, u);
  }

  // ----- from any loads -----

  ghost predicate Spread(cs: seq<u32>, d: nat) {
    forall i, j :: 0 <= i < |cs| && 0 <= j < |cs| ==> cs[i] <= cs[j] + d
  }

  /** Routing by load keeps any spread of at least one, whatever loads it starts at, exactly if a counter still has
      room; equal loads come to differ by one. */
  lemma LeastLoadedKeepsSpread(s: State, d: nat)
    requires s.policy.LeastLoaded? && s.counters != [] && Spread(s.counters, d)
    ensures var wider := if d == 0 then 1 else d;
            Spread(Submit(s).counters, wider) <==>
            |s.counters| == 1 || wider >= MAX32 || exists i :: 0 <= i < |s.counters| && s.counters[i] < MAX32
  {
    var p := Pick(s);
    assert IsLeast(s.counters, p);
    var after := Submit(s).counters;
    if |s.counters| > 1 && forall i :: 0 <= i < |s.counters| ==> s.counters[i] == MAX32 {
      WrappedCounterAttracts(s);
      assert after[0] == 0 && after[1] == MAX32;
    }
  }

  // ----- the actor -----

  class ModelReplicaPool<Req> {
    const policy: Policy
    var cursor: u64
    const counters: array<u32>
    /** Requests forwarded, with the replica they went to. */
    var forwarded: seq<(nat, Req)>

    function Model(): State reads this, counters {
      State(policy, cursor, counters[..])
    }

    constructor (n: nat, policy: Policy)
      ensures n > 0 ==> Model() == Run(policy, n, 0)
      ensures counters.Length == n && fresh(counters) && forwarded == []
    {
      this.policy := policy;
      cursor := 0;
      counters := new u32[n](_ => 0);
      forwarded := [];
      new;
      assert counters[..] == seq(n, _ => 0);
    }

    method PickReplica() returns (r: Option<nat>)
      modifies this`cursor
      ensures counters.Length == 0 ==> r == None && cursor == old(cursor)
      ensures counters.Length > 0 ==> r == Some(Pick(old(Model())))
      ensures counters.Length > 0 ==> cursor == if policy.RoundRobin? then Bump64(old(cursor)) else old(cursor)
    {
      var n := counters.Length;
      if n == 0 {
        return None;
      }
      match policy
      case RoundRobin =>
        r := Some(cursor % n);
        cursor := if cursor == MAX64 then 0 else cursor + 1;
      case LeastLoaded =>
        var min := MAX32;
        var minIdx := 0;
        for i := 0 to n
          invariant minIdx < n && (i == 0 ==> min == MAX32 && minIdx == 0)
          invariant i > 0 ==> IsLeast(counters[..i], minIdx) && min == counters[minIdx]
        {
          var v := counters[i];
          assert counters[..i + 1][..i] == counters[..i];
          if v < min {
            min := v;
            minIdx := i;
          }
        }
        assert counters[..n] == counters[..];
        LeastIsUnique(counters[..], minIdx, LeastOf(counters[..]));
        r := Some(minIdx);
    }

    /** `None` stands for the error reply of an empty pool. */
    method DoSubmit(req: Req) returns (r: Option<nat>)
      modifies this`cursor, this`forwarded, counters
      ensures counters.Length == 0 ==> r == None && Model() == old(Model()) && forwarded == old(forwarded)
      ensures counters.Length > 0 ==>
        && Model() == Submit(old(Model())) && r == Some(Pick(old(Model())))
        && forwarded == old(forwarded) + [(Pick(old(Model())), req)]
    {
      r := PickReplica();
      if r.None? {
        return;
      }
      var idx := r.value;
      PickInRange(old(Model()));
      counters[idx] := if counters[idx] == MAX32 then 0 else counters[idx] + 1;
      forwarded := forwarded + [(idx, req)];
    }
  }

  lemma LeastIsUnique(cs: seq<u32>, i: nat, j: nat)
    requires IsLeast(cs, i) && IsLeast(cs, j)
    ensures i == j
  {
    assert cs[i] <= cs[j] <= cs[i];
  }
}
