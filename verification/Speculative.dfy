/** Speculative decoding: a draft proposes tokens, a verifier accepts a prefix of them
    (crates/atomr-accel-patterns/src/speculative.rs). */
module Speculative {
  import opened Wrappers

  /** `u32` token ids. */
  type Token = n: nat | n < 0x1_0000_0000

  type DraftFn = (seq<Token>, nat) -> Result<seq<Token>, GpuError>

  /** Replies with the accepted prefix length and a replacement for the first rejected token. */
  type VerifierFn = (seq<Token>, seq<Token>) -> Result<(nat, Option<Token>), GpuError>

  type NextFn = seq<Token> -> Token

  datatype Config = Config(draft: DraftFn, verifier: VerifierFn, k: nat, maxTotal: nat)

  datatype Stats = Stats(iterations: nat, draftTokens: nat, acceptedTokens: nat, finalLen: nat)

  const ZERO := Stats(0, 0, 0, 0)

  function Min(a: nat, b: nat): nat {
    if a <= b then a else b
  }

  /** The outcome of one round of the decode loop. */
  datatype Round =
    | Fail(error: GpuError)
    | Stop(tokens: seq<Token>, stats: Stats)
    | Continue(tokens: seq<Token>, stats: Stats)

  function OneRound(cfg: Config, tokens: seq<Token>, stats: Stats): Round
    requires |tokens| < cfg.maxTotal
  {
    var remaining := cfg.maxTotal - |tokens|;
    var k := Min(cfg.k, remaining);
    if k == 0 then Stop(tokens, stats)
    else match cfg.draft(tokens, k)
      case Err(e) => Fail(e)
      case Ok(drafted) =>
        if drafted == [] then Stop(tokens, stats)
        else
          var candidates := drafted[..Min(|drafted|, remaining)];
          var tried := stats.(iterations := stats.iterations + 1, draftTokens := stats.draftTokens + |candidates|);
          match cfg.verifier(tokens, candidates)
          case Err(e) => Fail(e)
          case Ok((accepted, replacement)) => Settle(tokens, candidates, Min(accepted, |candidates|), replacement, tried)
  }

  /** Keep the accepted tokens and, on a rejection, the replacement token. */
  function Settle(tokens: seq<Token>, candidates: seq<Token>, acc: nat, replacement: Option<Token>, stats: Stats): Round
    requires acc <= |candidates|
  {
    var kept := tokens + candidates[..acc];
    var counted := stats.(acceptedTokens := stats.acceptedTokens + acc);
    if acc == |candidates| then Continue(kept, counted)
    else match replacement
      case Some(t) => Continue(kept + [t], counted)
      case None => Stop(kept, counted)
  }

  /** A round that continues has grown the output, within the limit. */
  lemma RoundGrows(cfg: Config, tokens: seq<Token>, stats: Stats)
    requires |tokens| < cfg.maxTotal
    ensures var r := OneRound(cfg, tokens, stats);
            && (!r.Fail? ==> tokens <= r.tokens && |r.tokens| <= cfg.maxTotal)
            && (r.Continue? ==> |tokens| < |r.tokens|)
  {}

  /** The reply of the decode loop from a given point on. */
  function DecodeFrom(cfg: Config, tokens: seq<Token>, stats: Stats): Result<(seq<Token>, Stats), GpuError>
    decreases cfg.maxTotal - |tokens|
  {
    if |tokens| >= cfg.maxTotal then Ok((tokens, stats.(finalLen := |tokens|)))
    else
      RoundGrows(cfg, tokens, stats);
      match OneRound(cfg, tokens, stats)
      case Fail(e) => Err(e)
      case Stop(t, s) => Ok((t, s.(finalLen := |t|)))
      case Continue(t, s) => DecodeFrom(cfg, t, s)
  }

  // ----- any draft, any verifier -----

  /** Whatever the two functions do: the reply extends the prefix, never exceeds the limit unless the prefix
      already did, and the counters account for every token: each round adds its accepted tokens and at most
      one replacement. */
  lemma {:induction false} Accounting(cfg: Config, tokens: seq<Token>, stats: Stats)
    requires DecodeFrom(cfg, tokens, stats).Ok?
    ensures var (out, st) := DecodeFrom(cfg, tokens, stats).value;
            && tokens <= out && st.finalLen == |out|
            && |out| <= (if |tokens| > cfg.maxTotal then |tokens| else cfg.maxTotal)
            && stats.acceptedTokens <= st.acceptedTokens && stats.iterations <= st.iterations
            && st.acceptedTokens - stats.acceptedTokens <= |out| - |tokens|
            && |out| - |tokens| <= (st.acceptedTokens - stats.acceptedTokens) + (st.iterations - stats.iterations)
            && st.acceptedTokens - stats.acceptedTokens <= st.draftTokens - stats.draftTokens
    decreases cfg.maxTotal - |tokens|
  {
    if |tokens| < cfg.maxTotal {
      RoundGrows(cfg, tokens, stats);
      var r := OneRound(cfg, tokens, stats);
      if r.Continue? {
        Accounting(cfg, r.tokens, r.stats);
      }
    }
  }

  /** Only as many drafted tokens as there is room for are looked at, and counted: drafts that agree that far
      cannot be told apart. */
  ghost predicate AgreeInRoom(a: DraftFn, b: DraftFn, maxTotal: nat) {
    forall p, k :: |p| < maxTotal ==> SameStart(a(p, k), b(p, k), maxTotal - |p|)
  }

  predicate SameStart(a: Result<seq<Token>, GpuError>, b: Result<seq<Token>, GpuError>, room: nat) {
    match (a, b)
    case (Ok(x), Ok(y)) => x[..Min(|x|, room)] == y[..Min(|y|, room)]
    case _ => a == b
  }

  lemma {:induction false} ExcessIsIgnored(cfg: Config, other: DraftFn, tokens: seq<Token>, stats: Stats)
    requires AgreeInRoom(cfg.draft, other, cfg.maxTotal)
    ensures DecodeFrom(cfg.(draft := other), tokens, stats) == DecodeFrom(cfg, tokens, stats)
    decreases cfg.maxTotal - |tokens|
  {
    if |tokens| < cfg.maxTotal {
      ExcessInRound(cfg, other, tokens, stats);
      RoundGrows(cfg, tokens, stats);
      var r := OneRound(cfg, tokens, stats);
      if r.Continue? {
        ExcessIsIgnored(cfg, other, r.tokens, r.stats);
      }
    }
  }

  lemma ExcessInRound(cfg: Config, other: DraftFn, tokens: seq<Token>, stats: Stats)
    requires AgreeInRoom(cfg.draft, other, cfg.maxTotal) && |tokens| < cfg.maxTotal
    ensures OneRound(cfg.(draft := other), tokens, stats) == OneRound(cfg, tokens, stats)
  {
    var remaining := cfg.maxTotal - |tokens|;
    var k := Min(cfg.k, remaining);
    assert SameStart(cfg.draft(tokens, k), other(tokens, k), remaining);
    if cfg.draft(tokens, k).Ok? {
      var (x, y) := (cfg.draft(tokens, k).value, other(tokens, k).value);
      assert x[..Min(|x|, remaining)] == y[..Min(|y|, remaining)];
      assert x == [] <==> y == [];
    }
  }

  // ----- losslessness -----

  /** One-at-a-time decoding: extend `p` by `next` up to length `n`. */
  function Greedy(next: NextFn, p: seq<Token>, n: nat): seq<Token>
    decreases n - |p|
  {
    if |p| >= n then p else Greedy(next, p + [next(p)], n)
  }

  /** Length of the longest prefix of `c` that `next` would have produced after `p`. */
  function Agreed(next: NextFn, p: seq<Token>, c: seq<Token>): nat
    decreases |c|
  {
    if c == [] || c[0] != next(p) then 0 else 1 + Agreed(next, p + [c[0]], c[1..])
  }

  /** Unless it fails, the verifier accepts the longest agreeing prefix and replaces the first disagreeing token. */
  ghost predicate Faithful(verifier: VerifierFn, next: NextFn) {
    forall p, c :: verifier(p, c).Ok? ==>
      var a := Agreed(next, p, c);
      && verifier(p, c).value.0 == a
      && (a < |c| ==> verifier(p, c).value.1 == Some(next(p + c[..a])))
  }

  /** `out` continues `p` exactly as `next` would. */
  ghost predicate Continues(next: NextFn, p: seq<Token>, out: seq<Token>) {
    p <= out && forall i :: |p| <= i < |out| ==> out[i] == next(out[..i])
  }

  lemma {:induction false} GreedyUnique(next: NextFn, p: seq<Token>, out: seq<Token>)
    requires Continues(next, p, out)
    ensures out == Greedy(next, p, |out|)
    decreases |out| - |p|
  {
    if |p| < |out| {
      assert out[..|p|] == p;
      var q := p + [next(p)];
      assert q <= out;
      GreedyUnique(next, q, out);
    } else {
      assert out == p;
    }
  }

  lemma {:induction false} AgreedContinues(next: NextFn, p: seq<Token>, c: seq<Token>)
    ensures Agreed(next, p, c) <= |c|
    ensures Continues(next, p, p + c[..Agreed(next, p, c)])
    decreases |c|
  {
    var a := Agreed(next, p, c);
    if a > 0 {
      var q := p + [c[0]];
      AgreedContinues(next, q, c[1..]);
      assert p + c[..a] == q + c[1..][..a - 1];
      var out := p + c[..a];
      assert out[..|p|] == p;
    } else {
      assert p + c[..a] == p;
    }
  }

  lemma ContinuesTrans(next: NextFn, p: seq<Token>, q: seq<Token>, out: seq<Token>)
    requires Continues(next, p, q) && Continues(next, q, out)
    ensures Continues(next, p, out)
  {
    forall i | |p| <= i < |out| ensures out[i] == next(out[..i]) {
      if i < |q| {
        assert out[..i] == q[..i];
      }
    }
  }

  /** With a faithful verifier a round only adds tokens that `next` would have produced, and at least one. */
  lemma RoundIsLossless(cfg: Config, next: NextFn, tokens: seq<Token>, stats: Stats)
    requires Faithful(cfg.verifier, next) && |tokens| < cfg.maxTotal
    ensures var r := OneRound(cfg, tokens, stats);
            && (!r.Fail? ==> Continues(next, tokens, r.tokens))
            && (r.Stop? ==> r.tokens == tokens && r.stats == stats && Exhausted(cfg, tokens))
            && (r.Continue? ==> r.stats.iterations == stats.iterations + 1)
  {
    var remaining := cfg.maxTotal - |tokens|;
    var k := Min(cfg.k, remaining);
    if k > 0 && cfg.draft(tokens, k).Ok? && cfg.draft(tokens, k).value != [] {
      var drafted := cfg.draft(tokens, k).value;
      var c := drafted[..Min(|drafted|, remaining)];
      var a := Agreed(next, tokens, c);
      AgreedContinues(next, tokens, c);
      if cfg.verifier(tokens, c).Err? {
        return;
      }
      assert cfg.verifier(tokens, c).value.0 == a;
      var kept := tokens + c[..a];
      if a < |c| {
        assert cfg.verifier(tokens, c).value.1 == Some(next(kept));
        assert (kept + [next(kept)])[..|kept|] == kept;
        assert Continues(next, kept, kept + [next(kept)]);
        ContinuesTrans(next, tokens, kept, kept + [next(kept)]);
      }
    }
  }

  /** The draft has nothing to offer here, or is never asked. */
  ghost predicate Exhausted(cfg: Config, tokens: seq<Token>) {
    |tokens| < cfg.maxTotal &&
    (cfg.k == 0 || cfg.draft(tokens, Min(cfg.k, cfg.maxTotal - |tokens|)) == Ok([]))
  }

  lemma {:induction false} DecodeIsLossless(cfg: Config, next: NextFn, tokens: seq<Token>, stats: Stats)
    requires Faithful(cfg.verifier, next) && DecodeFrom(cfg, tokens, stats).Ok?
    ensures var (out, st) := DecodeFrom(cfg, tokens, stats).value;
            && Continues(next, tokens, out)
            && (|out| < cfg.maxTotal ==> Exhausted(cfg, out))
            && stats.iterations <= st.iterations <= stats.iterations + (|out| - |tokens|)
    decreases cfg.maxTotal - |tokens|
  {
    if |tokens| < cfg.maxTotal {
      RoundGrows(cfg, tokens, stats);
      RoundIsLossless(cfg, next, tokens, stats);
      var r := OneRound(cfg, tokens, stats);
      if r.Continue? {
        DecodeIsLossless(cfg, next, r.tokens, r.stats);
        ContinuesTrans(next, tokens, r.tokens, DecodeFrom(cfg, tokens, stats).value.0);
      }
    }
  }

  /** Lossless speculation. For every draft function, good or bad, and a verifier that may fail: a successful reply
      is what decoding one token at a time yields, it stops short of the limit only where the draft is exhausted, and it never takes more
      verifier calls than tokens produced. */
  lemma LosslessForEveryDraft(cfg: Config, next: NextFn, prefix: seq<Token>)
    requires Faithful(cfg.verifier, next) && DecodeFrom(cfg, prefix, ZERO).Ok?
    ensures var (out, st) := DecodeFrom(cfg, prefix, ZERO).value;
            && out == Greedy(next, prefix, |out|)
            && (|out| < cfg.maxTotal ==> Exhausted(cfg, out))
            && st.iterations <= |out| - |prefix|
  {
    DecodeIsLossless(cfg, next, prefix, ZERO);
    GreedyUnique(next, prefix, DecodeFrom(cfg, prefix, ZERO).value.0);
  }

  /** Unless it fails, the draft always has something to offer. */
  ghost predicate Productive(draft: DraftFn) {
    forall p, k :: k > 0 ==> draft(p, k) != Ok([])
  }

  /** Neither function fails. */
  ghost predicate NeverFail(cfg: Config) {
    && (forall p, k :: cfg.draft(p, k).Ok?)
    && (forall p, c :: cfg.verifier(p, c).Ok?)
  }

  /** Then the decoder does not fail either, whatever they reply. */
  lemma {:induction false} NoFailurePropagates(cfg: Config, tokens: seq<Token>, stats: Stats)
    requires NeverFail(cfg)
    ensures DecodeFrom(cfg, tokens, stats).Ok?
    decreases cfg.maxTotal - |tokens|
  {
    if |tokens| < cfg.maxTotal {
      RoundGrows(cfg, tokens, stats);
      var r := OneRound(cfg, tokens, stats);
      if r.Continue? {
        NoFailurePropagates(cfg, r.tokens, r.stats);
      }
    }
  }

  /** With a productive draft and k > 0 a successful reply is exactly the greedy continuation up to the limit,
      and the reply is successful if neither function fails. */
  lemma SpeculationEqualsGreedy(cfg: Config, next: NextFn, prefix: seq<Token>)
    requires Faithful(cfg.verifier, next) && Productive(cfg.draft) && cfg.k > 0
    ensures NeverFail(cfg) ==> DecodeFrom(cfg, prefix, ZERO).Ok?
    ensures DecodeFrom(cfg, prefix, ZERO).Ok? ==>
              DecodeFrom(cfg, prefix, ZERO).value.0 == Greedy(next, prefix, cfg.maxTotal)
    ensures |Greedy(next, prefix, cfg.maxTotal)| == if |prefix| > cfg.maxTotal then |prefix| else cfg.maxTotal
  {
    GreedyLength(next, prefix, cfg.maxTotal);
    if NeverFail(cfg) {
      NoFailurePropagates(cfg, prefix, ZERO);
    }
    if DecodeFrom(cfg, prefix, ZERO).Ok? {
      LosslessForEveryDraft(cfg, next, prefix);
      Accounting(cfg, prefix, ZERO);
      assert !Exhausted(cfg, DecodeFrom(cfg, prefix, ZERO).value.0);
    }
  }

  lemma {:induction false} GreedyLength(next: NextFn, p: seq<Token>, n: nat)
    ensures |Greedy(next, p, n)| == if |p| > n then |p| else n
    decreases n - |p|
  {
    if |p| < n {
      GreedyLength(next, p + [next(p)], n);
    }
  }

  // ----- how many calls it takes -----

  /** The draft proposes exactly what `next` would produce. */
  ghost predicate Perfect(draft: DraftFn, next: NextFn) {
    forall p, k :: draft(p, k) == Ok(Ahead(next, p, k))
  }

  /** The same of the draft, with a verifier that accepts what it should and never fails. */
  ghost predicate AlwaysRight(cfg: Config, next: NextFn) {
    && Perfect(cfg.draft, next) && cfg.k > 0
    && Faithful(cfg.verifier, next) && (forall p, c :: cfg.verifier(p, c).Ok?)
  }

  /** The next `k` tokens after `p`. */
  function Ahead(next: NextFn, p: seq<Token>, k: nat): seq<Token>
    decreases k
  {
    if k == 0 then [] else [next(p)] + Ahead(next, p + [next(p)], k - 1)
  }

  lemma {:induction false} AheadAgrees(next: NextFn, p: seq<Token>, k: nat)
    ensures |Ahead(next, p, k)| == k && Agreed(next, p, Ahead(next, p, k)) == k
    decreases k
  {
    if k > 0 {
      AheadAgrees(next, p + [next(p)], k - 1);
    }
  }

  /** From one set of counters to the other, `n` tokens were proposed in `q` calls, and all accepted. */
  ghost predicate NoneWasted(n: nat, q: nat, before: Stats, after: Stats) {
    && after.iterations == before.iterations + q
    && after.draftTokens == before.draftTokens + n && after.acceptedTokens == before.acceptedTokens + n
  }

  lemma PerfectRound(cfg: Config, next: NextFn, tokens: seq<Token>, stats: Stats)
    requires AlwaysRight(cfg, next) && |tokens| < cfg.maxTotal
    ensures var (r, k) := (OneRound(cfg, tokens, stats), Min(cfg.k, cfg.maxTotal - |tokens|));
            r.Continue? && |r.tokens| == |tokens| + k && NoneWasted(k, 1, stats, r.stats)
  {
    var k := Min(cfg.k, cfg.maxTotal - |tokens|);
    AheadAgrees(next, tokens, k);
    var c := Ahead(next, tokens, k);
    assert c[..Min(|c|, cfg.maxTotal - |tokens|)] == c;
    assert cfg.verifier(tokens, c).Ok? && cfg.verifier(tokens, c).value.0 == k;
  }

  lemma GoesOn(cfg: Config, tokens: seq<Token>, stats: Stats)
    requires |tokens| < cfg.maxTotal && OneRound(cfg, tokens, stats).Continue?
    ensures var r := OneRound(cfg, tokens, stats);
            DecodeFrom(cfg, tokens, stats) == DecodeFrom(cfg, r.tokens, r.stats)
  {}

  /** Tokens proposed `k` at a time, down to the last. */
  function Calls(n: nat, k: nat): nat
    requires k > 0
  {
    if n == 0 then 0 else 1 + Calls(n - Min(k, n), k)
  }

  lemma {:induction false} CallsRoundUp(n: nat, k: nat)
    requires k > 0
    ensures n <= Calls(n, k) * k < n + k
  {
    if n > 0 {
      var q := Calls(n - Min(k, n), k);
      CallsRoundUp(n - Min(k, n), k);
      assert (1 + q) * k == k + q * k;
      if n <= k {
        assert q == 0;
      }
    }
  }

  lemma {:induction false} PerfectRounds(cfg: Config, next: NextFn, tokens: seq<Token>, stats: Stats)
    requires AlwaysRight(cfg, next) && |tokens| <= cfg.maxTotal
    ensures DecodeFrom(cfg, tokens, stats).Ok?
    ensures var ((out, st), n) := (DecodeFrom(cfg, tokens, stats).value, cfg.maxTotal - |tokens|);
            |out| == cfg.maxTotal && NoneWasted(n, Calls(n, cfg.k), stats, st)
    decreases cfg.maxTotal - |tokens|
  {
    if |tokens| < cfg.maxTotal {
      PerfectRound(cfg, next, tokens, stats);
      GoesOn(cfg, tokens, stats);
      var r := OneRound(cfg, tokens, stats);
      PerfectRounds(cfg, next, r.tokens, r.stats);
    }
  }

  /** A draft that is always right saves the calls it should: the limit is reached, all of its tokens are accepted,
      none is wasted, and the number of verifier calls is the number of tokens over `k`, rounded up. */
  lemma PerfectDraft(cfg: Config, next: NextFn, prefix: seq<Token>)
    requires AlwaysRight(cfg, next) && |prefix| <= cfg.maxTotal
    ensures DecodeFrom(cfg, prefix, ZERO).Ok?
    ensures var ((out, st), n) := (DecodeFrom(cfg, prefix, ZERO).value, cfg.maxTotal - |prefix|);
            && |out| == cfg.maxTotal
            && st.draftTokens == n && st.acceptedTokens == n && n <= st.iterations * cfg.k < n + cfg.k
  {
    PerfectRounds(cfg, next, prefix, ZERO);
    CallsRoundUp(cfg.maxTotal - |prefix|, cfg.k);
  }

  // ----- the actor's decode loop -----

  /** The loop body from the draft call on. `Stop` is a `break`, `Fail` an early error reply. */
  method LoopBody(cfg: Config, tokens0: seq<Token>, stats0: Stats) returns (r: Round)
    requires |tokens0| < cfg.maxTotal
    ensures r == OneRound(cfg, tokens0, stats0)
  {
    var tokens, stats := tokens0, stats0;
    var remaining := cfg.maxTotal - |tokens|;
    var k := Min(cfg.k, remaining);
    if k == 0 {
      return Stop(tokens, stats);
    }
    var drafted := cfg.draft(tokens, k);
    if drafted.Err? {
      return Fail(drafted.error);
    }
    var candidates := drafted.value;
    if candidates == [] {
      return Stop(tokens, stats);
    }
    candidates := candidates[..Min(|candidates|, remaining)];
    stats := stats.(iterations := stats.iterations + 1, draftTokens := stats.draftTokens + |candidates|);
    var verdict := cfg.verifier(tokens, candidates);
    if verdict.Err? {
      return Fail(verdict.error);
    }
    var (accepted, replacement) := verdict.value;
    var acc := Min(accepted, |candidates|);
    tokens := tokens + candidates[..acc];
    stats := stats.(acceptedTokens := stats.acceptedTokens + acc);
    if acc < |candidates| {
      if replacement.None? {
        return Stop(tokens, stats);
      }
      if |tokens| < cfg.maxTotal {
        tokens := tokens + [replacement.value];
      }
    }
    r := Continue(tokens, stats);
  }

  method Decode(cfg: Config, prefix: seq<Token>) returns (reply: Result<(seq<Token>, Stats), GpuError>)
    ensures reply == DecodeFrom(cfg, prefix, ZERO)
  {
    var tokens := prefix;
    var stats := ZERO;
    while |tokens| < cfg.maxTotal
      invariant DecodeFrom(cfg, tokens, stats) == DecodeFrom(cfg, prefix, ZERO)
      decreases cfg.maxTotal - |tokens|
    {
      RoundGrows(cfg, tokens, stats);
      var round := LoopBody(cfg, tokens, stats);
      if round.Fail? {
        return Err(round.error);
      }
      if round.Stop? {
        return Ok((round.tokens, round.stats.(finalLen := |round.tokens|)));
      }
      tokens, stats := round.tokens, round.stats;
    }
    reply := Ok((tokens, stats.(finalLen := |tokens|)));
  }
}
