/** Dynamic batching: requests accumulate and are flushed by size or by a timer
    (crates/atomr-accel-patterns/src/batching.rs). Instants are ticks of a logical clock. */
module Batching {
  import opened Wrappers

  datatype Overflow = Reject | DropOldest

  datatype Config<!Req, Resp> = Config(
    maxBatch: nat,
    maxWait: nat,
    batchFn: seq<Req> -> seq<Result<Resp, GpuError>>,
    overflow: Overflow)

  /** A queued request with the number of its reply channel. */
  datatype Pending<Req> = Pending(req: Req, id: nat)

  datatype Reply<Resp> = Reply(id: nat, result: Result<Resp, GpuError>)

  datatype Stats = Stats(flushes: nat, itemsProcessed: nat, itemsDropped: nat)

  datatype Server<Req> = Server(pending: seq<Pending<Req>>, startedAt: Option<nat>, stats: Stats)

  /** The new server, the replies it sent in order, and the due times of the timers it started. */
  datatype Effect<Req, Resp> = Effect(server: Server<Req>, replies: seq<Reply<Resp>>, timers: seq<nat>)

  const WRONG_COUNT := Unrecoverable("BatchFn returned wrong number of results")
  const BATCH_FULL := Unrecoverable("batch full")
  const DROPPED := Unrecoverable("dropped by batching overflow policy")
  const STOPPED := GpuRefStale("batching server stopped")

  function Requests<Req>(ps: seq<Pending<Req>>): seq<Req> {
    seq(|ps|, i requires 0 <= i < |ps| => ps[i].req)
  }

  function Answer<Req, Resp>(ps: seq<Pending<Req>>, results: seq<Result<Resp, GpuError>>): seq<Reply<Resp>> {
    seq(|ps|, i requires 0 <= i < |ps| =>
      Reply(ps[i].id, if |results| == |ps| then results[i] else Err(WRONG_COUNT)))
  }

  function Flush<Req, Resp>(cfg: Config<Req, Resp>, s: Server<Req>): Effect<Req, Resp> {
    if s.pending == [] then Effect(s, [], [])
    else
      var n := |s.pending|;
      var results := cfg.batchFn(Requests(s.pending));
      var stats := if |results| == n
                   then s.stats.(flushes := s.stats.flushes + 1, itemsProcessed := s.stats.itemsProcessed + n)
                   else s.stats;
      Effect(Server([], None, stats), Answer(s.pending, results), [])
  }

  /** Append to the batch, start its timer if it was empty, flush it if it is now full. */
  function Push<Req, Resp>(cfg: Config<Req, Resp>, s: Server<Req>, p: Pending<Req>, now: nat): Effect<Req, Resp> {
    var isFirst := s.pending == [];
    var s' := s.(pending := s.pending + [p], startedAt := if isFirst then Some(now) else s.startedAt);
    var timers := if isFirst then [now + cfg.maxWait] else [];
    if |s'.pending| >= cfg.maxBatch then Flush(cfg, s').(timers := timers)
    else Effect(s', [], timers)
  }

  function CountDrop<Req>(s: Server<Req>): Server<Req> {
    s.(stats := s.stats.(itemsDropped := s.stats.itemsDropped + 1))
  }

  /** `None`: the handler panics, removing an element from an empty vector. */
  function Submit<Req, Resp>(cfg: Config<Req, Resp>, s: Server<Req>, p: Pending<Req>, now: nat)
    : Option<Effect<Req, Resp>>
  {
    if |s.pending| < cfg.maxBatch then Some(Push(cfg, s, p, now))
    else match cfg.overflow
      case Reject => Some(Effect(CountDrop(s), [Reply(p.id, Err(BATCH_FULL))], []))
      case DropOldest =>
        if s.pending == [] then None
        else
          var e := Push(cfg, CountDrop(s).(pending := s.pending[1..]), p, now);
          Some(e.(replies := [Reply(s.pending[0].id, Err(DROPPED))] + e.replies))
  }

  function TimerFlush<Req, Resp>(cfg: Config<Req, Resp>, s: Server<Req>, now: nat): Effect<Req, Resp> {
    match s.startedAt
    case None => Effect(s, [], [])
    case Some(start) =>
      if now - start >= cfg.maxWait then Flush(cfg, s) else Effect(s, [], [now + cfg.maxWait])
  }

  function PostStop<Req, Resp>(s: Server<Req>): Effect<Req, Resp> {
    Effect(s.(pending := []), seq(|s.pending|, i requires 0 <= i < |s.pending| => Reply(s.pending[i].id, Err(STOPPED))), [])
  }

  // ----- the server in its world: a clock, live timers, and a log of replies -----

  datatype Arrival<Req> = Arrival(req: Req, at: nat)
  datatype Logged<Resp> = Logged(reply: Reply<Resp>, at: nat)

  datatype World<Req, Resp> = World(
    server: Server<Req>,
    now: nat,
    timers: multiset<nat>,
    submitted: seq<Arrival<Req>>,
    log: seq<Logged<Resp>>,
    stopped: bool)

  datatype Event<Req> = Tick(to: nat) | Arrive(req: Req) | Fire(due: nat) | FlushNow | Stop

  function Initial<Req, Resp>(): World<Req, Resp> {
    World(Server([], None, Stats(0, 0, 0)), 0, multiset{}, [], [], false)
  }

  function Stamp<Resp>(rs: seq<Reply<Resp>>, at: nat): seq<Logged<Resp>> {
    seq(|rs|, i requires 0 <= i < |rs| => Logged(rs[i], at))
  }

  function Absorb<Req, Resp>(w: World<Req, Resp>, e: Effect<Req, Resp>): World<Req, Resp> {
    w.(server := e.server, timers := w.timers + multiset(e.timers), log := w.log + Stamp(e.replies, w.now))
  }

  /** The configuration whose first submit panics: nothing to drop, yet no room. */
  predicate Panics<Req, Resp>(cfg: Config<Req, Resp>) {
    cfg.maxBatch == 0 && cfg.overflow == DropOldest
  }

  /** Timers are delivered no earlier than due, and at most `slack` ticks late:
      the clock does not move on past an overdue timer. */
  ghost predicate Enabled<Req, Resp>(cfg: Config<Req, Resp>, slack: nat, w: World<Req, Resp>, e: Event<Req>) {
    !w.stopped &&
    match e
    case Tick(to) => w.now <= to && forall d :: d in w.timers ==> to <= d + slack
    case Arrive(_) => !Panics(cfg)
    case Fire(due) => due in w.timers && due <= w.now
    case FlushNow => true
    case Stop => true
  }

  function Step<Req, Resp>(cfg: Config<Req, Resp>, w: World<Req, Resp>, e: Event<Req>): World<Req, Resp> {
    match e
    case Tick(to) => w.(now := to)
    case Arrive(req) =>
      (match Submit(cfg, w.server, Pending(req, |w.submitted|), w.now)
       case None => w.(stopped := true)
       case Some(eff) => Absorb(w, eff).(submitted := w.submitted + [Arrival(req, w.now)]))
    case Fire(due) => Absorb(w.(timers := w.timers - multiset{due}), TimerFlush(cfg, w.server, w.now))
    case FlushNow => Absorb(w, Flush(cfg, w.server))
    case Stop => Absorb(w, PostStop(w.server)).(stopped := true)
  }

  function Run<Req, Resp>(cfg: Config<Req, Resp>, es: seq<Event<Req>>): World<Req, Resp> {
    if es == [] then Initial() else Step(cfg, Run(cfg, es[..|es| - 1]), es[|es| - 1])
  }

  ghost predicate Legal<Req, Resp>(cfg: Config<Req, Resp>, slack: nat, es: seq<Event<Req>>) {
    es == [] || (Legal(cfg, slack, es[..|es| - 1]) && Enabled(cfg, slack, Run(cfg, es[..|es| - 1]), es[|es| - 1]))
  }

  // ----- what every event keeps -----

  /** Replies so far followed by the pending batch are exactly the submitted requests, in submission order. */
  ghost predicate OncePerRequest<Req, Resp>(w: World<Req, Resp>) {
    && |w.log| + |w.server.pending| == |w.submitted|
    && (forall k :: 0 <= k < |w.log| ==> w.log[k].reply.id == k)
    && (forall k :: 0 <= k < |w.server.pending| ==>
          && w.server.pending[k].id == |w.log| + k
          && w.server.pending[k].req == w.submitted[|w.log| + k].req)
  }

  /** A non-empty batch has a live timer due at its deadline, and none of its requests is older than the batch. */
  ghost predicate Deadline<Req, Resp>(cfg: Config<Req, Resp>, slack: nat, w: World<Req, Resp>)
    requires |w.log| + |w.server.pending| == |w.submitted|
  {
    && (w.server.startedAt.Some? <==> w.server.pending != [])
    && (w.server.startedAt.Some? ==>
          var start := w.server.startedAt.value;
          && start + cfg.maxWait in w.timers
          && start <= w.now <= start + cfg.maxWait + slack
          && forall k :: |w.log| <= k < |w.submitted| ==> start <= w.submitted[k].at)
  }

  /** Whoever has been answered did not wait longer than allowed. */
  ghost predicate AnsweredInTime<Req, Resp>(cfg: Config<Req, Resp>, slack: nat, w: World<Req, Resp>)
    requires |w.log| <= |w.submitted|
  {
    forall k :: 0 <= k < |w.log| ==> w.log[k].at - w.submitted[k].at <= cfg.maxWait + slack
  }

  ghost predicate Inv<Req, Resp>(cfg: Config<Req, Resp>, slack: nat, w: World<Req, Resp>) {
    && OncePerRequest(w)
    && (!w.stopped ==> Deadline(cfg, slack, w))
    && AnsweredInTime(cfg, slack, w)
    && |w.server.pending| < (if cfg.maxBatch == 0 then 1 else cfg.maxBatch)
    && (cfg.maxBatch > 0 ==> w.server.stats.itemsDropped == 0)
    && (w.stopped ==> w.server.pending == [])
  }

  /** Sending the whole pending batch, with whatever results. */
  lemma AbsorbAll<Req, Resp>(cfg: Config<Req, Resp>, slack: nat, w: World<Req, Resp>, e: Effect<Req, Resp>)
    requires OncePerRequest(w) && e.server.pending == [] && |e.replies| == |w.server.pending|
    requires forall k :: 0 <= k < |e.replies| ==> e.replies[k].id == w.server.pending[k].id
    requires AnsweredInTime(cfg, slack, w)
    requires forall k :: |w.log| <= k < |w.submitted| ==> w.now - w.submitted[k].at <= cfg.maxWait + slack
    ensures OncePerRequest(Absorb(w, e)) && AnsweredInTime(cfg, slack, Absorb(w, e))
  {
    var w' := Absorb(w, e);
    forall k | 0 <= k < |w'.log|
      ensures w'.log[k].reply.id == k && w'.log[k].at - w'.submitted[k].at <= cfg.maxWait + slack
    {
      if k >= |w.log| {
        assert w'.log[k] == Logged(e.replies[k - |w.log|], w.now);
      }
    }
  }

  lemma FlushKeeps<Req, Resp>(cfg: Config<Req, Resp>, slack: nat, w: World<Req, Resp>)
    requires OncePerRequest(w) && Deadline(cfg, slack, w) && AnsweredInTime(cfg, slack, w) && !w.stopped
    requires cfg.maxBatch > 0 ==> w.server.stats.itemsDropped == 0
    ensures Inv(cfg, slack, Absorb(w, Flush(cfg, w.server)))
  {
    if w.server.pending != [] {
      AbsorbAll(cfg, slack, w, Flush(cfg, w.server));
    } else {
      assert Absorb(w, Flush(cfg, w.server)) == w by {
        assert w.log + Stamp<Resp>([], w.now) == w.log;
        assert w.timers + multiset([]) == w.timers;
      }
    }
  }

  /** A request put into the pending batch; the batch is not yet looked at for being full. */
  function Queued<Req, Resp>(cfg: Config<Req, Resp>, w: World<Req, Resp>, req: Req): World<Req, Resp> {
    var isFirst := w.server.pending == [];
    w.(submitted := w.submitted + [Arrival(req, w.now)],
       timers := if isFirst then w.timers + multiset{w.now + cfg.maxWait} else w.timers,
       server := w.server.(pending := w.server.pending + [Pending(req, |w.submitted|)],
                           startedAt := if isFirst then Some(w.now) else w.server.startedAt))
  }

  lemma QueuedKeeps<Req, Resp>(cfg: Config<Req, Resp>, slack: nat, w: World<Req, Resp>, req: Req)
    requires Inv(cfg, slack, w) && !w.stopped
    ensures var q := Queued(cfg, w, req);
            OncePerRequest(q) && Deadline(cfg, slack, q) && AnsweredInTime(cfg, slack, q)
  {
    var q := Queued(cfg, w, req);
    forall k | |q.log| <= k < |q.submitted| ensures q.server.startedAt.value <= q.submitted[k].at {
      if k < |w.submitted| {
        assert w.server.pending != [];
      }
    }
  }

  /** With room in the batch a submit queues the request and flushes a batch that became full. */
  lemma ArriveWithRoom<Req, Resp>(cfg: Config<Req, Resp>, w: World<Req, Resp>, req: Req)
    requires |w.server.pending| < cfg.maxBatch
    ensures var q := Queued(cfg, w, req);
            Step(cfg, w, Arrive(req)) ==
            if |q.server.pending| >= cfg.maxBatch then Absorb(q, Flush(cfg, q.server)) else q
  {
    var q := Queued(cfg, w, req);
    var p := Pending(req, |w.submitted|);
    var e := Push(cfg, w.server, p, w.now);
    assert Submit(cfg, w.server, p, w.now) == Some(e);
    assert w.timers + multiset(e.timers) == q.timers + multiset([]) == q.timers;
    if |q.server.pending| < cfg.maxBatch {
      assert e.server == q.server;
      assert w.log + Stamp(e.replies, w.now) == w.log;
    }
  }

  lemma ArriveWithoutRoom<Req, Resp>(cfg: Config<Req, Resp>, slack: nat, w: World<Req, Resp>, req: Req)
    requires Inv(cfg, slack, w) && !w.stopped && cfg.maxBatch == 0 && cfg.overflow == Reject
    ensures Inv(cfg, slack, Step(cfg, w, Arrive(req)))
  {
    var refusal := Reply<Resp>.Reply(|w.submitted|, Err(BATCH_FULL));
    assert Stamp([refusal], w.now) == [Logged(refusal, w.now)];
    assert w.timers + multiset([]) == w.timers;
  }

  lemma ArriveKeeps<Req, Resp>(cfg: Config<Req, Resp>, slack: nat, w: World<Req, Resp>, req: Req)
    requires Inv(cfg, slack, w) && !w.stopped && !Panics(cfg)
    ensures Inv(cfg, slack, Step(cfg, w, Arrive(req)))
  {
    if cfg.maxBatch == 0 {
      ArriveWithoutRoom(cfg, slack, w, req);
    } else {
      QueuedKeeps(cfg, slack, w, req);
      ArriveWithRoom(cfg, w, req);
      FlushKeeps(cfg, slack, Queued(cfg, w, req));
    }
  }

  lemma FireKeeps<Req, Resp>(cfg: Config<Req, Resp>, slack: nat, w: World<Req, Resp>, due: nat)
    requires Inv(cfg, slack, w) && !w.stopped && due in w.timers && due <= w.now
    ensures Inv(cfg, slack, Step(cfg, w, Fire(due)))
  {
    var w' := Step(cfg, w, Fire(due));
    if w.server.startedAt.Some? && w.now - w.server.startedAt.value >= cfg.maxWait {
      AbsorbAll(cfg, slack, w, Flush(cfg, w.server));
      assert w'.log == Absorb(w, Flush(cfg, w.server)).log;
    } else {
      var e := TimerFlush(cfg, w.server, w.now);
      assert w'.log == w.log;
      if w.server.startedAt.Some? {
        var deadline := w.server.startedAt.value + cfg.maxWait;
        assert due != deadline;
        assert deadline in w.timers - multiset{due};
      }
    }
  }

  /** Every enabled event keeps all of it. */
  lemma StepKeeps<Req, Resp>(cfg: Config<Req, Resp>, slack: nat, w: World<Req, Resp>, e: Event<Req>)
    requires Inv(cfg, slack, w) && Enabled(cfg, slack, w, e)
    ensures Inv(cfg, slack, Step(cfg, w, e))
  {
    match e
    case Tick(to) =>
    case Arrive(req) => ArriveKeeps(cfg, slack, w, req);
    case Fire(due) => FireKeeps(cfg, slack, w, due);
    case FlushNow => FlushKeeps(cfg, slack, w);
    case Stop => AbsorbAll(cfg, slack, w, PostStop(w.server));
  }

  lemma {:induction false} RunKeeps<Req, Resp>(cfg: Config<Req, Resp>, slack: nat, es: seq<Event<Req>>)
    requires Legal(cfg, slack, es)
    ensures Inv(cfg, slack, Run(cfg, es))
  {
    if es != [] {
      RunKeeps(cfg, slack, es[..|es| - 1]);
      StepKeeps(cfg, slack, Run(cfg, es[..|es| - 1]), es[|es| - 1]);
    }
  }

  // ----- the promises -----

  /** Exactly-once replies, for any batch function: on every run the k-th reply answers the k-th request, the rest
      is pending and below the batch limit, nothing is ever dropped by overflow, and once stopped nothing is left. */
  lemma ExactlyOnce<Req, Resp>(cfg: Config<Req, Resp>, slack: nat, es: seq<Event<Req>>)
    requires Legal(cfg, slack, es)
    ensures var w := Run(cfg, es);
            && (forall k :: 0 <= k < |w.log| ==> w.log[k].reply.id == k)
            && |w.log| + |w.server.pending| == |w.submitted|
            && (w.stopped ==> |w.log| == |w.submitted|)
            && (cfg.maxBatch > 0 ==> |w.server.pending| < cfg.maxBatch && w.server.stats.itemsDropped == 0)
  {
    RunKeeps(cfg, slack, es);
  }

  /** Batch deadline: with timers at most `slack` late, no request waits longer than `maxWait + slack`,
      whether it has been answered or is still pending. */
  lemma NoRequestWaitsLonger<Req, Resp>(cfg: Config<Req, Resp>, slack: nat, es: seq<Event<Req>>)
    requires Legal(cfg, slack, es)
    ensures var w := Run(cfg, es);
            && |w.log| <= |w.submitted| && AnsweredInTime(cfg, slack, w)
            && (forall k :: |w.log| <= k < |w.submitted| ==> w.now - w.submitted[k].at <= cfg.maxWait + slack)
  {
    RunKeeps(cfg, slack, es);
  }

  /** Before its deadline a batch is left alone by the timer message, with its own timer live; from then on it is
      answered, and with it everything submitted. */
  ghost predicate FlushesOnlyWhenDue<Req, Resp>(cfg: Config<Req, Resp>, w: World<Req, Resp>, due: nat)
    requires w.server.startedAt.Some?
  {
    var w' := Step(cfg, w, Fire(due));
    var deadline := w.server.startedAt.value + cfg.maxWait;
    if w.now < deadline then
      && w'.server == w.server && w'.log == w.log && deadline in w'.timers
      && w'.timers == w.timers - multiset{due} + multiset{w.now + cfg.maxWait}
    else w'.server.pending == [] && |w'.log| == |w'.submitted| && w'.timers == w.timers - multiset{due}
  }

  /** A timer that fires flushes only a batch that has waited its full time; a timer left over from
      an earlier batch leaves a younger one alone and the deadline timer of that batch stays live. */
  lemma StaleTimerIsHarmless<Req, Resp>(cfg: Config<Req, Resp>, slack: nat, es: seq<Event<Req>>, due: nat)
    requires Legal(cfg, slack, es) && Enabled(cfg, slack, Run(cfg, es), Fire(due))
    requires Run(cfg, es).server.startedAt.Some?
    ensures FlushesOnlyWhenDue(cfg, Run(cfg, es), due)
  {
    RunKeeps(cfg, slack, es);
    FireExactly(cfg, slack, Run(cfg, es), due);
  }

  lemma FireExactly<Req, Resp>(cfg: Config<Req, Resp>, slack: nat, w: World<Req, Resp>, due: nat)
    requires Inv(cfg, slack, w) && !w.stopped && due in w.timers && due <= w.now && w.server.startedAt.Some?
    ensures FlushesOnlyWhenDue(cfg, w, due)
  {
    var deadline := w.server.startedAt.value + cfg.maxWait;
    if w.now < deadline {
      assert due != deadline && deadline in w.timers - multiset{due};
      assert w.log + Stamp(TimerFlush(cfg, w.server, w.now).replies, w.now) == w.log;
      assert multiset(TimerFlush(cfg, w.server, w.now).timers) == multiset{w.now + cfg.maxWait};
    }
  }

  /** A timer that fires while nothing is pending does nothing. */
  lemma IdleTimerDoesNothing<Req, Resp>(cfg: Config<Req, Resp>, w: World<Req, Resp>, due: nat)
    requires w.server.startedAt.None?
    ensures Step(cfg, w, Fire(due)) == w.(timers := w.timers - multiset{due})
  {
    assert w.log + Stamp<Resp>([], w.now) == w.log;
  }

  /** A submit sends nothing until the batch is full: then the whole batch is answered, and nothing is left pending. */
  lemma SendsWhenFull<Req, Resp>(cfg: Config<Req, Resp>, slack: nat, es: seq<Event<Req>>, req: Req)
    requires Legal(cfg, slack, es) && !Run(cfg, es).stopped && cfg.maxBatch > 0
    ensures var (w, w') := (Run(cfg, es), Step(cfg, Run(cfg, es), Arrive(req)));
            if |w.server.pending| + 1 == cfg.maxBatch then w'.server.pending == [] && |w'.log| == |w'.submitted|
            else w'.log == w.log && w'.server.pending == w.server.pending + [Pending(req, |w.submitted|)]
  {
    var w := Run(cfg, es);
    RunKeeps(cfg, slack, es);
    ArriveWithRoom(cfg, w, req);
    QueuedKeeps(cfg, slack, w, req);
  }

  /** A flush on demand answers everything pending. */
  lemma FlushNowSendsAll<Req, Resp>(cfg: Config<Req, Resp>, slack: nat, es: seq<Event<Req>>)
    requires Legal(cfg, slack, es) && !Run(cfg, es).stopped
    ensures var w' := Step(cfg, Run(cfg, es), FlushNow);
            w'.server.pending == [] && |w'.log| == |w'.submitted|
  {
    RunKeeps(cfg, slack, es);
    FlushKeeps(cfg, slack, Run(cfg, es));
  }

  /** The handler panics exactly on the configuration without room and without anything to drop;
      from a run's state every other submit is handled. */
  lemma PanicsExactly<Req, Resp>(cfg: Config<Req, Resp>, slack: nat, es: seq<Event<Req>>, p: Pending<Req>)
    requires Legal(cfg, slack, es)
    ensures Submit(cfg, Run(cfg, es).server, p, Run(cfg, es).now).None? <==> Panics(cfg)
  {
    RunKeeps(cfg, slack, es);
  }

  // ----- how many timers are live -----

  /** Batches begun: submits that found the batch empty and room in it. */
  function Begun<Req, Resp>(cfg: Config<Req, Resp>, es: seq<Event<Req>>): nat {
    if es == [] then 0
    else
      var (before, e) := (es[..|es| - 1], es[|es| - 1]);
      Begun(cfg, before) +
      (if e.Arrive? && Run(cfg, before).server.pending == [] && cfg.maxBatch > 0 then 1 else 0)
  }

  /** Timer messages that did not start another timer: no batch was pending, or it was due. */
  function Spent<Req, Resp>(cfg: Config<Req, Resp>, es: seq<Event<Req>>): nat {
    if es == [] then 0
    else
      var (before, e) := (es[..|es| - 1], es[|es| - 1]);
      var s := Run(cfg, before).server;
      Spent(cfg, before) +
      (if e.Fire? && (s.startedAt.None? || Run(cfg, before).now - s.startedAt.value >= cfg.maxWait) then 1 else 0)
  }

  /** The exact number of live timers: one for each batch begun, less one for each timer message that did not
      reschedule itself. */
  lemma {:induction false} TimersLive<Req, Resp>(cfg: Config<Req, Resp>, slack: nat, es: seq<Event<Req>>)
    requires Legal(cfg, slack, es)
    ensures |Run(cfg, es).timers| == Begun(cfg, es) - Spent(cfg, es)
  {
    if es != [] {
      var before := es[..|es| - 1];
      TimersLive(cfg, slack, before);
      RunKeeps(cfg, slack, before);
      TimersStep(cfg, slack, Run(cfg, before), es[|es| - 1]);
    }
  }

  lemma TimersStep<Req, Resp>(cfg: Config<Req, Resp>, slack: nat, w: World<Req, Resp>, e: Event<Req>)
    requires Inv(cfg, slack, w) && Enabled(cfg, slack, w, e)
    ensures |Step(cfg, w, e).timers| == |w.timers|
            + (if e.Arrive? && w.server.pending == [] && cfg.maxBatch > 0 then 1 else 0)
            - (if e.Fire? && (w.server.startedAt.None? || w.now - w.server.startedAt.value >= cfg.maxWait) then 1 else 0)
  {
    match e
    case Tick(_) =>
    case Arrive(req) =>
      if cfg.maxBatch > 0 {
        ArriveWithRoom(cfg, w, req);
        FlushTimers(cfg, Queued(cfg, w, req));
      }
    case Fire(due) =>
      FlushTimers(cfg, w);
    case FlushNow =>
      FlushTimers(cfg, w);
    case Stop =>
  }

  lemma FlushTimers<Req, Resp>(cfg: Config<Req, Resp>, w: World<Req, Resp>)
    ensures Absorb(w, Flush(cfg, w.server)).timers == w.timers
  {}

  /** There is no bound on it: with batches of one, every submit leaves a live timer behind and nothing pending. */
  lemma {:induction false} TimersPileUp<Req, Resp>(cfg: Config<Req, Resp>, slack: nat, req: Req, n: nat)
    returns (es: seq<Event<Req>>)
    requires cfg.maxBatch == 1
    ensures Legal(cfg, slack, es) && |es| == n && !Run(cfg, es).stopped
    ensures |Run(cfg, es).timers| == n && Run(cfg, es).server.pending == []
  {
    if n == 0 {
      es := [];
    } else {
      var before := TimersPileUp(cfg, slack, req, n - 1);
      es := before + [Arrive(req)];
      assert es[..|es| - 1] == before;
      RunKeeps(cfg, slack, before);
      TimersStep(cfg, slack, Run(cfg, before), Arrive(req));
      ArriveWithRoom(cfg, Run(cfg, before), req);
    }
  }

  // ----- what the replies contain -----

  function Submitted<Req>(arrivals: seq<Arrival<Req>>): seq<Req> {
    seq(|arrivals|, i requires 0 <= i < |arrivals| => arrivals[i].req)
  }

  /** What the `i`-th request of a batch is to be told: the `i`-th result of the one call made for that batch,
      unless the call came back with another number of results. */
  function Share<Req, Resp>(cfg: Config<Req, Resp>, batch: seq<Req>, i: nat): Result<Resp, GpuError>
    requires i < |batch|
  {
    var results := cfg.batchFn(batch);
    if |results| == |batch| then results[i] else Err(WRONG_COUNT)
  }

  /** The replies `lo` to `hi` are those of one call of the batch function on the requests `lo` to `hi`. */
  ghost predicate IsBatch<Req, Resp>(cfg: Config<Req, Resp>, w: World<Req, Resp>, lo: nat, hi: nat) {
    && lo < hi <= |w.log| && hi <= |w.submitted| && hi - lo <= cfg.maxBatch
    && forall k :: lo <= k < hi ==> w.log[k].reply.result == Share(cfg, Submitted(w.submitted[lo..hi]), k - lo)
  }

  /** How many of these batches came back with the right number of results, and how many requests they hold. */
  function Good<Req, Resp>(cfg: Config<Req, Resp>, subs: seq<Arrival<Req>>, cuts: seq<nat>): (nat, nat) {
    if |cuts| < 2 then (0, 0)
    else
      var (lo, hi) := (cuts[|cuts| - 2], cuts[|cuts| - 1]);
      var (flushes, items) := Good(cfg, subs, cuts[..|cuts| - 1]);
      if lo <= hi <= |subs| && |cfg.batchFn(Submitted(subs[lo..hi]))| == hi - lo then (flushes + 1, items + (hi - lo))
      else (flushes, items)
  }

  lemma {:induction false} GoodStays<Req, Resp>(
      cfg: Config<Req, Resp>, subs: seq<Arrival<Req>>, more: seq<Arrival<Req>>, cuts: seq<nat>)
    requires subs <= more && forall j :: 0 <= j < |cuts| ==> cuts[j] <= |subs|
    ensures Good(cfg, more, cuts) == Good(cfg, subs, cuts)
  {
    if |cuts| >= 2 {
      GoodStays(cfg, subs, more, cuts[..|cuts| - 1]);
      var (lo, hi) := (cuts[|cuts| - 2], cuts[|cuts| - 1]);
      if lo <= hi {
        assert more[lo..hi] == subs[lo..hi];
      }
    }
  }

  /** The counters say just that. */
  ghost predicate Counted<Req, Resp>(cfg: Config<Req, Resp>, w: World<Req, Resp>, cuts: seq<nat>) {
    (w.server.stats.flushes, w.server.stats.itemsProcessed) == Good(cfg, w.submitted, cuts)
  }

  /** The log is cut into such batches, one after the other; only a stopped server has told the rest that it stopped. */
  ghost predicate CutIntoBatches<Req, Resp>(cfg: Config<Req, Resp>, w: World<Req, Resp>, cuts: seq<nat>) {
    && cuts != [] && cuts[0] == 0 && cuts[|cuts| - 1] <= |w.log|
    && (forall j :: 0 <= j < |cuts| - 1 ==> IsBatch(cfg, w, cuts[j], cuts[j + 1]))
    && (if w.stopped then forall k :: cuts[|cuts| - 1] <= k < |w.log| ==> w.log[k].reply.result == Err(STOPPED)
        else cuts[|cuts| - 1] == |w.log|)
    && (forall j :: 0 <= j < |cuts| ==> cuts[j] <= |w.submitted|) && Counted(cfg, w, cuts)
  }

  /** What the pending requests are told by a flush. */
  lemma FlushIsBatch<Req, Resp>(cfg: Config<Req, Resp>, w: World<Req, Resp>)
    requires OncePerRequest(w) && 0 < |w.server.pending| <= cfg.maxBatch
    ensures var w' := Absorb(w, Flush(cfg, w.server));
            |w'.log| == |w.submitted| && IsBatch(cfg, w', |w.log|, |w.submitted|)
  {
    var w' := Absorb(w, Flush(cfg, w.server));
    var (lo, hi) := (|w.log|, |w.submitted|);
    assert Requests(w.server.pending) == Submitted(w.submitted[lo..hi]);
    forall k | lo <= k < hi
      ensures w'.log[k].reply.result == Share(cfg, Submitted(w'.submitted[lo..hi]), k - lo)
    {
      assert w'.log[k] == Logged(Flush(cfg, w.server).replies[k - lo], w.now);
    }
  }

  /** Batches stay what they were when more is submitted and answered. */
  lemma BatchStays<Req, Resp>(cfg: Config<Req, Resp>, w: World<Req, Resp>, w': World<Req, Resp>, lo: nat, hi: nat)
    requires w.log <= w'.log && w.submitted <= w'.submitted && IsBatch(cfg, w, lo, hi)
    ensures IsBatch(cfg, w', lo, hi)
  {
    assert w'.submitted[lo..hi] == w.submitted[lo..hi];
  }

  lemma CutsStay<Req, Resp>(cfg: Config<Req, Resp>, w: World<Req, Resp>, w': World<Req, Resp>, cuts: seq<nat>)
    requires CutIntoBatches(cfg, w, cuts) && w.log <= w'.log && w.submitted <= w'.submitted
    ensures forall j :: 0 <= j < |cuts| - 1 ==> IsBatch(cfg, w', cuts[j], cuts[j + 1])
  {
    forall j | 0 <= j < |cuts| - 1 ensures IsBatch(cfg, w', cuts[j], cuts[j + 1]) {
      BatchStays(cfg, w, w', cuts[j], cuts[j + 1]);
    }
  }

  /** Nothing answered, nothing cut. */
  lemma QuietCuts<Req, Resp>(cfg: Config<Req, Resp>, w: World<Req, Resp>, w': World<Req, Resp>, cuts: seq<nat>)
    requires CutIntoBatches(cfg, w, cuts) && !w.stopped && !w'.stopped
    requires w'.log == w.log && w.submitted <= w'.submitted && w'.server.stats == w.server.stats
    ensures CutIntoBatches(cfg, w', cuts)
  {
    CutsStay(cfg, w, w', cuts);
    GoodStays(cfg, w.submitted, w'.submitted, cuts);
  }

  lemma FlushCuts<Req, Resp>(cfg: Config<Req, Resp>, w: World<Req, Resp>, cuts: seq<nat>) returns (more: seq<nat>)
    requires OncePerRequest(w) && !w.stopped && |w.server.pending| <= cfg.maxBatch && CutIntoBatches(cfg, w, cuts)
    ensures CutIntoBatches(cfg, Absorb(w, Flush(cfg, w.server)), more)
  {
    var w' := Absorb(w, Flush(cfg, w.server));
    if w.server.pending == [] {
      more := cuts;
      assert w.log + Stamp<Resp>([], w.now) == w.log;
      QuietCuts(cfg, w, w', cuts);
    } else {
      more := cuts + [|w.submitted|];
      CutsStay(cfg, w, w', cuts);
      FlushIsBatch(cfg, w);
      forall j | 0 <= j < |more| - 1 ensures IsBatch(cfg, w', more[j], more[j + 1]) {
        assert j < |cuts| - 1 ==> more[j] == cuts[j] && more[j + 1] == cuts[j + 1];
      }
      assert more[..|more| - 1] == cuts;
      assert Requests(w.server.pending) == Submitted(w.submitted[|w.log|..|w.submitted|]);
    }
  }

  lemma ArriveCuts<Req, Resp>(cfg: Config<Req, Resp>, slack: nat, w: World<Req, Resp>, req: Req, cuts: seq<nat>)
    returns (more: seq<nat>)
    requires Inv(cfg, slack, w) && !w.stopped && cfg.maxBatch > 0 && CutIntoBatches(cfg, w, cuts)
    ensures CutIntoBatches(cfg, Step(cfg, w, Arrive(req)), more)
  {
    var q := Queued(cfg, w, req);
    QueuedKeeps(cfg, slack, w, req);
    ArriveWithRoom(cfg, w, req);
    QuietCuts(cfg, w, q, cuts);
    if |q.server.pending| >= cfg.maxBatch {
      more := FlushCuts(cfg, q, cuts);
    } else {
      more := cuts;
    }
  }

  /** Apart from the timers, a timer message is a flush or changes nothing. */
  lemma FireIsFlushOrNothing<Req, Resp>(cfg: Config<Req, Resp>, w: World<Req, Resp>, due: nat)
    ensures var w' := Step(cfg, w, Fire(due));
            w'.(timers := w.timers) in {w, Absorb(w, Flush(cfg, w.server)).(timers := w.timers)}
  {
    var e := TimerFlush(cfg, w.server, w.now);
    if e.replies == [] {
      assert w.log + Stamp(e.replies, w.now) == w.log;
    }
  }

  lemma FireCuts<Req, Resp>(cfg: Config<Req, Resp>, w: World<Req, Resp>, due: nat, cuts: seq<nat>)
    returns (more: seq<nat>)
    requires OncePerRequest(w) && !w.stopped && |w.server.pending| <= cfg.maxBatch && CutIntoBatches(cfg, w, cuts)
    ensures CutIntoBatches(cfg, Step(cfg, w, Fire(due)), more)
  {
    var w' := Step(cfg, w, Fire(due));
    FireIsFlushOrNothing(cfg, w, due);
    if w'.(timers := w.timers) == w {
      more := cuts;
      QuietCuts(cfg, w, w', cuts);
    } else {
      var flushed := Absorb(w, Flush(cfg, w.server));
      more := FlushCuts(cfg, w, cuts);
      assert w'.log == flushed.log && w'.submitted == flushed.submitted && w'.stopped == flushed.stopped;
      QuietCuts(cfg, flushed, w', more);
    }
  }

  lemma StopCuts<Req, Resp>(cfg: Config<Req, Resp>, w: World<Req, Resp>, cuts: seq<nat>)
    requires OncePerRequest(w) && !w.stopped && CutIntoBatches(cfg, w, cuts)
    ensures CutIntoBatches(cfg, Step(cfg, w, Stop), cuts)
  {
    CutsStay(cfg, w, Step(cfg, w, Stop), cuts);
  }

  lemma StepCuts<Req, Resp>(cfg: Config<Req, Resp>, slack: nat, w: World<Req, Resp>, e: Event<Req>, cuts: seq<nat>)
    returns (more: seq<nat>)
    requires Inv(cfg, slack, w) && Enabled(cfg, slack, w, e) && cfg.maxBatch > 0 && CutIntoBatches(cfg, w, cuts)
    ensures CutIntoBatches(cfg, Step(cfg, w, e), more)
  {
    more := cuts;
    match e
    case Tick(to) => QuietCuts(cfg, w, Step(cfg, w, e), cuts);
    case Arrive(req) => more := ArriveCuts(cfg, slack, w, req, cuts);
    case Fire(due) => more := FireCuts(cfg, w, due, cuts);
    case FlushNow => more := FlushCuts(cfg, w, cuts);
    case Stop => StopCuts(cfg, w, cuts);
  }

  /** What every reply contains, for any batch function, wrong result counts included. On every run the requests fall
      into consecutive batches of at most `maxBatch`, in submission order; of what the batch function returns for a batch
      the i-th result goes to its i-th request, or the same error to all of them if the number of results
      is wrong. Only requests still pending when the server stops are told so instead. */
  lemma {:induction false} RepliesAreBatchResults<Req, Resp>(cfg: Config<Req, Resp>, slack: nat, es: seq<Event<Req>>)
    returns (cuts: seq<nat>)
    requires Legal(cfg, slack, es) && cfg.maxBatch > 0
    ensures CutIntoBatches(cfg, Run(cfg, es), cuts)
  {
    if es == [] {
      cuts := [0];
    } else {
      var before := es[..|es| - 1];
      cuts := RepliesAreBatchResults(cfg, slack, before);
      RunKeeps(cfg, slack, before);
      cuts := StepCuts(cfg, slack, Run(cfg, before), es[|es| - 1], cuts);
    }
  }

  /** Without room for even one request, every request is refused at once. */
  lemma {:induction false} NoRoomRefusesAll<Req, Resp>(cfg: Config<Req, Resp>, slack: nat, es: seq<Event<Req>>)
    requires Legal(cfg, slack, es) && cfg.maxBatch == 0
    ensures var w := Run(cfg, es);
            && |w.log| == |w.submitted| && w.server.stats == Stats(0, 0, |w.log|)
            && forall k :: 0 <= k < |w.log| ==> w.log[k] == Logged(Reply(k, Err(BATCH_FULL)), w.submitted[k].at)
  {
    if es != [] {
      var before := es[..|es| - 1];
      NoRoomRefusesAll(cfg, slack, before);
      RunKeeps(cfg, slack, before);
    }
  }

  /** The batch function answers each request by itself. */
  ghost predicate Pointwise<Req(!new), Resp(!new)>(cfg: Config<Req, Resp>, f: Req -> Result<Resp, GpuError>) {
    forall rs: seq<Req> :: |cfg.batchFn(rs)| == |rs| && forall i :: 0 <= i < |rs| ==> cfg.batchFn(rs)[i] == f(rs[i])
  }

  /** The batch that a request was answered in. */
  lemma {:induction false} BatchOf<Req, Resp>(cfg: Config<Req, Resp>, w: World<Req, Resp>, cuts: seq<nat>, n: nat, k: nat)
    returns (j: nat)
    requires CutIntoBatches(cfg, w, cuts) && n < |cuts| && k < cuts[n]
    ensures j < n && cuts[j] <= k < cuts[j + 1] && IsBatch(cfg, w, cuts[j], cuts[j + 1])
  {
    assert IsBatch(cfg, w, cuts[n - 1], cuts[n - 1 + 1]);
    if cuts[n - 1] <= k {
      j := n - 1;
    } else {
      j := BatchOf(cfg, w, cuts, n - 1, k);
    }
  }

  /** Batching is invisible where the batch function treats requests independently: every request gets the answer it
      would have got alone, whatever batch it fell into, unless the server was stopped first. */
  lemma BatchingIsTransparent<Req(!new), Resp(!new)>(
      cfg: Config<Req, Resp>, slack: nat, es: seq<Event<Req>>, f: Req -> Result<Resp, GpuError>)
    requires Legal(cfg, slack, es) && cfg.maxBatch > 0 && Pointwise(cfg, f)
    ensures var w := Run(cfg, es);
            |w.log| <= |w.submitted| && forall k :: 0 <= k < |w.log| ==>
              w.log[k].reply.result == f(w.submitted[k].req) || (w.stopped && w.log[k].reply.result == Err(STOPPED))
  {
    var w := Run(cfg, es);
    RunKeeps(cfg, slack, es);
    var cuts := RepliesAreBatchResults(cfg, slack, es);
    forall k: nat | k < |w.log|
      ensures w.log[k].reply.result == f(w.submitted[k].req) || (w.stopped && w.log[k].reply.result == Err(STOPPED))
    {
      AnswerAlone(cfg, w, cuts, k, f);
    }
  }

  lemma AnswerAlone<Req(!new), Resp(!new)>(cfg: Config<Req, Resp>, w: World<Req, Resp>, cuts: seq<nat>, k: nat,
                                           f: Req -> Result<Resp, GpuError>)
    requires CutIntoBatches(cfg, w, cuts) && Pointwise(cfg, f) && k < |w.log| <= |w.submitted|
    ensures w.log[k].reply.result == f(w.submitted[k].req) || (w.stopped && w.log[k].reply.result == Err(STOPPED))
  {
    var last := |cuts| - 1;
    if k < cuts[last] {
      var j := BatchOf(cfg, w, cuts, last, k);
      ShareOfOne(cfg, Submitted(w.submitted[cuts[j]..cuts[j + 1]]), k - cuts[j], f);
    }
  }

  lemma ShareOfOne<Req(!new), Resp(!new)>(cfg: Config<Req, Resp>, batch: seq<Req>, i: nat, f: Req -> Result<Resp, GpuError>)
    requires Pointwise(cfg, f) && i < |batch|
    ensures Share(cfg, batch, i) == f(batch[i])
  {
    assert |cfg.batchFn(batch)| == |batch|;
  }

  // ----- the actor -----

  class DynamicBatchingServer<Req, Resp> {
    const config: Config<Req, Resp>
    var pending: seq<Pending<Req>>
    var batchStartedAt: Option<nat>
    var stats: Stats

    function Model(): Server<Req> reads this {
      Server(pending, batchStartedAt, stats)
    }

    constructor (config: Config<Req, Resp>)
      ensures Model() == Server([], None, Stats(0, 0, 0)) && this.config == config
    {
      this.config := config;
      pending, batchStartedAt, stats := [], None, Stats(0, 0, 0);
    }

    method DoFlush() returns (replies: seq<Reply<Resp>>)
      modifies this
      ensures Effect(Model(), replies, []) == Flush(config, old(Model()))
    {
      replies := [];
      if pending == [] {
        return;
      }
      var n := |pending|;
      var batch := pending;
      pending := [];
      batchStartedAt := None;
      var results := config.batchFn(Requests(batch));
      if |results| != n {
        for i := 0 to n
          invariant replies == Answer(batch, results)[..i]
        {
          replies := replies + [Reply(batch[i].id, Err(WRONG_COUNT))];
        }
        return;
      }
      for i := 0 to n
        invariant replies == Answer(batch, results)[..i]
      {
        replies := replies + [Reply(batch[i].id, results[i])];
      }
      stats := stats.(flushes := stats.flushes + 1, itemsProcessed := stats.itemsProcessed + n);
    }

    /** `panicked` stands for the index panic of `remove(0)` on an empty vector. */
    method DoSubmit(req: Req, reply: nat, now: nat)
      returns (panicked: bool, replies: seq<Reply<Resp>>, timers: seq<nat>)
      modifies this
      ensures match Submit(config, old(Model()), Pending(req, reply), now)
              case None => panicked && Model() == old(Model())
              case Some(e) => !panicked && e == Effect(Model(), replies, timers)
    {
      panicked, replies, timers := false, [], [];
      if |pending| >= config.maxBatch {
        match config.overflow
        case Reject =>
          stats := stats.(itemsDropped := stats.itemsDropped + 1);
          replies := [Reply(reply, Err(BATCH_FULL))];
          return;
        case DropOldest =>
          if pending == [] {
            return true, [], [];
          }
          var oldest := pending[0];
          pending := pending[1..];
          replies := [Reply(oldest.id, Err(DROPPED))];
          stats := stats.(itemsDropped := stats.itemsDropped + 1);
      }
      var wasEmpty := pending == [];
      pending := pending + [Pending(req, reply)];
      if wasEmpty {
        batchStartedAt := Some(now);
        timers := [now + config.maxWait];
      }
      if |pending| >= config.maxBatch {
        var more := DoFlush();
        replies := replies + more;
      }
    }

    method OnTimer(now: nat) returns (replies: seq<Reply<Resp>>, timers: seq<nat>)
      modifies this
      ensures Effect(Model(), replies, timers) == TimerFlush(config, old(Model()), now)
    {
      replies, timers := [], [];
      if batchStartedAt.Some? {
        if now - batchStartedAt.value >= config.maxWait {
          replies := DoFlush();
        } else {
          timers := [now + config.maxWait];
        }
      }
    }

    method OnStop() returns (replies: seq<Reply<Resp>>)
      modifies this
      ensures Effect(Model(), replies, []) == PostStop(old(Model()))
    {
      replies := [];
      var batch := pending;
      pending := [];
      for i := 0 to |batch|
        invariant replies == seq(|batch|, k requires 0 <= k < |batch| => Reply<Resp>.Reply(batch[k].id, Err(STOPPED)))[..i]
      {
        replies := replies + [Reply(batch[i].id, Err(STOPPED))];
      }
    }
  }
}
