/** The write-token coordinator (crates/atomr-accel-agents/src/shared_state.rs) and the ticket lock it implements. */
module SharedState {
  import opened Wrappers

  type AgentId = n: nat | n < 0x1_0000_0000

  /** A queued acquire, with the number of its reply channel. */
  datatype Waiter = Waiter(agent: AgentId, request: nat)

  datatype Holder = Holder(agent: AgentId, token: nat)

  /** A token sent on a reply channel. */
  datatype Grant = Grant(request: nat, token: nat)

  datatype State = State(counter: nat, waiters: seq<Waiter>, held: Option<Holder>)

  datatype Msg = Acquire(agent: AgentId) | Release(token: nat)

  function Issue(s: State, w: Waiter): (State, Option<Grant>) {
    var token := s.counter + 1;
    (s.(counter := token, held := Some(Holder(w.agent, token))), Some(Grant(w.request, token)))
  }

  /** `request` numbers the reply channel of an acquire. */
  function Step(s: State, m: Msg, request: nat): (State, Option<Grant>) {
    match m
    case Acquire(agent) =>
      if s.held.None? then Issue(s, Waiter(agent, request))
      else (s.(waiters := s.waiters + [Waiter(agent, request)]), None)
    case Release(token) =>
      if s.held.Some? && s.held.value.token == token then
        var free := s.(held := None);
        if s.waiters == [] then (free, None) else Issue(free.(waiters := s.waiters[1..]), s.waiters[0])
      else (s, None)
  }

  /** A run: the agents that asked, in order, and the grants sent, in order. */
  datatype World = World(server: State, asked: seq<AgentId>, grants: seq<Grant>)

  function Next(w: World, m: Msg): World {
    var (s, g) := Step(w.server, m, |w.asked|);
    World(s, if m.Acquire? then w.asked + [m.agent] else w.asked, if g.Some? then w.grants + [g.value] else w.grants)
  }

  function Run(ms: seq<Msg>): World {
    if ms == [] then World(State(0, [], None), [], []) else Next(Run(ms[..|ms| - 1]), ms[|ms| - 1])
  }

  // ----- the ticket lock -----

  /** Tickets are numbered from 0: `next` is the next to hand out, `owner` the one being served. */
  datatype TicketLock = TicketLock(next: nat, owner: nat)

  predicate Locked(t: TicketLock) {
    t.owner < t.next
  }

  /** Taking a ticket, and giving back ticket `token - 1`: anything but the ticket being served is ignored. */
  function TicketStep(t: TicketLock, m: Msg): TicketLock {
    match m
    case Acquire(_) => t.(next := t.next + 1)
    case Release(token) => if Locked(t) && token == t.owner + 1 then t.(owner := t.owner + 1) else t
  }

  function TicketRun(ms: seq<Msg>): TicketLock {
    if ms == [] then TicketLock(0, 0) else TicketStep(TicketRun(ms[..|ms| - 1]), ms[|ms| - 1])
  }

  /** How many tickets have been called: the ones before the owner, and the owner if there is one. */
  function Called(t: TicketLock): nat {
    if Locked(t) then t.owner + 1 else t.next
  }

  /** The coordinator's whole state, read off the ticket lock and the list of agents that asked. */
  ghost predicate Implements(w: World, t: TicketLock) {
    && t.owner <= t.next == |w.asked|
    && w.server.counter == Called(t)
    && w.server.held == (if Locked(t) then Some(Holder(w.asked[t.owner], t.owner + 1)) else None)
    && |w.server.waiters| == t.next - Called(t)
    && (forall i :: 0 <= i < |w.server.waiters| ==>
          w.server.waiters[i] == Waiter(w.asked[Called(t) + i], Called(t) + i))
    && |w.grants| == Called(t)
    && (forall k :: 0 <= k < |w.grants| ==> w.grants[k] == Grant(k, k + 1))
  }

  lemma AcquireRefines(w: World, t: TicketLock, agent: AgentId)
    requires Implements(w, t)
    ensures Implements(Next(w, Acquire(agent)), TicketStep(t, Acquire(agent)))
  {
    assert forall k :: 0 <= k < |w.asked| ==> (w.asked + [agent])[k] == w.asked[k];
  }

  lemma ReleaseRefines(w: World, t: TicketLock, token: nat)
    requires Implements(w, t)
    ensures Implements(Next(w, Release(token)), TicketStep(t, Release(token)))
  {}

  lemma StepRefines(w: World, t: TicketLock, m: Msg)
    requires Implements(w, t)
    ensures Implements(Next(w, m), TicketStep(t, m))
  {
    match m
    case Acquire(agent) => AcquireRefines(w, t, agent);
    case Release(token) => ReleaseRefines(w, t, token);
  }

  /** The coordinator is a ticket lock: on every run its counter, holder, queue and replies are those of the lock
      driven by the same messages, and the k-th acquire receives exactly `WriteToken(k)`, in order of asking. */
  lemma {:induction false} RefinesTicketLock(ms: seq<Msg>)
    ensures Implements(Run(ms), TicketRun(ms))
  {
    if ms != [] {
      RefinesTicketLock(ms[..|ms| - 1]);
      StepRefines(Run(ms[..|ms| - 1]), TicketRun(ms[..|ms| - 1]), ms[|ms| - 1]);
    }
  }

  /** What that means for the agents: acquires are answered first come first served with tokens 1, 2, 3, ...;
      the current token is the last one issued; agents wait only while a token is held. */
  lemma TokensInOrder(ms: seq<Msg>)
    ensures var w := Run(ms);
            && (forall k :: 0 <= k < |w.grants| ==> w.grants[k] == Grant(k, k + 1))
            && |w.grants| + |w.server.waiters| == |w.asked|
            && (w.server.held.Some? ==> |w.grants| > 0 && w.server.held == Some(Holder(w.asked[|w.grants| - 1], |w.grants|)))
            && (w.server.waiters != [] ==> w.server.held.Some?)
  {
    RefinesTicketLock(ms);
  }

  /** A token that was issued and is not current. */
  ghost predicate Stale(w: World, token: nat) {
    token <= w.server.counter && (w.server.held.Some? ==> w.server.held.value.token != token)
  }

  lemma StaleStep(w: World, t: TicketLock, m: Msg, token: nat)
    requires Implements(w, t) && Stale(w, token)
    ensures Stale(Next(w, m), token) && Next(w, Release(token)) == w
  {}

  /** A release of anything but the current token changes nothing, and a token that is no longer current never
      becomes current again: releasing it a second time, however many messages later, is ignored. */
  lemma {:induction false} StaleReleaseIsIgnored(ms: seq<Msg>, more: seq<Msg>, token: nat)
    requires Stale(Run(ms), token)
    ensures Stale(Run(ms + more), token) && Next(Run(ms + more), Release(token)) == Run(ms + more)
    decreases |more|
  {
    if more == [] {
      assert ms + more == ms;
    } else {
      var before := more[..|more| - 1];
      StaleReleaseIsIgnored(ms, before, token);
      assert (ms + more)[..|ms + more| - 1] == ms + before;
      RefinesTicketLock(ms + before);
      StaleStep(Run(ms + before), TicketRun(ms + before), more[|more| - 1], token);
    }
    RefinesTicketLock(ms + more);
    StaleStep(Run(ms + more), TicketRun(ms + more), Release(token), token);
  }

  /** Progress: releasing the current token grants the next one to the longest-waiting agent at once. */
  lemma ReleaseHandsOver(ms: seq<Msg>)
    requires Run(ms).server.held.Some?
    ensures var (w, w') := (Run(ms), Next(Run(ms), Release(Run(ms).server.held.value.token)));
            if w.server.waiters == [] then w'.server.held == None && w'.grants == w.grants
            else
              && |w.grants| < |w.asked|
              && w'.server.held == Some(Holder(w.asked[|w.grants|], |w.grants| + 1))
              && w'.grants == w.grants + [Grant(|w.grants|, |w.grants| + 1)]
  {
    RefinesTicketLock(ms);
  }

  class SharedGpuStateCoordinator {
    var counter: nat
    var waiters: seq<Waiter>
    var held: Option<Holder>

    function Model(): State reads this {
      State(counter, waiters, held)
    }

    constructor ()
      ensures Model() == State(0, [], None)
    {
      counter, waiters, held := 0, [], None;
    }

    method IssueToken(agent: AgentId, reply: nat) returns (sent: Grant)
      modifies this
      ensures (Model(), Some(sent)) == Issue(old(Model()), Waiter(agent, reply))
    {
      counter := counter + 1;
      held := Some(Holder(agent, counter));
      sent := Grant(reply, counter);
    }

    method AcquireWrite(agent: AgentId, reply: nat) returns (sent: Option<Grant>)
      modifies this
      ensures (Model(), sent) == Step(old(Model()), Acquire(agent), reply)
    {
      sent := None;
      if held.None? {
        var g := IssueToken(agent, reply);
        sent := Some(g);
      } else {
        waiters := waiters + [Waiter(agent, reply)];
      }
    }

    method ReleaseWrite(token: nat) returns (sent: Option<Grant>)
      modifies this
      ensures (Model(), sent) == Step(old(Model()), Release(token), 0)
    {
      sent := None;
      if held.Some? && held.value.token == token {
        held := None;
        if waiters != [] {
          var next := waiters[0];
          waiters := waiters[1..];
          var g := IssueToken(next.agent, next.request);
          sent := Some(g);
        }
      }
    }
  }
}
