/** The single-flight lock of the answer cache: SET NX with a time to live, a release that compares
    tokens, and connections on which commands execute late but in order. */
module CacheLock {
  import opened Common
  import opened Runs

  const LOCK_TTL := 15_000
  const MAX_WAIT := 10_000
  const POLL_INTERVAL := 100

  /** The token is the request's own: no other request ever has it. */
  datatype Lock = Lock(token: nat, expiresAt: int)

  datatype Command = SetNx(key: string, token: nat) | Release(key: string, token: nat)

  datatype Outcome = Acquired | Held | Unavailable

  datatype Phase = Acquiring | Working(outcome: Outcome) | Finished(outcome: Outcome) | Dead

  /** `reply` is what Redis answered, whether or not the request was still listening; `setAt` is
      when its SET executed. */
  datatype Request = Request(key: string, connection: nat, phase: Phase, reply: Option<bool>, setAt: int)

  datatype State = State(
    now: int, locks: map<string, Lock>, queues: map<nat, seq<Command>>, requests: map<nat, Request>, nextRequest: nat)

  function Init(now: int): State {
    State(now, map[], map[], map[], 0)
  }

  datatype Event =
    | Tick(to: int)
    | Acquire(key: string, connection: nat)
    | Execute(connection: nat)
    | Answer(r: nat)
    | Timeout(r: nat)
    | Leave(r: nat)
    | Crash(r: nat)

  function Queue(s: State, c: nat): seq<Command> {
    if c in s.queues then s.queues[c] else []
  }

  predicate Live(l: Lock, now: int) {
    now < l.expiresAt
  }

  function Send(s: State, c: nat, command: Command): State {
    s.(queues := s.queues[c := Queue(s, c) + [command]])
  }

  function ExecSetNx(s: State, key: string, r: nat): State {
    var free := key !in s.locks || !Live(s.locks[key], s.now);
    var answered := if r in s.requests then s.requests[r := s.requests[r].(reply := Some(free), setAt := s.now)] else s.requests;
    s.(locks := if free then s.locks[key := Lock(r, s.now + LOCK_TTL)] else s.locks, requests := answered)
  }

  /** GET, compare and DEL in one script; reading an expired lock drops it. */
  function ExecRelease(s: State, key: string, r: nat): State {
    if key in s.locks && (s.locks[key].token == r || !Live(s.locks[key], s.now)) then s.(locks := s.locks - {key}) else s
  }

  function To(s: State, r: nat, p: Phase): State
    requires r in s.requests
  {
    s.(requests := s.requests[r := s.requests[r].(phase := p)])
  }

  function Apply(s: State, e: Event): Option<State> {
    match e
    case Tick(to) => if s.now <= to then Some(s.(now := to)) else None
    case Acquire(key, c) =>
      var r := s.nextRequest;
      Some(Send(s.(requests := s.requests[r := Request(key, c, Acquiring, None, 0)], nextRequest := r + 1), c, SetNx(key, r)))
    case Execute(c) =>
      if Queue(s, c) == [] then None
      else
        var rest := s.(queues := s.queues[c := Queue(s, c)[1..]]);
        var head := Queue(s, c)[0];
        Some(if head.SetNx? then ExecSetNx(rest, head.key, head.token) else ExecRelease(rest, head.key, head.token))
    case Answer(r) =>
      if r in s.requests && s.requests[r].phase.Acquiring? && s.requests[r].reply.Some? then
        Some(To(s, r, Working(if s.requests[r].reply.value then Acquired else Held)))
      else None
    case Timeout(r) =>
      if r in s.requests && s.requests[r].phase.Acquiring? then Some(To(s, r, Working(Unavailable))) else None
    case Leave(r) =>
      // The finally block: whoever was not told "held" releases, and does not wait for the reply.
      if r !in s.requests || !s.requests[r].phase.Working? then None
      else
        var q := s.requests[r];
        var left := To(s, r, Finished(q.phase.outcome));
        Some(if q.phase.outcome == Held then left else Send(left, q.connection, Release(q.key, r)))
    case Crash(r) =>
      if r in s.requests && !s.requests[r].phase.Finished? then Some(To(s, r, Dead)) else None
  }

  function Exec(s: State, es: seq<Event>): Option<State> {
    Run(Apply, s, es)
  }

  // ---------------------------------------------------------------- what every state keeps

  /** May a lock with this token exist once the queue has executed, given whether one may now? */
  function MayHold(queue: seq<Command>, holds: bool, token: nat): bool
    decreases |queue|
  {
    if queue == [] then holds
    else MayHold(queue[1..], if queue[0].token == token then queue[0].SetNx? else holds, token)
  }

  predicate HoldsLock(locks: map<string, Lock>, token: nat) {
    exists k | k in locks :: locks[k].token == token
  }

  predicate Releases(q: Request) {
    q.phase.Finished? && q.phase.outcome != Held
  }

  /** A command was sent by the request it names, on its connection and for its key; a release
      only once the request had left the pipeline. */
  predicate CommandOk(s: State, c: nat, command: Command) {
    && command.token in s.requests
    && s.requests[command.token].connection == c && s.requests[command.token].key == command.key
    && (command.Release? ==> Releases(s.requests[command.token]))
  }

  predicate LockOk(s: State, k: string, l: Lock) {
    && l.token in s.requests && s.requests[l.token].key == k
    && s.requests[l.token].reply == Some(true) && l.expiresAt == s.requests[l.token].setAt + LOCK_TTL
  }

  /** Redis gave this request the lock and has not executed a release of it yet. */
  predicate Owns(s: State, r: nat, q: Request) {
    q.reply == Some(true) && (!Releases(q) || Release(q.key, r) in Queue(s, q.connection))
  }

  /** A request that owns the lock still holds it, until it expires; one that
      has left without being told "held" will hold nothing once its queue has drained. */
  predicate RequestOk(s: State, r: nat, q: Request) {
    && r < s.nextRequest
    && (Owns(s, r, q) && s.now < q.setAt + LOCK_TTL ==>
          q.key in s.locks && s.locks[q.key] == Lock(r, q.setAt + LOCK_TTL))
    && (q.phase == Working(Acquired) ==> q.reply == Some(true))
    && (q.phase == Working(Held) || q.phase == Finished(Held) ==> q.reply == Some(false))
    && (Releases(q) ==> !MayHold(Queue(s, q.connection), HoldsLock(s.locks, r), r))
    && (q.reply.Some? ==> SetNx(q.key, r) !in Queue(s, q.connection))
  }

  ghost predicate CommandsAreUnique(queue: seq<Command>) {
    forall i, j | 0 <= i < j < |queue| :: queue[i] != queue[j]
  }

  ghost predicate Inv(s: State) {
    && (forall r | r in s.requests :: RequestOk(s, r, s.requests[r]))
    && (forall k | k in s.locks :: LockOk(s, k, s.locks[k]))
    && (forall c, i | c in s.queues && 0 <= i < |s.queues[c]| :: CommandOk(s, c, s.queues[c][i]))
    && (forall c | c in s.queues :: CommandsAreUnique(s.queues[c]))
  }

  lemma {:induction false} MayHoldSnoc(queue: seq<Command>, holds: bool, token: nat, command: Command)
    ensures MayHold(queue + [command], holds, token) == if command.token == token then command.SetNx? else MayHold(queue, holds, token)
    decreases |queue|
  {
    if queue == [] {
      assert queue + [command] == [command];
    } else {
      assert (queue + [command])[1..] == queue[1..] + [command];
      MayHoldSnoc(queue[1..], if queue[0].token == token then queue[0].SetNx? else holds, token, command);
    }
  }

  lemma {:induction false} MayHoldMonotone(queue: seq<Command>, fewer: bool, more: bool, token: nat)
    requires fewer ==> more
    ensures MayHold(queue, fewer, token) ==> MayHold(queue, more, token)
    decreases |queue|
  {
    if queue != [] {
      var head := queue[0];
      MayHoldMonotone(queue[1..], if head.token == token then head.SetNx? else fewer, if head.token == token then head.SetNx? else more, token);
    }
  }

  /** A step that touches one request and no lock or queue, or only time. */
  lemma PhaseKeepsInv(s: State, r: nat, p: Phase)
    requires Inv(s) && r in s.requests && !s.requests[r].phase.Finished? && !p.Finished?
    requires p == Working(Acquired) ==> s.requests[r].reply == Some(true)
    requires p == Working(Held) ==> s.requests[r].reply == Some(false)
    ensures Inv(To(s, r, p))
  {
    var s' := To(s, r, p);
    forall o | o in s'.requests ensures RequestOk(s', o, s'.requests[o]) {
      assert RequestOk(s, o, s.requests[o]);
    }
    forall k | k in s'.locks ensures LockOk(s', k, s'.locks[k]) {
      assert LockOk(s, k, s.locks[k]);
    }
    forall c, i | c in s'.queues && 0 <= i < |s'.queues[c]| ensures CommandOk(s', c, s'.queues[c][i]) {
      assert CommandOk(s, c, s.queues[c][i]);
    }
  }

  lemma TickKeepsInv(s: State, to: int)
    requires Inv(s) && s.now <= to
    ensures Inv(s.(now := to))
  {
    var s' := s.(now := to);
    forall o | o in s'.requests ensures RequestOk(s', o, s'.requests[o]) {
      assert RequestOk(s, o, s.requests[o]);
    }
    forall k | k in s'.locks ensures LockOk(s', k, s'.locks[k]) {
      assert LockOk(s, k, s.locks[k]);
    }
    forall c, i | c in s'.queues && 0 <= i < |s'.queues[c]| ensures CommandOk(s', c, s'.queues[c][i]) {
      assert CommandOk(s, c, s.queues[c][i]);
    }
  }

  /** Sending a command for a request whose record was just set. */
  lemma SendKeepsInv(s: State, s': State, r: nat, command: Command)
    requires Inv(s) && r in s'.requests && r < s'.nextRequest && s.nextRequest <= s'.nextRequest
    requires var q := s'.requests[r];
             && command.token == r && command.key == q.key
             && (r in s.requests ==> s.requests[r].connection == q.connection && s.requests[r].key == q.key
                                     && s.requests[r].reply == q.reply && s.requests[r].setAt == q.setAt && !s.requests[r].phase.Finished?)
             && (command.SetNx? ==> r !in s.requests && q.phase == Acquiring && q.reply == None)
             && (command.Release? ==> r in s.requests && Releases(q))
             && q.phase != Finished(Held) && q.phase != Working(Held) && q.phase != Working(Acquired)
             && s' == Send(s.(requests := s.requests[r := q], nextRequest := s'.nextRequest), q.connection, command)
    ensures Inv(s')
  {
    var q := s'.requests[r];
    var queue := Queue(s, q.connection);
    forall o | o in s'.requests ensures RequestOk(s', o, s'.requests[o]) {
      if o in s.requests {
        assert RequestOk(s, o, s.requests[o]);
      }
      MayHoldSnoc(queue, HoldsLock(s.locks, o), o, command);
    }
    forall k | k in s'.locks ensures LockOk(s', k, s'.locks[k]) {
      assert LockOk(s, k, s.locks[k]);
    }
    forall c, i | c in s'.queues && 0 <= i < |s'.queues[c]| ensures CommandOk(s', c, s'.queues[c][i]) {
      if c in s.queues && i < |s.queues[c]| {
        assert CommandOk(s, c, s.queues[c][i]);
      }
    }
    forall i | 0 <= i < |queue| ensures queue[i] != command {
      assert CommandOk(s, q.connection, queue[i]);
    }
  }

  function Dequeued(s: State, c: nat): State
    requires Queue(s, c) != []
  {
    s.(queues := s.queues[c := Queue(s, c)[1..]])
  }

  lemma RestIsOk(s: State, c: nat)
    requires Inv(s) && Queue(s, c) != []
    ensures forall d, i | d in Dequeued(s, c).queues && 0 <= i < |Dequeued(s, c).queues[d]| :: CommandOk(s, d, Dequeued(s, c).queues[d][i])
    ensures forall d | d in Dequeued(s, c).queues :: CommandsAreUnique(Dequeued(s, c).queues[d])
    ensures CommandOk(s, c, Queue(s, c)[0])
    ensures Queue(s, c)[0] !in Queue(s, c)[1..]
  {
    var queue := s.queues[c];
    assert CommandOk(s, c, queue[0]);
    forall d, i | d in Dequeued(s, c).queues && 0 <= i < |Dequeued(s, c).queues[d]| ensures CommandOk(s, d, Dequeued(s, c).queues[d][i]) {
      assert Dequeued(s, c).queues[d][i] == if d == c then queue[i + 1] else s.queues[d][i];
    }
    assert CommandsAreUnique(queue);
    forall i, j | 0 <= i < j < |queue[1..]| ensures queue[1..][i] != queue[1..][j] {
      assert queue[1..][i] == queue[i + 1] && queue[1..][j] == queue[j + 1];
    }
  }

  /** A queue that is one command further along, and locks a token can only have lost. */
  lemma OthersStayOk(s: State, s': State, c: nat, o: nat)
    requires Queue(s, c) != [] && o in s.requests && RequestOk(s, o, s.requests[o])
    requires s'.now == s.now && s'.nextRequest == s.nextRequest && s'.queues == Dequeued(s, c).queues
    requires o in s'.requests && s'.requests[o] == s.requests[o] && Queue(s, c)[0].token != o
    requires HoldsLock(s'.locks, o) ==> HoldsLock(s.locks, o)
    requires var k := s.requests[o].key; k in s.locks && s.locks[k].token == o && Live(s.locks[k], s.now) ==> k in s'.locks && s'.locks[k] == s.locks[k]
    ensures RequestOk(s', o, s'.requests[o])
  {
    MayHoldMonotone(Queue(s', s.requests[o].connection), HoldsLock(s'.locks, o), HoldsLock(s.locks, o), o);
  }

  lemma SetNxKeepsOwn(s: State, c: nat)
    requires Inv(s) && Queue(s, c) != [] && Queue(s, c)[0].SetNx?
    ensures var command := Queue(s, c)[0];
            var s' := ExecSetNx(Dequeued(s, c), command.key, command.token);
            && command.token in s'.requests && RequestOk(s', command.token, s'.requests[command.token])
            && !HoldsLock(s.locks, command.token)
  {
    var command := Queue(s, c)[0];
    var r := command.token;
    var s' := ExecSetNx(Dequeued(s, c), command.key, r);
    RestIsOk(s, c);
    assert RequestOk(s, r, s.requests[r]);
    assert command in Queue(s, c);
    forall k | k in s.locks ensures s.locks[k].token != r {
      assert LockOk(s, k, s.locks[k]);
    }
    MayHoldMonotone(Queue(s', c), HoldsLock(s'.locks, r), true, r);
  }

  lemma SetNxKeepsInv(s: State, c: nat)
    requires Inv(s) && Queue(s, c) != [] && Queue(s, c)[0].SetNx?
    ensures Inv(ExecSetNx(Dequeued(s, c), Queue(s, c)[0].key, Queue(s, c)[0].token))
  {
    var command := Queue(s, c)[0];
    var r := command.token;
    var s' := ExecSetNx(Dequeued(s, c), command.key, r);
    RestIsOk(s, c);
    SetNxKeepsOwn(s, c);
    forall k | k in s'.locks ensures LockOk(s', k, s'.locks[k]) {
      if k in s.locks {
        assert LockOk(s, k, s.locks[k]) && s.locks[k].token != r;
      }
    }
    forall o | o in s'.requests ensures RequestOk(s', o, s'.requests[o]) {
      if o != r {
        SetNxSparesOthers(s, c, o);
      }
    }
    forall d, i | d in s'.queues && 0 <= i < |s'.queues[d]| ensures CommandOk(s', d, s'.queues[d][i]) {
      assert CommandOk(s, d, Dequeued(s, c).queues[d][i]);
    }
  }

  lemma SetNxSparesOthers(s: State, c: nat, o: nat)
    requires Inv(s) && Queue(s, c) != [] && Queue(s, c)[0].SetNx? && o in s.requests && o != Queue(s, c)[0].token
    ensures var s' := ExecSetNx(Dequeued(s, c), Queue(s, c)[0].key, Queue(s, c)[0].token);
            o in s'.requests && RequestOk(s', o, s'.requests[o])
  {
    var s' := ExecSetNx(Dequeued(s, c), Queue(s, c)[0].key, Queue(s, c)[0].token);
    assert RequestOk(s, o, s.requests[o]);
    assert forall k | k in s'.locks && s'.locks[k].token == o :: k in s.locks && s.locks[k].token == o;
    OthersStayOk(s, s', c, o);
  }

  lemma ReleaseKeepsOwn(s: State, c: nat)
    requires Inv(s) && Queue(s, c) != [] && Queue(s, c)[0].Release?
    ensures var command := Queue(s, c)[0];
            var s' := ExecRelease(Dequeued(s, c), command.key, command.token);
            command.token in s'.requests && RequestOk(s', command.token, s'.requests[command.token]) && !HoldsLock(s'.locks, command.token)
  {
    var command := Queue(s, c)[0];
    var r := command.token;
    var s' := ExecRelease(Dequeued(s, c), command.key, r);
    RestIsOk(s, c);
    assert RequestOk(s, r, s.requests[r]);
    forall k | k in s'.locks ensures s'.locks[k].token != r {
      assert LockOk(s, k, s.locks[k]);
    }
  }

  lemma ReleaseKeepsInv(s: State, c: nat)
    requires Inv(s) && Queue(s, c) != [] && Queue(s, c)[0].Release?
    ensures Inv(ExecRelease(Dequeued(s, c), Queue(s, c)[0].key, Queue(s, c)[0].token))
  {
    var command := Queue(s, c)[0];
    var s' := ExecRelease(Dequeued(s, c), command.key, command.token);
    RestIsOk(s, c);
    ReleaseKeepsOwn(s, c);
    forall o | o in s'.requests ensures RequestOk(s', o, s'.requests[o]) {
      if o != command.token {
        assert forall k | k in s'.locks :: k in s.locks && s'.locks[k] == s.locks[k];
        OthersStayOk(s, s', c, o);
      }
    }
    forall k | k in s'.locks ensures LockOk(s', k, s'.locks[k]) {
      assert LockOk(s, k, s.locks[k]);
    }
    forall d, i | d in s'.queues && 0 <= i < |s'.queues[d]| ensures CommandOk(s', d, s'.queues[d][i]) {
      assert CommandOk(s, d, Dequeued(s, c).queues[d][i]);
    }
  }

  lemma AcquireKeepsInv(s: State, key: string, c: nat)
    requires Inv(s)
    ensures Inv(Apply(s, Acquire(key, c)).value)
  {
    var r := s.nextRequest;
    assert r !in s.requests by {
      assert forall o | o in s.requests :: RequestOk(s, o, s.requests[o]);
    }
    SendKeepsInv(s, Apply(s, Acquire(key, c)).value, r, SetNx(key, r));
  }

  lemma LeaveKeepsInv(s: State, r: nat)
    requires Inv(s) && Apply(s, Leave(r)).Some?
    ensures Inv(Apply(s, Leave(r)).value)
  {
    var s' := Apply(s, Leave(r)).value;
    if s.requests[r].phase.outcome == Held {
      HeldLeaves(s, r);
    } else {
      SendKeepsInv(s, s', r, Release(s.requests[r].key, r));
    }
  }

  lemma HeldLeaves(s: State, r: nat)
    requires Inv(s) && r in s.requests && s.requests[r].phase == Working(Held)
    ensures Inv(To(s, r, Finished(Held)))
  {
    var s' := To(s, r, Finished(Held));
    forall o | o in s'.requests ensures RequestOk(s', o, s'.requests[o]) {
      assert RequestOk(s, o, s.requests[o]);
    }
    forall k | k in s'.locks ensures LockOk(s', k, s'.locks[k]) {
      assert LockOk(s, k, s.locks[k]);
    }
    forall c, i | c in s'.queues && 0 <= i < |s'.queues[c]| ensures CommandOk(s', c, s'.queues[c][i]) {
      assert CommandOk(s, c, s.queues[c][i]);
    }
  }

  lemma ApplyKeepsInv(s: State, e: Event)
    requires Inv(s) && Apply(s, e).Some?
    ensures Inv(Apply(s, e).value)
  {
    match e
    case Tick(to) => TickKeepsInv(s, to);
    case Acquire(key, c) => AcquireKeepsInv(s, key, c);
    case Execute(c) =>
      if Queue(s, c)[0].SetNx? {
        SetNxKeepsInv(s, c);
      } else {
        ReleaseKeepsInv(s, c);
      }
    case Answer(r) => PhaseKeepsInv(s, r, Working(if s.requests[r].reply.value then Acquired else Held));
    case Timeout(r) => PhaseKeepsInv(s, r, Working(Unavailable));
    case Leave(r) => LeaveKeepsInv(s, r);
    case Crash(r) => PhaseKeepsInv(s, r, Dead);
  }

  lemma RunKeepsInv(s: State, es: seq<Event>)
    requires Inv(s) && Exec(s, es).Some?
    ensures Inv(Exec(s, es).value)
  {
    forall t, e | Inv(t) && Apply(t, e).Some? ensures Inv(Apply(t, e).value) {
      ApplyKeepsInv(t, e);
    }
    RunKeeps(Apply, t => Inv(t), s, es);
  }

  ghost predicate Reachable(s: State) {
    exists now, es :: Exec(Init(now), es) == Some(s)
  }

  lemma ReachableInv(s: State)
    requires Reachable(s)
    ensures Inv(s)
  {
    var now, es :| Exec(Init(now), es) == Some(s);
    RunKeepsInv(Init(now), es);
  }

  // ---------------------------------------------------------------- lock safety

  predicate InPipeline(s: State, r: nat) {
    r in s.requests && s.requests[r].phase == Working(Acquired)
  }

  /** Two requests that were both given one lock are in the pipeline together only if one of them
      has outlived its time to live. So while every holder leaves in time there is at most one. */
  lemma AtMostOneInTime(s: State, a: nat, b: nat)
    requires Reachable(s) && InPipeline(s, a) && InPipeline(s, b) && a != b && s.requests[a].key == s.requests[b].key
    ensures s.requests[a].setAt + 15_000 <= s.now || s.requests[b].setAt + 15_000 <= s.now
  {
    ReachableInv(s);
    assert RequestOk(s, a, s.requests[a]) && RequestOk(s, b, s.requests[b]);
  }

  /** A live lock disappears or changes hands only when Redis executes a release that its own
      request sent on leaving the pipeline. */
  lemma OnlyOwnerReleases(s: State, e: Event, k: string)
    requires Reachable(s) && Apply(s, e).Some? && k in s.locks && Live(s.locks[k], s.now)
    requires k !in Apply(s, e).value.locks || Apply(s, e).value.locks[k] != s.locks[k]
    ensures e.Execute? && Queue(s, e.connection) != [] && Queue(s, e.connection)[0] == Release(k, s.locks[k].token)
    ensures s.locks[k].token in s.requests && Releases(s.requests[s.locks[k].token])
  {
    ReachableInv(s);
    if e.Execute? {
      RestIsOk(s, e.connection);
    }
  }

  /** Once its connection's queue has drained, a request that left after being told "unavailable" or
      "acquired" holds no lock, even if its SET executed after it had stopped listening. */
  lemma DrainedHoldsNothing(s: State, r: nat)
    requires Reachable(s) && r in s.requests && Releases(s.requests[r]) && Queue(s, s.requests[r].connection) == []
    ensures forall k | k in s.locks :: s.locks[k].token != r
  {
    ReachableInv(s);
    assert RequestOk(s, r, s.requests[r]);
  }

  /** A request told "held" never owned the lock, so not releasing is right. */
  lemma HeldOwnsNothing(s: State, r: nat, k: string)
    requires Reachable(s) && r in s.requests && k in s.locks
    requires s.requests[r].phase == Working(Held) || s.requests[r].phase == Finished(Held)
    ensures s.locks[k].token != r
  {
    ReachableInv(s);
    assert RequestOk(s, r, s.requests[r]) && LockOk(s, k, s.locks[k]);
  }

  lemma {:induction false} OnlyReleaseClears(queue: seq<Command>, token: nat)
    requires !MayHold(queue, true, token)
    ensures exists i :: 0 <= i < |queue| && queue[i].Release? && queue[i].token == token
    decreases |queue|
  {
    if queue[0].token != token || queue[0].SetNx? {
      OnlyReleaseClears(queue[1..], token);
      var i :| 0 <= i < |queue[1..]| && queue[1..][i].Release? && queue[1..][i].token == token;
      assert queue[i + 1] == queue[1..][i];
    }
  }

  /** A lock that is there is owned by the request whose token it carries. */
  lemma HolderOwns(s: State, k: string)
    requires Inv(s) && k in s.locks
    ensures s.locks[k].token in s.requests
    ensures var r := s.locks[k].token; s.requests[r].key == k && Owns(s, r, s.requests[r]) && s.locks[k].expiresAt == s.requests[r].setAt + LOCK_TTL
  {
    var r := s.locks[k].token;
    assert LockOk(s, k, s.locks[k]) && RequestOk(s, r, s.requests[r]);
    var c := s.requests[r].connection;
    if Releases(s.requests[r]) {
      OnlyReleaseClears(Queue(s, c), r);
      var i :| 0 <= i < |Queue(s, c)| && Queue(s, c)[i].Release? && Queue(s, c)[i].token == r;
      assert CommandOk(s, c, Queue(s, c)[i]);
      assert Queue(s, c)[i] == Release(k, r);
    }
  }

  /** Every request that owns the lock has outlived its time to live. */
  ghost predicate NobodyOwns(s: State, key: string) {
    forall o | o in s.requests && s.requests[o].key == key && Owns(s, o, s.requests[o]) :: s.requests[o].setAt + 15_000 <= s.now
  }

  lemma FreeIffNobodyOwns(s: State, key: string)
    requires Inv(s)
    ensures (key in s.locks ==> !Live(s.locks[key], s.now)) <==> NobodyOwns(s, key)
  {
    if key in s.locks && Live(s.locks[key], s.now) {
      HolderOwns(s, key);
    } else {
      forall o | o in s.requests && s.requests[o].key == key && Owns(s, o, s.requests[o]) ensures s.requests[o].setAt + 15_000 <= s.now {
        assert RequestOk(s, o, s.requests[o]);
      }
    }
  }

  /** Exactly when a lock is given: a SET NX succeeds if and only if every request that owns the
      lock, given it and with no release executed since, has outlived its time to live. */
  lemma GivenIffNoLiveOwner(s: State, c: nat)
    requires Reachable(s) && Queue(s, c) != [] && Queue(s, c)[0].SetNx?
    ensures Apply(s, Execute(c)).Some?
    ensures var command := Queue(s, c)[0];
            var s' := Apply(s, Execute(c)).value;
            && command.token in s'.requests && s'.requests[command.token].reply.Some?
            && (s'.requests[command.token].reply.value <==>
                forall o | o in s.requests && s.requests[o].key == command.key && Owns(s, o, s.requests[o]) ::
                  s.requests[o].setAt + 15_000 <= s.now)
  {
    ReachableInv(s);
    RestIsOk(s, c);
    FreeIffNobodyOwns(s, Queue(s, c)[0].key);
  }

  // ---------------------------------------------------------------- a request on its own

  lemma Then(s: State, es: seq<Event>, t: State, e: Event, u: State)
    requires Exec(s, es) == Some(t) && Apply(t, e) == Some(u)
    ensures Exec(s, es + [e]) == Some(u)
  {
    RunSnoc(Apply, s, es, e);
  }

  /** A request that asks on a drained connection and waits for the reply is told "acquired" and has
      the lock for fifteen seconds if nobody owns it, and "held" otherwise. */
  lemma AcquireRunsAlone(s: State, key: string, c: nat)
    requires Reachable(s) && Queue(s, c) == []
    ensures var r, free := s.nextRequest, NobodyOwns(s, key);
            var t := Exec(s, [Acquire(key, c), Execute(c), Answer(r)]);
            && t.Some? && r in t.value.requests && t.value.now == s.now && Queue(t.value, c) == []
            && t.value.requests[r].phase == Working(if free then Acquired else Held)
            && t.value.locks == if free then s.locks[key := Lock(r, s.now + 15_000)] else s.locks
  {
    ReachableInv(s);
    FreeIffNobodyOwns(s, key);
    var r := s.nextRequest;
    var sent := Apply(s, Acquire(key, c)).value;
    assert Queue(sent, c) == [SetNx(key, r)];
    var executed := Apply(sent, Execute(c)).value;
    assert Exec(s, []) == Some(s);
    Then(s, [], s, Acquire(key, c), sent);
    Then(s, [] + [Acquire(key, c)], sent, Execute(c), executed);
    Then(s, [] + [Acquire(key, c)] + [Execute(c)], executed, Answer(r), Apply(executed, Answer(r)).value);
    assert [] + [Acquire(key, c)] + [Execute(c)] + [Answer(r)] == [Acquire(key, c), Execute(c), Answer(r)];
  }

  /** One that leaves the pipeline with the lock still its own takes it away, and nobody else's. */
  lemma LeaveRunsAlone(s: State, r: nat)
    requires Reachable(s) && InPipeline(s, r) && Queue(s, s.requests[r].connection) == []
    ensures var q := s.requests[r];
            var t := Exec(s, [Leave(r), Execute(q.connection)]);
            && t.Some? && t.value.requests == s.requests[r := q.(phase := Finished(Acquired))] && Queue(t.value, q.connection) == []
            && (forall k | k != q.key :: k in t.value.locks <==> k in s.locks)
            && (forall k | k in t.value.locks :: k in s.locks && t.value.locks[k] == s.locks[k] && t.value.locks[k].token != r)
            && (q.key in s.locks && Live(s.locks[q.key], s.now) && s.locks[q.key].token != r ==> q.key in t.value.locks)
  {
    ReachableInv(s);
    var q := s.requests[r];
    var left := Apply(s, Leave(r)).value;
    assert Queue(left, q.connection) == [Release(q.key, r)];
    var executed := Apply(left, Execute(q.connection)).value;
    assert Exec(s, []) == Some(s);
    Then(s, [], s, Leave(r), left);
    Then(s, [] + [Leave(r)], left, Execute(q.connection), executed);
    assert [] + [Leave(r)] + [Execute(q.connection)] == [Leave(r), Execute(q.connection)];
    forall k | k in s.locks && s.locks[k].token == r ensures k == q.key {
      assert LockOk(s, k, s.locks[k]);
    }
  }

  // ---------------------------------------------------------------- where it stops

  lemma Step(s: State, e: Event) returns (s': State)
    requires Reachable(s) && Apply(s, e).Some?
    ensures Reachable(s') && s' == Apply(s, e).value
  {
    var now, es :| Exec(Init(now), es) == Some(s);
    RunSnoc(Apply, Init(now), es, e);
    s' := Apply(s, e).value;
    assert Exec(Init(now), es + [e]) == Some(s');
  }

  /** A request that finds no live lock takes it. */
  lemma Takes(s: State, c: nat) returns (s': State)
    requires Reachable(s) && Queue(s, c) == [] && ("k" in s.locks ==> !Live(s.locks["k"], s.now)) && s.nextRequest !in s.requests
    ensures Reachable(s') && s'.now == s.now && s'.nextRequest == s.nextRequest + 1
    ensures s'.locks == s.locks["k" := Lock(s.nextRequest, s.now + LOCK_TTL)] && Queue(s', c) == []
    ensures s'.requests == s.requests[s.nextRequest := Request("k", c, Working(Acquired), Some(true), s.now)]
  {
    var r := s.nextRequest;
    var sent := Step(s, Acquire("k", c));
    assert Queue(sent, c) == [SetNx("k", r)] && sent.requests[r] == Request("k", c, Acquiring, None, 0);
    var executed := Step(sent, Execute(c));
    assert executed.requests[r] == Request("k", c, Acquiring, Some(true), s.now);
    s' := Step(executed, Answer(r));
    assert s'.requests == s.requests[r := Request("k", c, Working(Acquired), Some(true), s.now)];
  }

  /** A holder that outlives the time to live can be joined by a second one. */
  lemma ExpiredHolderIsJoined() returns (s: State)
    ensures Reachable(s) && InPipeline(s, 0) && InPipeline(s, 1) && s.requests[0].key == s.requests[1].key
  {
    assert Exec(Init(0), []) == Some(Init(0));
    var first := Takes(Init(0), 0);
    var later := Step(first, Tick(LOCK_TTL));
    s := Takes(later, 0);
  }

  // ---------------------------------------------------------------- waiting

  /** Poll `i` happens if all earlier ones found no entry and the lock still there, in time. */
  ghost predicate Polls<T(!new)>(deadline: int, clock: nat -> int, seen: nat -> Option<T>, held: nat -> Option<bool>, i: nat) {
    clock(i) < deadline && forall j: nat | j < i :: clock(j) < deadline && seen(j).None? && held(j) == Some(true)
  }

  /** Waits for the holder's entry. `clock(i)`, `seen(i)` and `held(i)` are what the clock, the
      entry and the lock show at poll `i`; an error reads as a miss, or ends the wait. The result
      is the first entry seen; there is none exactly if no poll sees one before the deadline
      passes, the lock is gone, or Redis fails. At most a hundred polls are made. */
  method WaitForEntry<T(!new)>(start: int, clock: nat -> int, seen: nat -> Option<T>, held: nat -> Option<bool>)
    returns (entry: Option<T>, polls: nat)
    requires start <= clock(0) && forall i: nat, j: nat | j == i + 1 :: clock(i) + 100 <= clock(j)
    ensures entry.Some? <==> exists i: nat :: Polls(start + 10_000, clock, seen, held, i) && seen(i).Some?
    ensures entry.Some? ==> polls > 0 && Polls(start + 10_000, clock, seen, held, polls - 1) && seen(polls - 1) == entry
    ensures polls <= 100
  {
    var deadline := start + MAX_WAIT;
    polls := 0;
    while clock(polls) < deadline
      invariant start + polls * POLL_INTERVAL <= clock(polls)
      invariant forall j: nat | j < polls :: clock(j) < deadline && seen(j).None? && held(j) == Some(true)
      invariant polls <= MAX_WAIT / POLL_INTERVAL
      decreases deadline - clock(polls)
    {
      var i := polls;
      polls := polls + 1;
      assert clock(i) + POLL_INTERVAL <= clock(polls);
      if seen(i).Some? {
        assert Polls(deadline, clock, seen, held, i);
        return seen(i), polls;
      }
      if held(i) != Some(true) {
        return None, polls;
      }
    }
    return None, polls;
  }
}
