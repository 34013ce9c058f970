/** Charging for answers: any number of requests looking up a replay, reserving a unit, producing,
    persisting and refunding, interleaved statement by statement, with crashes anywhere.
    Every SQL statement and every transaction boundary is one event. */
module AnswerLedger {
  import opened Common
  import opened Runs
  import opened Quotas

  // ---------------------------------------------------------------- rows and requests

  datatype Status = Answered | WasRefused | Escalated

  predicate IsBillableAnswer(s: Status) {
    s == Answered || s == WasRefused
  }

  datatype CacheOutcome = Hit | Miss | Bypass

  /** What a conversation row stores of an answer. */
  datatype Body = Body(text: string, citations: seq<nat>, status: Status, minDistance: Option<real>, cache: CacheOutcome)

  datatype Tokens = Tokens(prompt: Option<nat>, total: Option<nat>)

  const NO_TOKENS := Tokens(None, None)

  /** What only the response shows: the chunks retrieval returned, and why the answer escalated. */
  datatype Shown = Shown(chunks: seq<nat>, reason: Option<string>)

  const NOTHING := Shown([], None)

  /** A produced answer; the row keeps its body, the usage event its token counts. */
  datatype Answer = Answer(body: Body, tokens: Tokens, shown: Shown)

  datatype Delivery = Delivery(answer: Answer, replayed: bool)

  /** A committed row. `writer` remembers which request committed it. */
  datatype Conversation = Conversation(workspace: nat, key: Option<string>, body: Body, writer: nat)

  /** The usage event with key `conversation:<id>`. */
  datatype UsageEvent = UsageEvent(workspace: nat, billable: bool, tokens: Tokens, occurredAt: int)

  datatype Hold = NoHold | FreeOfLimit | UnitOf(quota: nat)

  /** Turned away by the quota: every period of the workspace has ended, or the current one is used up. */
  datatype Outcome = Delivers(delivery: Delivery) | QuotaExceeded(ended: bool) | Throws

  datatype Phase =
    | LookingUp
    | Reserving
    | ProbingCurrent
    | ProbingLatest
    | Producing
    | Inserting(answer: Answer)
    | Writing(answer: Answer, conversation: nat)
    | Lost
    | Escalating(answer: Answer)
    | Settling(outcome: Outcome)
    | Done(outcome: Outcome)
    | Dead

  /** `wrote` is the row this request committed, `refunds` how often it refunded, `unheard` whether
      its commit took effect although the request was told it failed. */
  datatype Request = Request(
    workspace: nat, key: Option<string>, hasSession: bool,
    hold: Hold, phase: Phase, wrote: Option<nat>, refunds: nat, unheard: bool)

  /** Bookkeeping about a quota row: where its counter stood at the last reconciliation, and which
      requests and rows came after. */
  datatype Book = Book(workspace: nat, base: nat, sinceRequest: nat, sinceRow: nat)

  datatype State = State(
    quotas: Table, books: map<nat, Book>,
    conversations: map<nat, Conversation>, keyIndex: map<(nat, string), nat>, events: map<nat, UsageEvent>,
    requests: map<nat, Request>,
    nextRow: nat, nextRequest: nat, now: int)

  function Init(now: int): State {
    State(map[], map[], map[], map[], map[], map[], 0, 0, now)
  }

  datatype Event =
    | Tick(to: int)
    | OpenPeriod(id: nat, ws: nat, allowance: nat, start: int, end: int)
    | Arrive(ws: nat, key: Option<string>, hasSession: bool)
    | ArriveEscalated(ws: nat, hasSession: bool, body: Body, reason: string)
    | LookUp(r: nat)
    | Reserve(r: nat, hit: Option<nat>)
    | ProbeCurrent(r: nat)
    | ProbeLatest(r: nat)
    | Produce(r: nat, answer: Answer)
    | Insert(r: nat)
    | Commit(r: nat)
    | CommitUnheard(r: nat)
    | Rollback(r: nat)
    | Replay(r: nat)
    | RecordEscalation(r: nat)
    | StatementFails(r: nat)
    | Settle(r: nat)
    | Crash(r: nat)
    | Reconcile(id: nat)

  // ---------------------------------------------------------------- the protocol

  function FindReplay(s: State, ws: nat, key: string): Option<Answer> {
    if (ws, key) in s.keyIndex && s.keyIndex[(ws, key)] in s.conversations then
      var c := s.keyIndex[(ws, key)];
      Some(Answer(s.conversations[c].body, if c in s.events then s.events[c].tokens else NO_TOKENS, NOTHING))
    else None
  }

  function With(s: State, r: nat, q: Request): State {
    s.(requests := s.requests[r := q])
  }

  function To(s: State, r: nat, p: Phase): State
    requires r in s.requests
  {
    With(s, r, s.requests[r].(phase := p))
  }

  predicate Finished(p: Phase) {
    p.Done? || p.Dead?
  }

  /** No request of the workspace is in flight. */
  predicate Quiescent(s: State, ws: nat) {
    forall r | r in s.requests && s.requests[r].workspace == ws :: Finished(s.requests[r].phase)
  }

  /** Another transaction holds an uncommitted row with the same unique key. */
  predicate KeyHeld(s: State, r: nat, ws: nat, key: Option<string>) {
    key.Some? && exists o | o in s.requests ::
      o != r && s.requests[o].phase.Writing? && s.requests[o].workspace == ws && s.requests[o].key == key
  }

  /** An answer is kept charged only if it is billable and fresh. */
  predicate KeepsUnit(o: Outcome) {
    o.Delivers? && !o.delivery.replayed && IsBillableAnswer(o.delivery.answer.body.status)
  }

  /** Billable events of the row's workspace that occurred within its period, by row id. */
  function Metered(s: State, id: nat, below: nat): set<nat>
    requires id in s.quotas
  {
    set c | c in s.events && c < below && s.events[c].billable && Covers(s.quotas[id], s.events[c].workspace, s.events[c].occurredAt)
  }

  /** The conversation row and its usage event, both or neither. */
  function Committed(s: State, r: nat, unheard: bool): State
    requires r in s.requests && s.requests[r].phase.Writing?
  {
    var q := s.requests[r];
    var a, c := q.phase.answer, q.phase.conversation;
    var after :=
      if unheard then Settling(Throws)
      else if a.body.status == Escalated && q.hasSession then Escalating(a)
      else Settling(Delivers(Delivery(a, false)));
    s.(conversations := s.conversations[c := Conversation(q.workspace, q.key, a.body, r)],
       keyIndex := if q.key.Some? then s.keyIndex[(q.workspace, q.key.value) := c] else s.keyIndex,
       events := if c in s.events then s.events
                 else s.events[c := UsageEvent(q.workspace, IsBillableAnswer(a.body.status), a.tokens, s.now)],
       requests := s.requests[r := q.(phase := after, wrote := Some(c), unheard := unheard)])
  }

  function Settled(s: State, r: nat): State
    requires r in s.requests && s.requests[r].phase.Settling?
  {
    var q := s.requests[r];
    var o := q.phase.outcome;
    if KeepsUnit(o) || !q.hold.UnitOf? then To(s, r, Done(o))
    else
      With(s, r, q.(phase := Done(o), refunds := q.refunds + 1)).(quotas := GiveBack(s.quotas, q.hold.quota))
  }

  /** A question, or one escalated without being answered, which reserves nothing and has no key. */
  function Arrival(e: Event): Request
    requires e.Arrive? || e.ArriveEscalated?
  {
    if e.Arrive? then Request(e.ws, e.key, e.hasSession, NoHold, if e.key.Some? then LookingUp else Reserving, None, 0, false)
    else Request(e.ws, None, e.hasSession, NoHold, Inserting(Answer(e.body, NO_TOKENS, Shown([], Some(e.reason)))), None, 0, false)
  }

  /** None when the event cannot happen in this state: a statement waits, or nobody would issue it. */
  function Apply(s: State, e: Event): Option<State> {
    match e
    case Tick(to) => if s.now <= to then Some(s.(now := to)) else None
    case OpenPeriod(id, ws, allowance, start, end) =>
      var row := Quota(ws, allowance, 0, start, end);
      if id !in s.quotas && allowance > 0 && start < end && forall j | j in s.quotas :: !Overlap(s.quotas[j], row) then
        Some(s.(quotas := s.quotas[id := row],
                books := s.books[id := Book(ws, 0, 0, 0)]))
      else None
    case Arrive(_, _, _) => Some(With(s, s.nextRequest, Arrival(e)).(nextRequest := s.nextRequest + 1))
    case ArriveEscalated(_, _, body, _) =>
      if body.status == Escalated then Some(With(s, s.nextRequest, Arrival(e)).(nextRequest := s.nextRequest + 1)) else None
    case Reconcile(id) =>
      if id in s.quotas && s.quotas[id].periodStart <= s.now < s.quotas[id].periodEnd && Quiescent(s, s.quotas[id].workspace) then
        var quotas := Recount(s.quotas, id, |Metered(s, id, s.nextRow)|);
        Some(s.(quotas := quotas, books := s.books[id := Book(quotas[id].workspace, quotas[id].used, s.nextRequest, s.nextRow)]))
      else None
    case _ => if e.r in s.requests then Advance(s, e, e.r, s.requests[e.r]) else None
  }

  /** One request's next statement. */
  function Advance(s: State, e: Event, r: nat, q: Request): Option<State>
    requires !e.Tick? && !e.OpenPeriod? && !e.Arrive? && !e.ArriveEscalated? && !e.Reconcile?
    requires r in s.requests && s.requests[r] == q
  {
    var p := q.phase;
    match e
    case LookUp(_) =>
      if !p.LookingUp? || q.key.None? then None
      else
        var prior := FindReplay(s, q.workspace, q.key.value);
        Some(To(s, r, if prior.Some? then Done(Delivers(Delivery(prior.value, true))) else Reserving))
    case Reserve(_, hit) =>
      if !p.Reserving? then None
      else if hit.Some? then
        if hit.value in s.quotas && Grants(s.quotas[hit.value], q.workspace, s.now) then
          Some(With(s, r, q.(hold := UnitOf(hit.value), phase := Producing)).(quotas := Charge(s.quotas, hit.value)))
        else None
      else if exists id | id in s.quotas :: Grants(s.quotas[id], q.workspace, s.now) then None
      else Some(To(s, r, ProbingCurrent))
    case ProbeCurrent(_) =>
      if !p.ProbingCurrent? then None
      else Some(To(s, r, if HasCurrent(s.quotas, q.workspace, s.now) then Done(QuotaExceeded(false)) else ProbingLatest))
    case ProbeLatest(_) =>
      if !p.ProbingLatest? then None
      else if HasAny(s.quotas, q.workspace) then Some(To(s, r, Done(QuotaExceeded(true))))
      else Some(With(s, r, q.(hold := FreeOfLimit, phase := Producing)))
    case Produce(_, answer) => if p.Producing? then Some(To(s, r, Inserting(answer))) else None
    case Insert(_) =>
      if !p.Inserting? || KeyHeld(s, r, q.workspace, q.key) then None
      else if q.key.Some? && (q.workspace, q.key.value) in s.keyIndex then Some(To(s, r, Lost))
      else Some(To(s, r, Writing(p.answer, s.nextRow)).(nextRow := s.nextRow + 1))
    case Commit(_) => if p.Writing? then Some(Committed(s, r, false)) else None
    case CommitUnheard(_) => if p.Writing? then Some(Committed(s, r, true)) else None
    case Rollback(_) => if p.Writing? then Some(To(s, r, Settling(Throws))) else None
    case Replay(_) =>
      if !p.Lost? || q.key.None? then None
      else
        var winner := FindReplay(s, q.workspace, q.key.value);
        Some(To(s, r, Settling(if winner.Some? then Delivers(Delivery(winner.value, true)) else Throws)))
    case RecordEscalation(_) => if p.Escalating? then Some(To(s, r, Settling(Delivers(Delivery(p.answer, false))))) else None
    case Settle(_) => if p.Settling? then Some(Settled(s, r)) else None
    case StatementFails(_) =>
      if p.LookingUp? || p.Reserving? || p.ProbingCurrent? || p.ProbingLatest? then Some(To(s, r, Done(Throws)))
      else if p.Producing? || p.Inserting? || p.Lost? || p.Escalating? then Some(To(s, r, Settling(Throws)))
      else None
    case Crash(_) => if Finished(p) then None else Some(To(s, r, Dead))
  }

  function Exec(s: State, es: seq<Event>): Option<State> {
    Run(Apply, s, es)
  }

  // ---------------------------------------------------------------- what every state keeps

  predicate Holds(q: Request, id: nat) {
    q.hold == UnitOf(id) && q.refunds == 0
  }

  /** Requests after the last reconciliation that took a unit of `id` and have not given it back. */
  function Holding(requests: map<nat, Request>, id: nat, since: nat): set<nat> {
    set r | r in requests && since <= r && Holds(requests[r], id)
  }

  /** The row `c` is the one `q` wrote or would find, and it says what `a` says. */
  predicate Stored(s: State, q: Request, c: nat, a: Answer) {
    && c in s.conversations && c in s.events
    && s.conversations[c].workspace == q.workspace && s.conversations[c].key == q.key
    && s.conversations[c].body == a.body && s.events[c].tokens == a.tokens
  }

  predicate DeliveryStored(s: State, q: Request, d: Delivery) {
    if d.replayed then
      && q.key.Some? && (q.workspace, q.key.value) in s.keyIndex
      && Stored(s, q, s.keyIndex[(q.workspace, q.key.value)], d.answer) && d.answer.shown == NOTHING
    else q.wrote.Some? && Stored(s, q, q.wrote.value, d.answer)
  }

  predicate WroteBillable(s: State, q: Request) {
    q.wrote.Some? && q.wrote.value in s.events && s.events[q.wrote.value].billable
  }

  predicate RequestOk(s: State, r: nat, q: Request) {
    && r < s.nextRequest
    && (q.hold.UnitOf? ==> q.hold.quota in s.quotas && s.quotas[q.hold.quota].workspace == q.workspace)
    && (q.wrote.Some? ==> WroteRow(s, r, q, q.wrote.value))
    && (q.unheard ==> q.wrote.Some?)
    && match q.phase {
      case LookingUp => q.key.Some? && q.hold == NoHold && q.refunds == 0 && q.wrote.None?
      case Reserving | ProbingCurrent | ProbingLatest => q.hold == NoHold && q.refunds == 0 && q.wrote.None?
      case Producing | Inserting(_) | Writing(_, _) => q.refunds == 0 && q.wrote.None?
      case Lost => q.refunds == 0 && q.wrote.None? && q.key.Some? && (q.workspace, q.key.value) in s.keyIndex
      case Escalating(a) => q.refunds == 0 && !q.unheard && q.wrote.Some? && Stored(s, q, q.wrote.value, a) && a.body.status == Escalated
      case Settling(o) => q.refunds == 0 && OutcomeOk(s, q, o)
      case Done(o) => OutcomeOk(s, q, o) && q.refunds == (if q.hold.UnitOf? && !KeepsUnit(o) then 1 else 0)
      case Dead => q.refunds == 0
    }
  }

  predicate WroteRow(s: State, r: nat, q: Request, c: nat) {
    && c in s.conversations && c in s.events
    && s.conversations[c].writer == r && s.conversations[c].workspace == q.workspace && s.conversations[c].key == q.key
    && s.events[c].billable == IsBillableAnswer(s.conversations[c].body.status)
  }

  predicate OutcomeOk(s: State, q: Request, o: Outcome) {
    match o
    case Delivers(d) => DeliveryStored(s, q, d) && !q.unheard && (d.replayed ==> q.wrote.None?)
    case QuotaExceeded(_) => q.hold == NoHold && q.wrote.None?
    case Throws => WroteBillable(s, q) ==> q.unheard
  }

  ghost predicate RequestsOk(s: State) {
    forall r | r in s.requests :: RequestOk(s, r, s.requests[r])
  }

  predicate RowOk(s: State, c: nat, row: Conversation) {
    && c < s.nextRow && c in s.events
    && row.writer in s.requests && s.requests[row.writer].wrote == Some(c)
    && s.events[c].workspace == row.workspace && s.events[c].billable == IsBillableAnswer(row.body.status)
    && (row.key.Some? ==> (row.workspace, row.key.value) in s.keyIndex && s.keyIndex[(row.workspace, row.key.value)] == c)
  }

  ghost predicate TablesOk(s: State) {
    && s.events.Keys == s.conversations.Keys
    && (forall c | c in s.conversations :: RowOk(s, c, s.conversations[c]))
    && (forall k | k in s.keyIndex :: IndexOk(s.conversations, k, s.keyIndex[k]))
  }

  predicate IndexOk(conversations: map<nat, Conversation>, k: (nat, string), c: nat) {
    c in conversations && conversations[c].workspace == k.0 && conversations[c].key == Some(k.1)
  }

  /** An uncommitted row is nobody else's: not in the tables, nor in another transaction. */
  predicate Uncommitted(s: State, q: Request) {
    q.phase.Writing? ==>
      && q.phase.conversation < s.nextRow && q.phase.conversation !in s.conversations
      && (q.key.Some? ==> (q.workspace, q.key.value) !in s.keyIndex)
  }

  predicate SameRow(a: Request, b: Request) {
    a.phase.Writing? && b.phase.Writing? &&
    (a.phase.conversation == b.phase.conversation || (a.key.Some? && a.workspace == b.workspace && a.key == b.key))
  }

  ghost predicate WritersOk(s: State) {
    && (forall r | r in s.requests :: Uncommitted(s, s.requests[r]))
    && (forall r, o | r in s.requests && o in s.requests && r != o :: !SameRow(s.requests[r], s.requests[o]))
  }

  /** The workspace's requests before a reconciliation had finished by then, and their rows keep
      the order of the requests. */
  predicate InOrder(r: nat, q: Request, b: Book) {
    q.workspace == b.workspace ==>
    && (r < b.sinceRequest ==> Finished(q.phase))
    && (q.wrote.Some? ==> (r < b.sinceRequest <==> q.wrote.value < b.sinceRow))
    && (q.phase.Writing? ==> q.phase.conversation >= b.sinceRow)
  }

  ghost predicate OrdersOk(s: State) {
    forall id, r | id in s.books && r in s.requests :: InOrder(r, s.requests[r], s.books[id])
  }

  predicate Counted(s: State, id: nat, b: Book)
    requires id in s.quotas
  {
    && s.quotas[id].workspace == b.workspace
    && s.quotas[id].used == b.base + |Holding(s.requests, id, b.sinceRequest)|
    && b.sinceRequest <= s.nextRequest && b.sinceRow <= s.nextRow
    && b.base == AtMost(|Metered(s, id, b.sinceRow)|, s.quotas[id].allowance)
  }

  function AtMost(n: int, top: int): int {
    if n < top then n else top
  }

  ghost predicate CountsOk(s: State) {
    && s.books.Keys == s.quotas.Keys
    && forall id | id in s.quotas :: Counted(s, id, s.books[id])
  }

  ghost predicate Inv(s: State) {
    && ValidTable(s.quotas)
    && TablesOk(s)
    && RequestsOk(s)
    && WritersOk(s)
    && OrdersOk(s)
    && CountsOk(s)
  }

  // ---------------------------------------------------------------- frames

  /** Rows are only ever added and quota rows keep their identity. */
  ghost predicate Grown(s: State, s': State) {
    && s.nextRequest <= s'.nextRequest && s.nextRow <= s'.nextRow
    && (forall c | c in s.conversations :: c in s'.conversations && s'.conversations[c] == s.conversations[c])
    && (forall c | c in s.events :: c in s'.events && s'.events[c] == s.events[c])
    && (forall k | k in s.keyIndex :: k in s'.keyIndex && s'.keyIndex[k] == s.keyIndex[k])
    && (forall id | id in s.quotas :: id in s'.quotas && s'.quotas[id].workspace == s.quotas[id].workspace)
  }

  lemma RequestGrows(s: State, s': State, r: nat, q: Request)
    requires Grown(s, s') && RequestOk(s, r, q)
    ensures RequestOk(s', r, q)
  {}

  lemma RequestsFrame(s: State, s': State, r: nat)
    requires RequestsOk(s) && Grown(s, s')
    requires r in s'.requests && s'.requests == s.requests[r := s'.requests[r]] && RequestOk(s', r, s'.requests[r])
    ensures RequestsOk(s')
  {
    forall o | o in s'.requests ensures RequestOk(s', o, s'.requests[o]) {
      if o != r {
        RequestGrows(s, s', o, s.requests[o]);
      }
    }
  }

  lemma TablesFrame(s: State, s': State, r: nat)
    requires TablesOk(s) && s.nextRow <= s'.nextRow
    requires s'.conversations == s.conversations && s'.events == s.events && s'.keyIndex == s.keyIndex
    requires r in s'.requests && s'.requests == s.requests[r := s'.requests[r]]
    requires r in s.requests ==> s'.requests[r].wrote == s.requests[r].wrote
    ensures TablesOk(s')
  {
    forall c | c in s'.conversations ensures RowOk(s', c, s'.conversations[c]) {
      assert RowOk(s, c, s.conversations[c]);
    }
  }

  lemma WritersFrame(s: State, s': State, r: nat)
    requires WritersOk(s) && s.nextRow <= s'.nextRow
    requires s'.conversations == s.conversations && s'.keyIndex == s.keyIndex
    requires r in s'.requests && s'.requests == s.requests[r := s'.requests[r]] && !s'.requests[r].phase.Writing?
    ensures WritersOk(s')
  {
    forall o | o in s'.requests ensures Uncommitted(s', s'.requests[o]) {
      if o != r {
        assert Uncommitted(s, s.requests[o]);
      }
    }
    forall a, b | a in s'.requests && b in s'.requests && a != b ensures !SameRow(s'.requests[a], s'.requests[b]) {
      if a != r && b != r {
        assert !SameRow(s.requests[a], s.requests[b]);
      }
    }
  }

  lemma OrdersFrame(s: State, s': State, r: nat)
    requires OrdersOk(s) && s'.books == s.books
    requires r in s'.requests && s'.requests == s.requests[r := s'.requests[r]]
    requires forall id | id in s.books :: InOrder(r, s'.requests[r], s.books[id])
    ensures OrdersOk(s')
  {
    forall id, o | id in s'.books && o in s'.requests ensures InOrder(o, s'.requests[o], s'.books[id]) {
      if o != r {
        assert InOrder(o, s.requests[o], s.books[id]);
      }
    }
  }

  lemma HoldingUpdate(requests: map<nat, Request>, r: nat, q: Request, id: nat, since: nat)
    ensures |Holding(requests[r := q], id, since)| ==
            |Holding(requests, id, since)|
            - (if r in requests && since <= r && Holds(requests[r], id) then 1 else 0)
            + (if since <= r && Holds(q, id) then 1 else 0)
  {
    var before, after := Holding(requests, id, since), Holding(requests[r := q], id, since);
    if since <= r && Holds(q, id) {
      assert after == before + {r};
    } else {
      assert after == before - {r};
    }
  }

  function Units(requests: map<nat, Request>, r: nat, id: nat): int {
    if r in requests && Holds(requests[r], id) then 1 else 0
  }

  /** The request came after the row's last reconciliation, or has nothing to do with the row. */
  predicate Counts(s: State, s': State, r: nat, id: nat)
    requires id in s.books
  {
    s.books[id].sinceRequest <= r || (Units(s.requests, r, id) == 0 && Units(s'.requests, r, id) == 0)
  }

  /** Every counter follows the one request that changed. */
  lemma CountFrame(s: State, s': State, r: nat, id: nat)
    requires id in s.quotas && id in s'.quotas && id in s.books && Counted(s, id, s.books[id])
    requires s.nextRequest <= s'.nextRequest && s.nextRow <= s'.nextRow
    requires r in s'.requests && s'.requests == s.requests[r := s'.requests[r]]
    requires Counts(s, s', r, id)
    requires s'.quotas[id] == s.quotas[id].(used := s.quotas[id].used + Units(s'.requests, r, id) - Units(s.requests, r, id))
    requires Metered(s', id, s.books[id].sinceRow) == Metered(s, id, s.books[id].sinceRow)
    ensures Counted(s', id, s.books[id])
  {
    HoldingUpdate(s.requests, r, s'.requests[r], id, s.books[id].sinceRequest);
  }

  lemma CountsFrame(s: State, s': State, r: nat)
    requires CountsOk(s) && s'.books == s.books && s'.quotas.Keys == s.quotas.Keys
    requires s.nextRequest <= s'.nextRequest && s.nextRow <= s'.nextRow
    requires r in s'.requests && s'.requests == s.requests[r := s'.requests[r]]
    requires forall id | id in s.books :: Counts(s, s', r, id)
    requires forall id | id in s.quotas ::
               s'.quotas[id] == s.quotas[id].(used := s.quotas[id].used + Units(s'.requests, r, id) - Units(s.requests, r, id))
    requires s'.events == s.events
    ensures CountsOk(s')
  {
    forall id | id in s'.quotas ensures Counted(s', id, s'.books[id]) {
      assert Metered(s', id, s.books[id].sinceRow) == Metered(s, id, s.books[id].sinceRow);
      CountFrame(s, s', r, id);
    }
  }

  /** A request still running began after every reconciliation of its workspace. */
  lemma RunningIsLater(s: State, r: nat)
    requires OrdersOk(s) && r in s.requests && !Finished(s.requests[r].phase)
    ensures forall id | id in s.books && s.books[id].workspace == s.requests[r].workspace :: s.books[id].sinceRequest <= r
  {
    forall id | id in s.books && s.books[id].workspace == s.requests[r].workspace ensures s.books[id].sinceRequest <= r {
      assert InOrder(r, s.requests[r], s.books[id]);
    }
  }

  /** It takes units of rows of its own workspace only. */
  lemma RunningCounts(s: State, s': State, r: nat)
    requires OrdersOk(s) && CountsOk(s) && r in s.requests && !Finished(s.requests[r].phase)
    requires r in s'.requests && s'.requests[r].workspace == s.requests[r].workspace
    requires RequestOk(s, r, s.requests[r]) && RequestOk(s', r, s'.requests[r])
    requires forall id | id in s.quotas :: id in s'.quotas && s'.quotas[id].workspace == s.quotas[id].workspace
    ensures forall id | id in s.books :: Counts(s, s', r, id)
  {
    RunningIsLater(s, r);
    forall id | id in s.books ensures Counts(s, s', r, id) {
      assert Counted(s, id, s.books[id]);
    }
  }

  lemma InOrderMoves(s: State, r: nat, q: Request)
    requires OrdersOk(s) && r in s.requests && !Finished(s.requests[r].phase)
    requires q.wrote == s.requests[r].wrote && !q.phase.Writing? && q.workspace == s.requests[r].workspace
    ensures forall id | id in s.books :: InOrder(r, q, s.books[id])
  {
    forall id | id in s.books ensures InOrder(r, q, s.books[id]) {
      assert InOrder(r, s.requests[r], s.books[id]);
    }
  }

  // ---------------------------------------------------------------- each event keeps it

  /** A request moved on, perhaps taking or giving back a unit, without touching the other tables. */
  ghost predicate Moved(s: State, s': State, r: nat) {
    && r in s.requests && !Finished(s.requests[r].phase)
    && r in s'.requests && s' == s.(requests := s.requests[r := s'.requests[r]], quotas := s'.quotas)
    && s'.requests[r].wrote == s.requests[r].wrote && !s'.requests[r].phase.Writing?
    && s'.requests[r].workspace == s.requests[r].workspace
    && s'.quotas.Keys == s.quotas.Keys
    && (forall id | id in s.quotas ::
          s'.quotas[id] == s.quotas[id].(used := s.quotas[id].used + Units(s'.requests, r, id) - Units(s.requests, r, id)))
  }

  lemma MoveKeepsRows(s: State, s': State, r: nat)
    requires RequestsOk(s) && TablesOk(s) && WritersOk(s) && Moved(s, s', r) && RequestOk(s', r, s'.requests[r])
    ensures RequestsOk(s') && TablesOk(s') && WritersOk(s')
  {
    RequestsFrame(s, s', r);
    TablesFrame(s, s', r);
    WritersFrame(s, s', r);
  }

  lemma MoveKeepsBooks(s: State, s': State, r: nat)
    requires OrdersOk(s) && CountsOk(s) && Moved(s, s', r)
    requires RequestOk(s, r, s.requests[r]) && RequestOk(s', r, s'.requests[r])
    ensures OrdersOk(s') && CountsOk(s')
  {
    InOrderMoves(s, r, s'.requests[r]);
    OrdersFrame(s, s', r);
    RunningCounts(s, s', r);
    CountsFrame(s, s', r);
  }

  lemma MoveKeepsInv(s: State, s': State, r: nat)
    requires Inv(s) && Moved(s, s', r) && RequestOk(s', r, s'.requests[r]) && ValidTable(s'.quotas)
    ensures Inv(s')
  {
    assert RequestOk(s, r, s.requests[r]);
    MoveKeepsRows(s, s', r);
    MoveKeepsBooks(s, s', r);
  }

  /** Nothing about any request changed. */
  lemma StillFrame(s: State, s': State)
    requires RequestsOk(s) && TablesOk(s) && WritersOk(s) && Grown(s, s')
    requires s' == s.(now := s'.now, quotas := s'.quotas, books := s'.books)
    ensures RequestsOk(s') && TablesOk(s') && WritersOk(s')
  {
    forall o | o in s'.requests ensures RequestOk(s', o, s'.requests[o]) {
      RequestGrows(s, s', o, s.requests[o]);
    }
    forall c | c in s'.conversations ensures RowOk(s', c, s'.conversations[c]) {
      assert RowOk(s, c, s.conversations[c]);
    }
    forall o | o in s'.requests ensures Uncommitted(s', s'.requests[o]) {
      assert Uncommitted(s, s.requests[o]);
    }
  }

  lemma TickKeepsCounts(s: State, to: int)
    requires CountsOk(s)
    ensures CountsOk(s.(now := to))
  {
    var s' := s.(now := to);
    forall id | id in s'.quotas ensures Counted(s', id, s'.books[id]) {
      assert Metered(s', id, s.books[id].sinceRow) == Metered(s, id, s.books[id].sinceRow);
    }
  }

  lemma TickKeepsInv(s: State, to: int)
    requires Inv(s)
    ensures Inv(s.(now := to))
  {
    StillFrame(s, s.(now := to));
    TickKeepsCounts(s, to);
  }

  lemma OpenKeepsCounts(s: State, e: Event)
    requires RequestsOk(s) && CountsOk(s) && e.OpenPeriod? && Apply(s, e).Some?
    ensures CountsOk(Apply(s, e).value)
  {
    var s' := Apply(s, e).value;
    forall id | id in s'.quotas ensures Counted(s', id, s'.books[id]) {
      if id == e.id {
        forall o | o in s.requests ensures !Holds(s.requests[o], id) {
          assert RequestOk(s, o, s.requests[o]);
        }
        assert Holding(s'.requests, id, 0) == {};
        assert Metered(s', id, 0) == {};
      } else {
        assert Metered(s', id, s.books[id].sinceRow) == Metered(s, id, s.books[id].sinceRow);
      }
    }
  }

  lemma OpenIsValid(rows: Table, id: nat, row: Quota)
    requires ValidTable(rows) && id !in rows && row.allowance > 0 && row.used == 0 && row.periodStart < row.periodEnd
    requires forall j | j in rows :: !Overlap(rows[j], row)
    ensures ValidTable(rows[id := row])
  {
    var rows' := rows[id := row];
    forall i, j | i in rows' && j in rows' && i != j ensures !Overlap(rows'[i], rows'[j]) {
      if i != id && j != id {
        assert !Overlap(rows[i], rows[j]);
      }
    }
  }

  lemma OpenKeepsInv(s: State, e: Event)
    requires Inv(s) && e.OpenPeriod? && Apply(s, e).Some?
    ensures Inv(Apply(s, e).value)
  {
    var s' := Apply(s, e).value;
    OpenKeepsCounts(s, e);
    StillFrame(s, s');
    OpenIsValid(s.quotas, e.id, s'.quotas[e.id]);
    OpenKeepsOrders(s, s', e.id);
  }

  lemma OpenKeepsOrders(s: State, s': State, id: nat)
    requires OrdersOk(s) && TablesOk(s) && s'.requests == s.requests && id in s'.books && s'.books == s.books[id := s'.books[id]] && s'.books[id].sinceRequest == 0 && s'.books[id].sinceRow == 0
    ensures OrdersOk(s')
  {
    forall b, o | b in s'.books && o in s'.requests ensures InOrder(o, s'.requests[o], s'.books[b]) {
      if b != id {
        assert InOrder(o, s.requests[o], s.books[b]);
      }
    }
  }

  lemma NextIsFresh(s: State)
    requires RequestsOk(s) && TablesOk(s)
    ensures s.nextRequest !in s.requests && s.nextRow !in s.conversations
  {
    assert forall o | o in s.requests :: RequestOk(s, o, s.requests[o]);
    assert forall c | c in s.conversations :: RowOk(s, c, s.conversations[c]);
  }

  lemma ArrivalIsOk(s: State, q: Request)
    requires q.hold == NoHold && q.wrote.None? && q.refunds == 0 && !q.unheard
    requires (q.phase.LookingUp? && q.key.Some?) || q.phase.Reserving? || q.phase.Inserting?
    ensures RequestOk(With(s, s.nextRequest, q).(nextRequest := s.nextRequest + 1), s.nextRequest, q)
  {}

  lemma ArrivalKeepsRows(s: State, q: Request)
    requires RequestsOk(s) && TablesOk(s) && WritersOk(s) && q.wrote.None? && !q.phase.Writing?
    requires RequestOk(With(s, s.nextRequest, q).(nextRequest := s.nextRequest + 1), s.nextRequest, q)
    ensures var s' := With(s, s.nextRequest, q).(nextRequest := s.nextRequest + 1); RequestsOk(s') && TablesOk(s') && WritersOk(s')
  {
    var s' := With(s, s.nextRequest, q).(nextRequest := s.nextRequest + 1);
    NextIsFresh(s);
    RequestsFrame(s, s', s.nextRequest);
    TablesFrame(s, s', s.nextRequest);
    WritersFrame(s, s', s.nextRequest);
  }

  lemma ArrivalKeepsInv(s: State, q: Request)
    requires Inv(s) && q.hold == NoHold && q.wrote.None? && q.refunds == 0 && !q.unheard
    requires (q.phase.LookingUp? && q.key.Some?) || q.phase.Reserving? || q.phase.Inserting?
    ensures Inv(With(s, s.nextRequest, q).(nextRequest := s.nextRequest + 1))
  {
    NextIsFresh(s);
    ArrivalIsOk(s, q);
    ArrivalKeepsRows(s, q);
    BooksBehind(s);
    ArrivalKeepsBooks(s, q);
  }

  lemma ArrivalKeepsBooks(s: State, q: Request)
    requires OrdersOk(s) && CountsOk(s) && s.nextRequest !in s.requests && q.hold == NoHold && q.wrote.None? && !q.phase.Writing?
    requires forall id | id in s.books :: s.books[id].sinceRequest <= s.nextRequest
    ensures var s' := With(s, s.nextRequest, q).(nextRequest := s.nextRequest + 1); OrdersOk(s') && CountsOk(s')
  {
    var s' := With(s, s.nextRequest, q).(nextRequest := s.nextRequest + 1);
    OrdersFrame(s, s', s.nextRequest);
    CountsFrame(s, s', s.nextRequest);
  }

  lemma BooksBehind(s: State)
    requires CountsOk(s)
    ensures forall id | id in s.books :: s.books[id].sinceRequest <= s.nextRequest && s.books[id].sinceRow <= s.nextRow
  {
    forall id | id in s.books ensures s.books[id].sinceRequest <= s.nextRequest && s.books[id].sinceRow <= s.nextRow {
      assert Counted(s, id, s.books[id]);
    }
  }

  lemma ReserveKeepsInv(s: State, r: nat, id: nat)
    requires Inv(s) && r in s.requests && s.requests[r].phase == Reserving
    requires id in s.quotas && Grants(s.quotas[id], s.requests[r].workspace, s.now)
    ensures Inv(With(s, r, s.requests[r].(hold := UnitOf(id), phase := Producing)).(quotas := Charge(s.quotas, id)))
  {
    var s' := With(s, r, s.requests[r].(hold := UnitOf(id), phase := Producing)).(quotas := Charge(s.quotas, id));
    assert RequestOk(s, r, s.requests[r]);
    ReservedIsOk(s, s', r, id);
    ChargeIsValid(s.quotas, id);
    MoveKeepsInv(s, s', r);
  }

  lemma ReservedIsOk(s: State, s': State, r: nat, id: nat)
    requires r in s.requests && s.requests[r].phase == Reserving && RequestOk(s, r, s.requests[r])
    requires id in s.quotas && s.quotas[id].workspace == s.requests[r].workspace
    requires s' == With(s, r, s.requests[r].(hold := UnitOf(id), phase := Producing)).(quotas := Charge(s.quotas, id))
    ensures RequestOk(s', r, s'.requests[r])
    ensures forall o | o in s.quotas ::
              s'.quotas[o] == s.quotas[o].(used := s.quotas[o].used + Units(s'.requests, r, o) - Units(s.requests, r, o))
  {}

  /** A refund always finds the unit it gives back, so the counter never runs below zero. */
  lemma RefundFindsUnit(s: State, r: nat)
    requires Inv(s) && r in s.requests && s.requests[r].phase.Settling? && s.requests[r].hold.UnitOf?
    ensures var id := s.requests[r].hold.quota; id in s.quotas && s.quotas[id].used > 0
  {
    assert RequestOk(s, r, s.requests[r]);
    var id := s.requests[r].hold.quota;
    assert Counted(s, id, s.books[id]);
    RunningIsLater(s, r);
    assert r in Holding(s.requests, id, s.books[id].sinceRequest);
  }

  lemma SettleKeepsInv(s: State, r: nat)
    requires Inv(s) && r in s.requests && s.requests[r].phase.Settling?
    ensures Inv(Settled(s, r))
  {
    var s' := Settled(s, r);
    assert RequestOk(s, r, s.requests[r]);
    if s.requests[r].hold.UnitOf? {
      RefundFindsUnit(s, r);
    }
    SettledMoves(s, r);
    MoveKeepsInv(s, s', r);
  }

  lemma SettledMoves(s: State, r: nat)
    requires ValidTable(s.quotas) && r in s.requests && s.requests[r].phase.Settling? && RequestOk(s, r, s.requests[r])
    requires s.requests[r].hold.UnitOf? ==> s.quotas[s.requests[r].hold.quota].used > 0
    ensures Moved(s, Settled(s, r), r) && RequestOk(Settled(s, r), r, Settled(s, r).requests[r]) && ValidTable(Settled(s, r).quotas)
  {
    if s.requests[r].hold.UnitOf? {
      GiveBackIsValid(s.quotas, s.requests[r].hold.quota);
    }
    SettledIsOk(s, r);
    SettledUnits(s, r);
  }

  lemma SettledIsOk(s: State, r: nat)
    requires r in s.requests && s.requests[r].phase.Settling? && RequestOk(s, r, s.requests[r])
    ensures RequestOk(Settled(s, r), r, Settled(s, r).requests[r])
  {
    RequestGrows(s, Settled(s, r), r, s.requests[r]);
    DoneIsOk(Settled(s, r), r, s.requests[r]);
  }

  lemma DoneIsOk(s: State, r: nat, q: Request)
    requires RequestOk(s, r, q) && q.phase.Settling?
    ensures var kept := KeepsUnit(q.phase.outcome) || !q.hold.UnitOf?;
            RequestOk(s, r, q.(phase := Done(q.phase.outcome), refunds := if kept then q.refunds else q.refunds + 1))
  {}

  lemma SettledUnits(s: State, r: nat)
    requires r in s.requests && s.requests[r].phase.Settling? && s.requests[r].refunds == 0
    requires var h := s.requests[r].hold; h.UnitOf? ==> h.quota in s.quotas && s.quotas[h.quota].used > 0
    ensures Moved(s, Settled(s, r), r)
  {}

  lemma InsertKeepsInv(s: State, r: nat)
    requires Inv(s) && r in s.requests && s.requests[r].phase.Inserting?
    requires !KeyHeld(s, r, s.requests[r].workspace, s.requests[r].key)
    requires s.requests[r].key.Some? ==> (s.requests[r].workspace, s.requests[r].key.value) !in s.keyIndex
    ensures Inv(To(s, r, Writing(s.requests[r].phase.answer, s.nextRow)).(nextRow := s.nextRow + 1))
  {
    var s' := To(s, r, Writing(s.requests[r].phase.answer, s.nextRow)).(nextRow := s.nextRow + 1);
    assert RequestOk(s, r, s.requests[r]);
    NextIsFresh(s);
    RequestsFrame(s, s', r);
    TablesFrame(s, s', r);
    InsertKeepsWriters(s, s', r);
    InsertKeepsBooks(s, s', r);
  }

  lemma InsertKeepsBooks(s: State, s': State, r: nat)
    requires OrdersOk(s) && CountsOk(s) && r in s.requests && s.requests[r].phase.Inserting? && RequestOk(s, r, s.requests[r])
    requires s' == To(s, r, Writing(s.requests[r].phase.answer, s.nextRow)).(nextRow := s.nextRow + 1)
    ensures OrdersOk(s') && CountsOk(s')
  {
    RunningIsLater(s, r);
    forall id | id in s.books ensures InOrder(r, s'.requests[r], s.books[id]) {
      assert Counted(s, id, s.books[id]);
    }
    OrdersFrame(s, s', r);
    RunningCounts(s, s', r);
    CountsFrame(s, s', r);
  }

  lemma InsertKeepsWriters(s: State, s': State, r: nat)
    requires WritersOk(s) && s.nextRow !in s.conversations && r in s.requests && s.requests[r].phase.Inserting?
    requires !KeyHeld(s, r, s.requests[r].workspace, s.requests[r].key)
    requires s.requests[r].key.Some? ==> (s.requests[r].workspace, s.requests[r].key.value) !in s.keyIndex
    requires s' == To(s, r, Writing(s.requests[r].phase.answer, s.nextRow)).(nextRow := s.nextRow + 1)
    ensures WritersOk(s')
  {
    forall o | o in s'.requests ensures Uncommitted(s', s'.requests[o]) {
      if o != r {
        assert Uncommitted(s, s.requests[o]);
      }
    }
    forall a, b | a in s'.requests && b in s'.requests && a != b ensures !SameRow(s'.requests[a], s'.requests[b]) {
      if a != r && b != r {
        assert !SameRow(s.requests[a], s.requests[b]);
      } else {
        var o := if a == r then b else a;
        assert Uncommitted(s, s.requests[o]);
      }
    }
  }

  /** What a commit may rely on. */
  lemma CommitGrows(s: State, r: nat, unheard: bool)
    requires TablesOk(s) && WritersOk(s) && r in s.requests && s.requests[r].phase.Writing?
    ensures Grown(s, Committed(s, r, unheard)) && s.requests[r].phase.conversation !in s.events
  {
    assert Uncommitted(s, s.requests[r]);
  }

  lemma CommitKeepsTables(s: State, r: nat, unheard: bool)
    requires TablesOk(s) && WritersOk(s) && r in s.requests && s.requests[r].phase.Writing? && s.requests[r].wrote.None?
    ensures TablesOk(Committed(s, r, unheard))
  {
    var s' := Committed(s, r, unheard);
    CommitGrows(s, r, unheard);
    assert Uncommitted(s, s.requests[r]);
    forall c | c in s'.conversations ensures RowOk(s', c, s'.conversations[c]) {
      if c in s.conversations {
        assert RowOk(s, c, s.conversations[c]);
      }
    }
    forall k | k in s'.keyIndex ensures IndexOk(s'.conversations, k, s'.keyIndex[k]) {
      if k in s.keyIndex {
        assert IndexOk(s.conversations, k, s.keyIndex[k]);
      }
    }
  }

  lemma CommitKeepsWriters(s: State, r: nat, unheard: bool)
    requires WritersOk(s) && r in s.requests && s.requests[r].phase.Writing?
    ensures WritersOk(Committed(s, r, unheard))
  {
    var s' := Committed(s, r, unheard);
    forall o | o in s'.requests ensures Uncommitted(s', s'.requests[o]) {
      if o != r {
        assert Uncommitted(s, s.requests[o]) && !SameRow(s.requests[o], s.requests[r]);
      }
    }
    forall a, b | a in s'.requests && b in s'.requests && a != b ensures !SameRow(s'.requests[a], s'.requests[b]) {
      if a != r && b != r {
        assert !SameRow(s.requests[a], s.requests[b]);
      }
    }
  }

  lemma CommittedIsOk(s: State, r: nat, unheard: bool)
    requires r in s.requests && s.requests[r].phase.Writing? && RequestOk(s, r, s.requests[r])
    requires s.requests[r].phase.conversation !in s.events
    ensures RequestOk(Committed(s, r, unheard), r, Committed(s, r, unheard).requests[r])
  {}

  /** The new event is behind no reconciliation of its workspace, and counts for no other. */
  lemma CommitKeepsMetered(s: State, r: nat, unheard: bool, id: nat)
    requires r in s.requests && s.requests[r].phase.Writing? && s.requests[r].phase.conversation !in s.events
    requires id in s.quotas && id in s.books && Counted(s, id, s.books[id]) && InOrder(r, s.requests[r], s.books[id])
    ensures Metered(Committed(s, r, unheard), id, s.books[id].sinceRow) == Metered(s, id, s.books[id].sinceRow)
  {}

  lemma CommitKeepsBooks(s: State, r: nat, unheard: bool)
    requires OrdersOk(s) && CountsOk(s) && r in s.requests && s.requests[r].phase.Writing? && RequestOk(s, r, s.requests[r])
    requires s.requests[r].phase.conversation !in s.events && RequestOk(Committed(s, r, unheard), r, Committed(s, r, unheard).requests[r])
    ensures OrdersOk(Committed(s, r, unheard)) && CountsOk(Committed(s, r, unheard))
  {
    var s' := Committed(s, r, unheard);
    RunningIsLater(s, r);
    forall id | id in s.books ensures InOrder(r, s'.requests[r], s.books[id]) {
      assert InOrder(r, s.requests[r], s.books[id]);
    }
    OrdersFrame(s, s', r);
    RunningCounts(s, s', r);
    forall id | id in s'.quotas ensures Counted(s', id, s'.books[id]) {
      assert InOrder(r, s.requests[r], s.books[id]) && Counted(s, id, s.books[id]);
      CommitKeepsMetered(s, r, unheard, id);
      CountFrame(s, s', r, id);
    }
  }

  lemma CommitKeepsInv(s: State, r: nat, unheard: bool)
    requires Inv(s) && r in s.requests && s.requests[r].phase.Writing?
    ensures Inv(Committed(s, r, unheard))
  {
    assert RequestOk(s, r, s.requests[r]);
    CommitGrows(s, r, unheard);
    CommittedIsOk(s, r, unheard);
    RequestsFrame(s, Committed(s, r, unheard), r);
    CommitKeepsTables(s, r, unheard);
    CommitKeepsWriters(s, r, unheard);
    CommitKeepsBooks(s, r, unheard);
  }

  lemma ReconcileKeepsInv(s: State, e: Event)
    requires Inv(s) && e.Reconcile? && Apply(s, e).Some?
    ensures Inv(Apply(s, e).value)
  {
    var s' := Apply(s, e).value;
    StillFrame(s, s');
    ReconcileKeepsOrders(s, s', e.id);
    RecountIsValid(s.quotas, e.id, |Metered(s, e.id, s.nextRow)|);
    ReconcileKeepsCounts(s, e);
  }

  lemma RecountIsValid(rows: Table, id: nat, n: nat)
    requires ValidTable(rows) && id in rows
    ensures ValidTable(Recount(rows, id, n))
  {
    var rows' := Recount(rows, id, n);
    forall i, j | i in rows' && j in rows' && i != j ensures !Overlap(rows'[i], rows'[j]) {
      assert !Overlap(rows[i], rows[j]);
    }
  }

  lemma ReconcileKeepsOrders(s: State, s': State, id: nat)
    requires OrdersOk(s) && RequestsOk(s) && TablesOk(s) && s'.requests == s.requests
    requires id in s'.books && s'.books == s.books[id := s'.books[id]]
    requires s'.books[id].sinceRequest == s.nextRequest && s'.books[id].sinceRow == s.nextRow && Quiescent(s, s'.books[id].workspace)
    ensures OrdersOk(s')
  {
    forall b, o | b in s'.books && o in s'.requests ensures InOrder(o, s'.requests[o], s'.books[b]) {
      if b != id {
        assert InOrder(o, s.requests[o], s.books[b]);
      } else {
        FinishedWrites(s, o);
      }
    }
  }

  lemma FinishedWrites(s: State, o: nat)
    requires RequestsOk(s) && TablesOk(s) && o in s.requests
    ensures o < s.nextRequest && (s.requests[o].wrote.Some? ==> s.requests[o].wrote.value < s.nextRow)
  {
    assert RequestOk(s, o, s.requests[o]);
    if s.requests[o].wrote.Some? {
      var c := s.requests[o].wrote.value;
      assert RowOk(s, c, s.conversations[c]);
    }
  }

  lemma ReconcileKeepsCounts(s: State, e: Event)
    requires RequestsOk(s) && CountsOk(s) && e.Reconcile? && Apply(s, e).Some?
    ensures CountsOk(Apply(s, e).value)
  {
    var s' := Apply(s, e).value;
    forall id | id in s'.quotas ensures Counted(s', id, s'.books[id]) {
      if id == e.id {
        forall o | o in s.requests ensures o < s.nextRequest {
          assert RequestOk(s, o, s.requests[o]);
        }
        assert Holding(s'.requests, id, s.nextRequest) == {};
        assert Metered(s', id, s.nextRow) == Metered(s, id, s.nextRow);
      } else {
        assert Metered(s', id, s.books[id].sinceRow) == Metered(s, id, s.books[id].sinceRow);
      }
    }
  }

  /** Moves that leave even the request's own standing alone. */
  lemma PhaseKeepsInv(s: State, r: nat, p: Phase)
    requires Inv(s) && r in s.requests && !Finished(s.requests[r].phase) && !p.Writing?
    requires RequestOk(s, r, s.requests[r].(phase := p))
    ensures Inv(To(s, r, p))
  {
    assert RequestOk(s, r, s.requests[r]);
    PhaseMoves(s, r, p);
    MoveKeepsInv(s, To(s, r, p), r);
  }

  lemma PhaseMoves(s: State, r: nat, p: Phase)
    requires r in s.requests && !Finished(s.requests[r].phase) && !p.Writing?
    requires RequestOk(s, r, s.requests[r]) && RequestOk(s, r, s.requests[r].(phase := p))
    ensures var s' := To(s, r, p); Moved(s, s', r) && RequestOk(s', r, s'.requests[r])
  {
    RequestGrows(s, To(s, r, p), r, s.requests[r].(phase := p));
  }

  /** What a request finds under its key is what the row and its event say. */
  lemma FoundIsStored(s: State, r: nat)
    requires TablesOk(s) && r in s.requests && s.requests[r].key.Some?
    ensures var q := s.requests[r];
            var found := FindReplay(s, q.workspace, q.key.value);
            && (found.Some? <==> (q.workspace, q.key.value) in s.keyIndex)
            && (found.Some? ==> Stored(s, q, s.keyIndex[(q.workspace, q.key.value)], found.value) && found.value.shown == NOTHING)
  {
    var q := s.requests[r];
    var k := (q.workspace, q.key.value);
    if k in s.keyIndex {
      assert IndexOk(s.conversations, k, s.keyIndex[k]);
      assert s.keyIndex[k] in s.events;
    }
  }

  /** Finding a row under the key is all a replay needs. */
  lemma ReplayIsOk(s: State, r: nat)
    requires TablesOk(s) && r in s.requests && RequestOk(s, r, s.requests[r]) && s.requests[r].key.Some?
    requires s.requests[r].phase.LookingUp? || s.requests[r].phase.Lost?
    ensures var q := s.requests[r];
            var found := FindReplay(s, q.workspace, q.key.value);
            && (found.Some? ==> OutcomeOk(s, q, Delivers(Delivery(found.value, true))))
            && (s.requests[r].phase.Lost? ==> found.Some?)
  {
    FoundIsStored(s, r);
  }

  lemma LookUpIsOk(s: State, e: Event)
    requires TablesOk(s) && (e.LookUp? || e.Replay?) && e.r in s.requests && RequestOk(s, e.r, s.requests[e.r])
    requires Apply(s, e).Some?
    ensures var p := Apply(s, e).value.requests[e.r].phase;
            && Apply(s, e).value == To(s, e.r, p) && !p.Writing? && !Finished(s.requests[e.r].phase)
            && RequestOk(s, e.r, s.requests[e.r].(phase := p))
  {
    ReplayIsOk(s, e.r);
  }

  lemma FailIsOk(s: State, e: Event)
    requires (e.StatementFails? || e.Crash? || e.Rollback?) && e.r in s.requests && RequestOk(s, e.r, s.requests[e.r])
    requires Apply(s, e).Some?
    ensures var p := Apply(s, e).value.requests[e.r].phase;
            && Apply(s, e).value == To(s, e.r, p) && !p.Writing? && !Finished(s.requests[e.r].phase)
            && RequestOk(s, e.r, s.requests[e.r].(phase := p))
  {}

  lemma NextIsOk(s: State, e: Event)
    requires (e.ProbeCurrent? || e.Produce? || e.RecordEscalation?) && e.r in s.requests && RequestOk(s, e.r, s.requests[e.r])
    requires Apply(s, e).Some?
    ensures var p := Apply(s, e).value.requests[e.r].phase;
            && Apply(s, e).value == To(s, e.r, p) && !p.Writing? && !Finished(s.requests[e.r].phase)
            && RequestOk(s, e.r, s.requests[e.r].(phase := p))
  {}

  lemma ReservingKeepsInv(s: State, e: Event)
    requires Inv(s) && (e.Reserve? || e.ProbeLatest?) && Apply(s, e).Some?
    ensures Inv(Apply(s, e).value)
  {
    var r, q := e.r, s.requests[e.r];
    assert RequestOk(s, r, q);
    if e.Reserve? && e.hit.Some? {
      ReserveKeepsInv(s, r, e.hit.value);
    } else if e.Reserve? {
      PhaseKeepsInv(s, r, ProbingCurrent);
    } else if HasAny(s.quotas, q.workspace) {
      PhaseKeepsInv(s, r, Done(QuotaExceeded(true)));
    } else {
      FreeKeepsInv(s, r);
    }
  }

  lemma FreeKeepsInv(s: State, r: nat)
    requires Inv(s) && r in s.requests && s.requests[r].phase == ProbingLatest
    ensures Inv(With(s, r, s.requests[r].(hold := FreeOfLimit, phase := Producing)))
  {
    assert RequestOk(s, r, s.requests[r]);
    FreeIsOk(s, r);
    MoveKeepsInv(s, With(s, r, s.requests[r].(hold := FreeOfLimit, phase := Producing)), r);
  }

  lemma FreeIsOk(s: State, r: nat)
    requires r in s.requests && s.requests[r].phase == ProbingLatest && RequestOk(s, r, s.requests[r])
    ensures var s' := With(s, r, s.requests[r].(hold := FreeOfLimit, phase := Producing));
            && RequestOk(s', r, s'.requests[r])
            && forall o | o in s.quotas :: Units(s'.requests, r, o) == Units(s.requests, r, o)
  {}

  lemma PersistingKeepsInv(s: State, e: Event)
    requires Inv(s) && (e.Insert? || e.Commit? || e.CommitUnheard? || e.Settle?) && Apply(s, e).Some?
    ensures Inv(Apply(s, e).value)
  {
    var r, q := e.r, s.requests[e.r];
    if e.Settle? {
      SettleKeepsInv(s, r);
    } else if e.Commit? || e.CommitUnheard? {
      CommitKeepsInv(s, r, e.CommitUnheard?);
    } else if q.key.Some? && (q.workspace, q.key.value) in s.keyIndex {
      assert RequestOk(s, r, q);
      PhaseKeepsInv(s, r, Lost);
    } else {
      InsertKeepsInv(s, r);
    }
  }

  lemma MovingKeepsInv(s: State, e: Event)
    requires Inv(s) && Apply(s, e).Some?
    requires e.LookUp? || e.Replay? || e.StatementFails? || e.Crash? || e.Rollback? || e.ProbeCurrent? || e.Produce? || e.RecordEscalation?
    ensures Inv(Apply(s, e).value)
  {
    assert RequestOk(s, e.r, s.requests[e.r]);
    if e.LookUp? || e.Replay? {
      LookUpIsOk(s, e);
    } else if e.StatementFails? || e.Crash? || e.Rollback? {
      FailIsOk(s, e);
    } else {
      NextIsOk(s, e);
    }
    PhaseKeepsInv(s, e.r, Apply(s, e).value.requests[e.r].phase);
  }

  lemma ArrivalStep(s: State, e: Event)
    requires (e.Arrive? || e.ArriveEscalated?) && Apply(s, e).Some?
    ensures Apply(s, e).value == With(s, s.nextRequest, Arrival(e)).(nextRequest := s.nextRequest + 1)
    ensures var q := Arrival(e);
            && q.hold == NoHold && q.wrote.None? && q.refunds == 0 && !q.unheard
            && ((q.phase.LookingUp? && q.key.Some?) || q.phase.Reserving? || q.phase.Inserting?)
  {}

  lemma ArrivingKeepsInv(s: State, e: Event)
    requires Inv(s) && (e.Arrive? || e.ArriveEscalated?) && Apply(s, e).Some?
    ensures Inv(Apply(s, e).value)
  {
    ArrivalStep(s, e);
    ArrivalKeepsInv(s, Arrival(e));
  }

  lemma ApplyKeepsInv(s: State, e: Event)
    requires Inv(s) && Apply(s, e).Some?
    ensures Inv(Apply(s, e).value)
  {
    if e.Tick? {
      TickKeepsInv(s, e.to);
    } else if e.OpenPeriod? {
      OpenKeepsInv(s, e);
    } else if e.Reconcile? {
      ReconcileKeepsInv(s, e);
    } else if e.Arrive? || e.ArriveEscalated? {
      ArrivingKeepsInv(s, e);
    } else if e.Reserve? || e.ProbeLatest? {
      ReservingKeepsInv(s, e);
    } else if e.Insert? || e.Commit? || e.CommitUnheard? || e.Settle? {
      PersistingKeepsInv(s, e);
    } else {
      MovingKeepsInv(s, e);
    }
  }

  lemma RunKeepsInv(s: State, es: seq<Event>)
    requires Inv(s) && Exec(s, es).Some?
    ensures Inv(Exec(s, es).value)
  {
    forall t, e | Inv(t) && Apply(t, e).Some? ensures Inv(Apply(t, e).value) {
      ApplyKeepsInv(t, e);
    }
    RunKeeps(Apply, t => Inv(t), s, es);
  }

  ghost predicate Reachable(s: State) {
    exists now, es :: Exec(Init(now), es) == Some(s)
  }

  lemma ReachableInv(s: State)
    requires Reachable(s)
    ensures Inv(s)
  {
    var now, es :| Exec(Init(now), es) == Some(s);
    RunKeepsInv(Init(now), es);
  }
}
