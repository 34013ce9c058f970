/** What a request comes to, as the tables decide it: who is let in, who is turned away and why,
    and what a request that runs alone leaves behind. */
module AnswerOutcomes {
  import opened Common
  import opened Runs
  import opened Quotas
  import opened AnswerLedger
  import AnswerGuarantees

  // ---------------------------------------------------------------- a limited workspace

  /** Without a unit only an escalation is delivered fresh. */
  predicate UnpaidEscalates(q: Request) {
    q.hold == NoHold ==>
      match q.phase {
        case Producing => false
        case Inserting(a) => a.body.status == Escalated
        case Writing(a, _) => a.body.status == Escalated
        case Escalating(a) => a.body.status == Escalated
        case Settling(Delivers(d)) => !d.replayed ==> d.answer.body.status == Escalated
        case Done(Delivers(d)) => !d.replayed ==> d.answer.body.status == Escalated
        case _ => true
      }
  }

  predicate Paid(q: Request) {
    q.hold != FreeOfLimit && UnpaidEscalates(q)
  }

  /** The workspace has a quota row, and nobody who arrived from `first` on is free of it. */
  ghost predicate Limited(s: State, ws: nat, first: nat) {
    && first <= s.nextRequest
    && HasAny(s.quotas, ws)
    && forall r | r in s.requests && first <= r && s.requests[r].workspace == ws ::
         Paid(s.requests[r])
  }

  lemma RowsStay(s: State, e: Event, ws: nat)
    requires Apply(s, e).Some? && HasAny(s.quotas, ws)
    ensures HasAny(Apply(s, e).value.quotas, ws)
  {
    var id :| id in s.quotas && s.quotas[id].workspace == ws;
    assert id in Apply(s, e).value.quotas && Apply(s, e).value.quotas[id].workspace == ws;
  }

  predicate IsOwn(e: Event) {
    !e.Tick? && !e.OpenPeriod? && !e.Arrive? && !e.ArriveEscalated? && !e.Reconcile?
  }

  /** A fresh escalation is on its way to a visitor with a session. */
  predicate HandsOver(q: Request) {
    && q.hasSession && (q.phase.Settling? || q.phase.Done?) && q.phase.outcome.Delivers? && !q.phase.outcome.delivery.replayed
    && q.phase.outcome.delivery.answer.body.status == Escalated
  }

  /** Only `r` moves; if it was paid for it still is, and it hands over only what it did before. */
  predicate Moves(s: State, s': State, r: nat) {
    && r in s.requests && r in s'.requests && s'.requests == s.requests[r := s'.requests[r]]
    && s'.requests[r].workspace == s.requests[r].workspace && s'.nextRequest == s.nextRequest
    && (Paid(s.requests[r]) && HasAny(s.quotas, s.requests[r].workspace) ==> Paid(s'.requests[r]))
    && (HandsOver(s'.requests[r]) ==> HandsOver(s.requests[r]) || s.requests[r].phase.Escalating?)
  }

  lemma MoveTo(s: State, r: nat, p: Phase)
    requires r in s.requests && (Paid(s.requests[r]) ==> UnpaidEscalates(s.requests[r].(phase := p)))
    requires HandsOver(s.requests[r].(phase := p)) ==> HandsOver(s.requests[r]) || s.requests[r].phase.Escalating?
    ensures Moves(s, To(s, r, p), r)
  {}

  lemma CommitMoves(s: State, r: nat, unheard: bool)
    requires r in s.requests && s.requests[r].phase.Writing?
    ensures Moves(s, Committed(s, r, unheard), r)
  {}

  lemma SettledRequest(s: State, r: nat) returns (s': State)
    requires r in s.requests && s.requests[r].phase.Settling?
    ensures s' == Settled(s, r) && s'.nextRequest == s.nextRequest && r in s'.requests
    ensures s'.requests == s.requests[r := s.requests[r].(phase := Done(s.requests[r].phase.outcome), refunds := s'.requests[r].refunds)]
  {
    s' := Settled(s, r);
  }

  lemma SettleMoves(s: State, s': State, r: nat, refunds: nat)
    requires r in s.requests && s.requests[r].phase.Settling? && s'.nextRequest == s.nextRequest
    requires s'.requests == s.requests[r := s.requests[r].(phase := Done(s.requests[r].phase.outcome), refunds := refunds)]
    ensures Moves(s, s', r)
  {}

  lemma ReserveMoves(s: State, e: Event, s': State)
    requires e.Reserve? || e.ProbeLatest?
    requires e.r in s.requests && Advance(s, e, e.r, s.requests[e.r]) == Some(s')
    ensures Moves(s, s', e.r)
  {}

  lemma InsertMoves(s: State, e: Event, s': State)
    requires e.Insert? || e.Replay?
    requires e.r in s.requests && Advance(s, e, e.r, s.requests[e.r]) == Some(s')
    ensures Moves(s, s', e.r)
  {}

  lemma PlainMoves(s: State, e: Event, s': State)
    requires e.LookUp? || e.ProbeCurrent? || e.Produce? || e.Rollback? || e.RecordEscalation? || e.Crash?
    requires e.r in s.requests && Advance(s, e, e.r, s.requests[e.r]) == Some(s')
    ensures Moves(s, s', e.r)
  {
    MoveTo(s, e.r, s'.requests[e.r].phase);
  }

  lemma AdvanceMoves(s: State, e: Event, s': State)
    requires IsOwn(e) && e.r in s.requests && Advance(s, e, e.r, s.requests[e.r]) == Some(s')
    ensures Moves(s, s', e.r)
  {
    match e
    case Commit(r) => CommitMoves(s, r, false);
    case CommitUnheard(r) => CommitMoves(s, r, true);
    case Settle(r) =>
      var settled := SettledRequest(s, r);
      SettleMoves(s, settled, r, settled.requests[r].refunds);
    case Reserve(_, _) => ReserveMoves(s, e, s');
    case ProbeLatest(_) => ReserveMoves(s, e, s');
    case Insert(_) => InsertMoves(s, e, s');
    case Replay(_) => InsertMoves(s, e, s');
    case StatementFails(r) => MoveTo(s, r, s'.requests[r].phase);
    case _ => PlainMoves(s, e, s');
  }

  lemma ArrivalIsPaid(s: State, e: Event, s': State)
    requires (e.Arrive? || e.ArriveEscalated?) && Apply(s, e) == Some(s')
    ensures s'.requests == s.requests[s.nextRequest := Arrival(e)] && Paid(Arrival(e))
  {}

  lemma StepStaysLimited(s: State, e: Event, s': State, ws: nat, first: nat)
    requires Limited(s, ws, first) && Apply(s, e) == Some(s')
    ensures Limited(s', ws, first)
  {
    RowsStay(s, e, ws);
    if e.Arrive? || e.ArriveEscalated? {
      ArrivalIsPaid(s, e, s');
    } else if IsOwn(e) {
      AdvanceMoves(s, e, s');
    }
  }

  lemma {:induction false} StaysLimited(s: State, es: seq<Event>, ws: nat, first: nat)
    requires Limited(s, ws, first) && Exec(s, es).Some?
    ensures Limited(Exec(s, es).value, ws, first)
    decreases |es|
  {
    if es != [] {
      StepStaysLimited(s, es[0], Apply(s, es[0]).value, ws, first);
      StaysLimited(Apply(s, es[0]).value, es[1..], ws, first);
    }
  }

  /** Once a workspace has had a period, nobody is answered free again, be the period used up or
      ended: whoever arrives later and gets a fresh answer that counts holds a unit of one of the
      workspace's own rows, and keeps it. */
  lemma LimitedIsPaid(s: State, es: seq<Event>, ws: nat, r: nat)
    requires Reachable(s) && (exists id | id in s.quotas :: s.quotas[id].workspace == ws)
    requires Exec(s, es).Some? && r in Exec(s, es).value.requests && r >= s.nextRequest
    requires var q := Exec(s, es).value.requests[r];
             && q.workspace == ws && q.phase.Done? && q.phase.outcome.Delivers? && !q.phase.outcome.delivery.replayed
             && q.phase.outcome.delivery.answer.body.status in {Answered, WasRefused}
    ensures var t := Exec(s, es).value;
            var q := t.requests[r];
            q.hold.UnitOf? && q.refunds == 0 && q.hold.quota in t.quotas && t.quotas[q.hold.quota].workspace == ws
  {
    NobodyYet(s, ws);
    StaysLimited(s, es, ws, s.nextRequest);
    var t := Exec(s, es).value;
    RunStaysReachable(s, es);
    ReachableInv(t);
    assert RequestOk(t, r, t.requests[r]);
  }

  lemma NobodyYet(s: State, ws: nat)
    requires Reachable(s) && HasAny(s.quotas, ws)
    ensures Limited(s, ws, s.nextRequest)
  {
    ReachableInv(s);
    forall r | r in s.requests ensures r < s.nextRequest {
      assert RequestOk(s, r, s.requests[r]);
    }
  }

  lemma {:induction false} RunStaysReachable(s: State, es: seq<Event>)
    requires Reachable(s) && Exec(s, es).Some?
    ensures Reachable(Exec(s, es).value)
    decreases |es|
  {
    if es != [] {
      var next := AnswerGuarantees.Step(s, es[0]);
      RunStaysReachable(next, es[1..]);
    }
  }

  // ---------------------------------------------------------------- a handoff

  lemma OnlyRecordingHandsOver(s: State, e: Event, s': State)
    requires IsOwn(e) && e.r in s.requests && s.requests[e.r].phase.Escalating?
    requires Advance(s, e, e.r, s.requests[e.r]) == Some(s') && e.r in s'.requests && HandsOver(s'.requests[e.r])
    ensures e.RecordEscalation?
  {}

  lemma OutsideKeepsRequests(s: State, e: Event, s': State, r: nat)
    requires !IsOwn(e) && Apply(s, e) == Some(s') && r in s'.requests && HandsOver(s'.requests[r])
    ensures r in s.requests && s.requests[r] == s'.requests[r]
  {}

  lemma StepHandsOver(s: State, e: Event, s': State, r: nat)
    requires Apply(s, e) == Some(s') && r in s'.requests && HandsOver(s'.requests[r])
    requires r in s.requests ==> !HandsOver(s.requests[r])
    ensures e == RecordEscalation(r)
  {
    if IsOwn(e) {
      AdvanceMoves(s, e, s');
      OnlyRecordingHandsOver(s, e, s');
    } else {
      OutsideKeepsRequests(s, e, s', r);
    }
  }

  /** Nobody with a session is told of an escalation, when it happens, before it is in the queue:
      in every run that ends so, it was recorded. */
  lemma {:induction false} EscalationIsRecorded(now: int, es: seq<Event>, r: nat)
    requires Exec(Init(now), es).Some? && r in Exec(Init(now), es).value.requests && HandsOver(Exec(Init(now), es).value.requests[r])
    ensures RecordEscalation(r) in es
    decreases |es|
  {
    if es != [] {
      var front, last := es[..|es| - 1], es[|es| - 1];
      RunFront(Apply, Init(now), es);
      var before, after := Exec(Init(now), front).value, Exec(Init(now), es).value;
      if r in before.requests && HandsOver(before.requests[r]) {
        EscalationIsRecorded(now, front, r);
        assert forall e | e in front :: e in es;
      } else {
        StepHandsOver(before, last, after, r);
      }
    }
  }

  // ---------------------------------------------------------------- the reserving statements

  lemma ArrivedBefore(s: State, r: nat)
    requires Reachable(s) && r in s.requests
    ensures r < s.nextRequest
  {
    ReachableInv(s);
    assert RequestOk(s, r, s.requests[r]);
  }

  /** Only its own statement moves a request on. */
  lemma OwnStatement(s: State, e: Event, s': State, r: nat)
    requires Apply(s, e) == Some(s') && r < s.nextRequest && r in s.requests && r in s'.requests
    requires s'.requests[r].phase != s.requests[r].phase
    ensures IsOwn(e) && e.r == r && Advance(s, e, r, s.requests[r]) == Some(s')
  {
    if IsOwn(e) {
      AdvanceMoves(s, e, s');
    }
  }

  /** Whatever runs beside it, a request that survives one of its three reserving statements
      leaves it as the table has it at that instant. The update takes a unit of a current row
      with one left, and finds nothing exactly if no such row exists. */
  lemma UpdateDecides(s: State, e: Event, s': State, r: nat)
    requires Reachable(s) && Apply(s, e) == Some(s') && r in s.requests && r in s'.requests && s.requests[r].phase == Reserving
    requires s'.requests[r].phase != Reserving && s'.requests[r].phase != Dead && s'.requests[r].phase != Done(Throws)
    ensures var q, q' := s.requests[r], s'.requests[r];
            if exists id | id in s.quotas :: Grants(s.quotas[id], q.workspace, s.now) then
              && q'.hold.UnitOf? && q' == q.(hold := q'.hold, phase := Producing)
              && q'.hold.quota in s.quotas && s'.quotas == Charge(s.quotas, q'.hold.quota)
              && s.quotas[q'.hold.quota].workspace == q.workspace
              && s.quotas[q'.hold.quota].periodStart <= s.now < s.quotas[q'.hold.quota].periodEnd
              && s.quotas[q'.hold.quota].used < s.quotas[q'.hold.quota].allowance
            else q' == q.(phase := ProbingCurrent) && s'.quotas == s.quotas
  {
    ArrivedBefore(s, r);
    OwnStatement(s, e, s', r);
  }

  /** The first probe turns it away as used up exactly if a row of the workspace is current. */
  lemma CurrentDecides(s: State, e: Event, s': State, r: nat)
    requires Reachable(s) && Apply(s, e) == Some(s') && r in s.requests && r in s'.requests && s.requests[r].phase == ProbingCurrent
    requires s'.requests[r].phase != ProbingCurrent && s'.requests[r].phase != Dead && s'.requests[r].phase != Done(Throws)
    ensures s'.requests[r] == s.requests[r].(phase :=
              if exists id | id in s.quotas ::
                   s.quotas[id].workspace == s.requests[r].workspace && s.quotas[id].periodStart <= s.now < s.quotas[id].periodEnd
              then Done(QuotaExceeded(false)) else ProbingLatest)
  {
    ArrivedBefore(s, r);
    OwnStatement(s, e, s', r);
  }

  /** The second turns it away as ended if the workspace has any row, and lets it in free exactly
      if it has none. */
  lemma LatestDecides(s: State, e: Event, s': State, r: nat)
    requires Reachable(s) && Apply(s, e) == Some(s') && r in s.requests && r in s'.requests && s.requests[r].phase == ProbingLatest
    requires s'.requests[r].phase != ProbingLatest && s'.requests[r].phase != Dead && s'.requests[r].phase != Done(Throws)
    ensures s'.requests[r] ==
              if exists id | id in s.quotas :: s.quotas[id].workspace == s.requests[r].workspace
              then s.requests[r].(phase := Done(QuotaExceeded(true)))
              else s.requests[r].(hold := FreeOfLimit, phase := Producing)
  {
    ArrivedBefore(s, r);
    OwnStatement(s, e, s', r);
  }

  // ---------------------------------------------------------------- a request on its own

  /** From `s`, statements of `r` alone, none of which fails, lead to `t`. */
  ghost predicate Alone(s: State, r: nat, t: State) {
    exists es :: OnlyOf(es, r) && Exec(s, es) == Some(t)
  }

  ghost predicate OnlyOf(es: seq<Event>, r: nat) {
    forall i | 0 <= i < |es| :: Smooth(es[i], r)
  }

  predicate Smooth(e: Event, r: nat) {
    match e
    case LookUp(o) => o == r
    case Reserve(o, _) => o == r
    case ProbeCurrent(o) => o == r
    case ProbeLatest(o) => o == r
    case Produce(o, _) => o == r
    case Insert(o) => o == r
    case Commit(o) => o == r
    case RecordEscalation(o) => o == r
    case Settle(o) => o == r
    case _ => false
  }

  lemma AloneAtOnce(s: State, r: nat)
    ensures Alone(s, r, s)
  {
    assert OnlyOf([], r) && Exec(s, []) == Some(s);
  }

  lemma AloneThen(s: State, r: nat, t: State, e: Event, u: State)
    requires Alone(s, r, t) && Smooth(e, r) && Apply(t, e) == Some(u)
    ensures Alone(s, r, u)
  {
    var es :| OnlyOf(es, r) && Exec(s, es) == Some(t);
    RunSnoc(Apply, s, es, e);
    assert OnlyOf(es + [e], r) && Exec(s, es + [e]) == Some(u);
  }

  /** A request just arrived, and nothing but it. */
  predicate Arrived(s: State, r: nat) {
    r in s.requests && (s.requests[r].phase == Reserving || s.requests[r].phase == LookingUp)
  }

  /** A key under which a row is stored answers at once: the stored answer, marked as a replay,
      and no table changes. */
  lemma KeyAnswersAlone(s: State, r: nat)
    requires Reachable(s) && r in s.requests && s.requests[r].phase == LookingUp
    requires s.requests[r].key.Some? && (s.requests[r].workspace, s.requests[r].key.value) in s.keyIndex
    ensures exists a ::
              && Stored(s, s.requests[r], s.keyIndex[(s.requests[r].workspace, s.requests[r].key.value)], a) && a.shown == NOTHING
              && Alone(s, r, To(s, r, Done(Delivers(Delivery(a, true)))))
  {
    ReachableInv(s);
    FoundIsStored(s, r);
    var a := FindReplay(s, s.requests[r].workspace, s.requests[r].key.value).value;
    AloneAtOnce(s, r);
    AloneThen(s, r, s, LookUp(r), To(s, r, Done(Delivers(Delivery(a, true)))));
  }

  /** No row is stored under the request's key, if it has one. */
  predicate Unanswered(s: State, q: Request) {
    q.key.Some? ==> (q.workspace, q.key.value) !in s.keyIndex
  }

  lemma ReachesReserving(s: State, r: nat)
    requires Reachable(s) && Arrived(s, r) && Unanswered(s, s.requests[r])
    ensures Alone(s, r, To(s, r, Reserving))
  {
    AloneAtOnce(s, r);
    if s.requests[r].phase == LookingUp {
      ReachableInv(s);
      assert RequestOk(s, r, s.requests[r]);
      AloneThen(s, r, s, LookUp(r), To(s, r, Reserving));
    } else {
      assert To(s, r, Reserving) == s;
    }
  }

  lemma ReachesProbe(s: State, r: nat)
    requires Reachable(s) && Arrived(s, r) && Unanswered(s, s.requests[r])
    requires !exists id | id in s.quotas :: Grants(s.quotas[id], s.requests[r].workspace, s.now)
    ensures Alone(s, r, To(s, r, ProbingCurrent))
  {
    ReachesReserving(s, r);
    assert To(To(s, r, Reserving), r, ProbingCurrent) == To(s, r, ProbingCurrent);
    AloneThen(s, r, To(s, r, Reserving), Reserve(r, None), To(s, r, ProbingCurrent));
  }

  /** A workspace whose current period is used up turns the request away, and one whose periods
      have all ended does too, each for its own reason; no table changes. */
  lemma TurnedAwayAlone(s: State, r: nat)
    requires Reachable(s) && Arrived(s, r) && Unanswered(s, s.requests[r])
    requires !exists id | id in s.quotas :: Grants(s.quotas[id], s.requests[r].workspace, s.now)
    requires exists id | id in s.quotas :: s.quotas[id].workspace == s.requests[r].workspace
    ensures var current := exists id | id in s.quotas ::
                             s.quotas[id].workspace == s.requests[r].workspace && s.quotas[id].periodStart <= s.now < s.quotas[id].periodEnd;
            Alone(s, r, To(s, r, Done(QuotaExceeded(!current))))
  {
    ReachesProbe(s, r);
    if HasCurrent(s.quotas, s.requests[r].workspace, s.now) {
      SecondTo(s, r, ProbingCurrent, Done(QuotaExceeded(false)));
      AloneThen(s, r, To(s, r, ProbingCurrent), ProbeCurrent(r), To(s, r, Done(QuotaExceeded(false))));
    } else {
      SecondTo(s, r, ProbingCurrent, ProbingLatest);
      AloneThen(s, r, To(s, r, ProbingCurrent), ProbeCurrent(r), To(s, r, ProbingLatest));
      EndedAlone(s, r);
    }
  }

  lemma SecondTo(s: State, r: nat, first: Phase, second: Phase)
    requires r in s.requests
    ensures To(To(s, r, first), r, second) == To(s, r, second)
  {}

  lemma EndedAlone(s: State, r: nat)
    requires r in s.requests && Alone(s, r, To(s, r, ProbingLatest)) && HasAny(s.quotas, s.requests[r].workspace)
    ensures Alone(s, r, To(s, r, Done(QuotaExceeded(true))))
  {
    SecondTo(s, r, ProbingLatest, Done(QuotaExceeded(true)));
    AloneThen(s, r, To(s, r, ProbingLatest), ProbeLatest(r), To(s, r, Done(QuotaExceeded(true))));
  }

  /** Let in, on a unit or free. */
  function LetIn(s: State, r: nat, hold: Hold): State
    requires r in s.requests && (hold.UnitOf? ==> hold.quota in s.quotas)
  {
    With(s, r, s.requests[r].(hold := hold, phase := Producing))
      .(quotas := if hold.UnitOf? then Charge(s.quotas, hold.quota) else s.quotas)
  }

  lemma LetInAlone(s: State, r: nat, hold: Hold)
    requires Reachable(s) && Arrived(s, r) && Unanswered(s, s.requests[r])
    requires match hold {
               case NoHold => false
               case FreeOfLimit => !HasAny(s.quotas, s.requests[r].workspace)
               case UnitOf(id) => id in s.quotas && Grants(s.quotas[id], s.requests[r].workspace, s.now)
             }
    ensures Alone(s, r, LetIn(s, r, hold))
  {
    if hold.UnitOf? {
      ReachesReserving(s, r);
      UnitTaken(s, r, hold.quota);
      AloneThen(s, r, To(s, r, Reserving), Reserve(r, Some(hold.quota)), LetIn(s, r, hold));
    } else {
      ReachesProbe(s, r);
      var latest := To(s, r, ProbingLatest);
      assert To(To(s, r, ProbingCurrent), r, ProbingLatest) == latest;
      AloneThen(s, r, To(s, r, ProbingCurrent), ProbeCurrent(r), latest);
      FreeTaken(s, r);
      AloneThen(s, r, latest, ProbeLatest(r), LetIn(s, r, FreeOfLimit));
    }
  }

  lemma UnitTaken(s: State, r: nat, id: nat)
    requires r in s.requests && id in s.quotas && Grants(s.quotas[id], s.requests[r].workspace, s.now)
    ensures Apply(To(s, r, Reserving), Reserve(r, Some(id))) == Some(LetIn(s, r, UnitOf(id)))
  {
    assert s.requests[r := s.requests[r].(phase := Reserving)][r := LetIn(s, r, UnitOf(id)).requests[r]]
        == LetIn(s, r, UnitOf(id)).requests;
  }

  lemma FreeTaken(s: State, r: nat)
    requires r in s.requests && !HasAny(s.quotas, s.requests[r].workspace)
    ensures Apply(To(s, r, ProbingLatest), ProbeLatest(r)) == Some(LetIn(s, r, FreeOfLimit))
  {
    assert s.requests[r := s.requests[r].(phase := ProbingLatest)][r := LetIn(s, r, FreeOfLimit).requests[r]]
        == LetIn(s, r, FreeOfLimit).requests;
  }

  /** Answered, its row inserted, its transaction still open. */
  function Inserted(s: State, r: nat, hold: Hold, a: Answer): State
    requires r in s.requests && (hold.UnitOf? ==> hold.quota in s.quotas)
  {
    LetIn(s, r, hold).(requests := s.requests[r := s.requests[r].(hold := hold, phase := Writing(a, s.nextRow))],
                       nextRow := s.nextRow + 1)
  }

  predicate Counts(a: Answer) {
    a.body.status == Answered || a.body.status == WasRefused
  }

  /** The row and its event, under the key if there is one. */
  function Recorded(s: State, r: nat, hold: Hold, a: Answer, phase: Phase): State
    requires r in s.requests && (hold.UnitOf? ==> hold.quota in s.quotas)
  {
    var q, c := s.requests[r], s.nextRow;
    LetIn(s, r, hold).(
      conversations := s.conversations[c := Conversation(q.workspace, q.key, a.body, r)],
      keyIndex := if q.key.Some? then s.keyIndex[(q.workspace, q.key.value) := c] else s.keyIndex,
      events := s.events[c := UsageEvent(q.workspace, Counts(a), a.tokens, s.now)],
      nextRow := c + 1,
      requests := s.requests[r := q.(hold := hold, phase := phase, wrote := Some(c), unheard := false)])
  }

  /** What an answered request leaves: its answer delivered as it was produced, its row and event
      stored, and a unit gone exactly if it was let in on one and the answer counts. */
  function AfterAnswer(s: State, r: nat, hold: Hold, a: Answer): State
    requires r in s.requests && (hold.UnitOf? ==> hold.quota in s.quotas)
  {
    var kept := hold.UnitOf? && Counts(a);
    var q := Recorded(s, r, hold, a, Done(Delivers(Delivery(a, false)))).requests[r];
    Recorded(s, r, hold, a, Done(Delivers(Delivery(a, false)))).(
      quotas := if kept then Charge(s.quotas, hold.quota) else s.quotas,
      requests := s.requests[r := q.(refunds := if kept || !hold.UnitOf? then 0 else 1)])
  }

  lemma InsertsAlone(s: State, r: nat, hold: Hold, a: Answer)
    requires r in s.requests && (hold.UnitOf? ==> hold.quota in s.quotas) && Unanswered(s, s.requests[r])
    requires !KeyHeld(s, r, s.requests[r].workspace, s.requests[r].key) && Alone(s, r, LetIn(s, r, hold))
    ensures Alone(s, r, Inserted(s, r, hold, a))
  {
    var q, t := s.requests[r].(hold := hold), LetIn(s, r, hold);
    var produced := To(t, r, Inserting(a));
    assert produced.requests == s.requests[r := q.(phase := Inserting(a))];
    AloneThen(s, r, t, Produce(r, a), produced);
    NobodyElseWrites(s, produced, r);
    assert To(produced, r, Writing(a, s.nextRow)).requests == Inserted(s, r, hold, a).requests;
    AloneThen(s, r, produced, Insert(r), Inserted(s, r, hold, a));
  }

  lemma NobodyElseWrites(s: State, t: State, r: nat)
    requires r in s.requests && r in t.requests && t.requests == s.requests[r := t.requests[r]]
    requires !KeyHeld(s, r, s.requests[r].workspace, s.requests[r].key)
    ensures !KeyHeld(t, r, s.requests[r].workspace, s.requests[r].key)
  {
    assert forall o | o in t.requests && o != r :: o in s.requests && t.requests[o] == s.requests[o];
  }

  lemma CommitsAlone(s: State, r: nat, hold: Hold, a: Answer, phase: Phase)
    requires r in s.requests && (hold.UnitOf? ==> hold.quota in s.quotas) && s.nextRow !in s.events
    requires phase == if a.body.status == Escalated && s.requests[r].hasSession then Escalating(a) else Settling(Delivers(Delivery(a, false)))
    requires Alone(s, r, Inserted(s, r, hold, a))
    ensures Alone(s, r, Recorded(s, r, hold, a, phase))
  {
    var t := Inserted(s, r, hold, a);
    assert Committed(t, r, false).requests == Recorded(s, r, hold, a, phase).requests;
    AloneThen(s, r, t, Commit(r), Recorded(s, r, hold, a, phase));
  }

  /** Answered by a transaction that commits, its handoff recorded if it has to be. */
  lemma RecordsAlone(s: State, r: nat, hold: Hold, a: Answer)
    requires r in s.requests && (hold.UnitOf? ==> hold.quota in s.quotas) && s.nextRow !in s.events
    requires Alone(s, r, Inserted(s, r, hold, a))
    ensures Alone(s, r, Recorded(s, r, hold, a, Settling(Delivers(Delivery(a, false)))))
  {
    var outcome := Settling(Delivers(Delivery(a, false)));
    if a.body.status == Escalated && s.requests[r].hasSession {
      var escalating, done := Recorded(s, r, hold, a, Escalating(a)), Recorded(s, r, hold, a, outcome);
      CommitsAlone(s, r, hold, a, Escalating(a));
      assert To(escalating, r, outcome).requests == done.requests;
      AloneThen(s, r, escalating, RecordEscalation(r), done);
    } else {
      CommitsAlone(s, r, hold, a, outcome);
    }
  }

  lemma SettlesAlone(s: State, r: nat, hold: Hold, a: Answer)
    requires r in s.requests && (hold.UnitOf? ==> hold.quota in s.quotas && s.quotas[hold.quota].used >= 0)
    requires s.requests[r].refunds == 0 && Alone(s, r, Recorded(s, r, hold, a, Settling(Delivers(Delivery(a, false)))))
    ensures Alone(s, r, AfterAnswer(s, r, hold, a))
  {
    var t, u := Recorded(s, r, hold, a, Settling(Delivers(Delivery(a, false)))), AfterAnswer(s, r, hold, a);
    assert Settled(t, r).requests == u.requests;
    assert hold.UnitOf? ==> GiveBack(Charge(s.quotas, hold.quota), hold.quota) == s.quotas;
    AloneThen(s, r, t, Settle(r), u);
  }

  /** A request that is let in, alone and without a failure, leaves its answer stored and charged
      as `AfterAnswer` says. It is let in on a unit of any row that grants one, or free if its
      workspace has never had a row. */
  lemma AnsweredAlone(s: State, r: nat, hold: Hold, a: Answer)
    requires Reachable(s) && Arrived(s, r) && Unanswered(s, s.requests[r])
    requires !KeyHeld(s, r, s.requests[r].workspace, s.requests[r].key)
    requires match hold {
               case NoHold => false
               case FreeOfLimit => !HasAny(s.quotas, s.requests[r].workspace)
               case UnitOf(id) => id in s.quotas && Grants(s.quotas[id], s.requests[r].workspace, s.now)
             }
    ensures Alone(s, r, AfterAnswer(s, r, hold, a))
  {
    ReachableInv(s);
    assert RequestOk(s, r, s.requests[r]);
    assert s.nextRow !in s.events by {
      assert s.nextRow in s.conversations ==> RowOk(s, s.nextRow, s.conversations[s.nextRow]);
    }
    LetInAlone(s, r, hold);
    InsertsAlone(s, r, hold, a);
    RecordsAlone(s, r, hold, a);
    SettlesAlone(s, r, hold, a);
  }
}
