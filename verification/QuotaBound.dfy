/** The allowance over a quota row's whole life, however often it is reconciled. */
module QuotaBound {
  import opened Common
  import opened Runs
  import opened Quotas
  import opened AnswerLedger
  import opened AnswerGuarantees

  /** A billable row whose request took its unit from this quota row. */
  predicate ChargedTo(s: State, c: nat, id: nat) {
    && c in s.conversations && c in s.events && s.events[c].billable
    && s.conversations[c].writer in s.requests && s.requests[s.conversations[c].writer].hold == UnitOf(id)
  }

  function EverCharged(s: State, id: nat): set<nat> {
    set c | c in s.conversations && ChargedTo(s, c, id)
  }

  /** Those whose event falls outside the period, so that a reconciliation forgets them. */
  function EverStrayed(s: State, id: nat): set<nat>
    requires id in s.quotas
  {
    set c | c in EverCharged(s, id) && !Covers(s.quotas[id], s.events[c].workspace, s.events[c].occurredAt)
  }

  /** Requests refunded although they had committed a billable row. */
  function EverForgiven(s: State, id: nat): set<nat> {
    set r | r in s.requests && s.requests[r].hold == UnitOf(id) && WroteBillable(s, s.requests[r]) && s.requests[r].refunds > 0
  }

  predicate WithinAllowance(s: State, id: nat)
    requires id in s.quotas
  {
    |EverCharged(s, id)| <= s.quotas[id].allowance + |EverForgiven(s, id)| + |EverStrayed(s, id)|
  }

  lemma SubsetIsSmaller(a: set<nat>, b: set<nat>)
    requires a <= b
    ensures |a| <= |b|
  {
    assert b == a + (b - a);
  }

  /** Rows charged before the last reconciliation were metered by it, or had strayed. */
  lemma ChargedBefore(s: State, id: nat)
    requires id in s.quotas && id in s.books
    ensures |EverCharged(s, id)| <= |Metered(s, id, s.books[id].sinceRow)| + |EverStrayed(s, id)| + |BillableRows(s, id)|
  {
    var all, metered, strayed, rows := EverCharged(s, id), Metered(s, id, s.books[id].sinceRow), EverStrayed(s, id), BillableRows(s, id);
    forall c | c in all ensures c in metered + strayed + rows {}
    SubsetIsSmaller(all, metered + strayed + rows);
    UnionSize(metered, strayed);
    UnionSize(metered + strayed, rows);
  }

  lemma UnionSize(a: set<nat>, b: set<nat>)
    ensures |a + b| <= |a| + |b|
  {
    assert a + b == a + (b - a);
    SubsetIsSmaller(b - a, b);
  }

  /** Where the last reconciliation was not capped the counter itself bounds what was charged, with
      what is still open or leaked. */
  lemma UncappedIsWithin(s: State, id: nat)
    requires RequestsOk(s) && TablesOk(s) && OrdersOk(s) && id in s.quotas && id in s.books && Counted(s, id, s.books[id])
    requires s.quotas[id].used <= s.quotas[id].allowance && s.books[id].base == |Metered(s, id, s.books[id].sinceRow)|
    ensures |EverCharged(s, id)| + |Open(s, id)| + |Leaked(s, id)| <= s.quotas[id].allowance + |EverForgiven(s, id)| + |EverStrayed(s, id)|
  {
    ChargedBefore(s, id);
    BillableRowsCounted(s, id);
    HoldingSplits(s, id);
    SubsetIsSmaller(Forgiven(s, id), EverForgiven(s, id));
  }

  // ---------------------------------------------------------------- where it was capped

  /** The counter is full, so nobody since holds a unit. */
  lemma CappedHoldsNothing(s: State, id: nat)
    requires id in s.quotas && id in s.books && Counted(s, id, s.books[id])
    requires s.quotas[id].used <= s.quotas[id].allowance && s.books[id].base == s.quotas[id].allowance
    ensures Holding(s.requests, id, s.books[id].sinceRequest) == {}
  {}

  /** What every step keeps of requests that have written, and of rows. */
  ghost predicate RowsKept(s: State, s': State) {
    && (forall c | c in s.conversations :: c in s'.conversations && s'.conversations[c] == s.conversations[c])
    && (forall c | c in s.events :: c in s'.events && s'.events[c] == s.events[c])
    && (forall r | r in s.requests && s.requests[r].wrote.Some? ::
          && r in s'.requests && s'.requests[r].wrote == s.requests[r].wrote && s'.requests[r].hold == s.requests[r].hold
          && s.requests[r].refunds <= s'.requests[r].refunds)
  }

  /** One request's step leaves its row, and its unit once it has a row, as they were. */
  predicate StepOf(q: Request, next: Request) {
    next.wrote == q.wrote && q.refunds <= next.refunds && (q.wrote.Some? ==> next.hold == q.hold)
  }

  ghost predicate OnlyRequest(s: State, s': State, r: nat) {
    && s'.conversations == s.conversations && s'.events == s.events && s'.books == s.books
    && r in s.requests && r in s'.requests && s'.requests == s.requests[r := s'.requests[r]] && StepOf(s.requests[r], s'.requests[r])
  }

  predicate Takes(e: Event) {
    e.Reserve? || e.ProbeLatest?
  }

  predicate Leaves(e: Event) {
    e.Tick? || e.OpenPeriod? || e.Arrive? || e.ArriveEscalated? || e.Reconcile? || e.Commit? || e.CommitUnheard?
  }

  lemma TakingKeepsRows(s: State, e: Event)
    requires Takes(e) && e.r in s.requests && RequestOk(s, e.r, s.requests[e.r]) && Apply(s, e).Some?
    ensures OnlyRequest(s, Apply(s, e).value, e.r)
  {}

  lemma PhaseKeepsRows(s: State, r: nat, p: Phase)
    requires r in s.requests
    ensures OnlyRequest(s, To(s, r, p), r)
  {}

  lemma InsertKeepsRows(s: State, e: Event)
    requires e.Insert? && e.r in s.requests && Apply(s, e).Some?
    ensures OnlyRequest(s, Apply(s, e).value, e.r)
  {}

  lemma SettleKeepsRows(s: State, e: Event)
    requires e.Settle? && e.r in s.requests && Apply(s, e).Some?
    ensures OnlyRequest(s, Apply(s, e).value, e.r)
  {}

  lemma AdvanceKeepsRows(s: State, e: Event)
    requires TablesOk(s) && !Leaves(e) && e.r in s.requests && RequestOk(s, e.r, s.requests[e.r]) && Apply(s, e).Some?
    ensures OnlyRequest(s, Apply(s, e).value, e.r)
  {
    if Takes(e) {
      TakingKeepsRows(s, e);
    } else if e.Settle? {
      SettleKeepsRows(s, e);
    } else if e.Insert? {
      InsertKeepsRows(s, e);
    } else {
      MovingKeepsRows(s, e);
    }
  }

  /** The other statements only move their request on. */
  lemma MovingKeepsRows(s: State, e: Event)
    requires e.LookUp? || e.Replay? || e.StatementFails? || e.Crash? || e.Rollback? || e.ProbeCurrent? || e.Produce? || e.RecordEscalation?
    requires TablesOk(s) && e.r in s.requests && RequestOk(s, e.r, s.requests[e.r]) && Apply(s, e).Some?
    ensures OnlyRequest(s, Apply(s, e).value, e.r)
  {
    if e.LookUp? || e.Replay? {
      LookUpIsOk(s, e);
    } else if e.StatementFails? || e.Crash? || e.Rollback? {
      FailIsOk(s, e);
    } else {
      NextIsOk(s, e);
    }
    PhaseKeepsRows(s, e.r, Apply(s, e).value.requests[e.r].phase);
  }

  lemma CommitKeepsRows(s: State, r: nat, unheard: bool)
    requires r in s.requests && s.requests[r].phase.Writing? && RequestOk(s, r, s.requests[r])
    requires s.requests[r].phase.conversation !in s.conversations && s.requests[r].phase.conversation !in s.events
    ensures var s', c := Committed(s, r, unheard), s.requests[r].phase.conversation;
            && RowsKept(s, s') && s'.books == s.books
            && s'.conversations.Keys == s.conversations.Keys + {c} && s'.conversations[c].writer == r
            && r in s'.requests && s'.requests[r].hold == s.requests[r].hold
  {}

  /** No row is ever charged here that was not before, unless a request holding a unit commits. */
  lemma ChargedStays(s: State, s': State, id: nat)
    requires TablesOk(s) && RowsKept(s, s') && s'.conversations.Keys == s.conversations.Keys
    ensures EverCharged(s', id) == EverCharged(s, id)
  {
    forall c | c in s.conversations ensures ChargedTo(s', c, id) <==> ChargedTo(s, c, id) {
      assert RowOk(s, c, s.conversations[c]);
    }
  }

  lemma BoundStays(s: State, s': State, id: nat)
    requires RowsKept(s, s') && id in s.quotas && id in s'.quotas && WithinAllowance(s, id)
    requires EverCharged(s', id) == EverCharged(s, id)
    requires s'.quotas[id] == s.quotas[id].(used := s'.quotas[id].used)
    ensures WithinAllowance(s', id)
  {
    SubsetIsSmaller(EverForgiven(s, id), EverForgiven(s', id));
    SubsetIsSmaller(EverStrayed(s, id), EverStrayed(s', id));
  }

  /** With the counter full at the last reconciliation whoever is writing took no unit here. */
  lemma CappedWriterIsElsewhere(s: State, r: nat, id: nat)
    requires OrdersOk(s) && r in s.requests && s.requests[r].phase.Writing? && RequestOk(s, r, s.requests[r])
    requires id in s.quotas && id in s.books && Counted(s, id, s.books[id])
    requires s.quotas[id].used <= s.quotas[id].allowance && s.books[id].base == s.quotas[id].allowance
    ensures s.requests[r].hold != UnitOf(id)
  {
    CappedHoldsNothing(s, id);
    RunningIsLater(s, r);
    assert forall o | o in s.requests && s.books[id].sinceRequest <= o && Holds(s.requests[o], id) ::
             o in Holding(s.requests, id, s.books[id].sinceRequest);
  }

  lemma CappedCommit(s: State, r: nat, unheard: bool, id: nat)
    requires Inv(s) && r in s.requests && s.requests[r].phase.Writing? && id in s.quotas && WithinAllowance(s, id)
    requires s.books[id].base == s.quotas[id].allowance
    ensures WithinAllowance(Committed(s, r, unheard), id)
  {
    assert RequestOk(s, r, s.requests[r]) && Uncommitted(s, s.requests[r]) && Counted(s, id, s.books[id]);
    CappedWriterIsElsewhere(s, r, id);
    CommitKeepsRows(s, r, unheard);
    CommitChargesOther(s, r, unheard, id);
    BoundStays(s, Committed(s, r, unheard), id);
  }

  lemma CommitChargesOther(s: State, r: nat, unheard: bool, id: nat)
    requires TablesOk(s) && r in s.requests && s.requests[r].phase.Writing? && s.requests[r].hold != UnitOf(id)
    requires RowsKept(s, Committed(s, r, unheard)) && s.requests[r].phase.conversation !in s.conversations
    requires Committed(s, r, unheard).conversations.Keys == s.conversations.Keys + {s.requests[r].phase.conversation}
    ensures EverCharged(Committed(s, r, unheard), id) == EverCharged(s, id)
  {
    var s' := Committed(s, r, unheard);
    forall c | c in s.conversations ensures ChargedTo(s', c, id) <==> ChargedTo(s, c, id) {
      assert RowOk(s, c, s.conversations[c]);
    }
  }

  lemma ArrivalKeepsRows(s: State, e: Event)
    requires (e.Arrive? || e.ArriveEscalated?) && Apply(s, e).Some? && s.nextRequest !in s.requests
    ensures var s' := Apply(s, e).value; RowsKept(s, s') && s'.conversations == s.conversations
  {
    ArrivalStep(s, e);
  }

  lemma QuietStep(s: State, e: Event)
    requires RequestsOk(s) && TablesOk(s) && Apply(s, e).Some? && !e.Commit? && !e.CommitUnheard?
    ensures var s' := Apply(s, e).value; RowsKept(s, s') && s'.conversations == s.conversations
  {
    if e.Arrive? || e.ArriveEscalated? {
      NextIsFresh(s);
      ArrivalKeepsRows(s, e);
    } else if !Leaves(e) {
      assert RequestOk(s, e.r, s.requests[e.r]);
      AdvanceKeepsRows(s, e);
      OnlyRequestKeepsRows(s, Apply(s, e).value, e.r);
    }
  }

  lemma OnlyRequestKeepsRows(s: State, s': State, r: nat)
    requires OnlyRequest(s, s', r)
    ensures RowsKept(s, s')
  {}

  /** Rows of the quota table keep everything but the counter. */
  lemma QuotaKeeps(s: State, e: Event, id: nat)
    requires Apply(s, e).Some? && id in s.quotas
    ensures var s' := Apply(s, e).value; id in s'.quotas && s'.quotas[id] == s.quotas[id].(used := s'.quotas[id].used)
  {
    match e
    case Reserve(_, _) =>
    case Settle(_) =>
    case Commit(_) =>
    case CommitUnheard(_) =>
    case _ =>
  }

  lemma CommitKeepsBound(s: State, r: nat, unheard: bool, id: nat)
    requires Inv(s) && r in s.requests && s.requests[r].phase.Writing? && id in s.quotas && WithinAllowance(s, id)
    ensures WithinAllowance(Committed(s, r, unheard), id)
  {
    if s.books[id].base == s.quotas[id].allowance {
      CappedCommit(s, r, unheard, id);
    } else {
      CommitIsWithin(s, r, unheard, id);
    }
  }

  lemma QuietKeepsBound(s: State, e: Event, id: nat)
    requires RequestsOk(s) && TablesOk(s) && Apply(s, e).Some? && !e.Commit? && !e.CommitUnheard? && id in s.quotas && WithinAllowance(s, id)
    ensures id in Apply(s, e).value.quotas && WithinAllowance(Apply(s, e).value, id)
  {
    var s' := Apply(s, e).value;
    QuotaKeeps(s, e, id);
    QuietStep(s, e);
    ChargedStays(s, s', id);
    BoundStays(s, s', id);
  }

  lemma CommitStep(s: State, e: Event)
    requires (e.Commit? || e.CommitUnheard?) && Apply(s, e).Some?
    ensures e.r in s.requests && s.requests[e.r].phase.Writing? && Apply(s, e).value == Committed(s, e.r, e.CommitUnheard?)
  {}

  lemma CommitStepKeepsBound(s: State, e: Event, id: nat)
    requires Inv(s) && (e.Commit? || e.CommitUnheard?) && Apply(s, e).Some? && id in s.quotas && WithinAllowance(s, id)
    ensures id in Apply(s, e).value.quotas && WithinAllowance(Apply(s, e).value, id)
  {
    CommitStep(s, e);
    CommitKeepsBound(s, e.r, e.CommitUnheard?, id);
  }

  lemma StepKeepsBound(s: State, e: Event, id: nat)
    requires Inv(s) && Apply(s, e).Some? && id in s.quotas && WithinAllowance(s, id)
    ensures id in Apply(s, e).value.quotas && WithinAllowance(Apply(s, e).value, id)
  {
    if e.Commit? || e.CommitUnheard? {
      CommitStepKeepsBound(s, e, id);
    } else {
      QuietKeepsBound(s, e, id);
    }
  }

  lemma CommitIsWithin(s: State, r: nat, unheard: bool, id: nat)
    requires Inv(s) && r in s.requests && s.requests[r].phase.Writing? && id in s.quotas
    requires s.books[id].base != s.quotas[id].allowance
    ensures WithinAllowance(Committed(s, r, unheard), id)
  {
    var s' := Committed(s, r, unheard);
    CommitKeepsInv(s, r, unheard);
    assert Counted(s', id, s'.books[id]);
    UncappedIsWithin(s', id);
  }

  ghost predicate Bounded(s: State) {
    forall id | id in s.quotas :: WithinAllowance(s, id)
  }

  /** A row just opened has been charged nothing. */
  lemma NewRowIsWithin(s: State, e: Event, id: nat)
    requires RequestsOk(s) && Apply(s, e).Some? && id in Apply(s, e).value.quotas && id !in s.quotas
    ensures WithinAllowance(Apply(s, e).value, id)
  {
    var s' := Apply(s, e).value;
    if !e.OpenPeriod? {
      QuotasOnlyOpen(s, e);
    }
    forall c | c in s'.conversations ensures !ChargedTo(s', c, id) {
      assert forall r | r in s.requests :: RequestOk(s, r, s.requests[r]);
    }
    assert EverCharged(s', id) == {};
  }

  lemma QuotasOnlyOpen(s: State, e: Event)
    requires Apply(s, e).Some? && !e.OpenPeriod?
    ensures Apply(s, e).value.quotas.Keys == s.quotas.Keys
  {
    match e
    case Reserve(_, _) =>
    case Settle(_) =>
    case Commit(_) =>
    case CommitUnheard(_) =>
    case _ =>
  }

  lemma StepKeepsBounded(s: State, e: Event)
    requires Inv(s) && Bounded(s) && Apply(s, e).Some?
    ensures Bounded(Apply(s, e).value)
  {
    var s' := Apply(s, e).value;
    forall id | id in s'.quotas ensures WithinAllowance(s', id) {
      if id in s.quotas {
        StepKeepsBound(s, e, id);
      } else {
        NewRowIsWithin(s, e, id);
      }
    }
  }

  ghost predicate Kept(s: State) {
    Inv(s) && Bounded(s)
  }

  lemma StepKeeps(s: State, e: Event)
    requires Kept(s) && Apply(s, e).Some?
    ensures Kept(Apply(s, e).value)
  {
    ApplyKeepsInv(s, e);
    StepKeepsBounded(s, e);
  }

  lemma ReachableKept(s: State)
    requires Reachable(s)
    ensures Kept(s)
  {
    var now, es :| Exec(Init(now), es) == Some(s);
    assert Kept(Init(now));
    forall t, e | Kept(t) && Apply(t, e).Some? ensures Kept(Apply(t, e).value) {
      StepKeeps(t, e);
    }
    RunKeeps(Apply, t => Kept(t), Init(now), es);
  }

  /** Over its whole life, through any number of reconciliations, what a quota row is charged for,
      with what is open or leaked since the last one, is no more than its allowance, plus commits
      that took effect unheard and were refunded, plus answers that strayed out of the period and
      that a reconciliation therefore forgets. With none of those two it is never oversold. */
  lemma NeverOversold(s: State, id: nat)
    requires Reachable(s) && id in s.quotas
    ensures id in s.books
    ensures |EverCharged(s, id)| + |Open(s, id)| + |Leaked(s, id)|
         <= s.quotas[id].allowance + |EverForgiven(s, id)| + |EverStrayed(s, id)|
  {
    ReachableKept(s);
    ReachableParts(s);
    assert Counted(s, id, s.books[id]);
    if s.books[id].base == s.quotas[id].allowance {
      CappedHoldsNothing(s, id);
      assert Open(s, id) == {} && Leaked(s, id) == {};
    } else {
      UncappedIsWithin(s, id);
    }
  }
}
