/** What a membership or claim operation comes to: it is refused exactly where its meaning on the
    tables refuses it, and run alone it does exactly what that meaning says. */
module HandoffOutcomes {
  import opened Common
  import opened Runs
  import opened Membership
  import opened HandoffGuarantees

  // ---------------------------------------------------------------- members belong to workspaces

  ghost predicate Housed(s: State) {
    forall k | k in s.members :: k.0 in s.workspaces
  }

  lemma NextKeepsHoused(s: State, t: nat)
    requires Inv(s) && Housed(s) && t in s.txns && NextOf(s, t).Some?
    ensures Housed(NextOf(s, t).value)
  {
    assert TxnOk(s.members, s.sessions, s.txns[t]);
  }

  lemma StepKeepsHoused(s: State, e: Event)
    requires Inv(s) && Housed(s) && Apply(s, e).Some?
    ensures Housed(Apply(s, e).value)
  {
    if e.Next? {
      NextKeepsHoused(s, e.t);
    }
  }

  lemma {:induction false} RunKeepsHoused(s: State, es: seq<Event>)
    requires Inv(s) && Housed(s) && Exec(s, es).Some?
    ensures Housed(Exec(s, es).value)
    decreases |es|
  {
    if es != [] {
      ApplyKeepsInv(s, es[0]);
      StepKeepsHoused(s, es[0]);
      RunKeepsHoused(Apply(s, es[0]).value, es[1..]);
    }
  }

  lemma ReachableHoused(s: State)
    requires Reachable(s)
    ensures Housed(s)
  {
    var now, es :| Exec(Init(now), es) == Some(s);
    RunKeepsHoused(Init(now), es);
  }

  // ---------------------------------------------------------------- when an operation is refused

  /** The statement ended the transaction without committing it, or found nothing to update. */
  predicate RollsBack(s: State, t: nat, s': State)
    requires t in s.txns
  {
    !Committing(s.txns[t]) && (t !in s'.txns || s'.txns[t].step.Missed?)
  }

  /** What the statement checks is the last thing the operation can be refused for. */
  predicate LastCheck(x: Txn) {
    match x.op
    case Claim(_, _, _) => x.step.Shared?
    case End(_, _) => x.step.Found?
    case Change(_, _, _) => x.step.Found?
    case Transfer(_, _, _) => x.step.Promoted?
  }

  /** The row whose absence the operation finds first. */
  function FirstRow(op: Op): Member {
    match op
    case Claim(ws, user, _) => (ws, user)
    case End(ws, user) => (ws, user)
    case Change(ws, user, _) => (ws, user)
    case Transfer(ws, _, target) => (ws, target)
  }

  predicate ReadsRow(x: Txn) {
    if x.op.Claim? then x.step.Begun? else x.step.Locked?
  }

  lemma CountIsOwners(members: Members, k: Member)
    requires k in members && members[k] == Owner
    ensures |Owners(members, k.0)| <= 1 <==> !LeavesAnOwner(members, k)
  {
    var all := Owners(members, k.0);
    RemovableLeavesAnOwner(members, k);
    assert all == (all - {k}) + {k};
  }

  /** What the checks of one transaction decide. */
  predicate Decides(s: State, t: nat, s': State)
    requires t in s.txns
  {
    var x := s.txns[t];
    var refused := Atomic(s.members, s.sessions, x.op).None?;
    && (RollsBack(s, t, s') ==> refused && (LastCheck(x) || ReadsRow(x) || x.op.ws !in s.workspaces))
    && (LastCheck(x) && refused ==> RollsBack(s, t, s'))
    && (ReadsRow(x) ==> (RollsBack(s, t, s') <==> FirstRow(x.op) !in s.members))
  }

  lemma ClaimDecides(s: State, t: nat, s': State)
    requires t in s.txns && s.txns[t].op.Claim? && !s.txns[t].step.Missed? && NextClaim(s, t) == Some(s')
    requires TxnOk(s.members, s.sessions, s.txns[t])
    ensures Decides(s, t, s')
  {}

  lemma CountDecides(s: State, t: nat, s': State)
    requires t in s.txns && (s.txns[t].op.End? || s.txns[t].op.Change?) && s.txns[t].step.Found?
    requires NextOf(s, t) == Some(s') && TxnOk(s.members, s.sessions, s.txns[t])
    ensures Decides(s, t, s')
  {
    var x := s.txns[t];
    if x.step.role == Owner {
      CountIsOwners(s.members, (x.op.ws, x.op.user));
    }
  }

  lemma OthersDecide(s: State, t: nat, s': State)
    requires Housed(s) && t in s.txns && (s.txns[t].op.End? || s.txns[t].op.Change?) && !s.txns[t].step.Found?
    requires NextOf(s, t) == Some(s') && TxnOk(s.members, s.sessions, s.txns[t])
    ensures Decides(s, t, s')
  {}

  lemma TransferDecides(s: State, t: nat, s': State)
    requires Housed(s) && t in s.txns && s.txns[t].op.Transfer? && NextTransfer(s, t) == Some(s')
    requires TxnOk(s.members, s.sessions, s.txns[t])
    ensures Decides(s, t, s')
  {}

  /** A transaction whose statement can run rolls back by itself only where its operation, run on
      the tables at that instant, is refused. The last check rolls back exactly then; the statement
      that reads the operation's first row, exactly if that row is not there; and no other, but the
      lock of a workspace that is not there. */
  lemma ChecksAreExact(s: State, t: nat, s': State)
    requires Reachable(s) && t in s.txns && !s.txns[t].step.Missed? && NextOf(s, t) == Some(s')
    ensures var x := s.txns[t];
            var refused := Atomic(s.members, s.sessions, x.op).None?;
            && (RollsBack(s, t, s') ==> refused && (LastCheck(x) || ReadsRow(x) || x.op.ws !in s.workspaces))
            && (LastCheck(x) ==> (RollsBack(s, t, s') <==> refused))
            && (ReadsRow(x) ==> (RollsBack(s, t, s') <==> FirstRow(x.op) !in s.members))
  {
    ReachableInv(s);
    ReachableHoused(s);
    var x := s.txns[t];
    assert TxnOk(s.members, s.sessions, x);
    if x.op.Claim? {
      ClaimDecides(s, t, s');
    } else if x.op.Transfer? {
      TransferDecides(s, t, s');
    } else if x.step.Found? {
      CountDecides(s, t, s');
    } else {
      OthersDecide(s, t, s');
    }
  }

  // ---------------------------------------------------------------- an operation on its own

  function Nexts(t: nat, n: nat): seq<Event> {
    seq(n, _ => Next(t))
  }

  /** Some number of the transaction's own statements lead from `s` to `u`. */
  ghost predicate Alone(s: State, t: nat, u: State) {
    exists n: nat :: Exec(s, Nexts(t, n)) == Some(u)
  }

  lemma AloneAtOnce(s: State, t: nat)
    ensures Alone(s, t, s)
  {
    assert Exec(s, Nexts(t, 0)) == Some(s);
  }

  lemma AloneThen(s: State, t: nat, u: State, v: State)
    requires Alone(s, t, u) && Apply(u, Next(t)) == Some(v)
    ensures Alone(s, t, v)
  {
    var n: nat :| Exec(s, Nexts(t, n)) == Some(u);
    RunSnoc(Apply, s, Nexts(t, n), Next(t));
    assert Nexts(t, n + 1) == Nexts(t, n) + [Next(t)];
  }

  /** One transaction, which has just begun. */
  function Beginning(s: State, op: Op): State {
    s.(txns := map[s.nextTxn := Txn(op, Step.Begun)], nextTxn := s.nextTxn + 1)
  }

  function After(s: State, op: Op): State {
    var a := Atomic(s.members, s.sessions, op);
    s.(nextTxn := s.nextTxn + 1,
       members := if a.Some? then a.value.0 else s.members, sessions := if a.Some? then a.value.1 else s.sessions)
  }

  function Standing(s: State, op: Op, step: Step): State {
    s.(txns := map[s.nextTxn := Txn(op, step)], nextTxn := s.nextTxn + 1)
  }

  lemma OnlyOne(s: State, op: Op, step: Step)
    requires s.txns == map[]
    ensures var u, t := Standing(s, op, step), s.nextTxn;
            && (forall ws :: !WorkspaceBusy(u, t, ws))
            && (forall k :: !MemberWritten(u, Some(t), k) && !MemberBusy(u, t, k))
            && (forall k :: !SessionBusy(u, Some(t), k))
            && (forall next :: At(u, t, next) == Standing(s, op, next))
            && Gone(u, t) == s.(nextTxn := s.nextTxn + 1)
  {}

  /** One statement that only moves the transaction on. */
  lemma StandThen(s: State, op: Op, step: Step, next: Step)
    requires s.txns == map[] && Alone(Beginning(s, op), s.nextTxn, Standing(s, op, step))
    requires NextOf(Standing(s, op, step), s.nextTxn) == Some(At(Standing(s, op, step), s.nextTxn, next))
    ensures Alone(Beginning(s, op), s.nextTxn, Standing(s, op, next))
  {
    OnlyOne(s, op, step);
    AloneThen(Beginning(s, op), s.nextTxn, Standing(s, op, step), Standing(s, op, next));
  }

  lemma ClaimAlone(s: State, op: Op)
    requires s.txns == map[] && op.Claim?
    ensures Alone(Beginning(s, op), s.nextTxn, After(s, op))
  {
    var b, t := Beginning(s, op), s.nextTxn;
    AloneAtOnce(b, t);
    OnlyOne(s, op, Step.Begun);
    if (op.ws, op.user) !in s.members {
      AloneThen(b, t, b, After(s, op));
    } else {
      var seen := s.members[(op.ws, op.user)];
      StandThen(s, op, Step.Begun, Shared(seen));
      UpdatesAlone(s, op, seen);
    }
  }

  lemma UpdatesAlone(s: State, op: Op, seen: Role)
    requires s.txns == map[] && op.Claim? && (op.ws, op.user) in s.members && s.members[(op.ws, op.user)] == seen
    requires Alone(Beginning(s, op), s.nextTxn, Standing(s, op, Shared(seen)))
    ensures Alone(Beginning(s, op), s.nextTxn, After(s, op))
  {
    OnlyOne(s, op, Shared(seen));
    var step := if Ready(s.sessions, (op.ws, op.session)) then Updated(seen) else Missed;
    StandThen(s, op, Shared(seen), step);
    OnlyOne(s, op, step);
    AloneThen(Beginning(s, op), s.nextTxn, Standing(s, op, step), After(s, op));
  }

  /** Locked, if its workspace is there. */
  lemma LocksAlone(s: State, op: Op)
    requires s.txns == map[] && !op.Claim? && op.ws in s.workspaces
    ensures Alone(Beginning(s, op), s.nextTxn, Standing(s, op, Locked))
  {
    AloneAtOnce(Beginning(s, op), s.nextTxn);
    OnlyOne(s, op, Step.Begun);
    StandThen(s, op, Step.Begun, Locked);
  }

  lemma UnhousedAlone(s: State, op: Op)
    requires s.txns == map[] && Housed(s) && !op.Claim? && op.ws !in s.workspaces
    ensures Alone(Beginning(s, op), s.nextTxn, After(s, op))
  {
    AloneAtOnce(Beginning(s, op), s.nextTxn);
    OnlyOne(s, op, Step.Begun);
    AloneThen(Beginning(s, op), s.nextTxn, Beginning(s, op), After(s, op));
  }

  /** Past its read and its count, if the operation leaves an owner; gone if not. */
  lemma ChecksAlone(s: State, op: Op)
    requires s.txns == map[] && (op.End? || op.Change?) && op.ws in s.workspaces
    ensures if Atomic(s.members, s.sessions, op).Some? then Alone(Beginning(s, op), s.nextTxn, Standing(s, op, Checked))
            else Alone(Beginning(s, op), s.nextTxn, After(s, op))
  {
    var k := (op.ws, op.user);
    var b, t := Beginning(s, op), s.nextTxn;
    LocksAlone(s, op);
    OnlyOne(s, op, Locked);
    if k !in s.members {
      AloneThen(b, t, Standing(s, op, Locked), After(s, op));
    } else {
      var was := s.members[k];
      StandThen(s, op, Locked, Found(was));
      OnlyOne(s, op, Found(was));
      if was == Owner {
        CountIsOwners(s.members, k);
      }
      if Atomic(s.members, s.sessions, op).Some? {
        StandThen(s, op, Found(was), Checked);
      } else {
        AloneThen(b, t, Standing(s, op, Found(was)), After(s, op));
      }
    }
  }

  lemma WritesAlone(s: State, op: Op)
    requires s.txns == map[] && (op.End? || op.Change?) && Atomic(s.members, s.sessions, op).Some?
    requires Alone(Beginning(s, op), s.nextTxn, Standing(s, op, Checked))
    ensures Alone(Beginning(s, op), s.nextTxn, After(s, op))
  {
    var b, t, ids := Beginning(s, op), s.nextTxn, ClaimedBy(s.sessions, op.ws, op.user);
    OnlyOne(s, op, Checked);
    StandThen(s, op, Checked, Written);
    OnlyOne(s, op, Written);
    if op.Change? && CanWork(op.role) {
      AloneThen(b, t, Standing(s, op, Written), After(s, op));
    } else {
      StandThen(s, op, Written, Released(ids));
      OnlyOne(s, op, Released(ids));
      AloneThen(b, t, Standing(s, op, Released(ids)), After(s, op));
    }
  }

  lemma TransferAlone(s: State, op: Op)
    requires s.txns == map[] && op.Transfer? && op.actor != op.target && op.ws in s.workspaces
    ensures Alone(Beginning(s, op), s.nextTxn, After(s, op))
  {
    var Transfer(ws, actor, target) := op;
    var b, t := Beginning(s, op), s.nextTxn;
    LocksAlone(s, op);
    OnlyOne(s, op, Locked);
    if (ws, target) !in s.members {
      AloneThen(b, t, Standing(s, op, Locked), After(s, op));
    } else {
      var was := s.members[(ws, target)];
      StandThen(s, op, Locked, Found(was));
      OnlyOne(s, op, Found(was));
      StandThen(s, op, Found(was), Promoted);
      DemotesAlone(s, op);
    }
  }

  lemma DemotesAlone(s: State, op: Op)
    requires s.txns == map[] && op.Transfer? && op.actor != op.target && (op.ws, op.target) in s.members
    requires Alone(Beginning(s, op), s.nextTxn, Standing(s, op, Promoted))
    ensures Alone(Beginning(s, op), s.nextTxn, After(s, op))
  {
    var b, t := Beginning(s, op), s.nextTxn;
    OnlyOne(s, op, Promoted);
    if Atomic(s.members, s.sessions, op).None? {
      AloneThen(b, t, Standing(s, op, Promoted), After(s, op));
    } else {
      StandThen(s, op, Promoted, ActorRead);
      OnlyOne(s, op, ActorRead);
      StandThen(s, op, ActorRead, Demoted);
      OnlyOne(s, op, Demoted);
      AloneThen(b, t, Standing(s, op, Demoted), After(s, op));
    }
  }

  /** With nothing else running, every operation a client can begin runs to its end: to the tables
      its meaning gives, whenever it gives any, and otherwise to the tables as they were. */
  lemma OperationsRunAlone(s: State, op: Op)
    requires Reachable(s) && s.txns == map[] && (op.Transfer? ==> op.actor != op.target)
    ensures Apply(s, Begin(op)) == Some(Beginning(s, op))
    ensures Alone(Beginning(s, op), s.nextTxn, After(s, op))
  {
    ReachableHoused(s);
    if op.Claim? {
      ClaimAlone(s, op);
    } else if op.ws !in s.workspaces {
      UnhousedAlone(s, op);
    } else if op.Transfer? {
      TransferAlone(s, op);
    } else {
      ChecksAlone(s, op);
      if Atomic(s.members, s.sessions, op).Some? {
        WritesAlone(s, op);
      }
    }
  }

  // ---------------------------------------------------------------- what it means for the queue

  /** A claim takes just the session it names, out of the queue and into the claimant's hands. An
      end of membership, or a change to viewer, puts back into the queue just what the member has
      claimed, waiting since it first escalated. Everything else leaves the sessions alone. */
  lemma MeaningForSessions(members: Members, sessions: Sessions, op: Op, k: SessionKey)
    requires Atomic(members, sessions, op).Some? && k in sessions
    ensures var after := Atomic(members, sessions, op).value.1;
            && after.Keys == sessions.Keys
            && var x, y := sessions[k], after[k];
               y.escalatedAt == x.escalatedAt &&
               match op {
                 case Claim(ws, user, session) =>
                   if k == (ws, session) then x.status == Escalated && y.status == Claimed && y.claimedBy == Some(user) else y == x
                 case Transfer(_, _, _) => y == x
                 case End(ws, user) =>
                   if k.0 == ws && x.status == Claimed && x.claimedBy == Some(user) then y.status == Escalated && y.claimedBy == None
                   else y == x
                 case Change(ws, user, role) =>
                   if role == Viewer && k.0 == ws && x.status == Claimed && x.claimedBy == Some(user) then
                     y.status == Escalated && y.claimedBy == None
                   else y == x
               }
  {
    if op.End? || op.Change? {
      InClaimed(sessions, op.ws, op.user, k.1);
    }
  }

  // ---------------------------------------------------------------- an escalation on its own

  ghost predicate EscalationsNumbered(s: State) {
    forall i | i in s.escalations :: i < s.nextEscalation
  }

  lemma NextKeepsEscalations(s: State, t: nat)
    requires t in s.txns && NextOf(s, t).Some?
    ensures NextOf(s, t).value.escalations == s.escalations && NextOf(s, t).value.nextEscalation == s.nextEscalation
  {}

  lemma StepKeepsEscalations(s: State, e: Event)
    requires EscalationsNumbered(s) && Apply(s, e).Some?
    ensures EscalationsNumbered(Apply(s, e).value)
  {
    if e.Next? {
      NextKeepsEscalations(s, e.t);
    }
  }

  lemma ReachableEscalations(s: State)
    requires Reachable(s)
    ensures EscalationsNumbered(s)
  {
    var now, es :| Exec(Init(now), es) == Some(s);
    forall t, e | EscalationsNumbered(t) && Apply(t, e).Some? ensures EscalationsNumbered(Apply(t, e).value) {
      StepKeepsEscalations(t, e);
    }
    RunKeeps(Apply, t => EscalationsNumbered(t), Init(now), es);
  }

  /** The first escalation of a session puts it into the queue, waiting from now on; a later one
      finds it there and leaves it as it is. */
  lemma EscalationRunsAlone(s: State, ws: nat, session: string)
    requires Reachable(s)
    ensures Exec(s, [FindSession(ws, session), WriteEscalation(s.nextEscalation)]) ==
            Some(s.(nextEscalation := s.nextEscalation + 1,
                    sessions := if (ws, session) in s.sessions then s.sessions
                                else s.sessions[(ws, session) := Session(Escalated, None, s.now, 0, 0, None)]))
  {
    ReachableInv(s);
    ReachableEscalations(s);
    var k, i := (ws, session), s.nextEscalation;
    assert k in s.sessions ==> SessionOk(s.members, k, s.sessions[k]);
    var found := Apply(s, FindSession(ws, session)).value;
    assert found.escalations - {i} == s.escalations;
    assert Exec(s, []) == Some(s);
    RunSnoc(Apply, s, [], FindSession(ws, session));
    RunSnoc(Apply, s, [] + [FindSession(ws, session)], WriteEscalation(i));
    assert [] + [FindSession(ws, session)] + [WriteEscalation(i)] == [FindSession(ws, session), WriteEscalation(i)];
  }
}
