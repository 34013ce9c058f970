/** Membership, ownership and the handoff queue: transactions that lock, read, check, write and
    commit in separate statements, interleaved with joins, resolutions and escalations. A
    transaction's writes reach the tables only when it commits; until then it holds its row locks. */
module Membership {
  import opened Common
  import opened Runs

  datatype Role = Owner | Agent | Viewer

  /** The seeded permission matrix for handoff.work. */
  predicate CanWork(r: Role) {
    r != Viewer
  }

  /** (workspace, user) and (workspace, session id). */
  type Member = (nat, nat)
  type SessionKey = (nat, string)

  datatype SessionStatus = Open | Escalated | Claimed | Resolved

  /** `claims` and `releases` count committed ones; `claimRole` is the role the last claim's share
      lock saw. */
  datatype Session = Session(
    status: SessionStatus, claimedBy: Option<nat>, escalatedAt: int, claims: nat, releases: nat, claimRole: Option<Role>)

  datatype Op =
    | Claim(ws: nat, user: nat, session: string)
    | End(ws: nat, user: nat)
    | Change(ws: nat, user: nat, role: Role)
    | Transfer(ws: nat, actor: nat, target: nat)

  datatype Step =
    | Begun
    | Locked
    | Found(role: Role)
    | Checked
    | Written
    | Released(ids: set<string>)
    | Promoted
    | ActorRead
    | Demoted
    | Shared(seen: Role)
    | Updated(seen: Role)
    | Missed

  datatype Txn = Txn(op: Op, step: Step)

  /** An escalation between its lookup and its write. */
  datatype Escalation = Escalation(ws: nat, session: string, found: Option<SessionStatus>)

  type Members = map<Member, Role>
  type Sessions = map<SessionKey, Session>

  datatype State = State(
    workspaces: set<nat>, members: Members, sessions: Sessions,
    txns: map<nat, Txn>, nextTxn: nat, escalations: map<nat, Escalation>, nextEscalation: nat, now: int)

  function Init(now: int): State {
    State({}, map[], map[], map[], 0, map[], 0, now)
  }

  datatype Event =
    | Tick(to: int)
    | CreateWorkspace(ws: nat, user: nat)
    | Join(ws: nat, user: nat, role: Role)
    | Begin(op: Op)
    | Next(t: nat)
    | Abort(t: nat)
    | Resolve(ws: nat, session: string)
    | FindSession(ws: nat, session: string)
    | WriteEscalation(e: nat)

  // ---------------------------------------------------------------- rows and locks

  function Owners(members: Members, ws: nat): set<Member> {
    set k | k in members && k.0 == ws && members[k] == Owner
  }

  function ClaimedBy(sessions: Sessions, ws: nat, user: nat): set<string> {
    set k | k in sessions && k.0 == ws && sessions[k].status == Claimed && sessions[k].claimedBy == Some(user) :: k.1
  }

  function ReleaseAll(sessions: Sessions, ws: nat, ids: set<string>): Sessions {
    map k | k in sessions ::
      if k.0 == ws && k.1 in ids then
        sessions[k].(status := Escalated, claimedBy := None, releases := sessions[k].releases + 1, claimRole := None)
      else sessions[k]
  }

  predicate Ready(sessions: Sessions, k: SessionKey) {
    k in sessions && sessions[k].status == Escalated
  }

  function Taken(x: Session, user: nat, seen: Role): Session {
    x.(status := Claimed, claimedBy := Some(user), claims := x.claims + 1, claimRole := Some(seen))
  }

  predicate HoldsWorkspace(x: Txn, ws: nat) {
    !x.op.Claim? && x.op.ws == ws && !x.step.Begun?
  }

  predicate HoldsShare(x: Txn, k: Member) {
    x.op.Claim? && k == (x.op.ws, x.op.user) && !x.step.Begun?
  }

  /** Deleted or updated and not yet committed. Saving a role the row already has updates nothing. */
  predicate HoldsMember(members: Members, x: Txn, k: Member) {
    match x.op
    case Claim(_, _, _) => false
    case End(ws, user) => k == (ws, user) && (x.step.Written? || x.step.Released?)
    case Change(ws, user, role) => k == (ws, user) && (x.step.Written? || x.step.Released?) && k in members && members[k] != role
    case Transfer(ws, actor, target) =>
      || (k == (ws, target) && (x.step.Promoted? || x.step.ActorRead? || x.step.Demoted?) && k in members && members[k] != Owner)
      || (k == (ws, actor) && x.step.Demoted?)
  }

  predicate HoldsSession(x: Txn, k: SessionKey) {
    || (x.op.Claim? && x.step.Updated? && k == (x.op.ws, x.op.session))
    || (x.step.Released? && k.0 == x.op.ws && k.1 in x.step.ids)
  }

  predicate WorkspaceBusy(s: State, t: nat, ws: nat) {
    exists o | o in s.txns :: o != t && HoldsWorkspace(s.txns[o], ws)
  }

  predicate MemberWritten(s: State, t: Option<nat>, k: Member) {
    exists o | o in s.txns :: Some(o) != t && HoldsMember(s.members, s.txns[o], k)
  }

  predicate MemberBusy(s: State, t: nat, k: Member) {
    MemberWritten(s, Some(t), k) || exists o | o in s.txns :: o != t && HoldsShare(s.txns[o], k)
  }

  predicate SessionBusy(s: State, t: Option<nat>, k: SessionKey) {
    exists o | o in s.txns :: Some(o) != t && HoldsSession(s.txns[o], k)
  }

  // ---------------------------------------------------------------- statements

  function At(s: State, t: nat, step: Step): State
    requires t in s.txns
  {
    s.(txns := s.txns[t := s.txns[t].(step := step)])
  }

  function Gone(s: State, t: nat): State {
    s.(txns := s.txns - {t})
  }

  function NextClaim(s: State, t: nat): Option<State>
    requires t in s.txns && s.txns[t].op.Claim?
  {
    var Claim(ws, user, session) := s.txns[t].op;
    match s.txns[t].step
    case Begun =>
      if MemberWritten(s, Some(t), (ws, user)) then None
      else if (ws, user) !in s.members then Some(Gone(s, t))
      else Some(At(s, t, Shared(s.members[(ws, user)])))
    case Shared(seen) =>
      if !Ready(s.sessions, (ws, session)) then Some(At(s, t, Missed))
      else if SessionBusy(s, Some(t), (ws, session)) then None
      else Some(At(s, t, Updated(seen)))
    case Updated(seen) =>
      if (ws, session) !in s.sessions then None
      else Some(Gone(s, t).(sessions := s.sessions[(ws, session) := Taken(s.sessions[(ws, session)], user, seen)]))
    case Missed => Some(Gone(s, t))
    case _ => None
  }

  /** The workspace lock, first in every transaction that may end an ownership. */
  function NextLock(s: State, t: nat): Option<State>
    requires t in s.txns
  {
    if WorkspaceBusy(s, t, s.txns[t].op.ws) then None
    else if s.txns[t].op.ws !in s.workspaces then Some(Gone(s, t))
    else Some(At(s, t, Locked))
  }

  function NextRead(s: State, t: nat, k: Member): State
    requires t in s.txns
  {
    if k !in s.members then Gone(s, t) else At(s, t, Found(s.members[k]))
  }

  /** At most one owner left means the check throws and the transaction rolls back. */
  function NextCount(s: State, t: nat, gives: bool): State
    requires t in s.txns
  {
    if gives && |Owners(s.members, s.txns[t].op.ws)| <= 1 then Gone(s, t) else At(s, t, Checked)
  }

  function NextRelease(s: State, t: nat, ws: nat, user: nat): Option<State>
    requires t in s.txns
  {
    var ids := ClaimedBy(s.sessions, ws, user);
    if exists id | id in ids :: SessionBusy(s, Some(t), (ws, id)) then None else Some(At(s, t, Released(ids)))
  }

  function NextEnd(s: State, t: nat): Option<State>
    requires t in s.txns && s.txns[t].op.End?
  {
    var End(ws, user) := s.txns[t].op;
    match s.txns[t].step
    case Begun => NextLock(s, t)
    case Locked => Some(NextRead(s, t, (ws, user)))
    case Found(role) => Some(NextCount(s, t, role == Owner))
    case Checked => if MemberBusy(s, t, (ws, user)) then None else Some(At(s, t, Written))
    case Written => NextRelease(s, t, ws, user)
    case Released(ids) => Some(Gone(s, t).(members := s.members - {(ws, user)}, sessions := ReleaseAll(s.sessions, ws, ids)))
    case _ => None
  }

  function NextChange(s: State, t: nat): Option<State>
    requires t in s.txns && s.txns[t].op.Change?
  {
    var Change(ws, user, role) := s.txns[t].op;
    match s.txns[t].step
    case Begun => NextLock(s, t)
    case Locked => Some(NextRead(s, t, (ws, user)))
    case Found(was) => Some(NextCount(s, t, was == Owner && role != Owner))
    case Checked =>
      if (ws, user) in s.members && s.members[(ws, user)] != role && MemberBusy(s, t, (ws, user)) then None
      else Some(At(s, t, Written))
    case Written =>
      if CanWork(role) then Some(Gone(s, t).(members := s.members[(ws, user) := role])) else NextRelease(s, t, ws, user)
    case Released(ids) =>
      Some(Gone(s, t).(members := s.members[(ws, user) := role], sessions := ReleaseAll(s.sessions, ws, ids)))
    case _ => None
  }

  function NextTransfer(s: State, t: nat): Option<State>
    requires t in s.txns && s.txns[t].op.Transfer?
  {
    var Transfer(ws, actor, target) := s.txns[t].op;
    match s.txns[t].step
    case Begun => NextLock(s, t)
    case Locked => Some(NextRead(s, t, (ws, target)))
    case Found(was) => if was != Owner && MemberBusy(s, t, (ws, target)) then None else Some(At(s, t, Promoted))
    case Promoted =>
      if (ws, actor) !in s.members || s.members[(ws, actor)] != Owner then Some(Gone(s, t)) else Some(At(s, t, ActorRead))
    case ActorRead => if MemberBusy(s, t, (ws, actor)) then None else Some(At(s, t, Demoted))
    case Demoted => Some(Gone(s, t).(members := s.members[(ws, target) := Owner][(ws, actor) := Agent]))
    case _ => None
  }

  function NextOf(s: State, t: nat): Option<State>
    requires t in s.txns
  {
    match s.txns[t].op
    case Claim(_, _, _) => NextClaim(s, t)
    case End(_, _) => NextEnd(s, t)
    case Change(_, _, _) => NextChange(s, t)
    case Transfer(_, _, _) => NextTransfer(s, t)
  }

  /** Inserts, or updates by id whatever it found open, without looking again. */
  function Escalating(s: State, e: Escalation): Sessions {
    var k := (e.ws, e.session);
    if e.found.None? then
      if k in s.sessions then s.sessions else s.sessions[k := Session(Escalated, None, s.now, 0, 0, None)]
    else if e.found.value == Open && k in s.sessions then
      s.sessions[k := s.sessions[k].(status := Escalated, escalatedAt := s.now)]
    else s.sessions
  }

  /** None when a statement waits for a lock, or nobody would issue it. */
  function Apply(s: State, e: Event): Option<State> {
    match e
    case Tick(to) => if s.now <= to then Some(s.(now := to)) else None
    case CreateWorkspace(ws, user) =>
      if ws in s.workspaces || (ws, user) in s.members then None
      else Some(s.(workspaces := s.workspaces + {ws}, members := s.members[(ws, user) := Owner]))
    case Join(ws, user, role) =>
      if ws !in s.workspaces || MemberWritten(s, None, (ws, user)) then None
      else if (ws, user) in s.members then Some(s)
      else Some(s.(members := s.members[(ws, user) := role]))
    case Begin(op) =>
      if op.Transfer? && op.actor == op.target then None
      else Some(s.(txns := s.txns[s.nextTxn := Txn(op, Begun)], nextTxn := s.nextTxn + 1))
    case Next(t) => if t in s.txns then NextOf(s, t) else None
    case Abort(t) => if t in s.txns then Some(Gone(s, t)) else None
    case Resolve(ws, session) =>
      if (ws, session) !in s.sessions || s.sessions[(ws, session)].status != Claimed then Some(s)
      else if SessionBusy(s, None, (ws, session)) then None
      else Some(s.(sessions := s.sessions[(ws, session) := s.sessions[(ws, session)].(status := Resolved)]))
    case FindSession(ws, session) =>
      var found := if (ws, session) in s.sessions then Some(s.sessions[(ws, session)].status) else None;
      Some(s.(escalations := s.escalations[s.nextEscalation := Escalation(ws, session, found)], nextEscalation := s.nextEscalation + 1))
    case WriteEscalation(e) =>
      if e in s.escalations then Some(s.(sessions := Escalating(s, s.escalations[e]), escalations := s.escalations - {e})) else None
  }

  function Exec(s: State, es: seq<Event>): Option<State> {
    Run(Apply, s, es)
  }

  // ---------------------------------------------------------------- what every state keeps

  /** Taking this membership away, or its ownership, leaves the workspace an owner. */
  predicate Removable(members: Members, k: Member) {
    k in members && (members[k] == Owner ==> Owners(members, k.0) - {k} != {})
  }

  predicate TxnOk(members: Members, sessions: Sessions, x: Txn) {
    match x.op
    case Claim(ws, user, session) => ClaimOk(members, sessions, (ws, user), (ws, session), x.step)
    case End(ws, user) => EndOk(members, sessions, (ws, user), x.step)
    case Change(ws, user, role) => ChangeOk(members, sessions, (ws, user), role, x.step)
    case Transfer(ws, actor, target) => actor != target && TransferOk(members, (ws, actor), (ws, target), x.step)
  }

  predicate ClaimOk(members: Members, sessions: Sessions, k: Member, sk: SessionKey, step: Step) {
    match step
    case Begun => true
    case Shared(seen) => k in members && members[k] == seen
    case Updated(seen) => k in members && members[k] == seen && Ready(sessions, sk)
    case Missed => k in members
    case _ => false
  }

  predicate EndOk(members: Members, sessions: Sessions, k: Member, step: Step) {
    match step
    case Begun => true
    case Locked => true
    case Found(role) => k in members && members[k] == role
    case Checked => Removable(members, k)
    case Written => Removable(members, k)
    case Released(ids) => Removable(members, k) && ids == ClaimedBy(sessions, k.0, k.1)
    case _ => false
  }

  predicate ChangeOk(members: Members, sessions: Sessions, k: Member, role: Role, step: Step) {
    match step
    case Begun => true
    case Locked => true
    case Found(was) => k in members && members[k] == was
    case Checked => k in members && (role != Owner ==> Removable(members, k))
    case Written => k in members && (role != Owner ==> Removable(members, k))
    case Released(ids) =>
      && !CanWork(role) && Removable(members, k) && ids <= ClaimedBy(sessions, k.0, k.1)
      && (members[k] != role ==> ids == ClaimedBy(sessions, k.0, k.1))
    case _ => false
  }

  predicate TransferOk(members: Members, actor: Member, target: Member, step: Step) {
    match step
    case Begun => true
    case Locked => true
    case Found(was) => target in members && members[target] == was
    case Promoted => target in members
    case ActorRead => target in members && actor in members && members[actor] == Owner
    case Demoted => target in members && actor in members && members[actor] == Owner
    case _ => false
  }

  /** Two transactions that the lock manager never lets coexist. */
  predicate Conflict(members: Members, a: Txn, b: Txn) {
    || (a.op.ws == b.op.ws && HoldsWorkspace(a, a.op.ws) && HoldsWorkspace(b, a.op.ws))
    || (b.op.Claim? && HoldsShare(b, (b.op.ws, b.op.user)) && HoldsMember(members, a, (b.op.ws, b.op.user)))
    || (a.op.Claim? && HoldsShare(a, (a.op.ws, a.op.user)) && HoldsMember(members, b, (a.op.ws, a.op.user)))
    || (a.op.Claim? && b.op.Claim? && a.step.Updated? && b.step.Updated? && a.op.ws == b.op.ws && a.op.session == b.op.session)
  }

  predicate SessionOk(members: Members, k: SessionKey, x: Session) {
    && x.status != Open
    && (x.status == Escalated ==> x.claimedBy.None?)
    && x.claims == x.releases + (if x.status == Claimed || x.status == Resolved then 1 else 0)
    && (x.status == Claimed ==>
          && x.claimedBy.Some? && x.claimRole.Some? && (k.0, x.claimedBy.value) in members
          && (CanWork(x.claimRole.value) ==> CanWork(members[(k.0, x.claimedBy.value)])))
  }

  ghost predicate OwnersOk(s: State) {
    forall ws | ws in s.workspaces :: Owners(s.members, ws) != {}
  }

  ghost predicate TxnsOk(s: State) {
    forall t | t in s.txns :: t < s.nextTxn && TxnOk(s.members, s.sessions, s.txns[t])
  }

  ghost predicate LocksOk(s: State) {
    forall a, b | a in s.txns && b in s.txns && a != b :: !Conflict(s.members, s.txns[a], s.txns[b])
  }

  ghost predicate SessionsOk(s: State) {
    forall k | k in s.sessions :: SessionOk(s.members, k, s.sessions[k])
  }

  ghost predicate EscalationsOk(s: State) {
    forall e | e in s.escalations :: s.escalations[e].found != Some(Open)
  }

  ghost predicate Inv(s: State) {
    OwnersOk(s) && TxnsOk(s) && LocksOk(s) && SessionsOk(s) && EscalationsOk(s)
  }

  // ---------------------------------------------------------------- steps that write no table

  /** A transaction moves to a step whose locks were free. */
  lemma MoveKeepsInv(s: State, t: nat, step: Step)
    requires Inv(s) && t in s.txns
    requires TxnOk(s.members, s.sessions, s.txns[t].(step := step))
    requires forall o | o in s.txns && o != t :: !Conflict(s.members, s.txns[t].(step := step), s.txns[o])
    ensures Inv(At(s, t, step))
  {
    var s' := At(s, t, step);
    forall a, b | a in s'.txns && b in s'.txns && a != b ensures !Conflict(s'.members, s'.txns[a], s'.txns[b]) {
      if a != t && b != t {
        assert !Conflict(s.members, s.txns[a], s.txns[b]);
      }
    }
  }

  lemma GoneKeepsInv(s: State, t: nat)
    requires Inv(s) && t in s.txns
    ensures Inv(Gone(s, t))
  {
    var s' := Gone(s, t);
    forall a, b | a in s'.txns && b in s'.txns && a != b ensures !Conflict(s'.members, s'.txns[a], s'.txns[b]) {
      assert !Conflict(s.members, s.txns[a], s.txns[b]);
    }
  }

  /** Moving on without taking another lock. */
  lemma QuietMove(s: State, t: nat, step: Step)
    requires Inv(s) && t in s.txns && !s.txns[t].step.Begun? && !step.Updated?
    requires TxnOk(s.members, s.sessions, s.txns[t].(step := step))
    requires forall k :: HoldsMember(s.members, s.txns[t].(step := step), k) ==> HoldsMember(s.members, s.txns[t], k)
    ensures Inv(At(s, t, step))
  {
    forall o | o in s.txns && o != t ensures !Conflict(s.members, s.txns[t].(step := step), s.txns[o]) {
      assert !Conflict(s.members, s.txns[t], s.txns[o]);
    }
    MoveKeepsInv(s, t, step);
  }

  lemma LockKeepsInv(s: State, t: nat)
    requires Inv(s) && t in s.txns && s.txns[t].step.Begun? && !s.txns[t].op.Claim? && NextLock(s, t).Some?
    ensures Inv(NextLock(s, t).value)
  {
    if s.txns[t].op.ws !in s.workspaces {
      GoneKeepsInv(s, t);
    } else {
      assert TxnOk(s.members, s.sessions, s.txns[t]);
      forall o | o in s.txns && o != t ensures !Conflict(s.members, s.txns[t].(step := Locked), s.txns[o]) {
        assert !HoldsWorkspace(s.txns[o], s.txns[t].op.ws);
      }
      MoveKeepsInv(s, t, Locked);
    }
  }

  /** A membership row nobody else locks may be locked. */
  lemma WriteKeepsInv(s: State, t: nat, step: Step, k: Member)
    requires Inv(s) && t in s.txns && !s.txns[t].step.Begun? && !s.txns[t].op.Claim? && !MemberBusy(s, t, k)
    requires TxnOk(s.members, s.sessions, s.txns[t].(step := step))
    requires forall j :: j != k && HoldsMember(s.members, s.txns[t].(step := step), j) ==> HoldsMember(s.members, s.txns[t], j)
    ensures Inv(At(s, t, step))
  {
    forall o | o in s.txns && o != t ensures !Conflict(s.members, s.txns[t].(step := step), s.txns[o]) {
      assert !Conflict(s.members, s.txns[t], s.txns[o]);
      assert !HoldsShare(s.txns[o], k);
    }
    MoveKeepsInv(s, t, step);
  }

  lemma CountLeavesAnother(members: Members, k: Member)
    requires k in members && members[k] == Owner && |Owners(members, k.0)| > 1
    ensures Owners(members, k.0) - {k} != {}
  {
    var all := Owners(members, k.0);
    assert all == (all - {k}) + {k};
  }

  // ---------------------------------------------------------------- steps that commit

  /** What a transaction of another one may notice of a commit: nothing it relies on. */
  ghost predicate Undisturbed(s: State, s': State, x: Txn) {
    && TxnOk(s'.members, s'.sessions, x)
    && forall k :: HoldsMember(s'.members, x, k) ==> HoldsMember(s.members, x, k)
  }

  lemma CommitKeepsInv(s: State, s': State, gone: set<nat>)
    requires Inv(s) && s'.txns == s.txns - gone && s'.nextTxn == s.nextTxn && s'.escalations == s.escalations
    requires OwnersOk(s') && SessionsOk(s')
    requires forall o | o in s'.txns :: Undisturbed(s, s', s.txns[o])
    ensures Inv(s')
  {
    forall o | o in s'.txns ensures o < s'.nextTxn && TxnOk(s'.members, s'.sessions, s'.txns[o]) {
      assert Undisturbed(s, s', s.txns[o]) && o in s.txns;
    }
    forall a, b | a in s'.txns && b in s'.txns && a != b ensures !Conflict(s'.members, s'.txns[a], s'.txns[b]) {
      assert !Conflict(s.members, s.txns[a], s.txns[b]);
      assert Undisturbed(s, s', s.txns[a]) && Undisturbed(s, s', s.txns[b]);
    }
  }

  /** Rows of one workspace change only at keys its lock holder owns; claims there keep theirs. */
  ghost predicate OnlyWithin(s: State, s': State, ws: nat) {
    && (forall k: Member | k.0 != ws :: (k in s'.members <==> k in s.members) && (k in s.members ==> s'.members[k] == s.members[k]))
    && (forall k: SessionKey | k.0 != ws :: (k in s'.sessions <==> k in s.sessions) && (k in s.sessions ==> s'.sessions[k] == s.sessions[k]))
  }

  lemma OtherWorkspaceUndisturbed(s: State, s': State, ws: nat, x: Txn)
    requires OnlyWithin(s, s', ws) && x.op.ws != ws && TxnOk(s.members, s.sessions, x)
    ensures Undisturbed(s, s', x)
  {
    assert Owners(s'.members, x.op.ws) == Owners(s.members, x.op.ws);
    if !x.op.Transfer? && !x.op.Claim? {
      assert ClaimedBy(s'.sessions, x.op.ws, x.op.user) == ClaimedBy(s.sessions, x.op.ws, x.op.user);
    }
  }

  /** Beside the holder of the workspace lock only claims run in that workspace. */
  lemma NeighboursUndisturbed(s: State, s': State, t: nat, o: nat)
    requires TxnsOk(s) && LocksOk(s) && t in s.txns && o in s.txns && o != t
    requires HoldsWorkspace(s.txns[t], s.txns[t].op.ws) && OnlyWithin(s, s', s.txns[t].op.ws)
    requires forall k | k in s.members && !(k in s'.members && s'.members[k] == s.members[k]) :: HoldsMember(s.members, s.txns[t], k)
    requires forall k | Ready(s.sessions, k) :: Ready(s'.sessions, k)
    ensures Undisturbed(s, s', s.txns[o])
  {
    var x := s.txns[o];
    assert TxnOk(s.members, s.sessions, x);
    assert !Conflict(s.members, s.txns[t], x);
    if x.op.ws != s.txns[t].op.ws {
      OtherWorkspaceUndisturbed(s, s', s.txns[t].op.ws, x);
    } else if x.op.Claim? && !x.step.Begun? {
      assert !HoldsMember(s.members, s.txns[t], (x.op.ws, x.op.user));
    }
  }

  lemma OwnersElsewhere(s: State, s': State, ws: nat)
    requires OwnersOk(s) && OnlyWithin(s, s', ws) && s'.workspaces == s.workspaces
    requires ws in s.workspaces ==> Owners(s'.members, ws) != {}
    ensures OwnersOk(s')
  {
    forall w | w in s'.workspaces ensures Owners(s'.members, w) != {} {
      if w != ws {
        assert Owners(s'.members, w) == Owners(s.members, w);
      }
    }
  }

  /** Releasing all a user's claims, or some while no membership changes. */
  lemma ReleaseKeepsSessions(s: State, members: Members, ws: nat, user: nat, ids: set<string>)
    requires SessionsOk(s) && ids <= ClaimedBy(s.sessions, ws, user)
    requires ids == ClaimedBy(s.sessions, ws, user) || members == s.members
    requires forall k | k in s.members && k != (ws, user) :: k in members && members[k] == s.members[k]
    ensures forall k | k in s.sessions :: SessionOk(members, k, ReleaseAll(s.sessions, ws, ids)[k])
  {
    forall k | k in s.sessions ensures SessionOk(members, k, ReleaseAll(s.sessions, ws, ids)[k]) {
      assert SessionOk(s.members, k, s.sessions[k]);
      InClaimed(s.sessions, ws, user, k.1);
    }
  }

  lemma InClaimed(sessions: Sessions, ws: nat, user: nat, id: string)
    ensures id in ClaimedBy(sessions, ws, user) <==>
            (ws, id) in sessions && sessions[(ws, id)].status == Claimed && sessions[(ws, id)].claimedBy == Some(user)
  {
    if (ws, id) in sessions && sessions[(ws, id)].status == Claimed && sessions[(ws, id)].claimedBy == Some(user) {
      assert (ws, id).1 in ClaimedBy(sessions, ws, user);
    }
  }

  lemma ReleaseKeepsReady(sessions: Sessions, ws: nat, ids: set<string>)
    ensures forall k | Ready(sessions, k) :: Ready(ReleaseAll(sessions, ws, ids), k)
  {}

  lemma EndCommits(s: State, t: nat)
    requires Inv(s) && t in s.txns && s.txns[t].op.End? && s.txns[t].step.Released?
    ensures Inv(NextEnd(s, t).value)
  {
    var End(ws, user) := s.txns[t].op;
    var s' := NextEnd(s, t).value;
    assert TxnOk(s.members, s.sessions, s.txns[t]);
    ReleaseKeepsSessions(s, s'.members, ws, user, s.txns[t].step.ids);
    ReleaseKeepsReady(s.sessions, ws, s.txns[t].step.ids);
    LossKeepsOwner(s, s'.members, ws, (ws, user));
    OwnersElsewhere(s, s', ws);
    forall o | o in s'.txns ensures Undisturbed(s, s', s.txns[o]) {
      NeighboursUndisturbed(s, s', t, o);
    }
    CommitKeepsInv(s, s', {t});
  }

  lemma LossKeepsOwner(s: State, members: Members, ws: nat, lost: Member)
    requires OwnersOk(s) && lost.0 == ws && Removable(s.members, lost)
    requires forall k | k in s.members && k != lost :: k in members && members[k] == s.members[k]
    ensures ws in s.workspaces ==> Owners(members, ws) != {}
  {
    if ws in s.workspaces {
      var k :| k in Owners(s.members, ws) && k != lost;
      assert k in Owners(members, ws);
    }
  }

  lemma ChangeKeepsOwners(s: State, s': State, ws: nat, user: nat, role: Role)
    requires OwnersOk(s) && s'.workspaces == s.workspaces && OnlyWithin(s, s', ws) && s'.members == s.members[(ws, user) := role]
    requires role != Owner ==> Removable(s.members, (ws, user))
    ensures OwnersOk(s')
  {
    if role == Owner {
      assert (ws, user) in Owners(s'.members, ws);
    } else {
      LossKeepsOwner(s, s'.members, ws, (ws, user));
    }
    OwnersElsewhere(s, s', ws);
  }

  lemma ChangeCommits(s: State, t: nat)
    requires Inv(s) && t in s.txns && s.txns[t].op.Change?
    requires s.txns[t].step.Released? || (s.txns[t].step.Written? && CanWork(s.txns[t].op.role))
    ensures Inv(NextChange(s, t).value)
  {
    var Change(ws, user, role) := s.txns[t].op;
    var s' := NextChange(s, t).value;
    assert TxnOk(s.members, s.sessions, s.txns[t]);
    if s.txns[t].step.Released? {
      assert s.members[(ws, user)] == role ==> s'.members == s.members;
      ReleaseKeepsSessions(s, s'.members, ws, user, s.txns[t].step.ids);
      ReleaseKeepsReady(s.sessions, ws, s.txns[t].step.ids);
    } else {
      PromotionKeepsSessions(s, s'.members, {(ws, user)});
    }
    ChangeKeepsOwners(s, s', ws, user, role);
    forall o | o in s'.txns ensures Undisturbed(s, s', s.txns[o]) {
      NeighboursUndisturbed(s, s', t, o);
    }
    CommitKeepsInv(s, s', {t});
  }

  lemma PromotionKeepsSessions(s: State, members: Members, changed: set<Member>)
    requires SessionsOk(s)
    requires forall k | k in s.members && k !in changed :: k in members && members[k] == s.members[k]
    requires forall k | k in changed :: k in members && CanWork(members[k])
    ensures forall k | k in s.sessions :: SessionOk(members, k, s.sessions[k])
  {
    forall k | k in s.sessions ensures SessionOk(members, k, s.sessions[k]) {
      assert SessionOk(s.members, k, s.sessions[k]);
    }
  }

  lemma TransferCommits(s: State, t: nat)
    requires Inv(s) && t in s.txns && s.txns[t].op.Transfer? && s.txns[t].step.Demoted?
    ensures Inv(NextTransfer(s, t).value)
  {
    var Transfer(ws, actor, target) := s.txns[t].op;
    var s' := NextTransfer(s, t).value;
    assert TxnOk(s.members, s.sessions, s.txns[t]);
    PromotionKeepsSessions(s, s'.members, {(ws, actor), (ws, target)});
    assert (ws, target) in Owners(s'.members, ws);
    OwnersElsewhere(s, s', ws);
    forall o | o in s'.txns ensures Undisturbed(s, s', s.txns[o]) {
      NeighboursUndisturbed(s, s', t, o);
    }
    CommitKeepsInv(s, s', {t});
  }

  /** A claim adds to its claimant's sessions and to nobody else's. */
  lemma ClaimAdds(sessions: Sessions, k: SessionKey, user: nat, seen: Role, ws: nat, u: nat)
    requires Ready(sessions, k)
    ensures var after := sessions[k := Taken(sessions[k], user, seen)];
            && ClaimedBy(sessions, ws, u) <= ClaimedBy(after, ws, u)
            && ((ws, u) != (k.0, user) ==> ClaimedBy(sessions, ws, u) == ClaimedBy(after, ws, u))
  {
    var after := sessions[k := Taken(sessions[k], user, seen)];
    forall id ensures (id in ClaimedBy(sessions, ws, u) ==> id in ClaimedBy(after, ws, u))
                      && ((ws, u) != (k.0, user) ==> (id in ClaimedBy(sessions, ws, u) <==> id in ClaimedBy(after, ws, u)))
    {
      InClaimed(sessions, ws, u, id);
      InClaimed(after, ws, u, id);
    }
  }

  lemma ClaimUndisturbed(s: State, t: nat, o: nat)
    requires TxnsOk(s) && LocksOk(s) && t in s.txns && o in s.txns && o != t && s.txns[t].op.Claim? && s.txns[t].step.Updated?
    ensures NextClaim(s, t).Some? && Undisturbed(s, NextClaim(s, t).value, s.txns[o])
  {
    var Claim(ws, user, session) := s.txns[t].op;
    var x := s.txns[o];
    assert TxnOk(s.members, s.sessions, s.txns[t]) && TxnOk(s.members, s.sessions, x) && !Conflict(s.members, s.txns[t], x);
    if x.op.End? || x.op.Change? {
      ClaimAdds(s.sessions, (ws, session), user, s.txns[t].step.seen, x.op.ws, x.op.user);
      assert !HoldsMember(s.members, x, (ws, user));
    }
  }

  lemma ClaimCommits(s: State, t: nat)
    requires Inv(s) && t in s.txns && s.txns[t].op.Claim? && s.txns[t].step.Updated?
    ensures NextClaim(s, t).Some? && Inv(NextClaim(s, t).value)
  {
    var Claim(ws, user, session) := s.txns[t].op;
    assert TxnOk(s.members, s.sessions, s.txns[t]);
    var s' := NextClaim(s, t).value;
    forall k | k in s'.sessions ensures SessionOk(s'.members, k, s'.sessions[k]) {
      assert SessionOk(s.members, k, s.sessions[k]);
    }
    forall o | o in s'.txns ensures Undisturbed(s, s', s.txns[o]) {
      ClaimUndisturbed(s, t, o);
    }
    CommitKeepsInv(s, s', {t});
  }

  // ---------------------------------------------------------------- each event keeps it

  lemma NextClaimKeepsInv(s: State, t: nat)
    requires Inv(s) && t in s.txns && s.txns[t].op.Claim? && NextClaim(s, t).Some?
    ensures Inv(NextClaim(s, t).value)
  {
    var x := s.txns[t];
    assert TxnOk(s.members, s.sessions, x);
    match x.step
    case Begun =>
      if (x.op.ws, x.op.user) !in s.members {
        GoneKeepsInv(s, t);
      } else {
        MoveKeepsInv(s, t, Shared(s.members[(x.op.ws, x.op.user)]));
      }
    case Shared(seen) =>
      if !Ready(s.sessions, (x.op.ws, x.op.session)) {
        QuietMove(s, t, Missed);
      } else {
        ClaimTakesSession(s, t);
      }
    case Updated(_) => ClaimCommits(s, t);
    case Missed => GoneKeepsInv(s, t);
  }

  lemma ClaimTakesSession(s: State, t: nat)
    requires Inv(s) && t in s.txns && s.txns[t].op.Claim? && s.txns[t].step.Shared?
    requires Ready(s.sessions, (s.txns[t].op.ws, s.txns[t].op.session)) && !SessionBusy(s, Some(t), (s.txns[t].op.ws, s.txns[t].op.session))
    ensures Inv(At(s, t, Updated(s.txns[t].step.seen)))
  {
    var x := s.txns[t];
    assert TxnOk(s.members, s.sessions, x);
    forall o | o in s.txns && o != t ensures !Conflict(s.members, x.(step := Updated(x.step.seen)), s.txns[o]) {
      assert !Conflict(s.members, x, s.txns[o]);
      assert Some(o) != Some(t) && !HoldsSession(s.txns[o], (x.op.ws, x.op.session));
    }
    MoveKeepsInv(s, t, Updated(x.step.seen));
  }

  lemma NextEndKeepsInv(s: State, t: nat)
    requires Inv(s) && t in s.txns && s.txns[t].op.End? && NextEnd(s, t).Some?
    ensures Inv(NextEnd(s, t).value)
  {
    var x := s.txns[t];
    var k := (x.op.ws, x.op.user);
    assert TxnOk(s.members, s.sessions, x);
    match x.step
    case Begun => LockKeepsInv(s, t);
    case Locked => ReadKeepsInv(s, t, k);
    case Found(role) =>
      if role == Owner && |Owners(s.members, k.0)| > 1 {
        CountLeavesAnother(s.members, k);
      }
      CountKeepsInv(s, t, role == Owner);
    case Checked => WriteKeepsInv(s, t, Written, k);
    case Written => QuietMove(s, t, Released(ClaimedBy(s.sessions, k.0, k.1)));
    case Released(_) => EndCommits(s, t);
  }

  lemma ReadKeepsInv(s: State, t: nat, k: Member)
    requires Inv(s) && t in s.txns && !s.txns[t].op.Claim? && s.txns[t].step.Locked?
    requires k in s.members ==> TxnOk(s.members, s.sessions, s.txns[t].(step := Found(s.members[k])))
    ensures Inv(NextRead(s, t, k))
  {
    if k !in s.members {
      GoneKeepsInv(s, t);
    } else {
      QuietMove(s, t, Found(s.members[k]));
    }
  }

  lemma CountKeepsInv(s: State, t: nat, gives: bool)
    requires Inv(s) && t in s.txns && !s.txns[t].op.Claim? && s.txns[t].step.Found?
    requires !gives || |Owners(s.members, s.txns[t].op.ws)| > 1 ==> TxnOk(s.members, s.sessions, s.txns[t].(step := Checked))
    ensures Inv(NextCount(s, t, gives))
  {
    if gives && |Owners(s.members, s.txns[t].op.ws)| <= 1 {
      GoneKeepsInv(s, t);
    } else {
      QuietMove(s, t, Checked);
    }
  }

  lemma NextChangeKeepsInv(s: State, t: nat)
    requires Inv(s) && t in s.txns && s.txns[t].op.Change? && NextChange(s, t).Some?
    ensures Inv(NextChange(s, t).value)
  {
    var x := s.txns[t];
    var k := (x.op.ws, x.op.user);
    assert TxnOk(s.members, s.sessions, x);
    match x.step
    case Begun => LockKeepsInv(s, t);
    case Locked => ReadKeepsInv(s, t, k);
    case Found(was) =>
      if was == Owner && |Owners(s.members, k.0)| > 1 {
        CountLeavesAnother(s.members, k);
      }
      CountKeepsInv(s, t, was == Owner && x.op.role != Owner);
    case Checked =>
      if s.members[k] == x.op.role {
        QuietMove(s, t, Written);
      } else {
        WriteKeepsInv(s, t, Written, k);
      }
    case Written =>
      if CanWork(x.op.role) {
        ChangeCommits(s, t);
      } else {
        QuietMove(s, t, Released(ClaimedBy(s.sessions, k.0, k.1)));
      }
    case Released(_) => ChangeCommits(s, t);
  }

  lemma NextTransferKeepsInv(s: State, t: nat)
    requires Inv(s) && t in s.txns && s.txns[t].op.Transfer? && NextTransfer(s, t).Some?
    ensures Inv(NextTransfer(s, t).value)
  {
    var x := s.txns[t];
    var actor, target := (x.op.ws, x.op.actor), (x.op.ws, x.op.target);
    assert TxnOk(s.members, s.sessions, x);
    match x.step
    case Begun => LockKeepsInv(s, t);
    case Locked => ReadKeepsInv(s, t, target);
    case Found(was) =>
      if was == Owner {
        QuietMove(s, t, Promoted);
      } else {
        WriteKeepsInv(s, t, Promoted, target);
      }
    case Promoted =>
      if actor !in s.members || s.members[actor] != Owner {
        GoneKeepsInv(s, t);
      } else {
        QuietMove(s, t, ActorRead);
      }
    case ActorRead => WriteKeepsInv(s, t, Demoted, actor);
    case Demoted => TransferCommits(s, t);
  }

  lemma BeginKeepsInv(s: State, op: Op)
    requires Inv(s) && Apply(s, Begin(op)).Some?
    ensures Inv(Apply(s, Begin(op)).value)
  {
    var s' := Apply(s, Begin(op)).value;
    forall a, b | a in s'.txns && b in s'.txns && a != b ensures !Conflict(s'.members, s'.txns[a], s'.txns[b]) {
      if a != s.nextTxn && b != s.nextTxn {
        assert !Conflict(s.members, s.txns[a], s.txns[b]);
      }
    }
  }

  /** A new membership only adds: every transaction keeps what it relies on. */
  lemma JoinUndisturbed(s: State, s': State, k: Member, role: Role, x: Txn)
    requires k !in s.members && s' == s.(members := s.members[k := role], workspaces := s'.workspaces) && TxnOk(s.members, s.sessions, x)
    ensures Undisturbed(s, s', x)
  {
    assert forall ws :: Owners(s.members, ws) <= Owners(s'.members, ws);
    forall j | Removable(s.members, j) ensures Removable(s'.members, j) {
      assert Owners(s.members, j.0) - {j} <= Owners(s'.members, j.0) - {j};
    }
  }

  lemma JoinKeepsInv(s: State, s': State, k: Member, role: Role)
    requires Inv(s) && k !in s.members && s' == s.(members := s.members[k := role], workspaces := s'.workspaces)
    requires s'.workspaces == s.workspaces || (role == Owner && s'.workspaces == s.workspaces + {k.0})
    ensures Inv(s')
  {
    forall ws | ws in s'.workspaces ensures Owners(s'.members, ws) != {} {
      assert Owners(s.members, ws) <= Owners(s'.members, ws);
      if ws !in s.workspaces {
        assert k in Owners(s'.members, ws);
      }
    }
    forall j | j in s'.sessions ensures SessionOk(s'.members, j, s'.sessions[j]) {
      assert SessionOk(s.members, j, s.sessions[j]);
    }
    forall o | o in s'.txns ensures Undisturbed(s, s', s.txns[o]) {
      JoinUndisturbed(s, s', k, role, s.txns[o]);
    }
    CommitKeepsInv(s, s', {});
  }

  /** A session's status moves without anyone's claim moving with it. */
  lemma SessionMoves(s: State, s': State, k: SessionKey)
    requires Inv(s) && k in s'.sessions && s' == s.(sessions := s.sessions[k := s'.sessions[k]], escalations := s'.escalations)
    requires s'.escalations.Items <= s.escalations.Items
    requires SessionOk(s.members, k, s'.sessions[k]) && s'.sessions[k].status != Claimed
    requires !Ready(s.sessions, k) && !SessionBusy(s, None, k)
    ensures Inv(s')
  {
    forall j | j in s'.sessions ensures SessionOk(s'.members, j, s'.sessions[j]) {
      if j != k {
        assert SessionOk(s.members, j, s.sessions[j]);
      }
    }
    assert OwnersOk(s');
    forall o | o in s'.txns ensures o < s'.nextTxn && TxnOk(s'.members, s'.sessions, s'.txns[o]) {
      assert !HoldsSession(s.txns[o], k);
      MoveUndisturbed(s, s', k, s.txns[o]);
    }
    forall a, b | a in s'.txns && b in s'.txns && a != b ensures !Conflict(s'.members, s'.txns[a], s'.txns[b]) {
      assert !Conflict(s.members, s.txns[a], s.txns[b]);
    }
    EscalationsShrink(s, s');
  }

  lemma EscalationsShrink(s: State, s': State)
    requires EscalationsOk(s) && s'.escalations.Items <= s.escalations.Items
    ensures EscalationsOk(s')
  {
    forall e | e in s'.escalations ensures s'.escalations[e].found != Some(Open) {
      assert (e, s'.escalations[e]) in s'.escalations.Items;
      assert (e, s'.escalations[e]) in s.escalations.Items;
    }
  }

  lemma MoveUndisturbed(s: State, s': State, k: SessionKey, x: Txn)
    requires s'.members == s.members && k in s'.sessions && s'.sessions == s.sessions[k := s'.sessions[k]] && s'.sessions[k].status != Claimed
    requires !Ready(s.sessions, k) && !HoldsSession(x, k) && TxnOk(s.members, s.sessions, x)
    ensures TxnOk(s'.members, s'.sessions, x)
  {
    if x.op.End? || x.op.Change? {
      forall id ensures id in ClaimedBy(s'.sessions, x.op.ws, x.op.user) <==>
                        id in ClaimedBy(s.sessions, x.op.ws, x.op.user) && (x.op.ws, id) != k {
        InClaimed(s.sessions, x.op.ws, x.op.user, id);
        InClaimed(s'.sessions, x.op.ws, x.op.user, id);
      }
      if x.step.Released? && k.0 == x.op.ws {
        assert k.1 !in x.step.ids;
      }
    }
  }

  lemma ResolveKeepsInv(s: State, ws: nat, session: string)
    requires Inv(s) && Apply(s, Resolve(ws, session)).Some?
    ensures Inv(Apply(s, Resolve(ws, session)).value)
  {
    var k := (ws, session);
    if k in s.sessions && s.sessions[k].status == Claimed {
      assert SessionOk(s.members, k, s.sessions[k]);
      SessionMoves(s, Apply(s, Resolve(ws, session)).value, k);
    }
  }

  /** No lookup ever found an open session, so only the insert is left. */
  lemma EscalationKeepsInv(s: State, e: nat)
    requires Inv(s) && e in s.escalations
    ensures Inv(Apply(s, WriteEscalation(e)).value)
  {
    var s' := Apply(s, WriteEscalation(e)).value;
    var x := s.escalations[e];
    var k := (x.ws, x.session);
    assert x.found != Some(Open);
    if x.found.None? && k !in s.sessions {
      forall o | o in s.txns ensures !HoldsSession(s.txns[o], k) {
        AbsentIsFree(s, o, k);
      }
      SessionMoves(s, s', k);
    } else {
      assert s'.sessions == s.sessions;
      EscalationsShrink(s, s');
    }
  }

  lemma AbsentIsFree(s: State, o: nat, k: SessionKey)
    requires TxnsOk(s) && o in s.txns && k !in s.sessions
    ensures !HoldsSession(s.txns[o], k)
  {
    var x := s.txns[o];
    assert TxnOk(s.members, s.sessions, x);
    if x.step.Released? && k.0 == x.op.ws {
      InClaimed(s.sessions, x.op.ws, x.op.user, k.1);
    }
  }

  lemma FindKeepsInv(s: State, ws: nat, session: string)
    requires Inv(s)
    ensures Inv(Apply(s, FindSession(ws, session)).value)
  {
    if (ws, session) in s.sessions {
      assert SessionOk(s.members, (ws, session), s.sessions[(ws, session)]);
    }
  }

  lemma NextKeepsInv(s: State, t: nat)
    requires Inv(s) && t in s.txns && NextOf(s, t).Some?
    ensures Inv(NextOf(s, t).value)
  {
    match s.txns[t].op
    case Claim(_, _, _) => NextClaimKeepsInv(s, t);
    case End(_, _) => NextEndKeepsInv(s, t);
    case Change(_, _, _) => NextChangeKeepsInv(s, t);
    case Transfer(_, _, _) => NextTransferKeepsInv(s, t);
  }

  lemma ApplyKeepsInv(s: State, e: Event)
    requires Inv(s) && Apply(s, e).Some?
    ensures Inv(Apply(s, e).value)
  {
    match e
    case Tick(_) => assert Inv(s);
    case CreateWorkspace(ws, user) => JoinKeepsInv(s, Apply(s, e).value, (ws, user), Owner);
    case Join(ws, user, role) =>
      if (ws, user) !in s.members {
        JoinKeepsInv(s, Apply(s, e).value, (ws, user), role);
      }
    case Begin(op) => BeginKeepsInv(s, op);
    case Next(t) => NextKeepsInv(s, t);
    case Abort(t) => GoneKeepsInv(s, t);
    case Resolve(ws, session) => ResolveKeepsInv(s, ws, session);
    case FindSession(ws, session) => FindKeepsInv(s, ws, session);
    case WriteEscalation(e) => EscalationKeepsInv(s, e);
  }

  lemma RunKeepsInv(s: State, es: seq<Event>)
    requires Inv(s) && Exec(s, es).Some?
    ensures Inv(Exec(s, es).value)
  {
    forall t, e | Inv(t) && Apply(t, e).Some? ensures Inv(Apply(t, e).value) {
      ApplyKeepsInv(t, e);
    }
    RunKeeps(Apply, t => Inv(t), s, es);
  }

  ghost predicate Reachable(s: State) {
    exists now, es :: Exec(Init(now), es) == Some(s)
  }

  lemma ReachableInv(s: State)
    requires Reachable(s)
    ensures Inv(s)
  {
    var now, es :| Exec(Init(now), es) == Some(s);
    RunKeepsInv(Init(now), es);
  }
}
