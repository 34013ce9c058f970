/** Invitations: created, resent with a fresh token, revoked, accepted by an existing user or with a
    sign-up, and reported on by late deliveries. Accepting is a transaction of several statements
    whose writes show only at its commit; until then it holds the invitation's row. */
module Invitations {
  import opened Common
  import opened Runs
  import M = Membership

  type Role = M.Role
  type Member = M.Member
  type Members = M.Members

  const INVITATION_TTL := 7 * 86_400

  datatype Status = Pending | Accepted | Revoked
  datatype EmailStatus = Queued | Sent | Failed

  /** `token` stands for the hash of the one token that currently opens the invitation; `invitedAs`
      is the inviter's role, `accepts` counts committed acceptances. */
  datatype Invitation = Invitation(
    ws: nat, email: string, role: Role, invitedAs: Role, token: nat, status: Status, expiresAt: int,
    acceptedBy: Option<nat>, acceptedAt: int, accepts: nat,
    sendCount: nat, emailStatus: EmailStatus, sentAt: Option<int>, lastError: Option<string>)

  /** `via` is the invitation whose acceptance created the account. */
  datatype User = User(email: string, via: Option<nat>)

  datatype Delivery = WasSent | WasFailed(error: string) | Retrying(error: string)

  /** An invitation about to be inserted, past the check that its address is not a member's. */
  datatype Draft = Draft(ws: nat, email: string, role: Role, invitedAs: Role)

  /** Existing user: asked, invitation read, email compared, consumed, joined. Sign-up: invitation
      read in advance, transaction begun, user inserted, consumed, joined. */
  datatype Stage =
    | Asked
    | Found
    | Started
    | Bound
    | Consumed(invitation: nat)
    | Inserted(invitation: nat)
    | Conflicted(invitation: nat)
    | AlreadyMember(invitation: nat)

  /** `started` is what now() reads throughout the transaction. */
  datatype Accept = Accept(signup: bool, token: nat, user: nat, email: string, started: int, stage: Stage)

  datatype State = State(
    users: map<nat, User>, nextUser: nat, members: Members, nextWorkspace: nat,
    invitations: map<nat, Invitation>, nextInvitation: nat, nextToken: nat,
    drafts: map<nat, Draft>, nextDraft: nat, accepts: map<nat, Accept>, nextAccept: nat, now: int)

  function Init(now: int): State {
    State(map[], 0, map[], 0, map[], 0, 0, map[], 0, map[], 0, now)
  }

  datatype Event =
    | Tick(to: int)
    | Register(email: string)
    | ChangeRole(ws: nat, user: nat, role: Role)
    | RemoveMember(ws: nat, user: nat)
    | Invite(ws: nat, inviter: Role, email: string, role: Role)
    | InsertInvitation(d: nat)
    | Resend(ws: nat, inviter: Role, id: nat)
    | Revoke(ws: nat, inviter: Role, id: nat)
    | Report(id: nat, token: nat, outcome: Delivery)
    | AcceptExisting(token: nat, user: nat)
    | AcceptSignup(token: nat)
    | Next(a: nat)
    | Abort(a: nat)

  // ---------------------------------------------------------------- rows and locks

  function Rank(r: Role): nat {
    match r
    case Viewer => 1
    case Agent => 2
    case Owner => 3
  }

  predicate Consuming(g: Stage) {
    g.Consumed? || g.Inserted? || g.Conflicted? || g.AlreadyMember?
  }

  predicate HoldsInvitation(x: Accept, id: nat) {
    Consuming(x.stage) && x.stage.invitation == id
  }

  /** An inserted and uncommitted account. */
  predicate HoldsEmail(x: Accept, email: string) {
    x.signup && (x.stage.Bound? || Consuming(x.stage)) && x.email == email
  }

  predicate InvitationBusy(s: State, a: Option<nat>, id: nat) {
    exists o | o in s.accepts :: Some(o) != a && HoldsInvitation(s.accepts[o], id)
  }

  predicate EmailBusy(s: State, email: string) {
    exists o | o in s.accepts :: HoldsEmail(s.accepts[o], email)
  }

  predicate KnownEmail(users: map<nat, User>, email: string) {
    exists u | u in users :: users[u].email == email
  }

  /** An inserted and uncommitted membership. */
  predicate MemberBusy(s: State, a: Option<nat>, k: Member) {
    exists o | o in s.accepts :: Some(o) != a && HoldsMembership(s, s.accepts[o], k)
  }

  predicate HoldsMembership(s: State, x: Accept, k: Member) {
    x.stage.Inserted? && x.stage.invitation in s.invitations && k == (s.invitations[x.stage.invitation].ws, x.user)
  }

  predicate Opens(s: State, token: nat, id: nat) {
    id in s.invitations && s.invitations[id].token == token
  }

  // ---------------------------------------------------------------- accepting

  function At(s: State, a: nat, x: Accept): State {
    s.(accepts := s.accepts[a := x])
  }

  function Gone(s: State, a: nat): State {
    s.(accepts := s.accepts - {a})
  }

  /** The invitation the token opens is unique; the lookup may find none. */
  function Lookup(s: State, token: nat, id: nat): (r: Option<nat>)
    ensures r.Some? ==> Opens(s, token, r.value)
    ensures r.None? ==> forall i | i in s.invitations && i < id :: s.invitations[i].token != token
  {
    if id == 0 then None
    else if Opens(s, token, id - 1) then Some(id - 1)
    else Lookup(s, token, id - 1)
  }

  function NextRead(s: State, a: nat, x: Accept): State {
    var found := Lookup(s, x.token, s.nextInvitation);
    if found.None? then Gone(s, a)
    else
      var i := s.invitations[found.value];
      if x.signup && (i.status != Pending || i.expiresAt <= s.now || KnownEmail(s.users, i.email)) then Gone(s, a)
      else At(s, a, x.(stage := Found, email := i.email))
  }

  /** Email binding: the account must be the invited address's own. */
  function NextBind(s: State, a: nat, x: Accept): State {
    if x.user in s.users && s.users[x.user].email == x.email then At(s, a, x.(stage := Bound)) else Gone(s, a)
  }

  /** users.email is unique: a second sign-up waits for the first and then fails. */
  function NextInsertUser(s: State, a: nat, x: Accept): Option<State> {
    if EmailBusy(s, x.email) then None
    else if KnownEmail(s.users, x.email) then Some(Gone(s, a))
    else Some(At(s, a, x.(stage := Bound, user := s.nextUser)).(nextUser := s.nextUser + 1))
  }

  /** One conditional UPDATE both checks and consumes. */
  function NextConsume(s: State, a: nat, x: Accept): Option<State> {
    var found := Lookup(s, x.token, s.nextInvitation);
    if found.None? then Some(Gone(s, a))
    else if InvitationBusy(s, Some(a), found.value) then None
    else if s.invitations[found.value].status == Pending && x.started < s.invitations[found.value].expiresAt then
      Some(At(s, a, x.(stage := Consumed(found.value))))
    else Some(Gone(s, a))
  }

  /** INSERT ... ON CONFLICT DO NOTHING, which locks nothing when it does nothing. */
  function NextJoin(s: State, a: nat, x: Accept): Option<State>
    requires x.stage.Consumed?
  {
    if x.stage.invitation !in s.invitations then None
    else
      var k := (s.invitations[x.stage.invitation].ws, x.user);
      if MemberBusy(s, Some(a), k) then None
      else Some(At(s, a, x.(stage := if k in s.members then Conflicted(x.stage.invitation) else Inserted(x.stage.invitation))))
  }

  /** Reading the existing role throws if the membership has gone meanwhile. */
  function NextReadRole(s: State, a: nat, x: Accept): Option<State>
    requires x.stage.Conflicted?
  {
    if x.stage.invitation !in s.invitations then None
    else if (s.invitations[x.stage.invitation].ws, x.user) in s.members then
      Some(At(s, a, x.(stage := AlreadyMember(x.stage.invitation))))
    else Some(Gone(s, a))
  }

  function Taken(i: Invitation, user: nat, at: int): Invitation {
    i.(status := Accepted, acceptedBy := Some(user), acceptedAt := at, accepts := i.accepts + 1)
  }

  function Committed(s: State, a: nat, x: Accept): Option<State>
    requires x.stage.Inserted? || x.stage.AlreadyMember?
  {
    var id := x.stage.invitation;
    if id !in s.invitations then None
    else
      var i := s.invitations[id];
      Some(Gone(s, a).(
           invitations := s.invitations[id := Taken(i, x.user, x.started)],
           users := if x.signup then s.users[x.user := User(x.email, Some(id))] else s.users,
           members := if x.stage.Inserted? then s.members[(i.ws, x.user) := i.role] else s.members))
  }

  function NextOf(s: State, a: nat): Option<State>
    requires a in s.accepts
  {
    var x := s.accepts[a];
    match x.stage
    case Asked => Some(NextRead(s, a, x))
    case Found => if x.signup then Some(At(s, a, x.(stage := Started, started := s.now))) else Some(NextBind(s, a, x))
    case Started => NextInsertUser(s, a, x)
    case Bound => NextConsume(s, a, x)
    case Consumed(_) => NextJoin(s, a, x)
    case Conflicted(_) => NextReadRole(s, a, x)
    case Inserted(_) => Committed(s, a, x)
    case AlreadyMember(_) => Committed(s, a, x)
  }

  // ---------------------------------------------------------------- inviting

  predicate PendingFor(s: State, ws: nat, email: string) {
    exists i | i in s.invitations :: s.invitations[i].status == Pending && s.invitations[i].ws == ws && s.invitations[i].email == email
  }

  predicate PendingBusy(s: State, ws: nat, email: string) {
    exists i | i in s.invitations ::
      s.invitations[i].status == Pending && s.invitations[i].ws == ws && s.invitations[i].email == email && InvitationBusy(s, None, i)
  }

  predicate MemberEmail(s: State, ws: nat, email: string) {
    exists k | k in s.members :: k.0 == ws && k.1 in s.users && s.users[k.1].email == email
  }

  /** The partial unique index decides; a conflicting row being consumed is waited for. */
  function Inserting(s: State, d: nat): Option<State>
    requires d in s.drafts
  {
    var x := s.drafts[d];
    var s' := s.(drafts := s.drafts - {d});
    if PendingBusy(s, x.ws, x.email) then None
    else if PendingFor(s, x.ws, x.email) then Some(s')
    else
      var row := Invitation(x.ws, x.email, x.role, x.invitedAs, s.nextToken, Pending, s.now + INVITATION_TTL,
                            None, 0, 0, 1, Queued, None, None);
      Some(s'.(invitations := s.invitations[s.nextInvitation := row], nextInvitation := s.nextInvitation + 1, nextToken := s.nextToken + 1))
  }

  predicate MayActOn(s: State, ws: nat, inviter: Role, id: nat) {
    id in s.invitations && s.invitations[id].ws == ws && Rank(s.invitations[id].role) <= Rank(inviter)
  }

  /** A fresh token; the old one opens nothing any more. */
  function Resending(s: State, id: nat): State
    requires id in s.invitations
  {
    var i := s.invitations[id];
    if i.status != Pending then s
    else
      s.(invitations := s.invitations[id := i.(token := s.nextToken, expiresAt := s.now + INVITATION_TTL, sendCount := i.sendCount + 1,
                                               emailStatus := Queued, sentAt := None, lastError := None)],
         nextToken := s.nextToken + 1)
  }

  function Revoking(s: State, id: nat): State
    requires id in s.invitations
  {
    if s.invitations[id].status != Pending then s
    else s.(invitations := s.invitations[id := s.invitations[id].(status := Revoked)])
  }

  function Reported(i: Invitation, outcome: Delivery, now: int): Invitation {
    match outcome
    case WasSent => i.(emailStatus := Sent, sentAt := Some(now), lastError := None)
    case WasFailed(error) => i.(emailStatus := Failed, lastError := Some(error))
    case Retrying(error) => i.(lastError := Some(error))
  }

  /** None when a statement waits for a lock, or nobody would issue it. */
  function Apply(s: State, e: Event): Option<State> {
    match e
    case Tick(to) => if s.now <= to then Some(s.(now := to)) else None
    case Register(email) =>
      // An account registers with a workspace of its own.
      if EmailBusy(s, email) then None
      else if KnownEmail(s.users, email) then Some(s)
      else Some(s.(users := s.users[s.nextUser := User(email, None)], nextUser := s.nextUser + 1,
                   members := s.members[(s.nextWorkspace, s.nextUser) := M.Owner], nextWorkspace := s.nextWorkspace + 1))
    case ChangeRole(ws, user, role) =>
      if (ws, user) !in s.members || (role != M.Owner && !M.Removable(s.members, (ws, user))) then None
      else Some(s.(members := s.members[(ws, user) := role]))
    case RemoveMember(ws, user) =>
      if (ws, user) in s.members && !M.Removable(s.members, (ws, user)) then None
      else Some(s.(members := s.members - {(ws, user)}))
    case Invite(ws, inviter, email, role) =>
      if ws >= s.nextWorkspace then None
      else if Rank(role) > Rank(inviter) || MemberEmail(s, ws, email) then Some(s)
      else Some(s.(drafts := s.drafts[s.nextDraft := Draft(ws, email, role, inviter)], nextDraft := s.nextDraft + 1))
    case InsertInvitation(d) => if d in s.drafts then Inserting(s, d) else None
    case Resend(ws, inviter, id) =>
      if !MayActOn(s, ws, inviter, id) then Some(s) else if InvitationBusy(s, None, id) then None else Some(Resending(s, id))
    case Revoke(ws, inviter, id) =>
      if !MayActOn(s, ws, inviter, id) then Some(s) else if InvitationBusy(s, None, id) then None else Some(Revoking(s, id))
    case Report(id, token, outcome) =>
      if !Opens(s, token, id) then Some(s)
      else if InvitationBusy(s, None, id) then None
      else Some(s.(invitations := s.invitations[id := Reported(s.invitations[id], outcome, s.now)]))
    case AcceptExisting(token, user) =>
      Some(At(s, s.nextAccept, Accept(false, token, user, "", s.now, Asked)).(nextAccept := s.nextAccept + 1))
    case AcceptSignup(token) =>
      Some(At(s, s.nextAccept, Accept(true, token, 0, "", s.now, Asked)).(nextAccept := s.nextAccept + 1))
    case Next(a) => if a in s.accepts then NextOf(s, a) else None
    case Abort(a) => if a in s.accepts then Some(Gone(s, a)) else None
  }

  function Exec(s: State, es: seq<Event>): Option<State> {
    Run(Apply, s, es)
  }

  // ---------------------------------------------------------------- what every state keeps

  predicate InvitationOk(s: State, id: nat, i: Invitation) {
    && id < s.nextInvitation && i.token < s.nextToken && i.ws < s.nextWorkspace && Rank(i.role) <= Rank(i.invitedAs)
    && i.accepts == (if i.status == Accepted then 1 else 0)
    && (i.status == Accepted <==> i.acceptedBy.Some?)
    && DeliveryOk(i)
    && (i.status == Accepted ==>
          i.acceptedBy.value in s.users && s.users[i.acceptedBy.value].email == i.email && i.acceptedAt < i.expiresAt)
  }

  /** What the delivery columns say of the current token's email. */
  predicate DeliveryOk(i: Invitation) {
    && i.sendCount >= 1
    && (i.emailStatus == Queued ==> i.sentAt.None?)
    && (i.emailStatus == Sent ==> i.sentAt.Some?)
    && (i.emailStatus == Failed ==> i.lastError.Some?)
  }

  predicate UserOk(s: State, u: nat, x: User) {
    && u < s.nextUser
    && (x.via.Some? ==> x.via.value in s.invitations && s.invitations[x.via.value].acceptedBy == Some(u))
  }

  predicate AcceptOk(s: State, x: Accept) {
    && (!x.stage.Asked? ==> x.token < s.nextToken && BelongsTo(s, x.token, x.email))
    && (x.stage.Bound? || Consuming(x.stage) ==> if x.signup then NewUser(s, x) else x.user in s.users && s.users[x.user].email == x.email)
    && (x.stage.Started? ==> x.signup)
    && (Consuming(x.stage) ==> Opens(s, x.token, x.stage.invitation) && Takes(s.invitations[x.stage.invitation], x))
    && (x.stage.Inserted? ==> (s.invitations[x.stage.invitation].ws, x.user) !in s.members)
  }

  predicate Takes(i: Invitation, x: Accept) {
    i.status == Pending && i.email == x.email && x.started < i.expiresAt
  }

  predicate NewUser(s: State, x: Accept) {
    x.user < s.nextUser && x.user !in s.users && !KnownEmail(s.users, x.email)
  }

  /** Whatever invitation the token opens was sent to this address. */
  predicate BelongsTo(s: State, token: nat, email: string) {
    forall i | i in s.invitations && s.invitations[i].token == token :: s.invitations[i].email == email
  }

  predicate Conflict(x: Accept, y: Accept) {
    || (Consuming(x.stage) && Consuming(y.stage) && x.stage.invitation == y.stage.invitation)
    || (HoldsEmail(x, x.email) && HoldsEmail(y, y.email) && (x.email == y.email || x.user == y.user))
  }

  /** One pending invitation per workspace and address, one invitation per token. */
  predicate Clash(i: Invitation, j: Invitation) {
    i.token == j.token || (i.status == Pending && j.status == Pending && i.ws == j.ws && i.email == j.email)
  }

  ghost predicate InvitationsOk(s: State) {
    && (forall i | i in s.invitations :: InvitationOk(s, i, s.invitations[i]))
    && (forall i, j | i in s.invitations && j in s.invitations && i != j :: !Clash(s.invitations[i], s.invitations[j]))
  }

  ghost predicate UsersOk(s: State) {
    && (forall u | u in s.users :: UserOk(s, u, s.users[u]))
    && (forall u, v | u in s.users && v in s.users && u != v :: s.users[u].email != s.users[v].email)
    && (forall k | k in s.members :: k.1 in s.users)
  }

  ghost predicate AcceptsOk(s: State) {
    && (forall a | a in s.accepts :: a < s.nextAccept && AcceptOk(s, s.accepts[a]))
    && (forall a, b | a in s.accepts && b in s.accepts && a != b :: !Conflict(s.accepts[a], s.accepts[b]))
  }

  ghost predicate DraftsOk(s: State) {
    forall d | d in s.drafts :: s.drafts[d].ws < s.nextWorkspace && Rank(s.drafts[d].role) <= Rank(s.drafts[d].invitedAs)
  }

  ghost predicate Inv(s: State) {
    InvitationsOk(s) && UsersOk(s) && AcceptsOk(s) && DraftsOk(s)
  }

  // ---------------------------------------------------------------- frames

  /** One acceptance moves on; at most a user id is drawn. */
  lemma MoveKeepsInv(s: State, s': State, a: nat)
    requires Inv(s) && a in s'.accepts && a < s'.nextAccept && s.nextAccept <= s'.nextAccept && s.nextUser <= s'.nextUser
    requires s' == s.(accepts := s.accepts[a := s'.accepts[a]], nextAccept := s'.nextAccept, nextUser := s'.nextUser)
    requires AcceptOk(s', s'.accepts[a])
    requires forall o | o in s.accepts && o != a :: !Conflict(s'.accepts[a], s.accepts[o]) && !Conflict(s.accepts[o], s'.accepts[a])
    ensures Inv(s')
  {
    forall o | o in s'.accepts ensures AcceptOk(s', s'.accepts[o]) {
      if o != a {
        assert AcceptOk(s, s.accepts[o]);
      }
    }
    forall b, c | b in s'.accepts && c in s'.accepts && b != c ensures !Conflict(s'.accepts[b], s'.accepts[c]) {
      if b != a && c != a {
        assert !Conflict(s.accepts[b], s.accepts[c]);
      }
    }
    forall i | i in s'.invitations ensures InvitationOk(s', i, s'.invitations[i]) {
      assert InvitationOk(s, i, s.invitations[i]);
    }
    forall u | u in s'.users ensures UserOk(s', u, s'.users[u]) {
      assert UserOk(s, u, s.users[u]);
    }
  }

  /** Moving on without taking a row or an address. */
  lemma QuietMove(s: State, a: nat, x: Accept)
    requires Inv(s) && a in s.accepts && AcceptOk(At(s, a, x), x)
    requires Consuming(x.stage) ==> Consuming(s.accepts[a].stage) && s.accepts[a].stage.invitation == x.stage.invitation
    requires HoldsEmail(x, x.email) ==> HoldsEmail(s.accepts[a], x.email) && s.accepts[a].email == x.email && s.accepts[a].user == x.user
    ensures Inv(At(s, a, x))
  {
    forall o | o in s.accepts && o != a ensures !Conflict(x, s.accepts[o]) && !Conflict(s.accepts[o], x) {
      assert !Conflict(s.accepts[a], s.accepts[o]) && !Conflict(s.accepts[o], s.accepts[a]);
    }
    MoveKeepsInv(s, At(s, a, x), a);
  }

  lemma GoneKeepsInv(s: State, a: nat)
    requires Inv(s)
    ensures Inv(Gone(s, a))
  {
    var s' := Gone(s, a);
    forall o | o in s'.accepts ensures AcceptOk(s', s'.accepts[o]) {
      assert AcceptOk(s, s.accepts[o]);
    }
    forall b, c | b in s'.accepts && c in s'.accepts && b != c ensures !Conflict(s'.accepts[b], s'.accepts[c]) {
      assert !Conflict(s.accepts[b], s.accepts[c]);
    }
    forall i | i in s'.invitations ensures InvitationOk(s', i, s'.invitations[i]) {
      assert InvitationOk(s, i, s.invitations[i]);
    }
    forall u | u in s'.users ensures UserOk(s', u, s'.users[u]) {
      assert UserOk(s, u, s.users[u]);
    }
  }

  /** A row nobody is consuming changes, or a new one appears. */
  ghost predicate Rewritten(s: State, s': State, id: nat) {
    && id in s'.invitations && s'.invitations == s.invitations[id := s'.invitations[id]]
    && s.nextToken <= s'.nextToken && s.nextInvitation <= s'.nextInvitation
    && s' == s.(invitations := s'.invitations, nextToken := s'.nextToken, nextInvitation := s'.nextInvitation, drafts := s'.drafts)
    && (if id in s.invitations then
          && s'.invitations[id].acceptedBy == s.invitations[id].acceptedBy && s'.invitations[id].email == s.invitations[id].email
          && (s'.invitations[id].token == s.invitations[id].token || s'.invitations[id].token >= s.nextToken)
        else s'.invitations[id].token >= s.nextToken)
  }

  lemma RewriteKeepsAccept(s: State, s': State, id: nat, x: Accept)
    requires Rewritten(s, s', id) && AcceptOk(s, x) && !HoldsInvitation(x, id)
    ensures AcceptOk(s', x)
  {}

  lemma RewriteKeepsInv(s: State, s': State, id: nat)
    requires Inv(s) && Rewritten(s, s', id) && !InvitationBusy(s, None, id) && DraftsOk(s')
    requires InvitationOk(s', id, s'.invitations[id])
    requires forall j | j in s.invitations && j != id :: !Clash(s'.invitations[id], s.invitations[j])
    ensures Inv(s')
  {
    forall o | o in s'.accepts ensures AcceptOk(s', s'.accepts[o]) {
      assert AcceptOk(s, s.accepts[o]);
      assert Some(o) != None && !HoldsInvitation(s.accepts[o], id);
      RewriteKeepsAccept(s, s', id, s.accepts[o]);
    }
    forall i | i in s'.invitations ensures InvitationOk(s', i, s'.invitations[i]) {
      if i != id {
        assert InvitationOk(s, i, s.invitations[i]);
      }
    }
    RewriteKeepsUnique(s, s', id);
    forall u | u in s'.users ensures UserOk(s', u, s'.users[u]) {
      assert UserOk(s, u, s.users[u]);
    }
  }

  lemma ClashIsSymmetric(i: Invitation, j: Invitation)
    ensures Clash(i, j) == Clash(j, i)
  {}

  lemma RewriteKeepsUnique(s: State, s': State, id: nat)
    requires InvitationsOk(s) && id in s'.invitations && s'.invitations == s.invitations[id := s'.invitations[id]]
    requires forall j | j in s.invitations && j != id :: !Clash(s'.invitations[id], s.invitations[j])
    ensures forall i, j | i in s'.invitations && j in s'.invitations && i != j :: !Clash(s'.invitations[i], s'.invitations[j])
  {
    forall i, j | i in s'.invitations && j in s'.invitations && i != j ensures !Clash(s'.invitations[i], s'.invitations[j]) {
      ClashIsSymmetric(s'.invitations[i], s'.invitations[j]);
      if i != id && j != id {
        assert !Clash(s.invitations[i], s.invitations[j]);
      }
    }
  }

  /** Members and addresses change outside any acceptance. */
  lemma OutsideKeepsInv(s: State, s': State)
    requires Inv(s) && s' == s.(users := s'.users, nextUser := s'.nextUser, members := s'.members, nextWorkspace := s'.nextWorkspace, now := s'.now, drafts := s'.drafts, nextDraft := s'.nextDraft)
    requires s.nextUser <= s'.nextUser && s.nextWorkspace <= s'.nextWorkspace && DraftsOk(s')
    requires s'.users == s.users || (exists email :: s'.users == s.users[s.nextUser := User(email, None)] && s'.nextUser == s.nextUser + 1
                                                     && !KnownEmail(s.users, email) && !EmailBusy(s, email))
    requires forall k | k in s'.members :: k.1 in s'.users
    requires forall k | k in s'.members && k !in s.members :: !MemberBusy(s, None, k)
    ensures Inv(s')
  {
    assert forall u | u in s.users :: UserOk(s, u, s.users[u]);
    forall o | o in s'.accepts ensures AcceptOk(s', s'.accepts[o]) {
      OutsideKeepsAccept(s, s', o);
    }
    forall i | i in s'.invitations ensures InvitationOk(s', i, s'.invitations[i]) {
      assert InvitationOk(s, i, s.invitations[i]);
    }
    forall u | u in s'.users ensures UserOk(s', u, s'.users[u]) {
      if u in s.users {
        assert UserOk(s, u, s.users[u]);
      }
    }
  }

  lemma OutsideKeepsAccept(s: State, s': State, o: nat)
    requires o in s.accepts && AcceptOk(s, s.accepts[o]) && s'.invitations == s.invitations && s'.nextToken == s.nextToken && s'.accepts == s.accepts
    requires s.nextUser <= s'.nextUser && s.nextUser !in s.users
    requires s'.users == s.users || (exists email :: s'.users == s.users[s.nextUser := User(email, None)] && s'.nextUser == s.nextUser + 1
                                                     && !KnownEmail(s.users, email) && !EmailBusy(s, email))
    requires forall k | k in s'.members && k !in s.members :: !MemberBusy(s, None, k)
    ensures AcceptOk(s', s'.accepts[o])
  {
    var x := s.accepts[o];
    if s'.users != s.users {
      var email :| s'.users == s.users[s.nextUser := User(email, None)] && s'.nextUser == s.nextUser + 1
                   && !KnownEmail(s.users, email) && !EmailBusy(s, email);
      assert !HoldsEmail(x, email);
    }
    if x.stage.Inserted? {
      var k := (s.invitations[x.stage.invitation].ws, x.user);
      assert HoldsMembership(s, x, k) && Some(o) != None;
    }
  }

  // ---------------------------------------------------------------- accepting keeps it

  lemma ReadKeepsInv(s: State, a: nat)
    requires Inv(s) && a in s.accepts && s.accepts[a].stage.Asked?
    ensures Inv(NextRead(s, a, s.accepts[a]))
  {
    var x := s.accepts[a];
    var s' := NextRead(s, a, x);
    var found := Lookup(s, x.token, s.nextInvitation);
    if found.Some? && a in s'.accepts && s'.accepts[a].stage.Found? {
      assert InvitationOk(s, found.value, s.invitations[found.value]);
      forall i | i in s.invitations && s.invitations[i].token == x.token ensures i == found.value {
        assert i != found.value ==> !Clash(s.invitations[i], s.invitations[found.value]);
      }
      QuietMove(s, a, s'.accepts[a]);
    } else {
      GoneKeepsInv(s, a);
    }
  }

  lemma InsertUserKeepsInv(s: State, a: nat)
    requires Inv(s) && a in s.accepts && s.accepts[a].stage.Started? && NextInsertUser(s, a, s.accepts[a]).Some?
    ensures Inv(NextInsertUser(s, a, s.accepts[a]).value)
  {
    var x := s.accepts[a];
    var s' := NextInsertUser(s, a, x).value;
    assert AcceptOk(s, x);
    if KnownEmail(s.users, x.email) {
      GoneKeepsInv(s, a);
    } else {
      assert s.nextUser !in s.users by {
        assert forall u | u in s.users :: UserOk(s, u, s.users[u]);
      }
      forall o | o in s.accepts && o != a ensures !Conflict(s'.accepts[a], s.accepts[o]) && !Conflict(s.accepts[o], s'.accepts[a]) {
        assert AcceptOk(s, s.accepts[o]) && !HoldsEmail(s.accepts[o], x.email);
      }
      MoveKeepsInv(s, s', a);
    }
  }

  lemma ConsumeKeepsInv(s: State, a: nat)
    requires Inv(s) && a in s.accepts && s.accepts[a].stage.Bound? && NextConsume(s, a, s.accepts[a]).Some?
    ensures Inv(NextConsume(s, a, s.accepts[a]).value)
  {
    var x := s.accepts[a];
    var s' := NextConsume(s, a, x).value;
    var found := Lookup(s, x.token, s.nextInvitation);
    assert AcceptOk(s, x);
    if a in s'.accepts {
      forall o | o in s.accepts && o != a ensures !Conflict(s'.accepts[a], s.accepts[o]) && !Conflict(s.accepts[o], s'.accepts[a]) {
        assert !Conflict(x, s.accepts[o]) && !Conflict(s.accepts[o], x);
        assert Some(o) != Some(a) && !HoldsInvitation(s.accepts[o], found.value);
      }
      MoveKeepsInv(s, s', a);
    } else {
      GoneKeepsInv(s, a);
    }
  }

  /** No two acceptances are about to insert one membership: each would be consuming the one
      pending invitation of its address. */
  lemma InsertedApart(s: State, a: nat, b: nat)
    requires InvitationsOk(s) && AcceptsOk(s) && a in s.accepts && b in s.accepts && a != b
    requires s.accepts[a].stage.Inserted? && s.accepts[b].stage.Inserted?
    requires s.accepts[a].stage.invitation in s.invitations && s.accepts[b].stage.invitation in s.invitations
    ensures (s.invitations[s.accepts[a].stage.invitation].ws, s.accepts[a].user)
         != (s.invitations[s.accepts[b].stage.invitation].ws, s.accepts[b].user)
  {
    var x, y := s.accepts[a], s.accepts[b];
    assert AcceptOk(s, x) && AcceptOk(s, y) && !Conflict(x, y);
    assert !Clash(s.invitations[x.stage.invitation], s.invitations[y.stage.invitation]);
  }

  lemma CommitKeepsAccept(s: State, a: nat, o: nat)
    requires InvitationsOk(s) && AcceptsOk(s) && a in s.accepts && o in s.accepts && o != a
    requires s.accepts[a].stage.Inserted? || s.accepts[a].stage.AlreadyMember?
    requires Committed(s, a, s.accepts[a]).Some?
    ensures AcceptOk(Committed(s, a, s.accepts[a]).value, s.accepts[o])
  {
    var x, y := s.accepts[a], s.accepts[o];
    assert AcceptOk(s, x) && AcceptOk(s, y) && !Conflict(x, y);
    if x.stage.Inserted? && y.stage.Inserted? {
      InsertedApart(s, a, o);
    }
    CommitKeepsOther(s, x, y, Committed(s, a, x).value);
  }

  lemma CommitKeepsOther(s: State, x: Accept, y: Accept, s': State)
    requires AcceptOk(s, x) && AcceptOk(s, y) && !Conflict(x, y) && (x.stage.Inserted? || x.stage.AlreadyMember?)
    requires var i := s.invitations[x.stage.invitation];
             && s'.invitations == s.invitations[x.stage.invitation := Taken(i, x.user, x.started)]
             && s'.users == (if x.signup then s.users[x.user := User(x.email, Some(x.stage.invitation))] else s.users)
             && s'.members == (if x.stage.Inserted? then s.members[(i.ws, x.user) := i.role] else s.members)
             && s'.nextToken == s.nextToken && s'.nextUser == s.nextUser
             && (x.stage.Inserted? && y.stage.Inserted? ==> (s.invitations[y.stage.invitation].ws, y.user) != (i.ws, x.user))
    ensures AcceptOk(s', y)
  {}

  lemma CommitKeepsUsers(s: State, a: nat)
    requires Inv(s) && a in s.accepts && (s.accepts[a].stage.Inserted? || s.accepts[a].stage.AlreadyMember?)
    requires Committed(s, a, s.accepts[a]).Some?
    ensures UsersOk(Committed(s, a, s.accepts[a]).value)
  {
    var x := s.accepts[a];
    var s' := Committed(s, a, x).value;
    assert AcceptOk(s, x);
    forall u | u in s'.users ensures UserOk(s', u, s'.users[u]) {
      if u in s.users {
        assert UserOk(s, u, s.users[u]);
        assert InvitationOk(s, x.stage.invitation, s.invitations[x.stage.invitation]);
      }
    }
  }

  lemma CommitKeepsInvitations(s: State, a: nat)
    requires Inv(s) && a in s.accepts && (s.accepts[a].stage.Inserted? || s.accepts[a].stage.AlreadyMember?)
    requires Committed(s, a, s.accepts[a]).Some?
    ensures InvitationsOk(Committed(s, a, s.accepts[a]).value)
  {
    var x := s.accepts[a];
    var s' := Committed(s, a, x).value;
    var id := x.stage.invitation;
    assert AcceptOk(s, x);
    forall i | i in s'.invitations ensures InvitationOk(s', i, s'.invitations[i]) {
      assert InvitationOk(s, i, s.invitations[i]);
    }
    forall j | j in s.invitations && j != id ensures !Clash(s'.invitations[id], s.invitations[j]) {
      assert !Clash(s.invitations[id], s.invitations[j]);
    }
    RewriteKeepsUnique(s, s', id);
  }

  lemma CommitKeepsInv(s: State, a: nat)
    requires Inv(s) && a in s.accepts && (s.accepts[a].stage.Inserted? || s.accepts[a].stage.AlreadyMember?)
    requires Committed(s, a, s.accepts[a]).Some?
    ensures Inv(Committed(s, a, s.accepts[a]).value)
  {
    CommitKeepsInvitations(s, a);
    CommitKeepsUsers(s, a);
    var s' := Committed(s, a, s.accepts[a]).value;
    forall o | o in s'.accepts ensures AcceptOk(s', s'.accepts[o]) {
      CommitKeepsAccept(s, a, o);
    }
    forall b, c | b in s'.accepts && c in s'.accepts && b != c ensures !Conflict(s'.accepts[b], s'.accepts[c]) {
      assert !Conflict(s.accepts[b], s.accepts[c]);
    }
  }

  lemma JoinKeepsInv(s: State, a: nat)
    requires Inv(s) && a in s.accepts && (s.accepts[a].stage.Consumed? || s.accepts[a].stage.Conflicted?) && NextOf(s, a).Some?
    ensures Inv(NextOf(s, a).value)
  {
    var s' := NextOf(s, a).value;
    assert AcceptOk(s, s.accepts[a]);
    if a in s'.accepts {
      QuietMove(s, a, s'.accepts[a]);
    } else {
      GoneKeepsInv(s, a);
    }
  }

  lemma FoundKeepsInv(s: State, a: nat)
    requires Inv(s) && a in s.accepts && s.accepts[a].stage.Found? && NextOf(s, a).Some?
    ensures Inv(NextOf(s, a).value)
  {
    var s' := NextOf(s, a).value;
    assert AcceptOk(s, s.accepts[a]);
    if a in s'.accepts {
      QuietMove(s, a, s'.accepts[a]);
    } else {
      GoneKeepsInv(s, a);
    }
  }

  lemma NextKeepsInv(s: State, a: nat)
    requires Inv(s) && a in s.accepts && NextOf(s, a).Some?
    ensures Inv(NextOf(s, a).value)
  {
    match s.accepts[a].stage
    case Asked => ReadKeepsInv(s, a);
    case Found => FoundKeepsInv(s, a);
    case Started => InsertUserKeepsInv(s, a);
    case Bound => ConsumeKeepsInv(s, a);
    case Consumed(_) => JoinKeepsInv(s, a);
    case Conflicted(_) => JoinKeepsInv(s, a);
    case Inserted(_) => CommitKeepsInv(s, a);
    case AlreadyMember(_) => CommitKeepsInv(s, a);
  }

  // ---------------------------------------------------------------- inviting keeps it

  lemma InsertKeepsInv(s: State, d: nat)
    requires Inv(s) && d in s.drafts && Inserting(s, d).Some?
    ensures Inv(Inserting(s, d).value)
  {
    var x := s.drafts[d];
    var s' := Inserting(s, d).value;
    assert forall e | e in s'.drafts :: e in s.drafts && s'.drafts[e] == s.drafts[e];
    if PendingFor(s, x.ws, x.email) {
      OutsideKeepsInv(s, s');
    } else {
      var id := s.nextInvitation;
      assert forall i | i in s.invitations :: InvitationOk(s, i, s.invitations[i]);
      forall j | j in s.invitations && j != id ensures !Clash(s'.invitations[id], s.invitations[j]) {
        assert !(s.invitations[j].status == Pending && s.invitations[j].ws == x.ws && s.invitations[j].email == x.email);
      }
      assert !InvitationBusy(s, None, id) by {
        forall o | o in s.accepts ensures !HoldsInvitation(s.accepts[o], id) {
          assert AcceptOk(s, s.accepts[o]);
        }
      }
      RewriteKeepsInv(s, s', id);
    }
  }

  predicate IsUpdate(e: Event) {
    e.Resend? || e.Revoke? || e.Report?
  }

  lemma UpdateRewrites(s: State, e: Event)
    requires IsUpdate(e) && Apply(s, e).Some? && Apply(s, e).value != s && e.id in s.invitations && InvitationOk(s, e.id, s.invitations[e.id])
    ensures var s' := Apply(s, e).value;
            Rewritten(s, s', e.id) && InvitationOk(s', e.id, s'.invitations[e.id]) && !InvitationBusy(s, None, e.id)
  {}

  lemma UpdateClashesNot(s: State, e: Event, j: nat)
    requires IsUpdate(e) && Apply(s, e).Some? && e.id in s.invitations && j in s.invitations
    requires !Clash(s.invitations[e.id], s.invitations[j]) && s.invitations[j].token < s.nextToken
    ensures e.id in Apply(s, e).value.invitations && !Clash(Apply(s, e).value.invitations[e.id], s.invitations[j])
  {}

  lemma UpdateKeepsInv(s: State, e: Event)
    requires Inv(s) && IsUpdate(e) && Apply(s, e).Some?
    ensures Inv(Apply(s, e).value)
  {
    var s' := Apply(s, e).value;
    if s' != s {
      assert InvitationOk(s, e.id, s.invitations[e.id]);
      UpdateRewrites(s, e);
      forall j | j in s.invitations && j != e.id ensures !Clash(s'.invitations[e.id], s.invitations[j]) {
        assert InvitationOk(s, j, s.invitations[j]);
        UpdateClashesNot(s, e, j);
      }
      RewriteKeepsInv(s, s', e.id);
    }
  }

  lemma BeginKeepsInv(s: State, e: Event)
    requires Inv(s) && (e.AcceptExisting? || e.AcceptSignup?)
    ensures Inv(Apply(s, e).value)
  {
    MoveKeepsInv(s, Apply(s, e).value, s.nextAccept);
  }

  lemma ApplyKeepsInv(s: State, e: Event)
    requires Inv(s) && Apply(s, e).Some?
    ensures Inv(Apply(s, e).value)
  {
    if e.Next? {
      NextKeepsInv(s, e.a);
    } else if e.Abort? {
      GoneKeepsInv(s, e.a);
    } else if e.InsertInvitation? {
      InsertKeepsInv(s, e.d);
    } else if e.Resend? || e.Revoke? || e.Report? {
      UpdateKeepsInv(s, e);
    } else if e.AcceptExisting? || e.AcceptSignup? {
      BeginKeepsInv(s, e);
    } else {
      OutsideEvent(s, e);
    }
  }

  lemma OutsideEvent(s: State, e: Event)
    requires Inv(s) && (e.Tick? || e.Register? || e.ChangeRole? || e.RemoveMember? || e.Invite?) && Apply(s, e).Some?
    ensures Inv(Apply(s, e).value)
  {
    if e.Register? {
      NewUserIsFree(s);
    }
    OutsideKeepsInv(s, Apply(s, e).value);
  }

  /** No acceptance is joining as a user not yet drawn. */
  lemma NewUserIsFree(s: State)
    requires UsersOk(s) && AcceptsOk(s)
    ensures s.nextUser !in s.users && forall ws: nat :: !MemberBusy(s, None, (ws, s.nextUser))
  {
    assert s.nextUser !in s.users by {
      assert forall u | u in s.users :: UserOk(s, u, s.users[u]);
    }
    forall ws: nat, o | o in s.accepts ensures !HoldsMembership(s, s.accepts[o], (ws, s.nextUser)) {
      assert AcceptOk(s, s.accepts[o]);
    }
  }

  lemma RunKeepsInv(s: State, es: seq<Event>)
    requires Inv(s) && Exec(s, es).Some?
    ensures Inv(Exec(s, es).value)
  {
    forall t, e | Inv(t) && Apply(t, e).Some? ensures Inv(Apply(t, e).value) {
      ApplyKeepsInv(t, e);
    }
    RunKeeps(Apply, t => Inv(t), s, es);
  }

  ghost predicate Reachable(s: State) {
    exists now, es :: Exec(Init(now), es) == Some(s)
  }

  lemma ReachableInv(s: State)
    requires Reachable(s)
    ensures Inv(s)
  {
    var now, es :| Exec(Init(now), es) == Some(s);
    RunKeepsInv(Init(now), es);
  }
}
