/** What an acceptance comes to: each check refuses exactly what it is there to refuse, and an
    acceptance that can go through does, for an existing account and for a sign-up. */
module InvitationOutcomes {
  import opened Common
  import opened Runs
  import M = Membership
  import opened Invitations
  import opened InvitationGuarantees

  // ---------------------------------------------------------------- when an acceptance is refused

  predicate InTime(s: State, token: nat, id: nat, at: int) {
    Opens(s, token, id) && s.invitations[id].status == Pending && at < s.invitations[id].expiresAt
  }

  predicate HasAccount(s: State, email: string) {
    exists u | u in s.users :: s.users[u].email == email
  }

  /** On the tables as they stand: no invitation opens with the token; or, for a sign-up looking
      ahead, none that is pending, in time and for an address without an account. The account is
      not the invited one's; the address has been taken; the invitation is gone, settled or had
      expired when the transaction began; the membership that was there has gone. */
  predicate Refused(s: State, x: Accept) {
    match x.stage
    case Asked =>
      if x.signup then
        forall i | i in s.invitations :: InTime(s, x.token, i, s.now) ==> HasAccount(s, s.invitations[i].email)
      else forall i | i in s.invitations :: !Opens(s, x.token, i)
    case Found => !x.signup && !(x.user in s.users && s.users[x.user].email == x.email)
    case Started => HasAccount(s, x.email)
    case Bound => forall i | i in s.invitations :: !InTime(s, x.token, i, x.started)
    case Conflicted(id) => !(id in s.invitations && (s.invitations[id].ws, x.user) in s.members)
    case _ => false
  }

  lemma {:induction false} LookupFinds(s: State, token: nat, n: nat, id: nat)
    requires id < n && Opens(s, token, id)
    requires forall j | j in s.invitations && s.invitations[j].token == token :: j == id
    ensures Lookup(s, token, n) == Some(id)
  {
    if id + 1 < n {
      LookupFinds(s, token, n - 1, id);
    }
  }

  /** A token opens one invitation at most, and the lookup finds it. */
  lemma LookupIsExact(s: State, token: nat)
    requires InvitationsOk(s)
    ensures forall i | i in s.invitations :: Opens(s, token, i) ==> Lookup(s, token, s.nextInvitation) == Some(i)
  {
    forall i | i in s.invitations && Opens(s, token, i) ensures Lookup(s, token, s.nextInvitation) == Some(i) {
      assert InvitationOk(s, i, s.invitations[i]);
      forall j | j in s.invitations && s.invitations[j].token == token ensures j == i {
        assert i != j ==> !Clash(s.invitations[i], s.invitations[j]);
      }
      LookupFinds(s, token, s.nextInvitation, i);
    }
  }

  lemma ReadIsExact(s: State, a: nat, x: Accept)
    requires x.stage.Asked?
    requires forall i | i in s.invitations :: Opens(s, x.token, i) ==> Lookup(s, x.token, s.nextInvitation) == Some(i)
    ensures a !in NextRead(s, a, x).accepts <==> Refused(s, x)
  {}

  lemma ConsumeIsExact(s: State, a: nat, x: Accept)
    requires x.stage.Bound? && NextConsume(s, a, x).Some?
    requires forall i | i in s.invitations :: Opens(s, x.token, i) ==> Lookup(s, x.token, s.nextInvitation) == Some(i)
    ensures a !in NextConsume(s, a, x).value.accepts <==> Refused(s, x)
  {}

  lemma OthersAreExact(s: State, a: nat, s': State)
    requires a in s.accepts && !Commits(s.accepts[a]) && !s.accepts[a].stage.Asked? && !s.accepts[a].stage.Bound?
    requires NextOf(s, a) == Some(s')
    ensures a !in s'.accepts <==> Refused(s, s.accepts[a])
  {}

  /** Whatever runs beside it, an acceptance that has not reached its commit is ended by its own
      next statement exactly where that refuses it. */
  lemma ChecksAreExact(s: State, a: nat, s': State)
    requires Reachable(s) && a in s.accepts && !Commits(s.accepts[a]) && NextOf(s, a) == Some(s')
    ensures a !in s'.accepts <==> Refused(s, s.accepts[a])
  {
    ReachableInv(s);
    var x := s.accepts[a];
    LookupIsExact(s, x.token);
    if x.stage.Asked? {
      ReadIsExact(s, a, x);
    } else if x.stage.Bound? {
      ConsumeIsExact(s, a, x);
    } else {
      OthersAreExact(s, a, s');
    }
  }

  // ---------------------------------------------------------------- an acceptance on its own

  function Nexts(a: nat, n: nat): seq<Event> {
    seq(n, _ => Next(a))
  }

  /** The request `e`, and then some number of its acceptance's own statements. */
  ghost predicate Alone(s: State, e: Event, t: State) {
    Apply(s, e).Some? && exists n: nat :: Exec(Apply(s, e).value, Nexts(s.nextAccept, n)) == Some(t)
  }

  lemma AloneAtOnce(s: State, e: Event)
    requires Apply(s, e).Some?
    ensures Alone(s, e, Apply(s, e).value)
  {
    assert Exec(Apply(s, e).value, Nexts(s.nextAccept, 0)) == Some(Apply(s, e).value);
  }

  lemma AloneThen(s: State, e: Event, t: State, u: State)
    requires Alone(s, e, t) && Apply(t, Next(s.nextAccept)) == Some(u)
    ensures Alone(s, e, u)
  {
    var begun := Apply(s, e).value;
    var n: nat :| Exec(begun, Nexts(s.nextAccept, n)) == Some(t);
    RunSnoc(Apply, begun, Nexts(s.nextAccept, n), Next(s.nextAccept));
    assert Nexts(s.nextAccept, n + 1) == Nexts(s.nextAccept, n) + [Next(s.nextAccept)];
  }

  /** Beside everything else in `s`, the acceptance `x` that came last; it has drawn `drawn` users. */
  function Beside(s: State, x: Accept, drawn: nat): State {
    s.(accepts := s.accepts[s.nextAccept := x], nextAccept := s.nextAccept + 1, nextUser := s.nextUser + drawn)
  }

  lemma BesideLooksUp(s: State, x: Accept, drawn: nat)
    requires InvitationsOk(s)
    ensures forall i | i in s.invitations && Opens(s, x.token, i) ::
              Lookup(Beside(s, x, drawn), x.token, s.nextInvitation) == Some(i)
  {
    LookupIsExact(s, x.token);
    SameLookup(s, Beside(s, x, drawn), x.token, s.nextInvitation);
  }

  lemma NewIsLast(s: State)
    requires Reachable(s)
    ensures s.nextAccept !in s.accepts
  {
    ReachableInv(s);
  }

  /** One statement that only moves it on. */
  lemma StandThen(s: State, e: Event, x: Accept, drawn: nat, stage: Stage)
    requires Alone(s, e, Beside(s, x, drawn))
    requires Apply(Beside(s, x, drawn), Next(s.nextAccept)) == Some(At(Beside(s, x, drawn), s.nextAccept, x.(stage := stage)))
    ensures Alone(s, e, Beside(s, x.(stage := stage), drawn))
  {
    assert At(Beside(s, x, drawn), s.nextAccept, x.(stage := stage)) == Beside(s, x.(stage := stage), drawn);
    AloneThen(s, e, Beside(s, x, drawn), Beside(s, x.(stage := stage), drawn));
  }

  /** It reads the invitation. */
  lemma Finds(s: State, e: Event, x: Accept, id: nat)
    requires Reachable(s) && Apply(s, e) == Some(Beside(s, x, 0)) && x.stage == Asked && Opens(s, x.token, id)
    requires x.signup ==> InTime(s, x.token, id, s.now) && !HasAccount(s, s.invitations[id].email)
    ensures Alone(s, e, Beside(s, x.(stage := Found, email := s.invitations[id].email), 0))
  {
    ReachableInv(s);
    AloneAtOnce(s, e);
    BesideLooksUp(s, x, 0);
    ReadFinds(s, x, id);
    AloneThen(s, e, Beside(s, x, 0), Beside(s, x.(stage := Found, email := s.invitations[id].email), 0));
  }

  lemma ReadFinds(s: State, x: Accept, id: nat)
    requires x.stage == Asked && Opens(s, x.token, id) && Lookup(Beside(s, x, 0), x.token, s.nextInvitation) == Some(id)
    requires x.signup ==> InTime(s, x.token, id, s.now) && !HasAccount(s, s.invitations[id].email)
    ensures NextOf(Beside(s, x, 0), s.nextAccept) == Some(Beside(s, x.(stage := Found, email := s.invitations[id].email), 0))
  {
    var found := x.(stage := Found, email := s.invitations[id].email);
    assert At(Beside(s, x, 0), s.nextAccept, found) == Beside(s, found, 0);
  }

  /** A sign-up with a link that opens nothing pending, in time and for a new address is over at
      once: the account is not made, and no table changes. */
  lemma SignupRefused(s: State, token: nat)
    requires Reachable(s)
    requires forall i | i in s.invitations && s.invitations[i].token == token ::
               s.invitations[i].status != Pending || s.invitations[i].expiresAt <= s.now || HasAccount(s, s.invitations[i].email)
    ensures Alone(s, AcceptSignup(token), s.(nextAccept := s.nextAccept + 1))
  {
    ReachableInv(s);
    NewIsLast(s);
    var x := Accept(true, token, 0, "", s.now, Asked);
    var asked := Beside(s, x, 0);
    assert Apply(s, AcceptSignup(token)) == Some(asked);
    AloneAtOnce(s, AcceptSignup(token));
    BesideLooksUp(s, x, 0);
    assert Gone(asked, s.nextAccept) == s.(nextAccept := s.nextAccept + 1);
    AloneThen(s, AcceptSignup(token), asked, Gone(asked, s.nextAccept));
  }

  /** An invitation a sign-up can go through with: pending and in time, opened by this token,
      consumed by nobody, and its address neither registered nor being registered. */
  ghost predicate Welcomes(s: State, token: nat, id: nat) {
    && id in s.invitations && s.invitations[id].token == token
    && s.invitations[id].status == Pending && s.now < s.invitations[id].expiresAt
    && (forall o | o in s.accepts :: !HoldsInvitation(s.accepts[o], id))
    && (forall u | u in s.users :: s.users[u].email != s.invitations[id].email)
    && (forall o | o in s.accepts :: !HoldsEmail(s.accepts[o], s.invitations[id].email))
  }

  function Signup(s: State, token: nat, id: nat, stage: Stage): Accept
    requires id in s.invitations
  {
    Accept(true, token, 0, s.invitations[id].email, s.now, stage)
  }

  /** The new account, the accepted invitation and the membership with the invited role. */
  function AfterSignup(s: State, id: nat): State
    requires id in s.invitations
  {
    var i, u := s.invitations[id], s.nextUser;
    s.(nextAccept := s.nextAccept + 1, nextUser := u + 1,
       users := s.users[u := User(i.email, Some(id))],
       members := s.members[(i.ws, u) := i.role],
       invitations := s.invitations[id := i.(status := Accepted, acceptedBy := Some(u), acceptedAt := s.now, accepts := i.accepts + 1)])
  }

  /** It reads the invitation ahead and starts its transaction. */
  lemma SignupStarts(s: State, token: nat, id: nat)
    requires Reachable(s) && Welcomes(s, token, id)
    ensures Alone(s, AcceptSignup(token), Beside(s, Signup(s, token, id, Started), 0))
  {
    NewIsLast(s);
    var e, x := AcceptSignup(token), Accept(true, token, 0, "", s.now, Asked);
    var found := Signup(s, token, id, Found);
    Finds(s, e, x, id);
    StandThen(s, e, found, 0, Started);
  }

  /** It inserts the user. */
  lemma SignupInserts(s: State, token: nat, id: nat)
    requires Reachable(s) && Welcomes(s, token, id)
    ensures Alone(s, AcceptSignup(token), Beside(s, Signup(s, token, id, Bound).(user := s.nextUser), 1))
  {
    NewIsLast(s);
    SignupStarts(s, token, id);
    var x := Signup(s, token, id, Started);
    var t, u := Beside(s, x, 0), Beside(s, Signup(s, token, id, Bound).(user := s.nextUser), 1);
    assert forall o | o in s.accepts :: t.accepts[o] == s.accepts[o];
    assert !EmailBusy(t, x.email);
    assert t.accepts[s.nextAccept := u.accepts[s.nextAccept]] == u.accepts;
    AloneThen(s, AcceptSignup(token), t, u);
  }

  /** It consumes the invitation. */
  lemma SignupConsumes(s: State, token: nat, id: nat)
    requires Reachable(s) && Welcomes(s, token, id)
    ensures Alone(s, AcceptSignup(token), Beside(s, Signup(s, token, id, Consumed(id)).(user := s.nextUser), 1))
  {
    ReachableInv(s);
    SignupInserts(s, token, id);
    var x := Signup(s, token, id, Bound).(user := s.nextUser);
    BesideLooksUp(s, x, 1);
    assert !InvitationBusy(Beside(s, x, 1), Some(s.nextAccept), id);
    StandThen(s, AcceptSignup(token), x, 1, Consumed(id));
  }

  /** The new user is nobody's member yet, and nobody else is about to make it one. */
  lemma SignupAdds(s: State, token: nat, id: nat)
    requires Reachable(s) && Welcomes(s, token, id)
    ensures Alone(s, AcceptSignup(token), Beside(s, Signup(s, token, id, Inserted(id)).(user := s.nextUser), 1))
  {
    ReachableInv(s);
    NewIsLast(s);
    SignupConsumes(s, token, id);
    NewUserIsFree(s);
    var x := Signup(s, token, id, Consumed(id)).(user := s.nextUser);
    StillFree(s, x, 1, (s.invitations[id].ws, s.nextUser));
    StandThen(s, AcceptSignup(token), x, 1, Inserted(id));
  }

  lemma StillFree(s: State, x: Accept, drawn: nat, k: Member)
    requires s.nextAccept !in s.accepts && !MemberBusy(s, None, k)
    ensures !MemberBusy(Beside(s, x, drawn), Some(s.nextAccept), k)
  {
    assert forall o | o in s.accepts :: HoldsMembership(Beside(s, x, drawn), s.accepts[o], k) == HoldsMembership(s, s.accepts[o], k);
  }

  /** In every state, whatever else is going on, a sign-up with a link that welcomes it goes through:
      the account exists with the invited address, it is a member with the invited role, and the
      invitation is accepted by it. */
  lemma SignupJoins(s: State, token: nat, id: nat)
    requires Reachable(s) && Welcomes(s, token, id)
    ensures Alone(s, AcceptSignup(token), AfterSignup(s, id))
  {
    NewIsLast(s);
    SignupAdds(s, token, id);
    var x := Signup(s, token, id, Inserted(id)).(user := s.nextUser);
    assert Gone(Beside(s, x, 1), s.nextAccept).accepts == s.accepts;
    AloneThen(s, AcceptSignup(token), Beside(s, x, 1), AfterSignup(s, id));
  }

  lemma Then(s: State, es: seq<Event>, t: State, e: Event, u: State)
    requires Exec(s, es) == Some(t) && Apply(t, e) == Some(u)
    ensures Exec(s, es + [e]) == Some(u)
  {
    RunSnoc(Apply, s, es, e);
  }

  function LateSignup(s: State, token: nat, id: nat, to: int, stage: Stage): State
    requires id in s.invitations
  {
    var x := Accept(true, token, if stage == Bound then s.nextUser else 0, s.invitations[id].email, if stage == Found then s.now else to, stage);
    Beside(s.(now := if stage == Found then s.now else to), x, if stage == Bound then 1 else 0)
  }

  lemma LateSignupReads(s: State, token: nat, id: nat)
    requires Reachable(s) && Welcomes(s, token, id)
    ensures Exec(s, [AcceptSignup(token), Next(s.nextAccept)]) == Some(LateSignup(s, token, id, s.now, Found))
  {
    ReachableInv(s);
    var x := Accept(true, token, 0, "", s.now, Asked);
    BesideLooksUp(s, x, 0);
    ReadFinds(s, x, id);
    assert Exec(s, []) == Some(s);
    Then(s, [], s, AcceptSignup(token), Beside(s, x, 0));
    Then(s, [] + [AcceptSignup(token)], Beside(s, x, 0), Next(s.nextAccept), LateSignup(s, token, id, s.now, Found));
    assert [] + [AcceptSignup(token)] + [Next(s.nextAccept)] == [AcceptSignup(token), Next(s.nextAccept)];
  }

  lemma LateSignupInserts(s: State, token: nat, id: nat, to: int)
    requires Welcomes(s, token, id) && s.nextAccept !in s.accepts && s.now <= to
    ensures var t, a := LateSignup(s, token, id, s.now, Found).(now := to), s.nextAccept;
            && NextOf(t, a) == Some(LateSignup(s, token, id, to, Started))
            && NextOf(LateSignup(s, token, id, to, Started), a) == Some(LateSignup(s, token, id, to, Bound))
  {
    var t, a := LateSignup(s, token, id, s.now, Found).(now := to), s.nextAccept;
    var started, bound := LateSignup(s, token, id, to, Started), LateSignup(s, token, id, to, Bound);
    assert t.accepts[a := started.accepts[a]] == started.accepts && started.accepts[a := bound.accepts[a]] == bound.accepts;
    assert forall o | o in s.accepts :: started.accepts[o] == s.accepts[o];
    assert !EmailBusy(started, s.invitations[id].email);
  }

  lemma LateSignupFails(s: State, token: nat, id: nat, to: int)
    requires Inv(s) && Welcomes(s, token, id) && s.nextAccept !in s.accepts && s.invitations[id].expiresAt <= to
    ensures NextOf(LateSignup(s, token, id, to, Bound), s.nextAccept)
         == Some(s.(now := to, nextAccept := s.nextAccept + 1, nextUser := s.nextUser + 1))
  {
    var a, bound := s.nextAccept, LateSignup(s, token, id, to, Bound);
    assert forall o | o in s.accepts :: bound.accepts[o] == s.accepts[o];
    assert !InvitationBusy(bound, Some(a), id);
    LookupIsExact(s, token);
    SameLookup(s, bound, token, s.nextInvitation);
    assert bound.accepts - {a} == s.accepts;
  }

  /** A sign-up whose invitation expires between its first read and its transaction is refused by the
      transaction, and the account it had inserted is gone with it. */
  lemma SignupTooLate(s: State, token: nat, id: nat, to: int)
    requires Reachable(s) && Welcomes(s, token, id) && s.now <= to && s.invitations[id].expiresAt <= to
    ensures var next := Next(s.nextAccept);
            Exec(s, [AcceptSignup(token), next, Tick(to), next, next, next])
            == Some(s.(now := to, nextAccept := s.nextAccept + 1, nextUser := s.nextUser + 1))
  {
    ReachableInv(s);
    NewIsLast(s);
    LateSignupReads(s, token, id);
    LateSignupInserts(s, token, id, to);
    LateSignupFails(s, token, id, to);
    var next, es := Next(s.nextAccept), [AcceptSignup(token), Next(s.nextAccept)];
    var found := LateSignup(s, token, id, s.now, Found);
    Then(s, es, found, Tick(to), found.(now := to));
    Then(s, es + [Tick(to)], found.(now := to), next, LateSignup(s, token, id, to, Started));
    Then(s, es + [Tick(to)] + [next], LateSignup(s, token, id, to, Started), next, LateSignup(s, token, id, to, Bound));
    Then(s, es + [Tick(to)] + [next] + [next], LateSignup(s, token, id, to, Bound), next,
         s.(now := to, nextAccept := s.nextAccept + 1, nextUser := s.nextUser + 1));
    assert es + [Tick(to)] + [next] + [next] + [next] == [AcceptSignup(token), next, Tick(to), next, next, next];
  }

  // ---------------------------------------------------------------- with an account

  /** An invitation the account can accept: pending and in time, opened by this token, for its own
      address, consumed by nobody, and its membership not being inserted by another acceptance. */
  ghost predicate Admits(s: State, token: nat, id: nat, u: nat) {
    && id in s.invitations && s.invitations[id].token == token
    && s.invitations[id].status == Pending && s.now < s.invitations[id].expiresAt
    && u in s.users && s.users[u].email == s.invitations[id].email
    && (forall o | o in s.accepts :: !HoldsInvitation(s.accepts[o], id))
    && (forall o | o in s.accepts :: !HoldsMembership(s, s.accepts[o], (s.invitations[id].ws, u)))
  }

  function Holder(s: State, token: nat, id: nat, u: nat, stage: Stage): Accept
    requires id in s.invitations
  {
    Accept(false, token, u, s.invitations[id].email, s.now, stage)
  }

  /** The accepted invitation, and the membership with the invited role if there was none. */
  function AfterExisting(s: State, id: nat, u: nat): State
    requires id in s.invitations
  {
    var i := s.invitations[id];
    s.(nextAccept := s.nextAccept + 1,
       members := if (i.ws, u) in s.members then s.members else s.members[(i.ws, u) := i.role],
       invitations := s.invitations[id := i.(status := Accepted, acceptedBy := Some(u), acceptedAt := s.now, accepts := i.accepts + 1)])
  }

  lemma ExistingBinds(s: State, token: nat, id: nat, u: nat)
    requires Reachable(s) && Admits(s, token, id, u)
    ensures Alone(s, AcceptExisting(token, u), Beside(s, Holder(s, token, id, u, Bound), 0))
  {
    NewIsLast(s);
    var e, x := AcceptExisting(token, u), Accept(false, token, u, "", s.now, Asked);
    var found := Holder(s, token, id, u, Found);
    Finds(s, e, x, id);
    StandThen(s, e, found, 0, Bound);
  }

  lemma ExistingConsumes(s: State, token: nat, id: nat, u: nat)
    requires Reachable(s) && Admits(s, token, id, u)
    ensures Alone(s, AcceptExisting(token, u), Beside(s, Holder(s, token, id, u, Consumed(id)), 0))
  {
    ReachableInv(s);
    ExistingBinds(s, token, id, u);
    var x := Holder(s, token, id, u, Bound);
    BesideLooksUp(s, x, 0);
    assert !InvitationBusy(Beside(s, x, 0), Some(s.nextAccept), id);
    StandThen(s, AcceptExisting(token, u), x, 0, Consumed(id));
  }

  /** In every state an account whose address was invited can accept: it ends a member, with the
      invited role unless it was a member before, whose role then stays. */
  lemma ExistingJoins(s: State, token: nat, id: nat, u: nat)
    requires Reachable(s) && Admits(s, token, id, u)
    ensures Alone(s, AcceptExisting(token, u), AfterExisting(s, id, u))
  {
    NewIsLast(s);
    ExistingConsumes(s, token, id, u);
    var k := (s.invitations[id].ws, u);
    var e, x := AcceptExisting(token, u), Holder(s, token, id, u, Consumed(id));
    StillFree(s, x, 0, k);
    if k in s.members {
      StandThen(s, e, x, 0, Conflicted(id));
      StandThen(s, e, x.(stage := Conflicted(id)), 0, AlreadyMember(id));
      ExistingCommits(s, token, id, u, AlreadyMember(id));
    } else {
      StandThen(s, e, x, 0, Inserted(id));
      ExistingCommits(s, token, id, u, Inserted(id));
    }
  }

  lemma ExistingCommits(s: State, token: nat, id: nat, u: nat, stage: Stage)
    requires s.nextAccept !in s.accepts && id in s.invitations && Alone(s, AcceptExisting(token, u), Beside(s, Holder(s, token, id, u, stage), 0))
    requires stage == if (s.invitations[id].ws, u) in s.members then AlreadyMember(id) else Inserted(id)
    ensures Alone(s, AcceptExisting(token, u), AfterExisting(s, id, u))
  {
    var t := Beside(s, Holder(s, token, id, u, stage), 0);
    assert Gone(t, s.nextAccept).accepts == s.accepts;
    AloneThen(s, AcceptExisting(token, u), t, AfterExisting(s, id, u));
  }

  // ---------------------------------------------------------------- the inviter's side

  /** Nobody hands out more than they hold. */
  predicate WithinCeiling(inviter: Role, role: Role) {
    inviter == M.Owner || role == M.Viewer || (inviter == M.Agent && role == M.Agent)
  }

  ghost predicate DraftsNumbered(s: State) {
    forall d | d in s.drafts :: d < s.nextDraft
  }

  lemma NextKeepsDrafts(s: State, a: nat)
    requires a in s.accepts && NextOf(s, a).Some?
    ensures NextOf(s, a).value.drafts == s.drafts && NextOf(s, a).value.nextDraft == s.nextDraft
  {}

  lemma StepKeepsDrafts(s: State, e: Event)
    requires DraftsNumbered(s) && Apply(s, e).Some?
    ensures DraftsNumbered(Apply(s, e).value)
  {
    if e.Next? {
      NextKeepsDrafts(s, e.a);
    }
  }

  lemma ReachableDrafts(s: State)
    requires Reachable(s)
    ensures DraftsNumbered(s)
  {
    var now, es :| Exec(Init(now), es) == Some(s);
    forall t, e | DraftsNumbered(t) && Apply(t, e).Some? ensures DraftsNumbered(Apply(t, e).value) {
      StepKeepsDrafts(t, e);
    }
    RunKeeps(Apply, t => DraftsNumbered(t), Init(now), es);
  }

  predicate MemberAt(s: State, ws: nat, email: string) {
    exists u: nat :: (ws, u) in s.members && u in s.users && s.users[u].email == email
  }

  lemma MemberEmailIs(s: State, ws: nat, email: string)
    ensures MemberEmail(s, ws, email) <==> MemberAt(s, ws, email)
  {
    if k :| k in s.members && k.0 == ws && k.1 in s.users && s.users[k.1].email == email {
      assert k == (ws, k.1);
    }
  }

  /** What becomes of a request to invite: past its checks, and then inserted. */
  function Invited(s: State, ws: nat, inviter: Role, email: string, role: Role): Option<State> {
    var drafted := Apply(s, Invite(ws, inviter, email, role));
    if drafted.None? || drafted.value == s then drafted else Apply(drafted.value, InsertInvitation(s.nextDraft))
  }

  /** An invitation is made exactly if the role is not above the inviter's, the address is no
      member's, and none is pending for it there; it is open for seven days, and otherwise no table
      changes. The request waits only where an acceptance of the pending one is under way. */
  lemma InvitingIsExact(s: State, ws: nat, inviter: Role, email: string, role: Role)
    requires Reachable(s) && ws < s.nextWorkspace
    ensures var pending := exists i | i in s.invitations ::
                             s.invitations[i].status == Pending && s.invitations[i].ws == ws && s.invitations[i].email == email;
            var row := Invitation(ws, email, role, inviter, s.nextToken, Pending, s.now + 604_800, None, 0, 0, 1, Queued, None, None);
            var after := Invited(s, ws, inviter, email, role);
            if !WithinCeiling(inviter, role) || MemberAt(s, ws, email) then after == Some(s)
            else if pending then after.None? || after == Some(s.(nextDraft := s.nextDraft + 1))
            else after == Some(s.(nextDraft := s.nextDraft + 1, invitations := s.invitations[s.nextInvitation := row],
                                  nextInvitation := s.nextInvitation + 1, nextToken := s.nextToken + 1))
  {
    ReachableDrafts(s);
    InviteIsChecked(s, ws, inviter, email, role);
    DraftIsInserted(s, Draft(ws, email, role, inviter));
  }

  lemma InviteIsChecked(s: State, ws: nat, inviter: Role, email: string, role: Role)
    requires ws < s.nextWorkspace
    ensures Apply(s, Invite(ws, inviter, email, role))
         == Some(if !WithinCeiling(inviter, role) || MemberAt(s, ws, email) then s else Drafted(s, Draft(ws, email, role, inviter)))
    ensures Drafted(s, Draft(ws, email, role, inviter)) != s
  {
    MemberEmailIs(s, ws, email);
    assert Drafted(s, Draft(ws, email, role, inviter)).nextDraft != s.nextDraft;
  }

  function Drafted(s: State, draft: Draft): State {
    s.(drafts := s.drafts[s.nextDraft := draft], nextDraft := s.nextDraft + 1)
  }

  lemma DraftIsInserted(s: State, draft: Draft)
    requires s.nextDraft !in s.drafts
    ensures var after := Apply(Drafted(s, draft), InsertInvitation(s.nextDraft));
            if PendingFor(s, draft.ws, draft.email) then after.None? || after == Some(s.(nextDraft := s.nextDraft + 1))
            else after == Some(s.(nextDraft := s.nextDraft + 1,
                                  invitations := s.invitations[s.nextInvitation :=
                                    Invitation(draft.ws, draft.email, draft.role, draft.invitedAs, s.nextToken, Pending, s.now + 604_800,
                                               None, 0, 0, 1, Queued, None, None)],
                                  nextInvitation := s.nextInvitation + 1, nextToken := s.nextToken + 1))
  {
    assert s.drafts[s.nextDraft := draft] - {s.nextDraft} == s.drafts;
  }

  /** A resend of a pending invitation, expired or not, opens it again for seven days, with the
      token just issued and no other, and counts one email more, not sent yet. */
  lemma ResendReopens(s: State, ws: nat, inviter: Role, id: nat)
    requires Reachable(s) && id in s.invitations && s.invitations[id].ws == ws && s.invitations[id].status == Pending
    requires WithinCeiling(inviter, s.invitations[id].role) && forall o | o in s.accepts :: !HoldsInvitation(s.accepts[o], id)
    ensures var s', i := Apply(s, Resend(ws, inviter, id)), s.invitations[id];
            && s'.Some? && Open(s'.value, s.nextToken, id)
            && (forall j | j in s.invitations :: !Opens(s'.value, i.token, j))
            && s'.value.invitations == s.invitations[id := i.(token := s.nextToken, expiresAt := s.now + 604_800, sendCount := i.sendCount + 1,
                                                              emailStatus := Queued, sentAt := None, lastError := None)]
  {
    ReachableInv(s);
    assert InvitationOk(s, id, s.invitations[id]);
    forall i | i in s.invitations && i != id ensures s.invitations[i].token != s.invitations[id].token && s.invitations[i].token < s.nextToken {
      assert !Clash(s.invitations[i], s.invitations[id]) && InvitationOk(s, i, s.invitations[i]);
    }
  }

  /** A revoked invitation is closed for good: whatever comes after, nobody ever accepts it. */
  lemma RevokeCloses(s: State, ws: nat, inviter: Role, id: nat, es: seq<Event>)
    requires Reachable(s) && id in s.invitations && s.invitations[id].ws == ws && s.invitations[id].status == Pending
    requires WithinCeiling(inviter, s.invitations[id].role) && forall o | o in s.accepts :: !HoldsInvitation(s.accepts[o], id)
    ensures var s' := Apply(s, Revoke(ws, inviter, id));
            && s'.Some? && s'.value == s.(invitations := s.invitations[id := s.invitations[id].(status := Revoked)])
            && (Exec(s'.value, es).Some? ==>
                  var t := Exec(s'.value, es).value;
                  id in t.invitations && t.invitations[id].status == Revoked && t.invitations[id].acceptedBy.None?)
  {
    ReachableInv(s);
    assert InvitationOk(s, id, s.invitations[id]);
    var s' := Apply(s, Revoke(ws, inviter, id)).value;
    ApplyKeepsInv(s, Revoke(ws, inviter, id));
    if Exec(s', es).Some? {
      SettledIsFinal(s', es, id);
    }
  }

  /** A report on the email now out is written down: sent at this instant, failed for good with its
      error, or still queued with one. A report on an earlier email changes nothing. */
  lemma ReportsAreOnTheLastEmail(s: State, id: nat, token: nat, outcome: Delivery)
    requires Reachable(s) && id in s.invitations && forall o | o in s.accepts :: !HoldsInvitation(s.accepts[o], id)
    ensures var i, s' := s.invitations[id], Apply(s, Report(id, token, outcome));
            && s'.Some? && s'.value == s.(invitations := s'.value.invitations)
            && (forall j | j in s.invitations && j != id :: j in s'.value.invitations && s'.value.invitations[j] == s.invitations[j])
            && s'.value.invitations.Keys == s.invitations.Keys
            && var j := s'.value.invitations[id];
               if token != i.token then j == i
               else match outcome {
                 case WasSent => j == i.(emailStatus := Sent, sentAt := Some(s.now), lastError := None)
                 case WasFailed(error) => j == i.(emailStatus := Failed, lastError := Some(error))
                 case Retrying(error) => j == i.(lastError := Some(error))
               }
  {}
}
