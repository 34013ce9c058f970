/** What invitations guarantee over every run, and what "already a member" does not. */
module InvitationGuarantees {
  import opened Common
  import opened Runs
  import M = Membership
  import opened Invitations

  // ---------------------------------------------------------------- every committed state

  /** Single use, email binding and expiry: an invitation is accepted at most once, by the account
      of the invited address, in a transaction that began before it expired. */
  lemma AcceptedOnceByInvitee(s: State, id: nat)
    requires Reachable(s) && id in s.invitations
    ensures var i := s.invitations[id];
            && i.accepts == (if i.status == Accepted then 1 else 0)
            && (i.status == Accepted <==> i.acceptedBy.Some?)
            && (i.status == Accepted ==>
                  i.acceptedBy.value in s.users && s.users[i.acceptedBy.value].email == i.email && i.acceptedAt < i.expiresAt)
            && Rank(i.role) <= Rank(i.invitedAs)
  {
    ReachableInv(s);
    assert InvitationOk(s, id, s.invitations[id]);
  }

  /** The delivery columns are about one email: a queued one was not sent, a sent one has a time, a
      failed one an error. */
  lemma DeliveryIsConsistent(s: State, id: nat)
    requires Reachable(s) && id in s.invitations
    ensures var i := s.invitations[id];
            && (i.emailStatus == Queued ==> i.sentAt.None?)
            && (i.emailStatus == Sent ==> i.sentAt.Some?)
            && (i.emailStatus == Failed ==> i.lastError.Some?)
  {
    ReachableInv(s);
    assert InvitationOk(s, id, s.invitations[id]);
  }

  /** At most one invitation is pending per workspace and address, and a token opens at most one. */
  lemma OnePendingPerAddress(s: State, i: nat, j: nat)
    requires Reachable(s) && i in s.invitations && j in s.invitations
    ensures s.invitations[i].token == s.invitations[j].token ==> i == j
    ensures (s.invitations[i].status == Pending && s.invitations[j].status == Pending
             && s.invitations[i].ws == s.invitations[j].ws && s.invitations[i].email == s.invitations[j].email) ==> i == j
  {
    ReachableInv(s);
    assert i != j ==> !Clash(s.invitations[i], s.invitations[j]);
  }

  // ---------------------------------------------------------------- one acceptance

  predicate Commits(x: Accept) {
    x.stage.Inserted? || x.stage.AlreadyMember?
  }

  /** Until an acceptance commits, nothing it did shows: no account, no membership, no consumed
      invitation. */
  lemma OnlyCommitsWrite(s: State, a: nat)
    requires a in s.accepts && !Commits(s.accepts[a]) && NextOf(s, a).Some?
    ensures var s' := NextOf(s, a).value; s'.users == s.users && s'.members == s.members && s'.invitations == s.invitations
  {}

  /** A commit accepts a pending invitation for its address, keeps every membership and role that
      was there, and adds at most the acceptor with the invited role. */
  lemma CommitJoins(s: State, a: nat)
    requires Reachable(s) && a in s.accepts && Commits(s.accepts[a])
    ensures Apply(s, Next(a)).Some?
    ensures var s', x := Apply(s, Next(a)).value, s.accepts[a];
            var id := x.stage.invitation;
            && id in s.invitations && s.invitations[id].status == Pending && s.invitations[id].token == x.token
            && s'.invitations[id].status == Accepted && s'.invitations[id].acceptedBy == Some(x.user)
            && x.user in s'.users && s'.users[x.user].email == s.invitations[id].email
            && (x.user !in s.users <==> x.signup)
            && (forall k | k in s.members :: k in s'.members && s'.members[k] == s.members[k])
            && (x.stage.Inserted? ==> s'.members == s.members[(s.invitations[id].ws, x.user) := s.invitations[id].role]
                                      && (s.invitations[id].ws, x.user) !in s.members)
            && (x.stage.AlreadyMember? ==> s'.members == s.members)
  {
    ReachableInv(s);
    assert AcceptOk(s, s.accepts[a]);
  }

  /** User `u` was never registered, only drawn by a sign-up. */
  predicate DrawnBySignup(s: State, u: nat) {
    u < s.nextUser && (u in s.users ==> s.users[u].via.Some?)
  }

  lemma StepKeepsDrawn(s: State, e: Event, u: nat)
    requires Apply(s, e).Some? && DrawnBySignup(s, u)
    ensures DrawnBySignup(Apply(s, e).value, u)
  {
    if e.Next? {
      NextKeepsDrawn(s, e.a, u);
    }
  }

  lemma NextKeepsDrawn(s: State, a: nat, u: nat)
    requires a in s.accepts && NextOf(s, a).Some? && DrawnBySignup(s, u)
    ensures DrawnBySignup(NextOf(s, a).value, u)
  {
    if !Commits(s.accepts[a]) {
      OnlyCommitsWrite(s, a);
      NextUserGrows(s, a);
    }
  }

  lemma NextUserGrows(s: State, a: nat)
    requires a in s.accepts && NextOf(s, a).Some?
    ensures s.nextUser <= NextOf(s, a).value.nextUser
  {
    match s.accepts[a].stage
    case Started =>
    case _ =>
  }

  /** A failed sign-up leaves no account: from the moment a sign-up has inserted its user, at every
      later instant the account exists exactly if an invitation has been accepted by it, whatever
      became of the sign-up and of the invitation meanwhile. */
  lemma AccountIffAccepted(s: State, es: seq<Event>, a: nat)
    requires Reachable(s) && a in s.accepts && HoldsEmail(s.accepts[a], s.accepts[a].email) && Exec(s, es).Some?
    ensures var t, u := Exec(s, es).value, s.accepts[a].user;
            u in t.users <==> exists i :: i in t.invitations && t.invitations[i].acceptedBy == Some(u)
  {
    ReachableInv(s);
    RunKeepsInv(s, es);
    var t, u := Exec(s, es).value, s.accepts[a].user;
    assert AcceptOk(s, s.accepts[a]);
    forall v: State, e | DrawnBySignup(v, u) && Apply(v, e).Some? ensures DrawnBySignup(Apply(v, e).value, u) {
      StepKeepsDrawn(v, e, u);
    }
    RunKeeps(Apply, v => DrawnBySignup(v, u), s, es);
    if u in t.users {
      assert UserOk(t, u, t.users[u]);
    }
    if i: nat :| i in t.invitations && t.invitations[i].acceptedBy == Some(u) {
      assert InvitationOk(t, i, t.invitations[i]);
    }
  }

  // ---------------------------------------------------------------- final states

  /** What no later step changes: whom an invitation is for, and once it is settled also its token
      and its outcome. */
  predicate Settled(i: Invitation, j: Invitation) {
    && j.ws == i.ws && j.email == i.email && j.role == i.role && i.accepts <= j.accepts
    && (i.status != Pending ==>
          j.status == i.status && j.acceptedBy == i.acceptedBy && j.acceptedAt == i.acceptedAt
          && j.token == i.token && j.accepts == i.accepts && j.expiresAt == i.expiresAt && j.sendCount == i.sendCount)
  }

  lemma StepSettles(s: State, e: Event, id: nat)
    requires Inv(s) && Apply(s, e).Some? && id in s.invitations
    ensures id in Apply(s, e).value.invitations && Settled(s.invitations[id], Apply(s, e).value.invitations[id])
  {
    if e.Next? {
      NextSettles(s, e.a, id);
    } else if e.InsertInvitation? {
      assert InvitationOk(s, id, s.invitations[id]);
    } else if e.Resend? || e.Revoke? || e.Report? {
      UpdateSettles(s, e, id);
    } else {
      OutsideKeepsInvitations(s, e);
    }
  }

  lemma UpdateSettles(s: State, e: Event, id: nat)
    requires (e.Resend? || e.Revoke? || e.Report?) && Apply(s, e).Some? && id in s.invitations
    ensures id in Apply(s, e).value.invitations && Settled(s.invitations[id], Apply(s, e).value.invitations[id])
  {}

  lemma OutsideKeepsInvitations(s: State, e: Event)
    requires !e.Next? && !e.InsertInvitation? && !e.Resend? && !e.Revoke? && !e.Report? && Apply(s, e).Some?
    ensures Apply(s, e).value.invitations == s.invitations && Apply(s, e).value.nextToken == s.nextToken
  {}

  lemma NextSettles(s: State, a: nat, id: nat)
    requires Inv(s) && a in s.accepts && NextOf(s, a).Some? && id in s.invitations
    ensures id in NextOf(s, a).value.invitations && Settled(s.invitations[id], NextOf(s, a).value.invitations[id])
  {
    assert AcceptOk(s, s.accepts[a]);
    if Commits(s.accepts[a]) {
      CommitSettles(s, a, id);
    } else {
      OnlyCommitsWrite(s, a);
    }
  }

  lemma CommitSettles(s: State, a: nat, id: nat)
    requires a in s.accepts && Commits(s.accepts[a]) && AcceptOk(s, s.accepts[a]) && id in s.invitations
    requires Committed(s, a, s.accepts[a]).Some?
    ensures id in Committed(s, a, s.accepts[a]).value.invitations
    ensures Settled(s.invitations[id], Committed(s, a, s.accepts[a]).value.invitations[id])
  {}

  /** Accepted and revoked are final, whatever resends, revocations, acceptances and late reports
      follow. */
  lemma {:induction false} SettledIsFinal(s: State, es: seq<Event>, id: nat)
    requires Inv(s) && Exec(s, es).Some? && id in s.invitations
    ensures id in Exec(s, es).value.invitations && Settled(s.invitations[id], Exec(s, es).value.invitations[id])
    decreases |es|
  {
    if es != [] {
      var next := Apply(s, es[0]).value;
      StepSettles(s, es[0], id);
      ApplyKeepsInv(s, es[0]);
      SettledIsFinal(next, es[1..], id);
      assert Exec(s, es) == Exec(next, es[1..]);
    }
  }

  // ---------------------------------------------------------------- rotated tokens

  /** A token that has been issued and opens nothing. */
  ghost predicate Stale(s: State, token: nat) {
    token < s.nextToken && forall i | i in s.invitations :: !Opens(s, token, i)
  }

  lemma StepKeepsStale(s: State, e: Event, token: nat)
    requires Inv(s) && Apply(s, e).Some? && Stale(s, token)
    ensures Stale(Apply(s, e).value, token)
  {
    forall i | i in s.invitations ensures s.invitations[i].token != token {
      assert !Opens(s, token, i);
    }
    if e.Next? {
      NextKeepsTokens(s, e.a);
    } else if e.InsertInvitation? || e.Resend? || e.Revoke? || e.Report? {
      UpdateKeepsStale(s, e, token);
    } else {
      OutsideKeepsInvitations(s, e);
    }
  }

  lemma UpdateKeepsStale(s: State, e: Event, token: nat)
    requires (e.InsertInvitation? || e.Resend? || e.Revoke? || e.Report?) && Apply(s, e).Some?
    requires token < s.nextToken && forall i | i in s.invitations :: s.invitations[i].token != token
    ensures Stale(Apply(s, e).value, token)
  {}

  lemma NextKeepsTokens(s: State, a: nat)
    requires a in s.accepts && NextOf(s, a).Some?
    ensures var s' := NextOf(s, a).value;
            && s'.nextToken == s.nextToken && s'.invitations.Keys == s.invitations.Keys
            && forall i | i in s.invitations :: s'.invitations[i].token == s.invitations[i].token
  {
    if !Commits(s.accepts[a]) {
      OnlyCommitsWrite(s, a);
    }
  }

  lemma RunKeepsStale(s: State, es: seq<Event>, token: nat)
    requires Inv(s) && Exec(s, es).Some? && Stale(s, token)
    ensures Stale(Exec(s, es).value, token)
  {
    forall t, e | Inv(t) && Stale(t, token) && Apply(t, e).Some? ensures Inv(Apply(t, e).value) && Stale(Apply(t, e).value, token) {
      StepKeepsStale(t, e, token);
      ApplyKeepsInv(t, e);
    }
    RunKeeps(Apply, t => Inv(t) && Stale(t, token), s, es);
  }

  /** Resending a pending invitation retires its token for good: from then on no link with it is
      accepted and no report carrying it changes anything. */
  lemma ResendRetiresToken(s: State, es: seq<Event>, ws: nat, inviter: Role, id: nat)
    requires Reachable(s) && MayActOn(s, ws, inviter, id) && s.invitations[id].status == Pending
    requires Exec(s, [Resend(ws, inviter, id)] + es).Some?
    ensures var later, old_ := Exec(s, [Resend(ws, inviter, id)] + es).value, s.invitations[id].token;
            && Lookup(later, old_, later.nextInvitation).None?
            && forall i, outcome :: Apply(later, Report(i, old_, outcome)) == Some(later)
  {
    ReachableInv(s);
    var e := Resend(ws, inviter, id);
    var resent := Apply(s, e).value;
    assert ([e] + es)[0] == e && ([e] + es)[1..] == es;
    assert InvitationOk(s, id, s.invitations[id]);
    forall i | i in resent.invitations ensures !Opens(resent, s.invitations[id].token, i) {
      assert i != id ==> !Clash(s.invitations[i], s.invitations[id]);
    }
    ApplyKeepsInv(s, e);
    RunKeepsStale(resent, es, s.invitations[id].token);
  }

  // ---------------------------------------------------------------- already a member

  lemma NeverBack(s: State, es: seq<Event>, a: nat)
    requires a !in s.accepts && a < s.nextAccept && Exec(s, es).Some?
    ensures a !in Exec(s, es).value.accepts
  {
    forall t: State, e | a !in t.accepts && a < t.nextAccept && Apply(t, e).Some?
      ensures a !in Apply(t, e).value.accepts && a < Apply(t, e).value.nextAccept
    {
      NeverBackStep(t, e, a);
    }
    RunKeeps(Apply, (t: State) => a !in t.accepts && a < t.nextAccept, s, es);
  }

  lemma NeverBackStep(s: State, e: Event, a: nat)
    requires a !in s.accepts && a < s.nextAccept && Apply(s, e).Some?
    ensures a !in Apply(s, e).value.accepts && a < Apply(s, e).value.nextAccept
  {
    if e.Next? {
      NextTouchesOwn(s, e.a, a);
    }
  }

  lemma NextTouchesOwn(s: State, b: nat, a: nat)
    requires b in s.accepts && NextOf(s, b).Some? && a != b
    ensures var s' := NextOf(s, b).value;
            s'.nextAccept == s.nextAccept && (a in s'.accepts <==> a in s.accepts) && (a in s.accepts ==> s'.accepts[a] == s.accepts[a])
  {
    NextShape(s, b);
  }

  lemma NextShape(s: State, b: nat)
    requires b in s.accepts && NextOf(s, b).Some?
    ensures var s' := NextOf(s, b).value;
            && s'.nextAccept == s.nextAccept
            && (s'.accepts == s.accepts - {b} || (b in s'.accepts && s'.accepts == s.accepts[b := s'.accepts[b]]))
  {
    match s.accepts[b].stage
    case Asked =>
    case Bound =>
    case Consumed(_) =>
    case _ =>
  }

  /** An acceptance waiting to commit stays as it is until it commits or aborts. */
  lemma {:induction false} WaitsUnchanged(s: State, es: seq<Event>, a: nat)
    requires a in s.accepts && a < s.nextAccept && Commits(s.accepts[a]) && Exec(s, es).Some? && a in Exec(s, es).value.accepts
    ensures Exec(s, es).value.accepts[a] == s.accepts[a]
    decreases |es|
  {
    if es != [] {
      var next := Apply(s, es[0]).value;
      WaitsStep(s, es[0], a);
      if a in next.accepts {
        WaitsUnchanged(next, es[1..], a);
      } else {
        NeverBack(next, es[1..], a);
      }
    }
  }

  lemma WaitsStep(s: State, e: Event, a: nat)
    requires a in s.accepts && a < s.nextAccept && Commits(s.accepts[a]) && Apply(s, e).Some?
    ensures var s' := Apply(s, e).value; a < s'.nextAccept && (a in s'.accepts ==> s'.accepts[a] == s.accepts[a])
  {
    if e.Next? && e.a != a {
      NextTouchesOwn(s, e.a, a);
    }
  }

  predicate JoinedBy(s: State, a: nat) {
    && a in s.accepts && Commits(s.accepts[a]) && s.accepts[a].stage.invitation in s.invitations && Apply(s, Next(a)).Some?
    && (s.invitations[s.accepts[a].stage.invitation].ws, s.accepts[a].user) in Apply(s, Next(a)).value.members
  }

  /** However the run goes on, when this acceptance commits its acceptor is a member. */
  ghost predicate Guaranteed(s: State, a: nat) {
    forall es | Exec(s, es).Some? && a in Exec(s, es).value.accepts :: JoinedBy(Exec(s, es).value, a)
  }

  function Membership(s: State, a: nat): Member
    requires a in s.accepts && Commits(s.accepts[a]) && s.accepts[a].stage.invitation in s.invitations
  {
    (s.invitations[s.accepts[a].stage.invitation].ws, s.accepts[a].user)
  }

  lemma {:induction false} LongestOf(texts: set<string>) returns (n: nat)
    ensures forall t | t in texts :: |t| <= n
    decreases |texts|
  {
    n := 0;
    if texts != {} {
      var t :| t in texts;
      n := LongestOf(texts - {t});
      if n < |t| {
        n := |t|;
      }
    }
  }

  /** There is always an address nobody has, is signing up with, or is invited at. */
  lemma UnusedAddress(s: State) returns (email: string)
    ensures !KnownEmail(s.users, email) && !EmailBusy(s, email)
    ensures forall i | i in s.invitations :: s.invitations[i].email != email
  {
    var used := (set u | u in s.users :: s.users[u].email) + (set a | a in s.accepts :: s.accepts[a].email)
                + (set i | i in s.invitations :: s.invitations[i].email);
    var n := LongestOf(used);
    email := seq(n + 1, i => 'x');
    assert email !in used;
  }

  ghost predicate Reaches(s: State, t: State) {
    exists es :: Exec(s, es) == Some(t)
  }

  lemma GoOn(s: State, t: State, e: Event) returns (t': State)
    requires Reaches(s, t) && Apply(t, e).Some?
    ensures Reaches(s, t') && t' == Apply(t, e).value
  {
    var es :| Exec(s, es) == Some(t);
    RunSnoc(Apply, s, es, e);
    t' := Apply(t, e).value;
    assert Exec(s, es + [e]) == Some(t');
  }

  /** A pending invitation in time, which only this token opens and nobody is consuming. */
  ghost predicate Open(s: State, token: nat, id: nat) {
    && id < s.nextInvitation && Opens(s, token, id) && s.invitations[id].status == Pending && s.now < s.invitations[id].expiresAt
    && (forall j | j in s.invitations && s.invitations[j].token == token :: j == id)
    && forall o | o in s.accepts :: !HoldsInvitation(s.accepts[o], id)
  }

  lemma LookupIs(s: State, token: nat, id: nat)
    requires Open(s, token, id)
    ensures Lookup(s, token, s.nextInvitation) == Some(id)
  {}

  /** The invitee opens the link, and the account matches. */
  lemma Binds(from: State, s: State, token: nat, id: nat, u: nat) returns (s': State)
    requires Reaches(from, s) && Open(s, token, id) && u in s.users && s.users[u].email == s.invitations[id].email
    ensures Reaches(from, s')
    ensures s' == s.(accepts := s.accepts[s.nextAccept := Accept(false, token, u, s.invitations[id].email, s.now, Bound)],
                     nextAccept := s.nextAccept + 1)
  {
    var a, x := s.nextAccept, Accept(false, token, u, "", s.now, Asked);
    var asked := GoOn(from, s, AcceptExisting(token, u));
    assert asked == At(s, a, x).(nextAccept := a + 1);
    LookupIs(s, token, id);
    SameLookup(s, asked, token, s.nextInvitation);
    var found := GoOn(from, asked, Next(a));
    assert found == At(asked, a, x.(stage := Found, email := s.invitations[id].email));
    s' := GoOn(from, found, Next(a));
    assert s' == At(found, a, x.(stage := Bound, email := s.invitations[id].email));
  }

  lemma {:induction false} SameLookup(s: State, t: State, token: nat, n: nat)
    requires s.invitations == t.invitations
    ensures Lookup(s, token, n) == Lookup(t, token, n)
  {
    if n > 0 {
      SameLookup(s, t, token, n - 1);
    }
  }

  /** It consumes the invitation. */
  lemma Consumes(from: State, s: State, token: nat, id: nat, u: nat) returns (s': State)
    requires Reaches(from, s) && Open(s, token, id) && u in s.users && s.users[u].email == s.invitations[id].email
    ensures Reaches(from, s')
    ensures s' == s.(accepts := s.accepts[s.nextAccept := Accept(false, token, u, s.invitations[id].email, s.now, Consumed(id))],
                     nextAccept := s.nextAccept + 1)
  {
    var bound := Binds(from, s, token, id, u);
    LookupIs(s, token, id);
    SameLookup(s, bound, token, s.nextInvitation);
    s' := GoOn(from, bound, Next(s.nextAccept));
    assert s' == At(bound, s.nextAccept, bound.accepts[s.nextAccept].(stage := Consumed(id)));
  }

  /** One who is no member yet joins with the invited role. */
  lemma Joins(from: State, s: State, token: nat, id: nat, u: nat) returns (s': State)
    requires Reaches(from, s) && Open(s, token, id) && u in s.users && s.users[u].email == s.invitations[id].email
    requires s.nextAccept !in s.accepts && (s.invitations[id].ws, u) !in s.members
    requires forall o | o in s.accepts :: !HoldsMembership(s, s.accepts[o], (s.invitations[id].ws, u))
    ensures Reaches(from, s')
    ensures s' == s.(invitations := s.invitations[id := Taken(s.invitations[id], u, s.now)], nextAccept := s.nextAccept + 1,
                     members := s.members[(s.invitations[id].ws, u) := s.invitations[id].role])
  {
    var a := s.nextAccept;
    var consumed := Consumes(from, s, token, id, u);
    assert forall o | o in s.accepts :: HoldsMembership(consumed, s.accepts[o], (s.invitations[id].ws, u)) == HoldsMembership(s, s.accepts[o], (s.invitations[id].ws, u));
    var inserted := GoOn(from, consumed, Next(a));
    assert inserted == At(consumed, a, consumed.accepts[a].(stage := Inserted(id)));
    s' := GoOn(from, inserted, Next(a));
    assert s'.accepts == s.accepts;
  }

  /** An account registers at an unused address, and is about to be invited as an owner. */
  lemma AboutToInvite(s: State, ws: nat) returns (drafted: State, email: string)
    requires Inv(s) && ws < s.nextWorkspace
    ensures Reaches(s, drafted) && s.nextUser !in s.users && forall i | i in s.invitations :: s.invitations[i].email != email
    ensures drafted == s.(users := s.users[s.nextUser := User(email, None)], nextUser := s.nextUser + 1,
                          members := s.members[(s.nextWorkspace, s.nextUser) := M.Owner], nextWorkspace := s.nextWorkspace + 1,
                          drafts := s.drafts[s.nextDraft := Draft(ws, email, M.Owner, M.Owner)], nextDraft := s.nextDraft + 1)
  {
    NewUserIsFree(s);
    email := UnusedAddress(s);
    assert Exec(s, []) == Some(s);
    var registered := GoOn(s, s, Register(email));
    assert !MemberEmail(registered, ws, email);
    drafted := GoOn(s, registered, Invite(ws, M.Owner, email, M.Owner));
  }

  /** The invitation is inserted. */
  lemma InvitedOwner(s: State, ws: nat) returns (invited: State)
    requires Inv(s) && ws < s.nextWorkspace
    ensures Reaches(s, invited) && Open(invited, s.nextToken, s.nextInvitation) && s.nextUser !in s.users
    ensures s.nextUser in invited.users && invited.users[s.nextUser].email == invited.invitations[s.nextInvitation].email
    ensures invited.accepts == s.accepts && invited.nextAccept == s.nextAccept
    ensures invited.members == s.members[(s.nextWorkspace, s.nextUser) := M.Owner]
    ensures invited.invitations[s.nextInvitation].ws == ws && invited.invitations[s.nextInvitation].role == M.Owner
    ensures invited.invitations == s.invitations[s.nextInvitation := invited.invitations[s.nextInvitation]]
  {
    var drafted, email := AboutToInvite(s, ws);
    assert !PendingFor(drafted, ws, email);
    invited := GoOn(s, drafted, InsertInvitation(s.nextDraft));
    NewInvitationIsOpen(s, invited);
  }

  lemma NewInvitationIsOpen(s: State, invited: State)
    requires InvitationsOk(s) && AcceptsOk(s) && invited.accepts == s.accepts
    requires s.nextInvitation in invited.invitations
    requires invited.invitations == s.invitations[s.nextInvitation := invited.invitations[s.nextInvitation]]
    requires var i := invited.invitations[s.nextInvitation]; i.token == s.nextToken && i.status == Pending && invited.now < i.expiresAt
    requires s.nextInvitation < invited.nextInvitation
    ensures Open(invited, s.nextToken, s.nextInvitation)
  {
    assert forall j | j in s.invitations :: InvitationOk(s, j, s.invitations[j]);
    assert forall o | o in s.accepts :: AcceptOk(s, s.accepts[o]);
  }

  /** A further owner can always be found, so that even the last one can be removed. */
  lemma SecondOwner(s: State, ws: nat) returns (joined: State)
    requires Inv(s) && ws < s.nextWorkspace
    ensures Reaches(s, joined) && joined.accepts == s.accepts && s.nextUser !in s.users
    ensures forall i | i in s.invitations :: i in joined.invitations && joined.invitations[i] == s.invitations[i]
    ensures joined.members == s.members[(s.nextWorkspace, s.nextUser) := M.Owner][(ws, s.nextUser) := M.Owner]
  {
    NewUserIsFree(s);
    var invited := InvitedOwner(s, ws);
    var id, u := s.nextInvitation, s.nextUser;
    forall o | o in invited.accepts ensures !HoldsMembership(invited, invited.accepts[o], (ws, u)) && o < s.nextAccept {
      assert AcceptOk(s, s.accepts[o]);
    }
    assert forall j | j in s.invitations :: InvitationOk(s, j, s.invitations[j]);
    joined := Joins(s, invited, s.nextToken, id, u);
  }

  /** A member who is not the new one can be removed beside a second owner. */
  lemma RemovableBesideOwner(members: Members, k: Member, other: Member)
    requires other in members && members[other] == M.Owner && other.0 == k.0 && other != k && k in members
    ensures M.Removable(members, k)
  {
    assert other in M.Owners(members, k.0) - {k};
  }

  /** The acceptor is sure to be a member at the commit exactly if the insert added the membership.
      One that was "already a member" may be removed first, a last owner after another was made: the
      insert that did nothing locked nothing. */
  lemma MemberGuaranteedIffInserted(s: State, a: nat)
    requires Reachable(s) && a in s.accepts && Commits(s.accepts[a])
    ensures Guaranteed(s, a) <==> s.accepts[a].stage.Inserted?
  {
    ReachableInv(s);
    assert AcceptOk(s, s.accepts[a]);
    if s.accepts[a].stage.Inserted? {
      forall es | Exec(s, es).Some? && a in Exec(s, es).value.accepts ensures JoinedBy(Exec(s, es).value, a) {
        WaitsUnchanged(s, es, a);
        RunKeepsInv(s, es);
        assert AcceptOk(Exec(s, es).value, Exec(s, es).value.accepts[a]);
      }
    } else {
      NotGuaranteed(s, a);
    }
  }

  lemma NotGuaranteed(s: State, a: nat)
    requires Inv(s) && a in s.accepts && s.accepts[a].stage.AlreadyMember? && AcceptOk(s, s.accepts[a])
    ensures !Guaranteed(s, a)
  {
    var k := Membership(s, a);
    assert InvitationOk(s, s.accepts[a].stage.invitation, s.invitations[s.accepts[a].stage.invitation]);
    var joined := SecondOwner(s, k.0);
    var removed := Removed(s, joined, k, (k.0, s.nextUser));
    var es :| Exec(s, es) == Some(removed);
    assert !JoinedBy(removed, a);
  }

  /** Beside a second owner anyone can be removed. */
  lemma Removed(from: State, s: State, k: Member, other: Member) returns (s': State)
    requires Reaches(from, s) && other in s.members && s.members[other] == M.Owner && other.0 == k.0 && other != k
    ensures Reaches(from, s') && s' == s.(members := s.members - {k})
  {
    if k in s.members {
      RemovableBesideOwner(s.members, k, other);
    }
    s' := GoOn(from, s, RemoveMember(k.0, k.1));
  }

  // ---------------------------------------------------------------- such a run exists

  const FIRST := Invitation(0, "b", M.Agent, M.Owner, 0, Pending, INVITATION_TTL, None, 0, 0, 1, Queued, None, None)
  const SECOND := FIRST.(token := 1)

  /** Two owners' accounts, and two requests to invite the second to the first's workspace, both past
      the check that it is no member there. */
  lemma InvitedTwice() returns (s: State)
    ensures Reaches(Init(0), s) && s.now == 0 && s.accepts == map[] && s.nextAccept == 0
    ensures s.members == map[(0, 0) := M.Owner, (1, 1) := M.Owner] && s.users == map[0 := User("a", None), 1 := User("b", None)]
    ensures s.drafts == map[0 := Draft(0, "b", M.Agent, M.Owner), 1 := Draft(0, "b", M.Agent, M.Owner)]
    ensures s.invitations == map[] && s.nextInvitation == 0 && s.nextToken == 0
  {
    assert Exec(Init(0), []) == Some(Init(0));
    var first := GoOn(Init(0), Init(0), Register("a"));
    assert first.users == map[0 := User("a", None)] && first.members == map[(0, 0) := M.Owner];
    var second := GoOn(Init(0), first, Register("b"));
    assert second.users == map[0 := User("a", None), 1 := User("b", None)] && second.members == map[(0, 0) := M.Owner, (1, 1) := M.Owner];
    assert !MemberEmail(second, 0, "b");
    var once := GoOn(Init(0), second, Invite(0, M.Owner, "b", M.Agent));
    assert once == second.(drafts := map[0 := Draft(0, "b", M.Agent, M.Owner)], nextDraft := 1);
    assert !MemberEmail(once, 0, "b");
    s := GoOn(Init(0), once, Invite(0, M.Owner, "b", M.Agent));
    assert s.drafts == map[0 := Draft(0, "b", M.Agent, M.Owner), 1 := Draft(0, "b", M.Agent, M.Owner)];
  }

  /** The first is inserted and accepted. */
  lemma FirstAccepted(s: State) returns (s': State)
    requires Reaches(Init(0), s) && s.now == 0 && s.accepts == map[] && s.nextAccept == 0
    requires s.members == map[(0, 0) := M.Owner, (1, 1) := M.Owner] && s.users == map[0 := User("a", None), 1 := User("b", None)]
    requires s.drafts == map[0 := Draft(0, "b", M.Agent, M.Owner), 1 := Draft(0, "b", M.Agent, M.Owner)]
    requires s.invitations == map[] && s.nextInvitation == 0 && s.nextToken == 0
    ensures Reaches(Init(0), s') && s'.now == 0 && s'.accepts == map[] && s'.nextAccept == 1 && s'.users == s.users
    ensures s'.members == s.members[(0, 1) := M.Agent] && s'.drafts == map[1 := Draft(0, "b", M.Agent, M.Owner)]
    ensures s'.invitations == map[0 := Taken(FIRST, 1, 0)] && s'.nextInvitation == 1 && s'.nextToken == 1
  {
    var inserted := GoOn(Init(0), s, InsertInvitation(0));
    assert inserted.invitations == map[0 := FIRST] && inserted.drafts == map[1 := Draft(0, "b", M.Agent, M.Owner)];
    s' := Joins(Init(0), inserted, 0, 0, 1);
    assert s'.invitations == map[0 := Taken(FIRST, 1, 0)];
  }

  /** Then the second is inserted, for one who is a member by now, and consumed. */
  lemma SecondConsumed(s: State) returns (s': State)
    requires Reaches(Init(0), s) && s.now == 0 && s.accepts == map[] && s.nextAccept == 1 && 1 in s.users && s.users[1] == User("b", None)
    requires s.drafts == map[1 := Draft(0, "b", M.Agent, M.Owner)]
    requires s.invitations == map[0 := Taken(FIRST, 1, 0)] && s.nextInvitation == 1 && s.nextToken == 1
    ensures Reaches(Init(0), s') && s'.members == s.members && s'.invitations == map[0 := Taken(FIRST, 1, 0), 1 := SECOND]
    ensures s'.accepts == map[1 := Accept(false, 1, 1, "b", 0, Consumed(1))]
  {
    var inserted := GoOn(Init(0), s, InsertInvitation(1));
    assert inserted.invitations == map[0 := Taken(FIRST, 1, 0), 1 := SECOND];
    s' := Consumes(Init(0), inserted, 1, 1, 1);
    assert s'.accepts == map[1 := Accept(false, 1, 1, "b", 0, Consumed(1))];
  }

  /** It finds the membership there. */
  lemma FindsMember(s: State) returns (s': State)
    requires Reaches(Init(0), s) && (0, 1) in s.members && 1 in s.invitations && s.invitations[1] == SECOND
    requires s.accepts == map[1 := Accept(false, 1, 1, "b", 0, Consumed(1))]
    ensures Reaches(Init(0), s') && s' == s.(accepts := map[1 := Accept(false, 1, 1, "b", 0, AlreadyMember(1))])
  {
    var conflicted := GoOn(Init(0), s, Next(1));
    assert conflicted.accepts == map[1 := Accept(false, 1, 1, "b", 0, Conflicted(1))];
    s' := GoOn(Init(0), conflicted, Next(1));
    assert s'.accepts == map[1 := Accept(false, 1, 1, "b", 0, AlreadyMember(1))];
  }

  /** Two requests to invite one address can both pass the member check; the second's invitation is
      then inserted after the first was accepted. Accepting it finds the member already there, and
      the member, removed before the commit, ends with an accepted invitation and no membership. */
  lemma AcceptedWithoutMembership() returns (s: State)
    ensures Reachable(s) && 1 in s.invitations
    ensures s.invitations[1].status == Accepted && s.invitations[1].acceptedBy == Some(1) && (s.invitations[1].ws, 1) !in s.members
  {
    var twice := InvitedTwice();
    var accepted := FirstAccepted(twice);
    var consumed := SecondConsumed(accepted);
    var already := FindsMember(consumed);
    var removed := GoOn(Init(0), already, RemoveMember(0, 1));
    assert removed == already.(members := already.members - {(0, 1)});
    s := GoOn(Init(0), removed, Next(1));
  }
}
