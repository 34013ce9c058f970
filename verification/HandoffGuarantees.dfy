/** What ownership, membership and the handoff queue guarantee in every committed state. */
module HandoffGuarantees {
  import opened Common
  import opened Runs
  import opened Membership

  // ---------------------------------------------------------------- every committed state

  /** However demotions, removals, departures, transfers and joins interleave, no workspace is ever
      left without an owner. */
  lemma EveryWorkspaceHasAnOwner(s: State, ws: nat)
    requires Reachable(s) && ws in s.workspaces
    ensures exists user: nat :: (ws, user) in s.members && s.members[(ws, user)] == Owner
  {
    ReachableInv(s);
    var k :| k in Owners(s.members, ws);
    assert (ws, k.1) in s.members && s.members[(ws, k.1)] == Owner;
  }

  /** A claimed session is claimed by someone who is still a member, and who may still work it if
      the role its claim saw could. */
  lemma ClaimantsAreMembers(s: State, k: SessionKey)
    requires Reachable(s) && k in s.sessions && s.sessions[k].status == Claimed
    ensures s.sessions[k].claimedBy.Some? && (k.0, s.sessions[k].claimedBy.value) in s.members
    ensures s.sessions[k].claimRole.Some?
    ensures CanWork(s.sessions[k].claimRole.value) ==> CanWork(s.members[(k.0, s.sessions[k].claimedBy.value)])
  {
    ReachableInv(s);
    assert SessionOk(s.members, k, s.sessions[k]);
  }

  /** No session is ever open, so the unconditional update of an open one never fires, and every
      claim is answered by a release unless the session is now claimed or resolved. */
  lemma ClaimsAreConserved(s: State, k: SessionKey)
    requires Reachable(s) && k in s.sessions
    ensures s.sessions[k].status != Open
    ensures s.sessions[k].claims == s.sessions[k].releases + (if s.sessions[k].status == Claimed || s.sessions[k].status == Resolved then 1 else 0)
    ensures forall e | e in s.escalations :: s.escalations[e].found != Some(Open)
  {
    ReachableInv(s);
    assert SessionOk(s.members, k, s.sessions[k]);
  }

  // ---------------------------------------------------------------- how a session moves

  predicate Advances(x: Session, y: Session) {
    && y.escalatedAt == x.escalatedAt && x.claims <= y.claims && x.releases <= y.releases
    && (x.status == Resolved ==> y == x)
    && (y.status == Resolved && x.status != Resolved ==> x.status == Claimed && y == x.(status := Resolved))
    && (x.claimedBy.Some? && y.claimedBy != x.claimedBy ==> y.releases > x.releases)
  }

  /** As `Advances`, over any number of steps. */
  predicate Later(x: Session, y: Session) {
    && y.escalatedAt == x.escalatedAt && x.claims <= y.claims && x.releases <= y.releases
    && (x.status == Resolved ==> y == x)
    && (x.claimedBy.Some? && y.claimedBy != x.claimedBy ==> y.releases > x.releases)
  }

  lemma NextAdvances(s: State, t: nat, k: SessionKey)
    requires Inv(s) && t in s.txns && NextOf(s, t).Some? && k in s.sessions
    ensures k in NextOf(s, t).value.sessions && Advances(s.sessions[k], NextOf(s, t).value.sessions[k])
  {
    var x := s.txns[t];
    assert TxnOk(s.members, s.sessions, x) && SessionOk(s.members, k, s.sessions[k]);
    if x.step.Released? && k.0 == x.op.ws {
      InClaimed(s.sessions, x.op.ws, x.op.user, k.1);
    }
  }

  lemma StepAdvances(s: State, e: Event, k: SessionKey)
    requires Inv(s) && Apply(s, e).Some? && k in s.sessions
    ensures k in Apply(s, e).value.sessions && Advances(s.sessions[k], Apply(s, e).value.sessions[k])
  {
    assert SessionOk(s.members, k, s.sessions[k]);
    match e
    case Next(t) => NextAdvances(s, t, k);
    case WriteEscalation(i) => assert i in s.escalations && s.escalations[i].found != Some(Open);
    case _ =>
  }

  /** Sessions stay, resolved is final, waiting time never restarts, and a claimant is only ever
      replaced after a release, whatever else runs. */
  lemma {:induction false} SessionsOnlyAdvance(s: State, es: seq<Event>, k: SessionKey)
    requires Inv(s) && Exec(s, es).Some? && k in s.sessions
    ensures k in Exec(s, es).value.sessions && Later(s.sessions[k], Exec(s, es).value.sessions[k])
    decreases |es|
  {
    if es != [] {
      var next := Apply(s, es[0]).value;
      StepAdvances(s, es[0], k);
      ApplyKeepsInv(s, es[0]);
      SessionsOnlyAdvance(next, es[1..], k);
      assert Exec(s, es) == Exec(next, es[1..]);
    }
  }

  // ---------------------------------------------------------------- transactions are atomic

  /** What each operation means on the committed tables when it runs alone; None is a refusal. */
  function Atomic(members: Members, sessions: Sessions, op: Op): Option<(Members, Sessions)> {
    match op
    case Claim(ws, user, session) =>
      if (ws, user) in members && Ready(sessions, (ws, session)) then
        Some((members, sessions[(ws, session) := Taken(sessions[(ws, session)], user, members[(ws, user)])]))
      else None
    case End(ws, user) =>
      if LeavesAnOwner(members, (ws, user)) then
        Some((members - {(ws, user)}, ReleaseAll(sessions, ws, ClaimedBy(sessions, ws, user))))
      else None
    case Change(ws, user, role) =>
      if (ws, user) in members && (role == Owner || LeavesAnOwner(members, (ws, user))) then
        Some((members[(ws, user) := role],
              if CanWork(role) then sessions else ReleaseAll(sessions, ws, ClaimedBy(sessions, ws, user))))
      else None
    case Transfer(ws, actor, target) =>
      if actor != target && (ws, target) in members && (ws, actor) in members && members[(ws, actor)] == Owner then
        Some((members[(ws, target) := Owner][(ws, actor) := Agent], sessions))
      else None
  }

  predicate LeavesAnOwner(members: Members, k: Member) {
    k in members && (members[k] == Owner ==> exists o | o in members :: o.0 == k.0 && o != k && members[o] == Owner)
  }

  /** The last statement of a transaction that has passed its checks. */
  predicate Committing(x: Txn) {
    || (x.op.Claim? && x.step.Updated?)
    || (x.op.End? && x.step.Released?)
    || (x.op.Change? && (x.step.Released? || (x.step.Written? && CanWork(x.op.role))))
    || (x.op.Transfer? && x.step.Demoted?)
  }

  lemma RemovableLeavesAnOwner(members: Members, k: Member)
    ensures Removable(members, k) <==> LeavesAnOwner(members, k)
  {
    if k in members && members[k] == Owner {
      if Removable(members, k) {
        var o :| o in Owners(members, k.0) - {k};
        assert o in members && o.0 == k.0 && o != k && members[o] == Owner;
      }
      if LeavesAnOwner(members, k) {
        var o :| o in members && o.0 == k.0 && o != k && members[o] == Owner;
        assert o in Owners(members, k.0) - {k};
      }
    }
  }

  /** The member has claimed nothing since a role change released its claims. */
  predicate NothingClaimedSince(s: State, x: Txn) {
    x.op.Change? && x.step.Released? ==> ClaimedBy(s.sessions, x.op.ws, x.op.user) <= x.step.ids
  }

  /** A transaction that commits does to the memberships exactly what its operation means on the
      tables as they stand at that instant, however many statements ago it read and checked them,
      and to the sessions too if and only if the member has claimed nothing since a role change
      released its claims. It can have only where the change sets the role the member already has:
      no row is written then, so nothing holds a claim off. */
  lemma CommitsAreAtomic(s: State, t: nat)
    requires Reachable(s) && t in s.txns && Committing(s.txns[t])
    ensures NextOf(s, t).Some?
    ensures var s', op := NextOf(s, t).value, s.txns[t].op;
            && Atomic(s.members, s.sessions, op).Some?
            && s'.members == Atomic(s.members, s.sessions, op).value.0
            && (s'.sessions == Atomic(s.members, s.sessions, op).value.1 <==> NothingClaimedSince(s, s.txns[t]))
            && (NothingClaimedSince(s, s.txns[t]) || (op.Change? && s'.members == s.members))
  {
    ReachableInv(s);
    var x := s.txns[t];
    assert TxnOk(s.members, s.sessions, x);
    if x.op.End? || x.op.Change? {
      RemovableLeavesAnOwner(s.members, (x.op.ws, x.op.user));
    }
    if x.op.Change? && x.step.Released? {
      ReleasesDiffer(s.sessions, x.op.ws, x.op.user, x.step.ids);
    }
  }

  /** Releasing some of a user's claims is releasing all exactly if they are all. */
  lemma ReleasesDiffer(sessions: Sessions, ws: nat, user: nat, ids: set<string>)
    requires ids <= ClaimedBy(sessions, ws, user)
    ensures ReleaseAll(sessions, ws, ids) == ReleaseAll(sessions, ws, ClaimedBy(sessions, ws, user)) <==>
            ClaimedBy(sessions, ws, user) <= ids
  {
    var all := ClaimedBy(sessions, ws, user);
    if id: string :| id in all && id !in ids {
      InClaimed(sessions, ws, user, id);
      assert ReleaseAll(sessions, ws, ids)[(ws, id)].status == Claimed;
      assert ReleaseAll(sessions, ws, all)[(ws, id)].status == Escalated;
    } else {
      assert ids == all;
    }
  }

  /** A claim's claimant can work the session exactly if the role its share lock saw could: the
      lock asks only whether the row is there, and pins whatever role it has. */
  lemma ClaimerWorksIfLockSawWork(s: State, t: nat)
    requires Reachable(s) && t in s.txns && s.txns[t].op.Claim? && s.txns[t].step.Updated?
    ensures var x := s.txns[t];
            var s' := Apply(s, Next(t));
            && s'.Some? && (x.op.ws, x.op.session) in s'.value.sessions && (x.op.ws, x.op.user) in s'.value.members
            && s'.value.sessions[(x.op.ws, x.op.session)].status == Claimed
            && s'.value.sessions[(x.op.ws, x.op.session)].claimedBy == Some(x.op.user)
            && (CanWork(s'.value.members[(x.op.ws, x.op.user)]) <==> CanWork(x.step.seen))
  {
    ReachableInv(s);
    assert TxnOk(s.members, s.sessions, s.txns[t]);
  }

  // ---------------------------------------------------------------- where it stops

  lemma Step(s: State, e: Event) returns (s': State)
    requires Reachable(s) && Apply(s, e).Some?
    ensures Reachable(s') && s' == Apply(s, e).value
  {
    var now, es :| Exec(Init(now), es) == Some(s);
    RunSnoc(Apply, Init(now), es, e);
    s' := Apply(s, e).value;
    assert Exec(Init(now), es + [e]) == Some(s');
  }

  /** A workspace, an agent, and a session waiting in the queue. */
  lemma QueueOfOne() returns (s: State)
    ensures Reachable(s)
    ensures s == Init(0).(workspaces := {0}, members := map[(0, 0) := Owner, (0, 1) := Agent],
                          sessions := map[(0, "visitor") := Session(Escalated, None, 0, 0, 0, None)], nextEscalation := 1)
  {
    assert Exec(Init(0), []) == Some(Init(0));
    s := Step(Init(0), CreateWorkspace(0, 0));
    s := Step(s, Join(0, 1, Agent));
    s := Step(s, FindSession(0, "visitor"));
    s := Step(s, WriteEscalation(0));
  }

  const DEMOTION := Change(0, 1, Viewer)

  function Team(role: Role): Members {
    map[(0, 0) := Owner, (0, 1) := role]
  }

  /** Setting the second member's role to viewer locks the workspace and finds the membership. */
  lemma DemotionBegins(s: State, was: Role) returns (s': State)
    requires Reachable(s) && s.txns == map[] && s.workspaces == {0} && s.members == Team(was) && was != Owner
    ensures Reachable(s') && s' == s.(txns := map[s.nextTxn := Txn(DEMOTION, Found(was))], nextTxn := s.nextTxn + 1)
  {
    var t := s.nextTxn;
    var begun := Step(s, Begin(DEMOTION));
    assert begun.txns == map[t := Txn(DEMOTION, Begun)];
    var locked := Step(begun, Next(t));
    assert locked == At(begun, t, Locked);
    s' := Step(locked, Next(t));
    assert s'.txns == map[t := Txn(DEMOTION, Found(was))];
  }

  /** It writes, and releases what the member has claimed: nothing. */
  lemma DemotionReleases(s: State, was: Role) returns (s': State)
    requires Reachable(s) && s.txns == map[] && s.workspaces == {0} && s.members == Team(was) && was != Owner
    requires ClaimedBy(s.sessions, 0, 1) == {}
    ensures Reachable(s') && s' == s.(txns := map[s.nextTxn := Txn(DEMOTION, Released({}))], nextTxn := s.nextTxn + 1)
  {
    var t := s.nextTxn;
    var found := DemotionBegins(s, was);
    var checked := Step(found, Next(t));
    assert checked == At(found, t, Checked);
    var written := Step(checked, Next(t));
    assert written == At(checked, t, Written);
    s' := ReleasesNothing(written, t);
  }

  lemma ReleasesNothing(s: State, t: nat) returns (s': State)
    requires Reachable(s) && s.txns == map[t := Txn(DEMOTION, Written)] && ClaimedBy(s.sessions, 0, 1) == {}
    ensures Reachable(s') && s' == s.(txns := map[t := Txn(DEMOTION, Released({}))])
  {
    s' := Step(s, Next(t));
    assert s'.txns == map[t := Txn(DEMOTION, Released({}))];
  }

  /** A demotion of the agent that runs to its commit. */
  lemma Demotion(s: State) returns (s': State)
    requires Reachable(s) && s.txns == map[] && s.workspaces == {0} && s.members == Team(Agent)
    requires ClaimedBy(s.sessions, 0, 1) == {}
    ensures Reachable(s') && s' == s.(members := Team(Viewer), nextTxn := s.nextTxn + 1)
  {
    var released := DemotionReleases(s, Agent);
    s' := Step(released, Next(s.nextTxn));
    assert s'.sessions == s.sessions && s'.txns == map[] && s'.members == Team(Viewer);
  }

  /** A claim of the second member, beside transactions that hold neither its row nor the session. */
  lemma ClaimRuns(s: State) returns (s': State)
    requires Reachable(s) && (0, 1) in s.members && Ready(s.sessions, (0, "visitor")) && s.nextTxn !in s.txns
    requires forall o | o in s.txns :: !HoldsMember(s.members, s.txns[o], (0, 1)) && !HoldsSession(s.txns[o], (0, "visitor"))
    ensures Reachable(s') && s'.members == s.members && s'.txns == s.txns
    ensures s'.sessions == s.sessions[(0, "visitor") := Taken(s.sessions[(0, "visitor")], 1, s.members[(0, 1)])]
  {
    var t := s.nextTxn;
    var begun := Step(s, Begin(Claim(0, 1, "visitor")));
    assert begun == s.(txns := s.txns[t := Txn(Claim(0, 1, "visitor"), Begun)], nextTxn := t + 1);
    var shared := Step(begun, Next(t));
    assert shared == At(begun, t, Shared(s.members[(0, 1)]));
    var updated := Step(shared, Next(t));
    assert updated == At(shared, t, Updated(s.members[(0, 1)]));
    s' := Step(updated, Next(t));
    assert s'.txns == s.txns;
  }

  lemma NobodyClaims(sessions: Sessions)
    requires sessions == map[(0, "visitor") := Session(Escalated, None, 0, 0, 0, None)]
    ensures ClaimedBy(sessions, 0, 1) == {}
  {
    forall id ensures id !in ClaimedBy(sessions, 0, 1) {
      InClaimed(sessions, 0, 1, id);
    }
  }

  /** A claim whose permission was checked before a demotion, and whose share lock comes after it,
      leaves a viewer holding the session. */
  lemma ViewerCanHoldAClaim() returns (s: State)
    ensures Reachable(s)
    ensures (0, 1) in s.members && s.members[(0, 1)] == Viewer
    ensures (0, "visitor") in s.sessions && s.sessions[(0, "visitor")].status == Claimed && s.sessions[(0, "visitor")].claimedBy == Some(1)
  {
    var queue := QueueOfOne();
    NobodyClaims(queue.sessions);
    var demoted := Demotion(queue);
    s := ClaimRuns(demoted);
  }

  /** A second demotion of the same member has released and not committed when such a claim commits:
      the session stays claimed where the operation, running at that instant, would release it. */
  lemma RepeatedDemotionIsNotAtomic() returns (s: State, t: nat)
    ensures Reachable(s) && t in s.txns && Committing(s.txns[t]) && s.txns[t].op == DEMOTION
    ensures NextOf(s, t).Some? && Atomic(s.members, s.sessions, DEMOTION).Some?
    ensures (0, "visitor") in s.sessions && (0, "visitor") in NextOf(s, t).value.sessions
    ensures NextOf(s, t).value.sessions[(0, "visitor")].status == Claimed
    ensures NextOf(s, t).value.sessions != Atomic(s.members, s.sessions, DEMOTION).value.1
  {
    var queue := QueueOfOne();
    NobodyClaims(queue.sessions);
    var demoted := Demotion(queue);
    t := demoted.nextTxn;
    var released := DemotionReleases(demoted, Viewer);
    s := ClaimRuns(released);
    InClaimed(s.sessions, 0, 1, "visitor");
    CommitsAreAtomic(s, t);
  }
}
