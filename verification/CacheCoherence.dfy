/** When a cached answer may be served: exactly which changes a request can still miss. */
module CacheCoherence {
  import opened Common
  import opened Runs
  import opened AnswerKey
  import opened AnswerCache

  /** A served entry answers the same normal form, for the same workspace, public key and prompt
      version, was generated without history, and its retrieval saw every change committed before
      the version the request read was set. */
  lemma ServedIsOwn(s: State, r: nat)
    requires Reachable(s) && r in s.requests && s.requests[r].phase.Served?
    ensures var q, e := s.requests[r], s.requests[r].phase.entry;
            && e.key.ws == q.ws && e.key.publicKey == q.publicKey && e.key.promptVersion == q.promptVersion
            && Normalize(e.question) == Normalize(q.question) && !e.hadHistory && e.status == Answered
            && q.stamp <= e.seen
  {
    ReachableInv(s);
    assert RequestOk(s, s.requests[r]);
  }

  // ---------------------------------------------------------------- what may still be served

  /** A workspace's version: what an identity read now would carry. */
  datatype Edition = Edition(ws: nat, publicKey: nat, version: nat)

  function EditionOf(s: State, ws: nat): Edition
    requires ws in s.workspaces
  {
    Edition(ws, s.workspaces[ws].publicKey, s.workspaces[ws].version)
  }

  predicate KeyIn(k: Key, d: Edition) {
    k.ws == d.ws && k.publicKey == d.publicKey && k.version == d.version
  }

  predicate ReadIn(q: Request, d: Edition) {
    q.ws == d.ws && q.publicKey == d.publicKey && q.version == d.version
  }

  /** This request has retrieved for the edition, too early to see change `n`, and may yet cache
      what it made of it. */
  predicate Producing(q: Request, d: Edition, n: nat) {
    ReadIn(q, d) && ((q.phase.Retrieved? && q.phase.seen < n) || (q.phase.Caching? && q.phase.entry.seen < n))
  }

  /** An entry that missed change `n` is stored under the edition, or still being produced. */
  predicate StaleIn(s: State, d: Edition, n: nat) {
    || (exists k | k in s.cache :: KeyIn(k, d) && s.cache[k].seen < n)
    || (exists r | r in s.requests :: Producing(s.requests[r], d, n))
  }

  /** Not there yet, or there and yet to read its identity. */
  predicate Unread(s: State, r: nat) {
    r >= s.nextRequest || (r in s.requests && s.requests[r].phase.Started?)
  }

  /** Request `r` of the workspace was served an answer retrieved before change `n`. */
  predicate ServedWithout(s: State, r: nat, ws: nat, n: nat) {
    r in s.requests && s.requests[r].ws == ws && s.requests[r].phase.Served? && s.requests[r].phase.entry.seen < n
  }

  /** Some run from here serves such an answer to a request that has yet to read its identity. */
  ghost predicate CanMiss(s: State, ws: nat, n: nat) {
    exists es, r | Unread(s, r) && Exec(s, es).Some? :: ServedWithout(Exec(s, es).value, r, ws, n)
  }

  // ---------------------------------------------------------------- what no run changes

  /** Request `r` reads no edition but `d`, unless one set after change `n`, and is served nothing
      that missed `n`. */
  predicate Safe(q: Request, d: Edition, n: nat) {
    q.ws == d.ws ==>
      && (q.phase.Started? || q.phase.Uncached? || ReadIn(q, d) || n <= q.stamp)
      && (q.phase.Served? ==> n <= q.phase.entry.seen)
  }

  /** Change `n` is committed, nothing stale is left in edition `d`, and the workspace is still in
      that edition or past the change. */
  predicate Shielded(s: State, d: Edition, n: nat, r: nat) {
    && n <= s.changes && !StaleIn(s, d, n)
    && (d.ws in s.workspaces ==> EditionOf(s, d.ws) == d || n <= s.workspaces[d.ws].stamp)
    && (r in s.requests ==> Safe(s.requests[r], d, n))
  }

  lemma NextIsFresh(s: State, e: Event, q: Request, d: Edition, n: nat)
    requires IsRequestEvent(e) && NextRequest(s, e, q).Some? && n <= s.changes && !Producing(q, d, n)
    ensures !Producing(NextRequest(s, e, q).value, d, n)
  {}

  lemma NextIsSafe(s: State, e: Event, q: Request, d: Edition, n: nat)
    requires IsRequestEvent(e) && NextRequest(s, e, q).Some? && Safe(q, d, n) && RequestOk(s, q)
    requires d.ws in s.workspaces ==> EditionOf(s, d.ws) == d || n <= s.workspaces[d.ws].stamp
    requires KeyOf(q) in s.cache ==> EntryOk(s.stamps, KeyOf(q), s.cache[KeyOf(q)])
    requires KeyOf(q) in s.cache && KeyIn(KeyOf(q), d) ==> n <= s.cache[KeyOf(q)].seen
    ensures Safe(NextRequest(s, e, q).value, d, n)
  {}

  lemma AdvanceKeepsShield(s: State, e: Event, d: Edition, n: nat, r: nat)
    requires Inv(s) && IsRequestEvent(e) && Apply(s, e).Some? && Shielded(s, d, n, r)
    ensures Shielded(Apply(s, e).value, d, n, r)
  {
    var s', q := Apply(s, e).value, s.requests[e.r];
    assert !Producing(q, d, n) && RequestOk(s, q);
    NextIsFresh(s, e, q, d, n);
    if r == e.r {
      NextIsSafe(s, e, q, d, n);
    }
    forall k | k in s'.cache && KeyIn(k, d) ensures n <= s'.cache[k].seen {
      assert k in s.cache ==> n <= s.cache[k].seen;
    }
    forall o | o in s'.requests ensures !Producing(s'.requests[o], d, n) {
      assert o != e.r ==> !Producing(s.requests[o], d, n);
    }
  }

  lemma WriterKeepsShield(s: State, s': State, d: Edition, n: nat, r: nat)
    requires Shielded(s, d, n, r) && s.changes <= s'.changes && s'.cache == s.cache && s'.requests == s.requests
    requires s'.workspaces == s.workspaces
             || (exists ws :: ws in s'.workspaces && s'.workspaces == s.workspaces[ws := s'.workspaces[ws]] && n <= s'.workspaces[ws].stamp)
    ensures Shielded(s', d, n, r)
  {}

  lemma StepKeepsShield(s: State, e: Event, d: Edition, n: nat, r: nat)
    requires Inv(s) && Apply(s, e).Some? && Shielded(s, d, n, r)
    ensures Shielded(Apply(s, e).value, d, n, r)
  {
    var s' := Apply(s, e).value;
    if IsRequestEvent(e) {
      AdvanceKeepsShield(s, e, d, n, r);
    } else if e.Ask? {
      AskKeepsShield(s, e, d, n, r);
    } else if e.Evict? {
      assert forall k | k in s'.cache :: k in s.cache && s'.cache[k] == s.cache[k];
    } else {
      OthersAreWriters(s, e, n);
      WriterKeepsShield(s, s', d, n, r);
    }
  }

  lemma AskKeepsShield(s: State, e: Event, d: Edition, n: nat, r: nat)
    requires e.Ask? && Shielded(s, d, n, r)
    ensures Shielded(Apply(s, e).value, d, n, r)
  {
    var s' := Apply(s, e).value;
    forall o | o in s'.requests ensures !Producing(s'.requests[o], d, n) {
      assert o != s.nextRequest ==> !Producing(s.requests[o], d, n);
    }
  }

  lemma OthersAreWriters(s: State, e: Event, n: nat)
    requires !IsRequestEvent(e) && !e.Ask? && !e.Evict? && Apply(s, e).Some? && n <= s.changes
    ensures var s' := Apply(s, e).value;
            && s.changes <= s'.changes && s'.cache == s.cache && s'.requests == s.requests
            && (s'.workspaces == s.workspaces
                || exists ws :: ws in s'.workspaces && s'.workspaces == s.workspaces[ws := s'.workspaces[ws]] && n <= s'.workspaces[ws].stamp)
  {
    var s' := Apply(s, e).value;
    if e.CreateWorkspace? {
      assert s'.workspaces == s.workspaces[e.ws := s'.workspaces[e.ws]];
    } else if e.Bump? {
      BumpSets(s, e.w);
    } else if e.Change? {
      ChangeOnlyCounts(s, e.w);
    }
  }

  lemma ChangeOnlyCounts(s: State, w: nat)
    requires w in s.writers
    ensures var s' := Changing(s, w);
            s.changes <= s'.changes && s'.cache == s.cache && s'.requests == s.requests && s'.workspaces == s.workspaces
  {
    match s.writers[w].kind
    case Remove =>
    case Replace =>
    case Embed =>
  }

  /** A bump puts every change committed so far, by whichever writer, behind the new version. */
  lemma BumpSets(s: State, w: nat)
    requires w in s.writers
    ensures var s', ws := Bumping(s, w), s.writers[w].ws;
            && s'.changes == s.changes && s'.cache == s.cache && s'.requests == s.requests
            && (if ws in s.workspaces then s'.workspaces == s.workspaces[ws := s'.workspaces[ws]] && s'.workspaces[ws].stamp == s.changes
                else s'.workspaces == s.workspaces)
  {}

  lemma RunKeepsShield(s: State, es: seq<Event>, d: Edition, n: nat, r: nat)
    requires Inv(s) && Exec(s, es).Some? && Shielded(s, d, n, r)
    ensures Shielded(Exec(s, es).value, d, n, r)
  {
    forall t, e | Inv(t) && Shielded(t, d, n, r) && Apply(t, e).Some?
      ensures Inv(Apply(t, e).value) && Shielded(Apply(t, e).value, d, n, r)
    {
      StepKeepsShield(t, e, d, n, r);
      ApplyKeepsInv(t, e);
    }
    RunKeeps(Apply, t => Inv(t) && Shielded(t, d, n, r), s, es);
  }

  /** Where nothing stale is left, nothing stale is ever served to who has yet to read. */
  lemma ShieldedNeverMisses(s: State, es: seq<Event>, d: Edition, n: nat, r: nat)
    requires Inv(s) && n <= s.changes && !StaleIn(s, d, n) && Unread(s, r) && Exec(s, es).Some?
    requires d.ws in s.workspaces ==> EditionOf(s, d.ws) == d || n <= s.workspaces[d.ws].stamp
    ensures !ServedWithout(Exec(s, es).value, r, d.ws, n)
  {
    RunKeepsShield(s, es, d, n, r);
  }

  /** Under a version set after change `n` nothing that missed it is stored or being produced. */
  lemma NothingStaleAfterStamp(s: State, ws: nat, n: nat)
    requires Inv(s) && ws in s.workspaces && n <= s.workspaces[ws].stamp
    ensures !StaleIn(s, EditionOf(s, ws), n)
  {
    var d := EditionOf(s, ws);
    assert WorkspaceOk(s, ws, s.workspaces[ws]);
    forall k | k in s.cache && KeyIn(k, d) ensures n <= s.cache[k].seen {
      assert EntryOk(s.stamps, k, s.cache[k]);
    }
    forall r | r in s.requests ensures !Producing(s.requests[r], d, n) {
      assert RequestOk(s, s.requests[r]);
    }
  }

  // ---------------------------------------------------------------- coherence

  /** Coherence: whatever cached answer is served to a request that has yet to read its identity
      comes from a retrieval that ran after every change committed before the workspace's present
      version was set, whichever writer made the change, whichever bumped, and whatever runs besides. */
  lemma ServedAfterChanges(s: State, es: seq<Event>, ws: nat, n: nat, r: nat)
    requires Reachable(s) && ws in s.workspaces && n <= s.workspaces[ws].stamp
    requires Unread(s, r) && Exec(s, es).Some?
    ensures !ServedWithout(Exec(s, es).value, r, ws, n)
  {
    ReachableInv(s);
    assert WorkspaceOk(s, ws, s.workspaces[ws]);
    NothingStaleAfterStamp(s, ws, n);
    ShieldedNeverMisses(s, es, EditionOf(s, ws), n, r);
  }

  /** One bump is enough for every writer before it: after it, no request that has yet to read its
      identity is served an answer that missed any change any of them had committed, be it of a run
      that failed and whose retry bumped. */
  lemma AnyBumpCoversAll(s: State, b: nat, es: seq<Event>, w: nat, n: nat, r: nat)
    requires Reachable(s) && Apply(s, Bump(b)).Some? && s.writers[b].ws in s.workspaces
    requires w in s.writers && n in s.writers[w].changes
    requires Unread(Apply(s, Bump(b)).value, r) && Exec(Apply(s, Bump(b)).value, es).Some?
    ensures !ServedWithout(Exec(Apply(s, Bump(b)).value, es).value, r, s.writers[b].ws, n)
  {
    ReachableInv(s);
    assert WriterOk(s, s.writers[w]);
    BumpSets(s, b);
    var bumped := Step(s, Bump(b));
    ServedAfterChanges(bumped, es, s.writers[b].ws, n, r);
  }

  /** In particular a writer that has bumped is covered from then on, though its workspace's id be
      reused meanwhile. */
  lemma BumpedWriterIsCovered(s: State, es: seq<Event>, w: nat, n: nat, r: nat)
    requires Reachable(s) && w in s.writers && s.writers[w].phase == Bumped && n in s.writers[w].changes
    requires Unread(s, r) && Exec(s, es).Some?
    ensures !ServedWithout(Exec(s, es).value, r, s.writers[w].ws, n)
  {
    ReachableInv(s);
    var ws := s.writers[w].ws;
    assert WriterOk(s, s.writers[w]);
    if ws in s.workspaces {
      ServedAfterChanges(s, es, ws, n, r);
    } else {
      NothingOfUnusedKey(s, ws, n);
      ShieldedNeverMisses(s, es, Edition(ws, s.nextPublicKey, 0), n, r);
    }
  }

  lemma NothingOfUnusedKey(s: State, ws: nat, n: nat)
    requires Inv(s)
    ensures !StaleIn(s, Edition(ws, s.nextPublicKey, 0), n)
  {
    var d := Edition(ws, s.nextPublicKey, 0);
    forall k | k in s.cache ensures !KeyIn(k, d) {
      assert EntryOk(s.stamps, k, s.cache[k]);
    }
    forall r | r in s.requests ensures !Producing(s.requests[r], d, n) {
      assert RequestOk(s, s.requests[r]);
    }
  }

  // ---------------------------------------------------------------- and exactly when not

  ghost predicate Reaches(s: State, t: State) {
    exists es :: Exec(s, es) == Some(t)
  }

  lemma GoOn(s: State, t: State, e: Event) returns (t': State)
    requires Reaches(s, t) && Apply(t, e).Some?
    ensures Reaches(s, t') && t' == Apply(t, e).value
  {
    var es :| Exec(s, es) == Some(t);
    RunSnoc(Apply, s, es, e);
    t' := Apply(t, e).value;
    assert Exec(s, es + [e]) == Some(t');
  }

  /** A new request asks the question an entry of the present edition was made for. */
  lemma AskLike(s: State, t: State, k: Key) returns (t': State)
    requires Reaches(s, t) && k in t.cache && k.ws in t.workspaces && KeyIn(k, EditionOf(t, k.ws))
    requires EntryOk(t.stamps, k, t.cache[k])
    ensures Reaches(s, t') && t'.cache == t.cache
    ensures t.nextRequest in t'.requests && t'.requests[t.nextRequest].phase == Eligible && KeyOf(t'.requests[t.nextRequest]) == k
  {
    var r, row := t.nextRequest, t.workspaces[k.ws];
    var q := Request(k.ws, t.cache[k].question, k.promptVersion, false, Started, 0, 0, 0);
    var asked := GoOn(s, t, Ask(k.ws, t.cache[k].question, k.promptVersion));
    assert asked.requests[r] == q && asked.workspaces == t.workspaces;
    var read := GoOn(s, asked, ReadIdentity(r));
    var q' := q.(phase := Identified, publicKey := row.publicKey, version := row.version, stamp := row.stamp);
    assert read.requests[r] == q' && read.cache == t.cache;
    t' := GoOn(s, read, ReadHistory(r, false));
    assert t'.requests[r] == q'.(phase := Eligible);
  }

  /** It is served that entry. */
  lemma ServedLike(s: State, t: State, k: Key) returns (t': State)
    requires Reaches(s, t) && k in t.cache && k.ws in t.workspaces && KeyIn(k, EditionOf(t, k.ws))
    requires EntryOk(t.stamps, k, t.cache[k])
    ensures Reaches(s, t')
    ensures forall n | t.cache[k].seen < n :: ServedWithout(t', t.nextRequest, k.ws, n)
  {
    var eligible := AskLike(s, t, k);
    t' := GoOn(s, eligible, Get(t.nextRequest));
    assert t'.requests[t.nextRequest].phase == Served(t.cache[k]);
  }

  /** A request that has retrieved may answer and be about to cache. */
  lemma Answers(s: State, r: nat) returns (t: State)
    requires Inv(s) && r in s.requests && s.requests[r].phase.Retrieved?
    ensures Reaches(s, t) && Inv(t) && r in t.requests && t == s.(requests := s.requests[r := t.requests[r]])
    ensures t.requests[r].phase.Caching? && t.requests[r].phase.entry.seen == s.requests[r].phase.seen
    ensures KeyOf(t.requests[r]) == KeyOf(s.requests[r])
  {
    var q := s.requests[r];
    assert Exec(s, []) == Some(s);
    t := GoOn(s, s, Generate(r, Answered));
    ApplyKeepsInv(s, Generate(r, Answered));
    assert t.requests[r] == q.(phase := Caching(Entry(KeyOf(q), q.question, q.phase.seen, q.hasHistory, Answered)));
  }

  /** One about to cache gets its entry stored. */
  lemma Stores(s: State, t: State, r: nat) returns (t': State)
    requires Reaches(s, t) && Inv(t) && r in t.requests && t.requests[r].phase.Caching?
    ensures Reaches(s, t') && Inv(t') && t'.workspaces == t.workspaces && t'.nextRequest == t.nextRequest
    ensures t'.cache == t.cache[KeyOf(t.requests[r]) := t.requests[r].phase.entry]
  {
    t' := GoOn(s, t, Set(r));
    ApplyKeepsInv(t, Set(r));
  }

  lemma Produces(s: State, r: nat, d: Edition, n: nat) returns (t: State)
    requires Inv(s) && r in s.requests && Producing(s.requests[r], d, n)
    ensures Reaches(s, t) && Inv(t) && t.workspaces == s.workspaces && t.nextRequest == s.nextRequest
    ensures KeyOf(s.requests[r]) in t.cache && t.cache[KeyOf(s.requests[r])].seen < n
  {
    assert Exec(s, []) == Some(s);
    var caching := s;
    if s.requests[r].phase.Retrieved? {
      caching := Answers(s, r);
    }
    t := Stores(s, caching, r);
  }

  lemma StaleIsServed(s: State, ws: nat, n: nat)
    requires Inv(s) && ws in s.workspaces && StaleIn(s, EditionOf(s, ws), n)
    ensures CanMiss(s, ws, n)
  {
    var d := EditionOf(s, ws);
    var t, k := s, Key(0, 0, 0, 0, "");
    assert Exec(s, []) == Some(s);
    if stored: Key :| stored in s.cache && KeyIn(stored, d) && s.cache[stored].seen < n {
      k := stored;
    } else {
      var r :| r in s.requests && Producing(s.requests[r], d, n);
      t := Produces(s, r, d, n);
      k := KeyOf(s.requests[r]);
    }
    var served := ServedLike(s, t, k);
    var es :| Exec(s, es) == Some(served);
    assert Unread(s, s.nextRequest) && ServedWithout(Exec(s, es).value, s.nextRequest, ws, n);
  }

  /** Exactly when a committed change can still be missed: a request that has yet to read its
      identity can be served an answer retrieved before change `n` if and only if such an answer is
      stored under the workspace's present version, or a request that retrieved too early for that
      version is still to store it. */
  lemma MissedIffStaleIsLeft(s: State, ws: nat, n: nat)
    requires Reachable(s) && ws in s.workspaces && n <= s.changes
    ensures CanMiss(s, ws, n) <==> StaleIn(s, EditionOf(s, ws), n)
  {
    ReachableInv(s);
    if StaleIn(s, EditionOf(s, ws), n) {
      StaleIsServed(s, ws, n);
    } else {
      forall es, r | Unread(s, r) && Exec(s, es).Some? ensures !ServedWithout(Exec(s, es).value, r, ws, n) {
        ShieldedNeverMisses(s, es, EditionOf(s, ws), n, r);
      }
    }
  }

  // ---------------------------------------------------------------- a run that serves a stale answer

  lemma Step(s: State, e: Event) returns (s': State)
    requires Reachable(s) && Apply(s, e).Some?
    ensures Reachable(s') && s' == Apply(s, e).value
  {
    var es :| Exec(Init(), es) == Some(s);
    RunSnoc(Apply, Init(), es, e);
    s' := Apply(s, e).value;
    assert Exec(Init(), es + [e]) == Some(s');
  }

  const ASKED := Request(0, "hi", 1, false, Started, 0, 0, 0)
  const HI := Key(0, 0, 0, 1, Normalize("hi"))

  /** A request of a fresh workspace that finds the identity at version zero. */
  lemma Asks(s: State) returns (s': State)
    requires Reachable(s) && 0 in s.workspaces && s.workspaces[0] == Workspace(0, 0, 1)
    ensures Reachable(s')
    ensures s' == s.(requests := s.requests[s.nextRequest := ASKED.(phase := Eligible, stamp := 1)], nextRequest := s.nextRequest + 1)
  {
    var r := s.nextRequest;
    var s1 := Step(s, Ask(0, "hi", 1));
    assert s1.requests[r] == ASKED;
    var s2 := Step(s1, ReadIdentity(r));
    assert s2.requests[r] == ASKED.(phase := Identified, stamp := 1);
    s' := Step(s2, ReadHistory(r, false));
    assert s'.requests == s.requests[r := ASKED.(phase := Eligible, stamp := 1)];
  }

  /** It finds nothing cached and retrieves. */
  lemma Retrieves(s: State, r: nat) returns (s': State)
    requires Reachable(s) && r in s.requests && s.requests[r] == ASKED.(phase := Eligible, stamp := 1) && s.cache == map[]
    ensures Reachable(s') && s' == s.(requests := s.requests[r := ASKED.(phase := Retrieved(s.changes), stamp := 1)])
  {
    var missed := Step(s, Get(r));
    assert missed == WithRequest(s, r, ASKED.(phase := Missed, stamp := 1));
    s' := Step(missed, Retrieve(r));
    assert s' == WithRequest(s, r, ASKED.(phase := Retrieved(s.changes), stamp := 1));
  }

  /** It answers from what it retrieved and caches the answer. */
  lemma Caches(s: State, r: nat, seen: nat) returns (s': State)
    requires Reachable(s) && r in s.requests && s.requests[r] == ASKED.(phase := Retrieved(seen), stamp := 1) && s.cache == map[]
    ensures Reachable(s') && s'.cache == map[HI := Entry(HI, "hi", seen, false, Answered)]
    ensures s' == s.(requests := s.requests[r := ASKED.(phase := Uncached, stamp := 1)], cache := s'.cache)
  {
    var entry := Entry(HI, "hi", seen, false, Answered);
    assert KeyOf(s.requests[r]) == HI;
    var generated := Step(s, Generate(r, Answered));
    assert generated == WithRequest(s, r, ASKED.(phase := Caching(entry), stamp := 1));
    s' := Step(generated, Set(r));
    assert s' == WithRequest(s, r, ASKED.(phase := Uncached, stamp := 1)).(cache := map[HI := entry]);
  }

  const STOPPED := Writer(Remove, 0, 0, Stopped, {2})

  lemma RemovalStarts(s: State) returns (s': State)
    requires Reachable(s) && 0 in s.docs && s.docs[0] == Document(0, Pending) && s.writers == map[] && s.nextWriter == 0
    ensures Reachable(s') && s' == s.(writers := map[0 := Writer(Remove, 0, 0, Guarded, {})], nextWriter := 1)
  {
    var started := Step(s, StartWriter(Remove, 0));
    assert started.writers == map[0 := Writer(Remove, 0, 0, Starting, {})];
    s' := Step(started, Guard(0));
    assert s'.writers == map[0 := Writer(Remove, 0, 0, Guarded, {})];
  }

  /** A removal stops between deleting the document and bumping. */
  lemma RemovalStops(s: State) returns (s': State)
    requires Reachable(s) && 0 in s.docs && s.docs[0] == Document(0, Pending) && s.writers == map[] && s.nextWriter == 0 && s.changes == 1
    ensures Reachable(s') && s' == s.(docs := s.docs - {0}, changes := 2, writers := map[0 := STOPPED], nextWriter := 1)
  {
    var guarded := RemovalStarts(s);
    var changed := Step(guarded, Change(0));
    assert {} + {s.changes + 1} == {2};
    assert changed.writers == map[0 := STOPPED.(phase := Changed)];
    s' := Step(changed, StopWriter(0));
    assert s'.writers == map[0 := STOPPED];
  }

  /** Its retry finds no document and does nothing. */
  lemma RetrySkips(s: State) returns (s': State)
    requires Reachable(s) && 0 !in s.docs && s.nextWriter == 1 && s.writers == map[0 := STOPPED]
    ensures Reachable(s') && s' == s.(nextWriter := 2, writers := s.writers[1 := Writer(Remove, 0, 0, Skipped, {})])
  {
    var s1 := Step(s, StartWriter(Remove, 0));
    assert s1.writers[1] == Writer(Remove, 0, 0, Starting, {});
    s' := Step(s1, Guard(1));
    assert s'.writers == s.writers[1 := Writer(Remove, 0, 0, Skipped, {})];
  }

  /** A document uploaded to a fresh workspace, and an answer cached while it is there. */
  lemma CachedOnce() returns (s: State)
    ensures Reachable(s) && s.requests.Keys == {0} && s.nextRequest == 1
    ensures s.workspaces == map[0 := Workspace(0, 0, 1)] && s.docs == map[0 := Document(0, Pending)]
    ensures s.changes == 1 && s.writers == map[] && s.nextWriter == 0 && s.cache == map[HI := Entry(HI, "hi", 1, false, Answered)]
  {
    assert Exec(Init(), []) == Some(Init());
    var s1 := Step(Init(), CreateWorkspace(0));
    assert s1 == Init().(workspaces := map[0 := Workspace(0, 0, 1)], nextPublicKey := 1, changes := 1, stamps := map[(0, 0) := 1]);
    var s2 := Step(s1, Upload(0));
    assert s2.docs == map[0 := Document(0, Pending)];
    var s3 := Asks(s2);
    var s4 := Retrieves(s3, 0);
    s := Caches(s4, 0, 1);
  }

  /** Between a change and its bump there is no safe place to stop: a removal that stops there
      leaves the old version in force, its retry is a no-op, and a request that only arrives
      afterwards is served an answer retrieved before the removal. */
  lemma LostBumpServesStale() returns (before: State, s: State)
    ensures Reachable(before) && before.requests.Keys == {0} && 0 !in before.docs
    ensures before.writers == map[0 := STOPPED, 1 := Writer(Remove, 0, 0, Skipped, {})]
    ensures Reachable(s) && 1 in s.requests && s.requests[1].phase.Served?
    ensures exists n :: n in STOPPED.changes && n > s.requests[1].phase.entry.seen
  {
    var cached := CachedOnce();
    var stopped := RemovalStops(cached);
    before := RetrySkips(stopped);
    var asked := Asks(before);
    assert KeyOf(asked.requests[1]) == HI;
    s := Step(asked, Get(1));
    assert 2 in STOPPED.changes;
  }
}
