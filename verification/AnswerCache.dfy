/** Cache coherence: document writers that change what retrieval can see and bump the knowledge
    version in a later statement, and answer requests that read the identity, look the entry up,
    retrieve, and write it back. Entries may also vanish, and writes may execute late. Keys are
    kept by their components, which the key string determines and is determined by. */
module AnswerCache {
  import opened Common
  import opened Runs
  import opened AnswerKey

  datatype AnswerStatus = Answered | WasRefused | Escalated

  /** `stamp` counts the changes committed when the version was set. */
  datatype Workspace = Workspace(publicKey: nat, version: nat, stamp: nat)

  datatype DocumentStatus = Pending | Ready | Failed
  datatype Document = Document(ws: nat, status: DocumentStatus)

  datatype Kind = Remove | Replace | Embed

  datatype WriterPhase = Starting | Guarded | Changed | Bumped | Skipped | Stopped

  /** `changes` numbers the changes this run of the writer committed. */
  datatype Writer = Writer(kind: Kind, doc: nat, ws: nat, phase: WriterPhase, changes: set<nat>)

  datatype Key = Key(ws: nat, publicKey: nat, version: nat, promptVersion: nat, form: string)

  /** A cached answer, with where it came from: its question, and how many changes its retrieval saw. */
  datatype Entry = Entry(key: Key, question: string, seen: nat, hadHistory: bool, status: AnswerStatus)

  datatype Phase =
    | Started
    | Identified
    | Eligible
    | Missed
    | Retrieved(seen: nat)
    | Caching(entry: Entry)
    | Served(entry: Entry)
    | Uncached

  datatype Request = Request(
    ws: nat, question: string, promptVersion: nat, hasHistory: bool, phase: Phase,
    publicKey: nat, version: nat, stamp: nat)

  datatype State = State(
    workspaces: map<nat, Workspace>, nextPublicKey: nat, stamps: map<(nat, nat), nat>, changes: nat,
    docs: map<nat, Document>, nextDoc: nat, writers: map<nat, Writer>, nextWriter: nat,
    requests: map<nat, Request>, nextRequest: nat, cache: map<Key, Entry>)

  function Init(): State {
    State(map[], 0, map[], 0, map[], 0, map[], 0, map[], 0, map[])
  }

  datatype Event =
    | CreateWorkspace(ws: nat)
    | Upload(ws: nat)
    | FailDocument(doc: nat)
    | StartWriter(kind: Kind, doc: nat)
    | Guard(w: nat)
    | Change(w: nat)
    | FinishEmbedding(w: nat)
    | Bump(w: nat)
    | StopWriter(w: nat)
    | Ask(ws: nat, question: string, promptVersion: nat)
    | ReadIdentity(r: nat)
    | ReadHistory(r: nat, has: bool)
    | Get(r: nat)
    | GetFails(r: nat)
    | Retrieve(r: nat)
    | Generate(r: nat, status: AnswerStatus)
    | Set(r: nat)
    | Evict(key: Key)

  // ---------------------------------------------------------------- writers

  function WithWriter(s: State, w: nat, x: Writer): State {
    s.(writers := s.writers[w := x])
  }

  /** A committed change to what retrieval can see. */
  function Changes(s: State, w: nat, docs: map<nat, Document>, phase: WriterPhase): State
    requires w in s.writers
  {
    WithWriter(s, w, s.writers[w].(phase := phase, changes := s.writers[w].changes + {s.changes + 1}))
    .(docs := docs, changes := s.changes + 1)
  }

  /** Is there anything to do: the document of a removal, a document not yet in a final status. */
  function Guarding(s: State, w: nat): State
    requires w in s.writers
  {
    var x := s.writers[w];
    if x.doc in s.docs && (x.kind == Remove || s.docs[x.doc].status == Pending) then
      WithWriter(s, w, x.(phase := Guarded, ws := s.docs[x.doc].ws))
    else WithWriter(s, w, x.(phase := Skipped))
  }

  /** A removal deletes the document with its chunks, a replacement commits a new chunk set, an
      embedding run makes one more chunk visible to vector search. */
  function Changing(s: State, w: nat): State
    requires w in s.writers
  {
    var x := s.writers[w];
    if x.doc !in s.docs then
      // A delete and a fill find no row and go on; an insert violates the foreign key.
      WithWriter(s, w, x.(phase := if x.kind == Remove then Changed else if x.kind == Replace then Stopped else Guarded))
    else
      match x.kind
      case Remove => Changes(s, w, s.docs - {x.doc}, Changed)
      case Replace => Changes(s, w, s.docs, Changed)
      case Embed => Changes(s, w, s.docs, Guarded)
  }

  function SetReady(docs: map<nat, Document>, doc: nat): map<nat, Document> {
    if doc in docs then docs[doc := docs[doc].(status := Ready)] else docs
  }

  function Bumping(s: State, w: nat): State
    requires w in s.writers
  {
    var x := s.writers[w];
    var s' := WithWriter(s, w, x.(phase := Bumped));
    if x.ws !in s.workspaces then s'
    else
      var old_ := s.workspaces[x.ws];
      var row := Workspace(old_.publicKey, old_.version + 1, s.changes);
      s'.(workspaces := s.workspaces[x.ws := row], stamps := s.stamps[(row.publicKey, row.version) := row.stamp])
  }

  // ---------------------------------------------------------------- requests

  function WithRequest(s: State, r: nat, q: Request): State {
    s.(requests := s.requests[r := q])
  }

  function KeyOf(q: Request): Key {
    Key(q.ws, q.publicKey, q.version, q.promptVersion, Normalize(q.question))
  }

  /** None when the event cannot happen in this state. */
  function Apply(s: State, e: Event): Option<State> {
    match e
    case CreateWorkspace(ws) =>
      // Also what becomes of a reused id: new public key, version zero, the old documents gone.
      var row := Workspace(s.nextPublicKey, 0, s.changes + 1);
      Some(s.(workspaces := s.workspaces[ws := row], nextPublicKey := s.nextPublicKey + 1, changes := s.changes + 1,
              stamps := s.stamps[(row.publicKey, 0) := row.stamp],
              docs := map d | d in s.docs && s.docs[d].ws != ws :: s.docs[d]))
    case Upload(ws) =>
      if ws in s.workspaces then Some(s.(docs := s.docs[s.nextDoc := Document(ws, Pending)], nextDoc := s.nextDoc + 1)) else None
    case FailDocument(doc) =>
      if doc in s.docs then Some(s.(docs := s.docs[doc := s.docs[doc].(status := Failed)])) else None
    case StartWriter(kind, doc) =>
      Some(WithWriter(s, s.nextWriter, Writer(kind, doc, 0, Starting, {})).(nextWriter := s.nextWriter + 1))
    case Guard(w) => if w in s.writers && s.writers[w].phase == Starting then Some(Guarding(s, w)) else None
    case Change(w) => if w in s.writers && s.writers[w].phase == Guarded then Some(Changing(s, w)) else None
    case FinishEmbedding(w) =>
      if w in s.writers && s.writers[w].phase == Guarded && s.writers[w].kind == Embed then
        Some(WithWriter(s, w, s.writers[w].(phase := Changed)).(docs := SetReady(s.docs, s.writers[w].doc)))
      else None
    case Bump(w) => if w in s.writers && s.writers[w].phase == Changed then Some(Bumping(s, w)) else None
    case StopWriter(w) =>
      if w in s.writers && s.writers[w].phase != Bumped && s.writers[w].phase != Skipped then
        Some(WithWriter(s, w, s.writers[w].(phase := Stopped)))
      else None
    case Ask(ws, question, promptVersion) =>
      Some(WithRequest(s, s.nextRequest, Request(ws, question, promptVersion, false, Started, 0, 0, 0))
           .(nextRequest := s.nextRequest + 1))
    case Evict(key) => Some(s.(cache := s.cache - {key}))
    case _ => if e.r in s.requests then Advance(s, e, s.requests[e.r]) else None
  }

  predicate IsRequestEvent(e: Event) {
    e.ReadIdentity? || e.ReadHistory? || e.Get? || e.GetFails? || e.Retrieve? || e.Generate? || e.Set?
  }

  function Advance(s: State, e: Event, q: Request): Option<State>
    requires IsRequestEvent(e)
  {
    var next := NextRequest(s, e, q);
    if next.None? then None else Some(WithRequest(s, e.r, next.value).(cache := NextCache(s.cache, e, q)))
  }

  function NextCache(cache: map<Key, Entry>, e: Event, q: Request): map<Key, Entry> {
    if e.Set? && q.phase.Caching? then cache[KeyOf(q) := q.phase.entry] else cache
  }

  function NextRequest(s: State, e: Event, q: Request): Option<Request>
    requires IsRequestEvent(e)
  {
    match e
    case ReadIdentity(_) =>
      if !q.phase.Started? then None
      else if q.ws !in s.workspaces then Some(q.(phase := Uncached))
      else
        var row := s.workspaces[q.ws];
        Some(q.(phase := Identified, publicKey := row.publicKey, version := row.version, stamp := row.stamp))
    case ReadHistory(_, has) =>
      if q.phase.Identified? then Some(q.(hasHistory := has, phase := if has then Uncached else Eligible)) else None
    case Get(_) =>
      // Missed as well: a request that waits behind the lock looks again.
      if !q.phase.Eligible? && !q.phase.Missed? then None
      else Some(q.(phase := if KeyOf(q) in s.cache then Served(s.cache[KeyOf(q)]) else Missed))
    case GetFails(_) => if q.phase.Eligible? then Some(q.(phase := Missed)) else None
    case Retrieve(_) => if q.phase.Missed? then Some(q.(phase := Retrieved(s.changes))) else None
    case Generate(_, status) =>
      if !q.phase.Retrieved? then None
      else if status != Answered then Some(q.(phase := Uncached))
      else Some(q.(phase := Caching(Entry(KeyOf(q), q.question, q.phase.seen, q.hasHistory, status))))
    case Set(_) => if q.phase.Caching? then Some(q.(phase := Uncached)) else None
  }

  function Exec(s: State, es: seq<Event>): Option<State> {
    Run(Apply, s, es)
  }

  // ---------------------------------------------------------------- what every state keeps

  /** The version a key carries was set, and retrieval saw every change committed before that. */
  predicate EntryOk(stamps: map<(nat, nat), nat>, k: Key, e: Entry) {
    && e.key == k && Normalize(e.question) == k.form && !e.hadHistory && e.status == Answered
    && (k.publicKey, k.version) in stamps && stamps[(k.publicKey, k.version)] <= e.seen
  }

  predicate Reads(s: State, q: Request) {
    (q.publicKey, q.version) in s.stamps && s.stamps[(q.publicKey, q.version)] == q.stamp
  }

  predicate RequestOk(s: State, q: Request) {
    match q.phase
    case Started | Uncached => true
    case Identified => Reads(s, q)
    case Eligible | Missed => Reads(s, q) && !q.hasHistory
    case Retrieved(seen) => Reads(s, q) && !q.hasHistory && q.stamp <= seen
    case Caching(e) => Reads(s, q) && !q.hasHistory && EntryOk(s.stamps, KeyOf(q), e)
    case Served(e) => Reads(s, q) && !q.hasHistory && EntryOk(s.stamps, KeyOf(q), e)
  }

  predicate WorkspaceOk(s: State, ws: nat, row: Workspace) {
    && row.publicKey < s.nextPublicKey && row.stamp <= s.changes
    && (row.publicKey, row.version) in s.stamps && s.stamps[(row.publicKey, row.version)] == row.stamp
  }

  /** The version is the newest its public key ever had. */
  ghost predicate NewestOk(s: State) {
    && (forall k | k in s.stamps :: k.0 < s.nextPublicKey && s.stamps[k] <= s.changes)
    && (forall k, ws | k in s.stamps && ws in s.workspaces && k.0 == s.workspaces[ws].publicKey :: k.1 <= s.workspaces[ws].version)
    && (forall v, w | v in s.workspaces && w in s.workspaces && v != w :: s.workspaces[v].publicKey != s.workspaces[w].publicKey)
  }

  /** A change number is in use, and a writer that has bumped is behind its workspace's version. */
  predicate WriterOk(s: State, x: Writer) {
    && (forall n | n in x.changes :: n <= s.changes)
    && (x.phase == Bumped && x.ws in s.workspaces ==> forall n | n in x.changes :: n <= s.workspaces[x.ws].stamp)
  }

  ghost predicate Inv(s: State) {
    && NewestOk(s)
    && (forall ws | ws in s.workspaces :: WorkspaceOk(s, ws, s.workspaces[ws]))
    && (forall k | k in s.cache :: EntryOk(s.stamps, k, s.cache[k]))
    && (forall r | r in s.requests :: r < s.nextRequest && RequestOk(s, s.requests[r]))
    && (forall w | w in s.writers :: w < s.nextWriter && WriterOk(s, s.writers[w]))
  }

  /** Versions already set keep their stamps. */
  ghost predicate Keeps(s: State, s': State) {
    && s.changes <= s'.changes && s.nextPublicKey <= s'.nextPublicKey
    && (forall k | k in s.stamps :: k in s'.stamps && s'.stamps[k] == s.stamps[k])
  }

  lemma EntriesKept(s: State, s': State)
    requires Inv(s) && Keeps(s, s')
    ensures forall k, e | EntryOk(s.stamps, k, e) :: EntryOk(s'.stamps, k, e)
    ensures forall q | RequestOk(s, q) :: RequestOk(s', q)
  {}

  /** A version newly set, for a key that had none this high: everything committed so far is behind it. */
  ghost predicate Sets(s: State, s': State, ws: nat) {
    && Keeps(s, s') && s.nextPublicKey <= s'.nextPublicKey
    && ws in s'.workspaces && s'.workspaces == s.workspaces[ws := s'.workspaces[ws]]
    && var row := s'.workspaces[ws];
       && row.stamp == s'.changes && row.publicKey < s'.nextPublicKey
       && s'.stamps == s.stamps[(row.publicKey, row.version) := row.stamp]
       && (if ws in s.workspaces && row.publicKey == s.workspaces[ws].publicKey
           then row.version > s.workspaces[ws].version else row.publicKey >= s.nextPublicKey)
  }

  ghost predicate WritersFollow(s: State, s': State, ws: nat) {
    forall w | w in s'.writers ::
      && w < s'.nextWriter && w in s.writers && s'.writers[w].changes == s.writers[w].changes && s'.writers[w].ws == s.writers[w].ws
      && (s'.writers[w].phase == s.writers[w].phase || s'.writers[w].ws == ws || s'.writers[w].phase != Bumped)
  }

  lemma SettingKeepsNewest(s: State, s': State, ws: nat)
    requires NewestOk(s) && Sets(s, s', ws)
    requires forall v | v in s.workspaces :: s.workspaces[v].publicKey < s.nextPublicKey
    ensures NewestOk(s')
  {}

  lemma SettingKeepsInv(s: State, s': State, ws: nat)
    requires Inv(s) && Sets(s, s', ws) && WritersFollow(s, s', ws)
    requires s'.cache == s.cache && s'.requests == s.requests && s'.nextRequest == s.nextRequest
    ensures Inv(s')
  {
    EntriesKept(s, s');
    forall v | v in s.workspaces ensures s.workspaces[v].publicKey < s.nextPublicKey {
      assert WorkspaceOk(s, v, s.workspaces[v]);
    }
    SettingKeepsNewest(s, s', ws);
    forall w | w in s'.writers ensures WriterOk(s', s'.writers[w]) {
      assert WriterOk(s, s.writers[w]);
    }
    forall v | v in s'.workspaces ensures WorkspaceOk(s', v, s'.workspaces[v]) {
      if v != ws {
        assert WorkspaceOk(s, v, s.workspaces[v]);
      }
    }
  }

  lemma BumpKeepsInv(s: State, w: nat)
    requires Inv(s) && w in s.writers && s.writers[w].phase == Changed
    ensures Inv(Bumping(s, w))
  {
    var x := s.writers[w];
    var s' := Bumping(s, w);
    if x.ws in s.workspaces {
      assert WorkspaceOk(s, x.ws, s.workspaces[x.ws]);
      var row := s'.workspaces[x.ws];
      assert (row.publicKey, row.version) !in s.stamps;
      SettingKeepsInv(s, s', x.ws);
    } else {
      WriterKeepsInv(s, s', w);
    }
  }

  /** A writer moves, perhaps committing a change. */
  lemma WriterKeepsInv(s: State, s': State, w: nat)
    requires Inv(s) && w in s'.writers && w < s'.nextWriter && s.nextWriter <= s'.nextWriter && s.changes <= s'.changes
    requires s' == s.(writers := s.writers[w := s'.writers[w]], docs := s'.docs, changes := s'.changes, nextWriter := s'.nextWriter)
    requires WriterOk(s', s'.writers[w])
    ensures Inv(s')
  {
    EntriesKept(s, s');
    forall v | v in s'.writers ensures WriterOk(s', s'.writers[v]) {
      if v != w {
        assert WriterOk(s, s.writers[v]);
      }
    }
    forall v | v in s'.workspaces ensures WorkspaceOk(s', v, s'.workspaces[v]) {
      assert WorkspaceOk(s, v, s.workspaces[v]);
    }
  }

  lemma RequestKeepsInv(s: State, s': State, r: nat)
    requires Inv(s) && r in s'.requests && r < s'.nextRequest && s.nextRequest <= s'.nextRequest
    requires s' == s.(requests := s.requests[r := s'.requests[r]], cache := s'.cache, nextRequest := s'.nextRequest)
    requires RequestOk(s, s'.requests[r])
    requires forall k | k in s'.cache :: EntryOk(s.stamps, k, s'.cache[k])
    ensures Inv(s')
  {
    EntriesKept(s, s');
    forall v | v in s'.writers ensures WriterOk(s', s'.writers[v]) {
      assert WriterOk(s, s.writers[v]);
    }
    forall v | v in s'.workspaces ensures WorkspaceOk(s', v, s'.workspaces[v]) {
      assert WorkspaceOk(s, v, s.workspaces[v]);
    }
  }

  /** One request's next step keeps its own promise. */
  lemma AdvanceIsOk(s: State, e: Event, q: Request)
    requires IsRequestEvent(e) && RequestOk(s, q) && NextRequest(s, e, q).Some?
    requires q.ws in s.workspaces ==> WorkspaceOk(s, q.ws, s.workspaces[q.ws])
    requires KeyOf(q) in s.cache ==> EntryOk(s.stamps, KeyOf(q), s.cache[KeyOf(q)])
    requires (q.publicKey, q.version) in s.stamps ==> s.stamps[(q.publicKey, q.version)] <= s.changes
    ensures RequestOk(s, NextRequest(s, e, q).value)
  {
    match e
    case Generate(_, _) =>
    case Get(_) =>
    case _ =>
  }

  lemma AdvanceCaches(s: State, e: Event, q: Request)
    requires IsRequestEvent(e) && RequestOk(s, q)
    requires forall k | k in s.cache :: EntryOk(s.stamps, k, s.cache[k])
    ensures forall k | k in NextCache(s.cache, e, q) :: EntryOk(s.stamps, k, NextCache(s.cache, e, q)[k])
  {}

  lemma AdvanceKeepsInv(s: State, e: Event)
    requires Inv(s) && IsRequestEvent(e) && Apply(s, e).Some?
    ensures Inv(Apply(s, e).value)
  {
    AdvanceIsOk(s, e, s.requests[e.r]);
    AdvanceCaches(s, e, s.requests[e.r]);
    RequestKeepsInv(s, Apply(s, e).value, e.r);
  }

  /** A writer's step before its bump touches only its own record, the documents and the count. */
  lemma WriterIsOk(s: State, e: Event)
    requires e.Guard? || e.Change? || e.FinishEmbedding? || e.StopWriter?
    requires Apply(s, e).Some? && WriterOk(s, s.writers[e.w])
    ensures var s' := Apply(s, e).value;
            && e.w in s'.writers && WriterOk(s', s'.writers[e.w]) && s.changes <= s'.changes
            && s' == s.(writers := s.writers[e.w := s'.writers[e.w]], docs := s'.docs, changes := s'.changes)
  {
    if e.Change? {
      ChangeIsOk(s, e.w);
    }
  }

  lemma ChangeIsOk(s: State, w: nat)
    requires w in s.writers && s.writers[w].phase == Guarded && WriterOk(s, s.writers[w])
    ensures var s' := Changing(s, w);
            && w in s'.writers && WriterOk(s', s'.writers[w]) && s.changes <= s'.changes
            && s' == s.(writers := s.writers[w := s'.writers[w]], docs := s'.docs, changes := s'.changes)
  {
    var x := s.writers[w];
    if x.doc in s.docs {
      CountedIsOk(s, w, if x.kind == Remove then s.docs - {x.doc} else s.docs, if x.kind == Embed then Guarded else Changed);
    }
  }

  lemma CountedIsOk(s: State, w: nat, docs: map<nat, Document>, phase: WriterPhase)
    requires w in s.writers && WriterOk(s, s.writers[w]) && phase != Bumped
    ensures var s' := Changes(s, w, docs, phase);
            && w in s'.writers && WriterOk(s', s'.writers[w]) && s.changes <= s'.changes
            && s' == s.(writers := s.writers[w := s'.writers[w]], docs := docs, changes := s'.changes)
  {}

  lemma ApplyKeepsInv(s: State, e: Event)
    requires Inv(s) && Apply(s, e).Some?
    ensures Inv(Apply(s, e).value)
  {
    if IsRequestEvent(e) {
      AdvanceKeepsInv(s, e);
    } else if e.Guard? || e.Change? || e.FinishEmbedding? || e.StopWriter? {
      WriterIsOk(s, e);
      WriterKeepsInv(s, Apply(s, e).value, e.w);
    } else {
      RareKeepsInv(s, e);
    }
  }

  lemma CreateKeepsInv(s: State, ws: nat)
    requires Inv(s)
    ensures Inv(Apply(s, CreateWorkspace(ws)).value)
  {
    assert forall k | k in s.stamps :: k.0 != s.nextPublicKey;
    SettingKeepsInv(s, Apply(s, CreateWorkspace(ws)).value, ws);
  }

  lemma RareKeepsInv(s: State, e: Event)
    requires e.CreateWorkspace? || e.Upload? || e.FailDocument? || e.Evict? || e.Ask? || e.Bump? || e.StartWriter?
    requires Inv(s) && Apply(s, e).Some?
    ensures Inv(Apply(s, e).value)
  {
    if e.CreateWorkspace? {
      CreateKeepsInv(s, e.ws);
    } else if e.Ask? {
      RequestKeepsInv(s, Apply(s, e).value, s.nextRequest);
    } else if e.Bump? {
      BumpKeepsInv(s, e.w);
    } else if e.StartWriter? {
      WriterKeepsInv(s, Apply(s, e).value, s.nextWriter);
    } else {
      StillKeepsInv(s, Apply(s, e).value);
    }
  }

  lemma StillKeepsInv(s: State, s': State)
    requires Inv(s) && s' == s.(docs := s'.docs, nextDoc := s'.nextDoc, cache := s'.cache)
    requires forall k | k in s'.cache :: k in s.cache && s'.cache[k] == s.cache[k]
    ensures Inv(s')
  {
    EntriesKept(s, s');
    forall v | v in s'.writers ensures WriterOk(s', s'.writers[v]) {
      assert WriterOk(s, s.writers[v]);
    }
    forall v | v in s'.workspaces ensures WorkspaceOk(s', v, s'.workspaces[v]) {
      assert WorkspaceOk(s, v, s.workspaces[v]);
    }
  }

  lemma RunKeepsInv(s: State, es: seq<Event>)
    requires Inv(s) && Exec(s, es).Some?
    ensures Inv(Exec(s, es).value)
  {
    forall t, e | Inv(t) && Apply(t, e).Some? ensures Inv(Apply(t, e).value) {
      ApplyKeepsInv(t, e);
    }
    RunKeeps(Apply, t => Inv(t), s, es);
  }

  ghost predicate Reachable(s: State) {
    exists es :: Exec(Init(), es) == Some(s)
  }

  lemma ReachableInv(s: State)
    requires Reachable(s)
    ensures Inv(s)
  {
    var es :| Exec(Init(), es) == Some(s);
    RunKeepsInv(Init(), es);
  }
}
