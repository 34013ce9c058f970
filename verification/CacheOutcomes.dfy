/** What a cacheable question and a document writer come to when nothing comes between their
    statements: an entry once written is found, and a writer leaves its workspace a new version. */
module CacheOutcomes {
  import opened Common
  import opened Runs
  import opened AnswerKey
  import opened AnswerCache
  import opened CacheCoherence

  lemma Then(s: State, es: seq<Event>, t: State, e: Event, u: State)
    requires Exec(s, es) == Some(t) && Apply(t, e) == Some(u)
    ensures Exec(s, es + [e]) == Some(u)
  {
    RunSnoc(Apply, s, es, e);
  }

  // ---------------------------------------------------------------- a question

  /** The lookup of a new question without history, in a workspace that exists. */
  function Looked(s: State, ws: nat, question: string, promptVersion: nat): Request
    requires ws in s.workspaces
  {
    var row := s.workspaces[ws];
    var key := Key(ws, row.publicKey, row.version, promptVersion, Normalize(question));
    Request(ws, question, promptVersion, false, if key in s.cache then Served(s.cache[key]) else Missed,
            row.publicKey, row.version, row.stamp)
  }

  function LookUp(s: State, ws: nat, question: string, promptVersion: nat): seq<Event> {
    [Ask(ws, question, promptVersion), ReadIdentity(s.nextRequest), ReadHistory(s.nextRequest, false), Get(s.nextRequest)]
  }

  function Beside(s: State, q: Request): State {
    s.(requests := s.requests[s.nextRequest := q], nextRequest := s.nextRequest + 1)
  }

  /** A new request for the question that has got this far. */
  function Asked(s: State, ws: nat, question: string, promptVersion: nat, phase: Phase): Request
    requires ws in s.workspaces
  {
    var row := s.workspaces[ws];
    Request(ws, question, promptVersion, false, phase, row.publicKey, row.version, row.stamp)
  }

  lemma QuestionIsIdentified(s: State, ws: nat, question: string, promptVersion: nat)
    requires ws in s.workspaces
    ensures Exec(s, [Ask(ws, question, promptVersion), ReadIdentity(s.nextRequest)])
         == Some(Beside(s, Asked(s, ws, question, promptVersion, Identified)))
  {
    var asked := Request(ws, question, promptVersion, false, Started, 0, 0, 0);
    var e := Ask(ws, question, promptVersion);
    assert Exec(s, []) == Some(s);
    Then(s, [], s, e, Beside(s, asked));
    Moves(s, asked, Asked(s, ws, question, promptVersion, Identified));
    Then(s, [] + [e], Beside(s, asked), ReadIdentity(s.nextRequest), Beside(s, Asked(s, ws, question, promptVersion, Identified)));
    assert [] + [e] + [ReadIdentity(s.nextRequest)] == [e, ReadIdentity(s.nextRequest)];
  }

  /** A question is served the entry under its workspace's public key and version, its prompt
      version and its normal form if there is one, and misses if there is none. */
  lemma QuestionIsLookedUp(s: State, ws: nat, question: string, promptVersion: nat)
    requires ws in s.workspaces
    ensures Exec(s, LookUp(s, ws, question, promptVersion)) == Some(Beside(s, Looked(s, ws, question, promptVersion)))
  {
    var r := s.nextRequest;
    var known, eligible := Asked(s, ws, question, promptVersion, Identified), Asked(s, ws, question, promptVersion, Eligible);
    var es := [Ask(ws, question, promptVersion), ReadIdentity(r)];
    QuestionIsIdentified(s, ws, question, promptVersion);
    Moves(s, known, eligible);
    Then(s, es, Beside(s, known), ReadHistory(r, false), Beside(s, eligible));
    Moves(s, eligible, Looked(s, ws, question, promptVersion));
    Then(s, es + [ReadHistory(r, false)], Beside(s, eligible), Get(r), Beside(s, Looked(s, ws, question, promptVersion)));
    assert es + [ReadHistory(r, false)] + [Get(r)] == LookUp(s, ws, question, promptVersion);
  }

  lemma Moves(s: State, q: Request, q': Request)
    ensures WithRequest(Beside(s, q), s.nextRequest, q') == Beside(s, q')
  {}

  /** What a request that misses is about to do with an answer. */
  function Produced(s: State, q: Request, status: AnswerStatus): Request {
    q.(phase := if status == Answered then Caching(Entry(KeyOf(q), q.question, s.changes, q.hasHistory, Answered)) else Uncached)
  }

  lemma MissIsProduced(s: State, r: nat, status: AnswerStatus)
    requires r in s.requests && s.requests[r].phase == Missed
    ensures Exec(s, [Retrieve(r), Generate(r, status)]) == Some(WithRequest(s, r, Produced(s, s.requests[r], status)))
  {
    var q := s.requests[r];
    var retrieved := WithRequest(s, r, q.(phase := Retrieved(s.changes)));
    assert Exec(s, []) == Some(s);
    Then(s, [], s, Retrieve(r), retrieved);
    assert WithRequest(retrieved, r, Produced(s, q, status)) == WithRequest(s, r, Produced(s, q, status));
    Then(s, [] + [Retrieve(r)], retrieved, Generate(r, status), WithRequest(s, r, Produced(s, q, status)));
    assert [] + [Retrieve(r)] + [Generate(r, status)] == [Retrieve(r), Generate(r, status)];
  }

  /** A miss that is answered is written under that key with everything retrieval saw; one that is
      refused or escalated has nothing to write. */
  lemma MissIsWritten(s: State, r: nat, status: AnswerStatus)
    requires r in s.requests && s.requests[r].phase == Missed
    ensures var q := s.requests[r];
            var produced := Exec(s, [Retrieve(r), Generate(r, status)]);
            if status == Answered then
              Exec(s, [Retrieve(r), Generate(r, status), Set(r)]) ==
              Some(WithRequest(s, r, q.(phase := Uncached))
                   .(cache := s.cache[KeyOf(q) := Entry(KeyOf(q), q.question, s.changes, q.hasHistory, Answered)]))
            else produced == Some(WithRequest(s, r, q.(phase := Uncached))) && Apply(produced.value, Set(r)).None?
  {
    MissIsProduced(s, r, status);
    var q := s.requests[r];
    var produced := WithRequest(s, r, Produced(s, q, status));
    if status == Answered {
      assert WithRequest(produced, r, q.(phase := Uncached)) == WithRequest(s, r, q.(phase := Uncached));
      Then(s, [Retrieve(r), Generate(r, status)], produced, Set(r), Apply(produced, Set(r)).value);
      assert [Retrieve(r), Generate(r, status)] + [Set(r)] == [Retrieve(r), Generate(r, status), Set(r)];
    }
  }

  /** What is written is found: any question of the same workspace, prompt version and normal form,
      asked before the version changes, is served that entry. */
  lemma WrittenIsFound(s: State, r: nat, question: string)
    requires r in s.requests && s.requests[r].phase.Caching? && s.requests[r].ws in s.workspaces
    requires s.workspaces[s.requests[r].ws].publicKey == s.requests[r].publicKey
    requires s.workspaces[s.requests[r].ws].version == s.requests[r].version
    requires Normalize(question) == Normalize(s.requests[r].question)
    ensures var q := s.requests[r];
            var t := Exec(s, [Set(r)] + LookUp(s, q.ws, question, q.promptVersion));
            t.Some? && s.nextRequest in t.value.requests && t.value.requests[s.nextRequest].phase == Served(q.phase.entry)
  {
    var q := s.requests[r];
    var written := Apply(s, Set(r)).value;
    var look := LookUp(s, q.ws, question, q.promptVersion);
    assert ([Set(r)] + look)[1..] == look && ([Set(r)] + look)[0] == Set(r);
    QuestionIsLookedUp(written, q.ws, question, q.promptVersion);
  }

  // ---------------------------------------------------------------- a writer

  /** The writer that came last, with what has become of the documents. */
  function Writing(s: State, x: Writer, docs: map<nat, Document>, changes: nat): State {
    s.(writers := s.writers[s.nextWriter := x], nextWriter := s.nextWriter + 1, docs := docs, changes := changes)
  }

  /** The numbers of the changes committed after `from`. */
  function Numbers(from: nat, n: nat): set<nat> {
    if n == 0 then {} else Numbers(from, n - 1) + {from + n}
  }

  predicate HasWork(s: State, kind: Kind, doc: nat) {
    doc in s.docs && (kind == Remove || s.docs[doc].status == Pending)
  }

  /** The writer once it has looked. */
  function Guarded(s: State, kind: Kind, doc: nat): Writer {
    if HasWork(s, kind, doc) then Writer(kind, doc, s.docs[doc].ws, WriterPhase.Guarded, {}) else Writer(kind, doc, 0, Skipped, {})
  }

  lemma GuardFinds(s: State, kind: Kind, doc: nat)
    ensures Guarding(Writing(s, Writer(kind, doc, 0, Starting, {}), s.docs, s.changes), s.nextWriter)
         == Writing(s, Guarded(s, kind, doc), s.docs, s.changes)
  {
    var started := Writing(s, Writer(kind, doc, 0, Starting, {}), s.docs, s.changes);
    assert WithWriter(started, s.nextWriter, Guarded(s, kind, doc)) == Writing(s, Guarded(s, kind, doc), s.docs, s.changes);
  }

  /** A writer goes on only with a document that is there and, unless it removes it, is not in a
      final status; otherwise it ends, having changed nothing. */
  lemma WriterIsGuarded(s: State, kind: Kind, doc: nat)
    ensures Exec(s, [StartWriter(kind, doc), Guard(s.nextWriter)]) == Some(Writing(s, Guarded(s, kind, doc), s.docs, s.changes))
  {
    var started := Writing(s, Writer(kind, doc, 0, Starting, {}), s.docs, s.changes);
    assert Exec(s, []) == Some(s);
    Then(s, [], s, StartWriter(kind, doc), started);
    GuardFinds(s, kind, doc);
    Then(s, [] + [StartWriter(kind, doc)], started, Guard(s.nextWriter), Writing(s, Guarded(s, kind, doc), s.docs, s.changes));
    assert [] + [StartWriter(kind, doc)] + [Guard(s.nextWriter)] == [StartWriter(kind, doc), Guard(s.nextWriter)];
  }

  /** Its bump gives the workspace the next version, stamped with every change so far. */
  lemma WriterBumps(s: State, es: seq<Event>, x: Writer, docs: map<nat, Document>, changes: nat)
    requires Exec(s, es) == Some(Writing(s, x, docs, changes)) && x.phase == Changed && x.ws in s.workspaces
    ensures var t := Exec(s, es + [Bump(s.nextWriter)]);
            var row := s.workspaces[x.ws];
            && t.Some? && t.value.docs == docs && t.value.changes == changes && t.value.cache == s.cache && t.value.requests == s.requests
            && t.value.workspaces == s.workspaces[x.ws := Workspace(row.publicKey, row.version + 1, changes)]
  {
    var t := Writing(s, x, docs, changes);
    Then(s, es, t, Bump(s.nextWriter), Bumping(t, s.nextWriter));
  }

  /** A removal takes the document away and a replacement its old chunks, as one change each. */
  lemma WriterRunsAlone(s: State, kind: Kind, doc: nat)
    requires HasWork(s, kind, doc) && kind != Embed && s.docs[doc].ws in s.workspaces
    ensures var w, ws := s.nextWriter, s.docs[doc].ws;
            var t := Exec(s, [StartWriter(kind, doc), Guard(w), Change(w), Bump(w)]);
            && t.Some? && t.value.docs == (if kind == Remove then s.docs - {doc} else s.docs) && t.value.changes == s.changes + 1
            && t.value.workspaces == s.workspaces[ws := Workspace(s.workspaces[ws].publicKey, s.workspaces[ws].version + 1, s.changes + 1)]
            && t.value.cache == s.cache && t.value.requests == s.requests
  {
    var w, x := s.nextWriter, Writer(kind, doc, s.docs[doc].ws, WriterPhase.Guarded, {});
    var docs := if kind == Remove then s.docs - {doc} else s.docs;
    WriterIsGuarded(s, kind, doc);
    var guarded := Writing(s, x, s.docs, s.changes);
    var changed := Writing(s, x.(phase := Changed, changes := {s.changes + 1}), docs, s.changes + 1);
    assert {} + {s.changes + 1} == {s.changes + 1};
    assert Changing(guarded, w) == changed;
    var es := [StartWriter(kind, doc), Guard(w)];
    Then(s, es, guarded, Change(w), changed);
    WriterBumps(s, es + [Change(w)], changed.writers[w], docs, s.changes + 1);
    assert es + [Change(w)] + [Bump(w)] == [StartWriter(kind, doc), Guard(w), Change(w), Bump(w)];
  }

  function Fills(w: nat, n: nat): seq<Event> {
    seq(n, _ => Change(w))
  }

  /** An embedding run fills one chunk after another. */
  lemma {:induction false} EmbeddingFills(s: State, doc: nat, n: nat)
    requires HasWork(s, Embed, doc)
    ensures Exec(s, [StartWriter(Embed, doc), Guard(s.nextWriter)] + Fills(s.nextWriter, n))
         == Some(Writing(s, Writer(Embed, doc, s.docs[doc].ws, WriterPhase.Guarded, Numbers(s.changes, n)), s.docs, s.changes + n))
  {
    var w, es := s.nextWriter, [StartWriter(Embed, doc), Guard(s.nextWriter)];
    if n == 0 {
      WriterIsGuarded(s, Embed, doc);
      assert es + Fills(w, 0) == es;
    } else {
      EmbeddingFills(s, doc, n - 1);
      var x := Writer(Embed, doc, s.docs[doc].ws, WriterPhase.Guarded, Numbers(s.changes, n - 1));
      var before := Writing(s, x, s.docs, s.changes + n - 1);
      var after := Writing(s, x.(changes := Numbers(s.changes, n)), s.docs, s.changes + n);
      assert WithWriter(before, w, x.(changes := Numbers(s.changes, n))).writers == after.writers;
      assert Changing(before, w) == after;
      Then(s, es + Fills(w, n - 1), before, Change(w), after);
      assert es + Fills(w, n) == es + Fills(w, n - 1) + [Change(w)];
    }
  }

  /** However many chunks it fills, each of them one change, it makes the document ready and bumps
      the version once, behind them all. */
  lemma EmbeddingRunsAlone(s: State, doc: nat, n: nat)
    requires HasWork(s, Embed, doc) && s.docs[doc].ws in s.workspaces
    ensures var w, ws := s.nextWriter, s.docs[doc].ws;
            var t := Exec(s, [StartWriter(Embed, doc), Guard(w)] + Fills(w, n) + [FinishEmbedding(w)] + [Bump(w)]);
            && t.Some? && t.value.docs == s.docs[doc := Document(ws, Ready)] && t.value.changes == s.changes + n
            && t.value.workspaces == s.workspaces[ws := Workspace(s.workspaces[ws].publicKey, s.workspaces[ws].version + 1, s.changes + n)]
            && t.value.cache == s.cache && t.value.requests == s.requests
  {
    var w, es := s.nextWriter, [StartWriter(Embed, doc), Guard(s.nextWriter)] + Fills(s.nextWriter, n);
    EmbeddingFills(s, doc, n);
    var x := Writer(Embed, doc, s.docs[doc].ws, WriterPhase.Guarded, Numbers(s.changes, n));
    var filled, finished := Writing(s, x, s.docs, s.changes + n), Writing(s, x.(phase := Changed), SetReady(s.docs, doc), s.changes + n);
    assert WithWriter(filled, w, x.(phase := Changed)).writers == finished.writers;
    Then(s, es, filled, FinishEmbedding(w), finished);
    WriterBumps(s, es + [FinishEmbedding(w)], x.(phase := Changed), finished.docs, s.changes + n);
  }

  /** A writer whose document has gone since it looked changes nothing. A removal and an embedding run
      still set the next version; a replacement fails on its insert and sets none. */
  lemma VanishedDocument(s: State, w: nat)
    requires w in s.writers && s.writers[w].phase == WriterPhase.Guarded && s.writers[w].doc !in s.docs && s.writers[w].ws in s.workspaces
    ensures var x, row := s.writers[w], s.workspaces[s.writers[w].ws];
            var t := Exec(s, if x.kind == Embed then [Change(w), FinishEmbedding(w), Bump(w)] else [Change(w), Bump(w)]);
            if x.kind == Replace then t.None? && Exec(s, [Change(w)]) == Some(WithWriter(s, w, x.(phase := Stopped)))
            else t.Some? && t.value.docs == s.docs && t.value.changes == s.changes
                 && t.value.workspaces == s.workspaces[x.ws := Workspace(row.publicKey, row.version + 1, s.changes)]
  {
    var x, next := s.writers[w], Changing(s, w);
    assert Exec(s, []) == Some(s);
    Then(s, [], s, Change(w), next);
    assert [] + [Change(w)] == [Change(w)] && [Change(w), Bump(w)][1..] == [Bump(w)];
    if x.kind == Embed {
      var finished := Apply(next, FinishEmbedding(w)).value;
      Then(s, [Change(w)], next, FinishEmbedding(w), finished);
      Then(s, [Change(w)] + [FinishEmbedding(w)], finished, Bump(w), Bumping(finished, w));
      assert [Change(w)] + [FinishEmbedding(w)] + [Bump(w)] == [Change(w), FinishEmbedding(w), Bump(w)];
    } else if x.kind == Remove {
      Then(s, [Change(w)], next, Bump(w), Bumping(next, w));
      assert [Change(w)] + [Bump(w)] == [Change(w), Bump(w)];
    } else {
      assert Apply(next, Bump(w)).None?;
      RunSnoc(Apply, s, [Change(w)], Bump(w));
      assert [Change(w)] + [Bump(w)] == [Change(w), Bump(w)];
    }
  }
}
