/** What holds of chunk rows and their charges in every state. Processing runs of one document may
    overlap, be redelivered and crash, and draw their ids in turns with other documents' runs, yet a
    document's rows are at every instant the complete set of one run, never a mixture; and each is
    charged once, exactly when it is embedded. */
module ChunkSets {
  import opened Common
  import opened Runs
  import opened ChunkMetering

  /** The document has a chunk with this index. */
  ghost predicate HasIndex(chunks: map<nat, Chunk>, doc: nat, k: nat) {
    exists id :: id in chunks && chunks[id].doc == doc && chunks[id].index == k
  }

  /** Two chunks of one document were inserted by the same run, in the order of their indexes. */
  predicate SameRun(a: Chunk, b: Chunk, inOrder: bool) {
    a.doc == b.doc ==> a.run == b.run && a.size == b.size && (inOrder ==> a.index < b.index)
  }

  /** Nothing of the run is missing. */
  ghost predicate RunComplete(chunks: map<nat, Chunk>, c: Chunk) {
    c.index < c.size && forall k: nat | k < c.size :: HasIndex(chunks, c.doc, k)
  }

  ghost predicate Whole(chunks: map<nat, Chunk>) {
    && (forall i, j | i in chunks && j in chunks :: SameRun(chunks[i], chunks[j], i < j))
    && (forall i | i in chunks :: RunComplete(chunks, chunks[i]))
  }

  predicate IsOf(s: State, id: nat, doc: nat) {
    id in s.chunks && s.chunks[id].doc == doc
  }

  /** A replacement has chosen all rows of its document or, when another replaced them since, none;
      and once it has inserted a row of its own, all there are. */
  ghost predicate ChoiceOk(s: State, x: Replacer) {
    && (forall id | id in x.step.ids :: id in s.used && (id in s.chunks ==> s.chunks[id].doc == x.doc))
    && (forall i, j | IsOf(s, i, x.doc) && IsOf(s, j, x.doc) && i in x.step.ids :: j in x.step.ids)
    && (HasInserted(x) ==> forall i | IsOf(s, i, x.doc) :: i in x.step.ids)
  }

  /** Only one replacement per document has inserted, and its new ids are nobody's choice. */
  ghost predicate Apart(x: Replacer, y: Replacer) {
    && !(HasInserted(x) && HasInserted(y) && x.doc == y.doc)
    && (forall id | id in y.step.ids :: !InDraw(x, id))
  }

  ghost predicate SetsOk(s: State) {
    && Whole(s.chunks)
    && (forall r | r in s.replacers :: ChoiceOk(s, s.replacers[r]))
    && (forall a, b | a in s.replacers && b in s.replacers && a != b :: Apart(s.replacers[a], s.replacers[b]))
  }

  // ---------------------------------------------------------------- rows only go

  /** Rows keep their place, or go a whole document at a time. */
  ghost predicate Thinned(s: State, s': State) {
    && (forall i | i in s'.chunks :: i in s.chunks && s'.chunks[i] == s.chunks[i].(embedded := s'.chunks[i].embedded))
    && (forall i, j | i in s.chunks && j in s'.chunks && s.chunks[i].doc == s.chunks[j].doc :: i in s'.chunks)
    && s'.used == s.used
  }

  lemma ThinnedIsWhole(s: State, s': State)
    requires Whole(s.chunks) && Thinned(s, s')
    ensures Whole(s'.chunks)
  {
    forall i | i in s'.chunks ensures RunComplete(s'.chunks, s'.chunks[i]) {
      assert RunComplete(s.chunks, s.chunks[i]);
      forall k: nat | k < s'.chunks[i].size ensures HasIndex(s'.chunks, s'.chunks[i].doc, k) {
        assert HasIndex(s.chunks, s.chunks[i].doc, k);
        var id :| id in s.chunks && s.chunks[id].doc == s.chunks[i].doc && s.chunks[id].index == k;
        assert id in s'.chunks;
      }
    }
    forall i, j | i in s'.chunks && j in s'.chunks ensures SameRun(s'.chunks[i], s'.chunks[j], i < j) {
      assert SameRun(s.chunks[i], s.chunks[j], i < j);
    }
  }

  lemma ThinningKeepsSets(s: State, s': State)
    requires SetsOk(s) && Thinned(s, s')
    requires forall r | r in s'.replacers :: r in s.replacers && s'.replacers[r] == s.replacers[r]
    ensures SetsOk(s')
  {
    ThinnedIsWhole(s, s');
    forall i, doc | IsOf(s', i, doc) ensures IsOf(s, i, doc) {}
    forall r | r in s'.replacers ensures ChoiceOk(s', s'.replacers[r]) {
      assert ChoiceOk(s, s.replacers[r]);
    }
    forall a, b | a in s'.replacers && b in s'.replacers && a != b ensures Apart(s'.replacers[a], s'.replacers[b]) {
      assert Apart(s.replacers[a], s.replacers[b]);
    }
  }

  // ---------------------------------------------------------------- a replacement moves

  lemma ReplacerKeepsSets(s: State, s': State, r: nat)
    requires SetsOk(s) && r in s'.replacers && s'.chunks == s.chunks && s.used <= s'.used
    requires s'.replacers == s.replacers[r := s'.replacers[r]] && ChoiceOk(s', s'.replacers[r])
    requires forall o | o in s.replacers && o != r :: Apart(s'.replacers[r], s.replacers[o]) && Apart(s.replacers[o], s'.replacers[r])
    ensures SetsOk(s')
  {
    forall o | o in s'.replacers ensures ChoiceOk(s', s'.replacers[o]) {
      if o != r {
        assert ChoiceOk(s, s.replacers[o]);
        assert forall i, doc :: IsOf(s', i, doc) <==> IsOf(s, i, doc);
      }
    }
    forall a, b | a in s'.replacers && b in s'.replacers && a != b ensures Apart(s'.replacers[a], s'.replacers[b]) {
      if a != r && b != r {
        assert Apart(s.replacers[a], s.replacers[b]);
      }
    }
  }

  lemma StartKeepsSets(s: State, doc: nat)
    requires Inv(s) && SetsOk(s)
    ensures SetsOk(Apply(s, StartReplacing(doc)).value)
  {
    var s' := Apply(s, StartReplacing(doc)).value;
    var x := s'.replacers[s.nextReplacer];
    forall id | id in x.step.ids ensures id in s.used {
      assert ChunkOk(s, id, s.chunks[id]);
    }
    assert forall i | IsOf(s', i, doc) :: i in x.step.ids;
    forall o | o in s.replacers && o != s.nextReplacer ensures Apart(x, s.replacers[o]) && Apart(s.replacers[o], x) {
      assert ReplacerOk(s, s.replacers[o]);
    }
    ReplacerKeepsSets(s, s', s.nextReplacer);
  }

  lemma DeleteKeepsSets(s: State, r: nat)
    requires SetsOk(s) && r in s.replacers && s.replacers[r].step.Choosing? && Deleting(s, r).Some?
    ensures SetsOk(Deleting(s, r).value)
  {
    var s' := Deleting(s, r).value;
    assert ChoiceOk(s, s.replacers[r]);
    assert forall i, doc :: IsOf(s', i, doc) <==> IsOf(s, i, doc);
    forall o | o in s.replacers && o != r ensures Apart(s'.replacers[r], s.replacers[o]) && Apart(s.replacers[o], s'.replacers[r]) {
      assert Apart(s.replacers[r], s.replacers[o]) && Apart(s.replacers[o], s.replacers[r]);
    }
    ReplacerKeepsSets(s, s', r);
  }

  lemma BeginKeepsSets(s: State, r: nat, count: nat)
    requires SetsOk(s) && Apply(s, BeginInsert(r, count)).Some?
    ensures SetsOk(Apply(s, BeginInsert(r, count)).value)
  {
    var s' := Apply(s, BeginInsert(r, count)).value;
    assert ChoiceOk(s, s.replacers[r]);
    assert forall i, doc :: IsOf(s', i, doc) <==> IsOf(s, i, doc);
    forall o | o in s.replacers && o != r ensures Apart(s'.replacers[r], s.replacers[o]) && Apart(s.replacers[o], s'.replacers[r]) {
      assert Apart(s.replacers[r], s.replacers[o]) && Apart(s.replacers[o], s.replacers[r]);
    }
    ReplacerKeepsSets(s, s', r);
  }

  /** A replacement's first row finds every row of its document deleted: a complete set that came
      since it chose would have an index zero, and violate the unique key. */
  lemma FirstRowNeedsAll(s: State, r: nat, id: nat)
    requires SetsOk(s) && r in s.replacers && s.replacers[r].step.Inserting?
    requires InsertingRow(s, r, id).Some? && r in InsertingRow(s, r, id).value.replacers
    ensures forall i | IsOf(s, i, s.replacers[r].doc) :: i in s.replacers[r].step.ids
  {
    var x := s.replacers[r];
    assert ChoiceOk(s, x);
    if x.step.drawn == [] {
      forall i | IsOf(s, i, x.doc) ensures i in x.step.ids {
        assert RunComplete(s.chunks, s.chunks[i]) && HasIndex(s.chunks, x.doc, 0);
        var zero :| zero in s.chunks && s.chunks[zero].doc == x.doc && s.chunks[zero].index == 0;
        assert zero in ChunksOf(s, x.doc) && IsOf(s, zero, x.doc);
      }
    }
  }

  lemma RowKeepsSets(s: State, r: nat, id: nat)
    requires Inv(s) && SetsOk(s) && r in s.replacers && s.replacers[r].step.Inserting? && InsertingRow(s, r, id).Some?
    ensures SetsOk(InsertingRow(s, r, id).value)
  {
    var x := s.replacers[r];
    var s' := InsertingRow(s, r, id).value;
    if r in s'.replacers {
      FirstRowNeedsAll(s, r, id);
      assert ChoiceOk(s, x);
      assert forall i, doc :: IsOf(s', i, doc) <==> IsOf(s, i, doc);
      forall o | o in s.replacers && o != r ensures Apart(s'.replacers[r], s.replacers[o]) && Apart(s.replacers[o], s'.replacers[r]) {
        RowStaysApart(s, r, id, o);
      }
      ReplacerKeepsSets(s, s', r);
    } else {
      ThinningKeepsSets(s, s');
    }
  }

  lemma RowStaysApart(s: State, r: nat, id: nat, o: nat)
    requires SetsOk(s) && r in s.replacers && s.replacers[r].step.Inserting? && o in s.replacers && o != r
    requires InsertingRow(s, r, id).Some? && r in InsertingRow(s, r, id).value.replacers
    ensures var y := InsertingRow(s, r, id).value.replacers[r]; Apart(y, s.replacers[o]) && Apart(s.replacers[o], y)
  {
    var x := s.replacers[r];
    assert Apart(x, s.replacers[o]) && Apart(s.replacers[o], x) && ChoiceOk(s, s.replacers[o]);
    assert forall i | i in x.step.drawn + [id] :: i in x.step.drawn || i == id;
    assert !RowPending(s, r, x.doc, |x.step.drawn|);
  }

  // ---------------------------------------------------------------- a replacement commits

  /** At its commit a replacement deletes every row its document has by then or, when another
      replaced them since it chose, none, and then it inserts none either. */
  lemma AllOrNothing(s: State, r: nat)
    requires SetsOk(s) && r in s.replacers && s.replacers[r].step.Inserting?
    ensures var x := s.replacers[r];
            || (forall i | IsOf(s, i, x.doc) :: i in x.step.ids)
            || (x.step.drawn == [] && forall i | IsOf(s, i, x.doc) :: i !in x.step.ids)
  {
    assert ChoiceOk(s, s.replacers[r]);
  }

  lemma IncreasingIsInjective(ids: seq<nat>, j: nat, k: nat)
    requires Increasing(ids) && j < |ids| && k < |ids| && ids[j] == ids[k]
    ensures j == k
  {}

  /** The row of a drawn id. */
  lemma RowAt(doc: nat, drawn: seq<nat>, run: nat, size: nat, k: nat)
    requires Increasing(drawn) && k < |drawn|
    ensures drawn[k] in Rows(doc, drawn, run, size) && Rows(doc, drawn, run, size)[drawn[k]] == Chunk(doc, k, false, run, size)
  {
    assert drawn[k] in drawn;
    var j :| 0 <= j < |drawn| && drawn[j] == drawn[k] && Rows(doc, drawn, run, size)[drawn[k]] == Chunk(doc, j, false, run, size);
    IncreasingIsInjective(drawn, j, k);
  }

  lemma RowsAreWhole(doc: nat, drawn: seq<nat>, run: nat)
    requires Increasing(drawn)
    ensures Whole(Rows(doc, drawn, run, |drawn|))
  {
    var rows := Rows(doc, drawn, run, |drawn|);
    forall k: nat | k < |drawn| ensures HasIndex(rows, doc, k) {
      RowAt(doc, drawn, run, |drawn|, k);
    }
    forall i, j | i in rows && j in rows ensures SameRun(rows[i], rows[j], i < j) {
      var a :| 0 <= a < |drawn| && drawn[a] == i;
      var b :| 0 <= b < |drawn| && drawn[b] == j;
      RowAt(doc, drawn, run, |drawn|, a);
      RowAt(doc, drawn, run, |drawn|, b);
      assert b <= a ==> drawn[b] <= drawn[a];
    }
    forall i | i in rows ensures RunComplete(rows, rows[i]) {
      var a :| 0 <= a < |drawn| && drawn[a] == i;
      RowAt(doc, drawn, run, |drawn|, a);
    }
  }

  /** Two whole sets that share no document make a whole set. */
  lemma JoinIsWhole(a: map<nat, Chunk>, b: map<nat, Chunk>)
    requires Whole(a) && Whole(b) && a.Keys !! b.Keys && forall i, j | i in a && j in b :: a[i].doc != b[j].doc
    ensures Whole(a + b)
  {
    var all := a + b;
    forall i | i in all ensures RunComplete(all, all[i]) {
      var part := if i in b then b else a;
      assert RunComplete(part, part[i]);
      forall k: nat | k < all[i].size ensures HasIndex(all, all[i].doc, k) {
        assert HasIndex(part, part[i].doc, k);
        var id :| id in part && part[id].doc == part[i].doc && part[id].index == k;
        assert all[id] == part[id];
      }
    }
    forall i, j | i in all && j in all ensures SameRun(all[i], all[j], i < j) {
      assert i in a && j in a ==> SameRun(a[i], a[j], i < j);
      assert i in b && j in b ==> SameRun(b[i], b[j], i < j);
    }
  }

  /** What the delete leaves is whole, and shares no document with the new rows. */
  lemma RestIsWhole(s: State, r: nat)
    requires SetsOk(s) && r in s.replacers && s.replacers[r].step.Inserting?
    ensures var x := s.replacers[r];
            Whole(s.chunks - x.step.ids) && (x.step.drawn != [] ==> forall i | i in s.chunks - x.step.ids :: s.chunks[i].doc != x.doc)
  {
    var x := s.replacers[r];
    assert ChoiceOk(s, x);
    AllOrNothing(s, r);
    assert forall i | i in s.chunks && s.chunks[i].doc == x.doc :: IsOf(s, i, x.doc);
    ThinnedIsWhole(s, s.(chunks := s.chunks - x.step.ids));
  }

  lemma CommitIsWhole(s: State, r: nat)
    requires Inv(s) && SetsOk(s) && r in s.replacers && s.replacers[r].step.Inserting?
    ensures Whole(CommittingRows(s, r).chunks)
  {
    var x := s.replacers[r];
    assert ReplacerOk(s, x);
    RestIsWhole(s, r);
    RowsAreWhole(x.doc, x.step.drawn, r);
    JoinIsWhole(s.chunks - x.step.ids, Rows(x.doc, x.step.drawn, r, |x.step.drawn|));
  }

  /** After the commit the document's rows are the new ones, and other documents' are as they were. */
  lemma CommittedRows(s: State, r: nat)
    requires SetsOk(s) && r in s.replacers && s.replacers[r].step.Inserting? && ReplacerOk(s, s.replacers[r])
    ensures var x, s' := s.replacers[r], CommittingRows(s, r);
            && (forall i, doc | IsOf(s', i, doc) :: if InDraw(x, i) then doc == x.doc else IsOf(s, i, doc))
            && (x.step.drawn != [] ==> forall i | IsOf(s', i, x.doc) :: InDraw(x, i))
            && (forall i, doc | IsOf(s, i, doc) && doc != x.doc :: IsOf(s', i, doc))
  {
    var x := s.replacers[r];
    assert ChoiceOk(s, x);
    AllOrNothing(s, r);
  }

  lemma CommitKeepsChoice(s: State, r: nat, o: nat)
    requires SetsOk(s) && r in s.replacers && s.replacers[r].step.Inserting? && ReplacerOk(s, s.replacers[r])
    requires o in s.replacers && o != r
    ensures ChoiceOk(CommittingRows(s, r), s.replacers[o])
  {
    var x, y, s' := s.replacers[r], s.replacers[o], CommittingRows(s, r);
    assert ChoiceOk(s, y) && Apart(x, y);
    CommittedRows(s, r);
    forall id | id in y.step.ids && id in s'.chunks ensures s'.chunks[id].doc == y.doc {
      assert IsOf(s', id, s'.chunks[id].doc);
    }
  }

  lemma CommitKeepsSets(s: State, r: nat)
    requires Inv(s) && SetsOk(s) && r in s.replacers && s.replacers[r].step.Inserting?
    ensures SetsOk(CommittingRows(s, r))
  {
    var s' := CommittingRows(s, r);
    CommitIsWhole(s, r);
    assert ReplacerOk(s, s.replacers[r]);
    forall o | o in s'.replacers ensures ChoiceOk(s', s'.replacers[o]) {
      CommitKeepsChoice(s, r, o);
    }
    forall a, b | a in s'.replacers && b in s'.replacers && a != b ensures Apart(s'.replacers[a], s'.replacers[b]) {
      assert Apart(s.replacers[a], s.replacers[b]);
    }
  }

  // ---------------------------------------------------------------- every step

  lemma StepKeepsSets(s: State, e: Event)
    requires Inv(s) && SetsOk(s) && Apply(s, e).Some?
    ensures SetsOk(Apply(s, e).value)
  {
    if e.StartReplacing? {
      StartKeepsSets(s, e.doc);
    } else if e.Delete? {
      DeleteKeepsSets(s, e.r);
    } else if e.BeginInsert? {
      BeginKeepsSets(s, e.r, e.count);
    } else if e.InsertRow? {
      RowKeepsSets(s, e.r, e.id);
    } else if e.CommitReplacing? {
      CommitKeepsSets(s, e.r);
    } else {
      OthersOnlyThin(s, e);
      ThinningKeepsSets(s, Apply(s, e).value);
    }
  }

  lemma OthersOnlyThin(s: State, e: Event)
    requires !e.StartReplacing? && !e.Delete? && !e.BeginInsert? && !e.InsertRow? && !e.CommitReplacing? && Apply(s, e).Some?
    ensures var s' := Apply(s, e).value;
            Thinned(s, s') && forall r | r in s'.replacers :: r in s.replacers && s'.replacers[r] == s.replacers[r]
  {
    match e
    case Work(_) =>
    case Remove(_) =>
    case _ =>
  }

  lemma ReachableSets(s: State)
    requires Reachable(s)
    ensures SetsOk(s)
  {
    var es :| Exec(Init(), es) == Some(s);
    forall t, e | Inv(t) && SetsOk(t) && Apply(t, e).Some? ensures Inv(Apply(t, e).value) && SetsOk(Apply(t, e).value) {
      ApplyKeepsInv(t, e);
      StepKeepsSets(t, e);
    }
    RunKeeps(Apply, t => Inv(t) && SetsOk(t), Init(), es);
  }

  /** In every state, however processing runs of one document and of others overlap, are redelivered
      and crash, a document's chunks are exactly those one run inserted: all from the same run, no
      index twice, ids in the order of the indexes, and every index below the run's number of chunks
      there. */
  lemma ChunksAreOneRun(s: State, i: nat, j: nat)
    requires Reachable(s) && i in s.chunks && j in s.chunks && s.chunks[i].doc == s.chunks[j].doc
    ensures s.chunks[i].run == s.chunks[j].run && s.chunks[i].size == s.chunks[j].size
    ensures i < j <==> s.chunks[i].index < s.chunks[j].index
    ensures s.chunks[i].index < s.chunks[i].size && forall k: nat | k < s.chunks[i].size :: HasIndex(s.chunks, s.chunks[i].doc, k)
  {
    ReachableSets(s);
    assert SameRun(s.chunks[i], s.chunks[j], i < j) && SameRun(s.chunks[j], s.chunks[i], j < i);
    assert RunComplete(s.chunks, s.chunks[i]);
  }

  // ---------------------------------------------------------------- charge once

  lemma {:induction false} DistinctOnce(charges: seq<nat>, id: nat)
    requires Distinct(charges)
    ensures multiset(charges)[id] == if id in charges then 1 else 0
    decreases |charges|
  {
    if charges != [] {
      var front, last := charges[..|charges| - 1], charges[|charges| - 1];
      assert charges == front + [last];
      assert last !in front;
      DistinctOnce(front, id);
    }
  }

  /** Charge once: under any redelivery, any number of workers on one document, and chunks replaced
      or removed in between, no chunk id is ever charged twice, and a chunk row has an embedding
      exactly if it has been charged exactly once. */
  lemma ChargedOncePerChunk(s: State, id: nat)
    requires Reachable(s)
    ensures multiset(s.charges)[id] <= 1
    ensures id in s.chunks ==> (s.chunks[id].embedded <==> multiset(s.charges)[id] == 1)
    ensures id in s.events <==> multiset(s.charges)[id] == 1
  {
    ReachableInv(s);
    DistinctOnce(s.charges, id);
    if id in s.chunks {
      assert ChunkOk(s, id, s.chunks[id]);
    }
  }

  /** Charges are never taken back, and a new one is for a chunk whose embedding just appeared. */
  lemma ChargesOnlyFollowEmbeddings(s: State, e: Event)
    requires Reachable(s) && Apply(s, e).Some?
    ensures var s' := Apply(s, e).value;
            s'.charges == s.charges
            || exists id :: id in s.chunks && !s.chunks[id].embedded && id in s'.chunks && s'.chunks[id].embedded
                            && s'.charges == s.charges + [id]
  {
    ReachableInv(s);
    if e.Work? {
      assert WorkerOk(s, s.workers[e.w]);
    }
  }
}
