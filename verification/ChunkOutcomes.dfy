/** What an embedding job, a processing run and a removal come to when nothing else is under way. */
module ChunkOutcomes {
  import opened Common
  import opened Runs
  import opened ChunkMetering
  import ChunkSets

  /** Nobody is at work. */
  predicate Idle(s: State) {
    s.workers == map[] && s.replacers == map[]
  }

  predicate Own(e: Event, w: nat, r: nat) {
    match e
    case Work(o) => o == w
    case Delete(o) => o == r
    case BeginInsert(o, _) => o == r
    case InsertRow(o, _) => o == r
    case CommitReplacing(o) => o == r
    case _ => false
  }

  ghost predicate OwnAll(es: seq<Event>, w: nat, r: nat) {
    forall i | 0 <= i < |es| :: Own(es[i], w, r)
  }

  /** The job or run begun by `e`, by its own statements alone, leads to `t`. */
  ghost predicate Alone(s: State, e: Event, t: State) {
    Apply(s, e).Some? && exists es :: OwnAll(es, s.nextWorker, s.nextReplacer) && Exec(Apply(s, e).value, es) == Some(t)
  }

  lemma AloneAtOnce(s: State, e: Event)
    requires Apply(s, e).Some?
    ensures Alone(s, e, Apply(s, e).value)
  {
    assert OwnAll([], s.nextWorker, s.nextReplacer) && Exec(Apply(s, e).value, []) == Some(Apply(s, e).value);
  }

  lemma AloneThen(s: State, e: Event, t: State, next: Event, u: State)
    requires Alone(s, e, t) && Own(next, s.nextWorker, s.nextReplacer) && Apply(t, next) == Some(u)
    ensures Alone(s, e, u)
  {
    var es :| OwnAll(es, s.nextWorker, s.nextReplacer) && Exec(Apply(s, e).value, es) == Some(t);
    RunSnoc(Apply, Apply(s, e).value, es, next);
    assert OwnAll(es + [next], s.nextWorker, s.nextReplacer);
  }

  // ---------------------------------------------------------------- an embedding job

  /** These chunks embedded and paid for, in this order. */
  function Embedded(s: State, ids: seq<nat>): State {
    s.(chunks := map id | id in s.chunks :: s.chunks[id].(embedded := s.chunks[id].embedded || id in ids),
       events := s.events + (set id | id in ids),
       charges := s.charges + ids)
  }

  /** The job `s.nextWorker`, which has dealt with `done` and is at `step`. */
  function Job(s: State, doc: nat, done: seq<nat>, step: WorkerStep): State {
    Embedded(s, done).(workers := map[s.nextWorker := Worker(doc, step)], nextWorker := s.nextWorker + 1)
  }

  lemma EmbeddedSnoc(s: State, ids: seq<nat>, id: nat)
    requires id in s.chunks
    ensures Embedded(s, ids + [id]) ==
            Embedded(s, ids).(chunks := Embedded(s, ids).chunks[id := s.chunks[id].(embedded := true)],
                              events := Embedded(s, ids).events + {id}, charges := Embedded(s, ids).charges + [id])
  {
    assert (set i | i in ids + [id]) == (set i | i in ids) + {id};
    assert s.charges + (ids + [id]) == (s.charges + ids) + [id];
    assert Embedded(s, ids + [id]).chunks == Embedded(s, ids).chunks[id := s.chunks[id].(embedded := true)];
  }

  lemma JobMoves(s: State, doc: nat, done: seq<nat>, step: WorkerStep, next: WorkerStep)
    ensures WorkerAt(Job(s, doc, done, step), s.nextWorker, Worker(doc, next)) == Job(s, doc, done, next)
  {}

  /** The job is the only one, so it waits for nobody. */
  lemma JobAlone(s: State, doc: nat, done: seq<nat>, step: WorkerStep)
    requires Idle(s)
    ensures forall id :: !Busy(Job(s, doc, done, step), Some(s.nextWorker), None, id)
  {}

  lemma RecordsOne(s: State, doc: nat, done: seq<nat>, id: nat, rest: seq<nat>)
    requires id in s.chunks
    ensures Apply(Job(s, doc, done, Recorded(id, rest, true)), Work(s.nextWorker)) == Some(Job(s, doc, done + [id], Looping(rest)))
  {
    EmbeddedSnoc(s, done, id);
    JobMoves(s, doc, done, Recorded(id, rest, true), Looping(rest));
    var t := Job(s, doc, done, Recorded(id, rest, true));
    assert t.chunks[id].(embedded := true) == s.chunks[id].(embedded := true);
  }

  /** It fills one chunk and pays for it. */
  lemma FillsOne(s: State, e: Event, doc: nat, done: seq<nat>, id: nat, rest: seq<nat>)
    requires Idle(s) && id in s.chunks && !s.chunks[id].embedded && id !in s.events && id !in done
    requires Alone(s, e, Job(s, doc, done, Looping([id] + rest)))
    ensures Alone(s, e, Job(s, doc, done + [id], Looping(rest)))
  {
    var w := s.nextWorker;
    var looping, filling := Job(s, doc, done, Looping([id] + rest)), Job(s, doc, done, Filling(id, rest));
    var filled, recorded := Job(s, doc, done, Filled(id, rest)), Job(s, doc, done, Recorded(id, rest, true));
    assert ([id] + rest)[1..] == rest;
    JobMoves(s, doc, done, looping.workers[w].step, Filling(id, rest));
    AloneThen(s, e, looping, Work(w), filling);
    JobAlone(s, doc, done, Filling(id, rest));
    JobMoves(s, doc, done, Filling(id, rest), Filled(id, rest));
    AloneThen(s, e, filling, Work(w), filled);
    JobMoves(s, doc, done, Filled(id, rest), Recorded(id, rest, true));
    AloneThen(s, e, filled, Work(w), recorded);
    RecordsOne(s, doc, done, id, rest);
    AloneThen(s, e, recorded, Work(w), Job(s, doc, done + [id], Looping(rest)));
  }

  lemma {:induction false} FillsAll(s: State, e: Event, doc: nat, done: seq<nat>, rest: seq<nat>)
    requires Idle(s) && Distinct(done + rest)
    requires forall id | id in rest :: id in s.chunks && !s.chunks[id].embedded && id !in s.events
    requires Alone(s, e, Job(s, doc, done, Looping(rest)))
    ensures Alone(s, e, Job(s, doc, done + rest, Looping([])))
    decreases |rest|
  {
    if rest == [] {
      assert done + rest == done;
    } else {
      assert rest == [rest[0]] + rest[1..] && (done + rest)[|done|] == rest[0];
      assert forall i | 0 <= i < |done| :: (done + rest)[i] == done[i];
      FillsOne(s, e, doc, done, rest[0], rest[1..]);
      assert done + rest == (done + [rest[0]]) + rest[1..];
      FillsAll(s, e, doc, done + [rest[0]], rest[1..]);
    }
  }

  /** A job that runs alone embeds every chunk of its document that lacks an embedding and charges
      each of them once, in the order it read them; no other chunk and no other charge is touched. */
  lemma JobRunsAlone(s: State, doc: nat, order: seq<nat>)
    requires Reachable(s) && Idle(s) && Distinct(order)
    requires forall id :: id in order <==> id in s.chunks && s.chunks[id].doc == doc && !s.chunks[id].embedded
    ensures Alone(s, StartWorker(doc, order),
                  s.(chunks := map id | id in s.chunks ::
                       if s.chunks[id].doc == doc then s.chunks[id].(embedded := true) else s.chunks[id],
                     events := s.events + (set id | id in order),
                     charges := s.charges + order,
                     nextWorker := s.nextWorker + 1))
  {
    ReachableInv(s);
    JobFillsAll(s, doc, order);
    var looping, w := Job(s, doc, order, Looping([])), s.nextWorker;
    assert looping.workers - {w} == map[];
    AloneThen(s, StartWorker(doc, order), looping, Work(w), looping.(workers := map[]));
    assert looping.chunks == map id | id in s.chunks ::
             if s.chunks[id].doc == doc then s.chunks[id].(embedded := true) else s.chunks[id];
  }

  lemma JobFillsAll(s: State, doc: nat, order: seq<nat>)
    requires Inv(s) && Idle(s) && Distinct(order)
    requires forall id :: id in order <==> id in s.chunks && s.chunks[id].doc == doc && !s.chunks[id].embedded
    ensures Alone(s, StartWorker(doc, order), Job(s, doc, order, Looping([])))
  {
    forall id | id in order ensures id !in s.events {
      assert ChunkOk(s, id, s.chunks[id]);
    }
    assert (set id | id in order) == (set id | id in ChunksOf(s, doc) && !s.chunks[id].embedded);
    assert Embedded(s, []) == s;
    AloneAtOnce(s, StartWorker(doc, order));
    assert [] + order == order;
    FillsAll(s, StartWorker(doc, order), doc, [], order);
  }

  // ---------------------------------------------------------------- a processing run

  /** The replacement `s.nextReplacer`, which has drawn `drawn`. */
  function Replacing(s: State, doc: nat, drawn: seq<nat>, step: ReplacerStep): State {
    s.(replacers := map[s.nextReplacer := Replacer(doc, step)], nextReplacer := s.nextReplacer + 1,
       used := s.used + (set id | id in drawn))
  }

  lemma ReplacingAlone(s: State, doc: nat, drawn: seq<nat>, step: ReplacerStep)
    requires Idle(s)
    ensures var t, r := Replacing(s, doc, drawn, step), s.nextReplacer;
            && (forall id :: !Busy(t, None, Some(r), id))
            && (forall index: nat :: !RowPending(t, r, doc, index))
            && ChunksOf(t, doc) == ChunksOf(s, doc)
            && t.replacers - {r} == map[]
  {}

  lemma ReplacingMoves(s: State, doc: nat, drawn: seq<nat>, step: ReplacerStep, next: ReplacerStep)
    ensures ReplacerAt(Replacing(s, doc, drawn, step), s.nextReplacer, Replacer(doc, next)) == Replacing(s, doc, drawn, next)
    ensures Replacing(s, doc, [], step).used == s.used
  {
    assert s.used + (set i: nat | i in []) == s.used;
  }

  lemma ReplacementBegins(s: State, doc: nat, count: nat)
    requires Idle(s)
    ensures Alone(s, StartReplacing(doc), Replacing(s, doc, [], Inserting(ChunksOf(s, doc), [], count)))
  {
    var e, r, ids := StartReplacing(doc), s.nextReplacer, ChunksOf(s, doc);
    var choosing := Replacing(s, doc, [], Choosing(ids));
    ReplacingMoves(s, doc, [], Choosing(ids), Deleted(ids));
    AloneAtOnce(s, e);
    assert Apply(s, e) == Some(choosing);
    ReplacingAlone(s, doc, [], Choosing(ids));
    var deleted := Replacing(s, doc, [], Deleted(ids));
    assert Deleting(choosing, r).value.replacers[r].step.ids == ids;
    AloneThen(s, e, choosing, Delete(r), deleted);
    ReplacingMoves(s, doc, [], Deleted(ids), Inserting(ids, [], count));
    AloneThen(s, e, deleted, BeginInsert(r, count), Replacing(s, doc, [], Inserting(ids, [], count)));
  }

  /** One row more. */
  lemma InsertsOne(s: State, doc: nat, drawn: seq<nat>, id: nat, count: nat)
    requires Idle(s) && doc in s.docs && |drawn| < count && id !in s.used && id !in drawn
    requires drawn != [] ==> drawn[|drawn| - 1] < id
    ensures Apply(Replacing(s, doc, drawn, Inserting(ChunksOf(s, doc), drawn, count)), InsertRow(s.nextReplacer, id))
         == Some(Replacing(s, doc, drawn + [id], Inserting(ChunksOf(s, doc), drawn + [id], count)))
  {
    ReplacingAlone(s, doc, drawn, Inserting(ChunksOf(s, doc), drawn, count));
    ReplacingMoves(s, doc, drawn, Inserting(ChunksOf(s, doc), drawn, count), Inserting(ChunksOf(s, doc), drawn + [id], count));
    assert s.used + (set i | i in drawn + [id]) == s.used + (set i | i in drawn) + {id};
  }

  lemma {:induction false} InsertsAll(s: State, doc: nat, ids: seq<nat>, n: nat)
    requires Idle(s) && doc in s.docs && Increasing(ids) && n <= |ids| && forall id | id in ids :: id !in s.used
    ensures Alone(s, StartReplacing(doc), Replacing(s, doc, ids[..n], Inserting(ChunksOf(s, doc), ids[..n], |ids|)))
  {
    if n == 0 {
      ReplacementBegins(s, doc, |ids|);
    } else {
      InsertsAll(s, doc, ids, n - 1);
      var drawn := ids[..n - 1];
      assert forall i | 0 <= i < |drawn| :: drawn[i] == ids[i] && ids[i] < ids[n - 1];
      InsertsOne(s, doc, drawn, ids[n - 1], |ids|);
      assert ids[..n] == drawn + [ids[n - 1]];
      AloneThen(s, StartReplacing(doc), Replacing(s, doc, drawn, Inserting(ChunksOf(s, doc), drawn, |ids|)),
                InsertRow(s.nextReplacer, ids[n - 1]), Replacing(s, doc, ids[..n], Inserting(ChunksOf(s, doc), ids[..n], |ids|)));
    }
  }

  /** `t` is `s` with the document's chunks replaced: row `k` has the `k`th id, is not embedded yet,
      and no other document's chunk, no event and no charge is touched. */
  ghost predicate Replaced(s: State, t: State, doc: nat, ids: seq<nat>) {
    && t == s.(chunks := t.chunks, used := t.used, nextReplacer := t.nextReplacer)
    && (forall id :: id in t.chunks <==> id in ids || (id in s.chunks && s.chunks[id].doc != doc))
    && (forall k | 0 <= k < |ids| :: ids[k] in t.chunks && t.chunks[ids[k]] == Chunk(doc, k, false, s.nextReplacer, |ids|))
    && (forall id | id in s.chunks && s.chunks[id].doc != doc :: id in t.chunks && t.chunks[id] == s.chunks[id])
  }

  lemma CommitReplaces(s: State, doc: nat, ids: seq<nat>)
    requires Idle(s) && Increasing(ids) && forall id | id in ids :: id !in s.chunks
    ensures var t := CommittingRows(Replacing(s, doc, ids, Inserting(ChunksOf(s, doc), ids, |ids|)), s.nextReplacer);
            Replaced(s, t, doc, ids)
  {
    var r := s.nextReplacer;
    var x := Replacing(s, doc, ids, Inserting(ChunksOf(s, doc), ids, |ids|));
    var t := CommittingRows(x, r);
    assert x.replacers - {r} == map[];
    forall k | 0 <= k < |ids| ensures ids[k] in t.chunks && t.chunks[ids[k]] == Chunk(doc, k, false, r, |ids|) {
      ChunkSets.RowAt(doc, ids, r, |ids|, k);
    }
  }

  /** A processing run that runs alone swaps the document's chunks for its own. */
  lemma ReplacementRunsAlone(s: State, doc: nat, ids: seq<nat>)
    requires Reachable(s) && Idle(s) && doc in s.docs && Increasing(ids) && forall id | id in ids :: id !in s.used
    ensures exists t :: Replaced(s, t, doc, ids) && Alone(s, StartReplacing(doc), t)
  {
    ReachableInv(s);
    InsertsAll(s, doc, ids, |ids|);
    assert ids[..|ids|] == ids;
    var x := Replacing(s, doc, ids, Inserting(ChunksOf(s, doc), ids, |ids|));
    var t := CommittingRows(x, s.nextReplacer);
    AloneThen(s, StartReplacing(doc), x, CommitReplacing(s.nextReplacer), t);
    forall id | id in ids ensures id !in s.chunks {
      assert id in s.chunks ==> ChunkOk(s, id, s.chunks[id]);
    }
    CommitReplaces(s, doc, ids);
  }

  /** A run whose document has been deleted meanwhile gives up at its first row. */
  lemma OrphanGivesUp(s: State, doc: nat, id: nat, count: nat)
    requires Idle(s) && doc !in s.docs && id !in s.used && count > 0
    ensures Alone(s, StartReplacing(doc), s.(nextReplacer := s.nextReplacer + 1))
  {
    ReplacementBegins(s, doc, count);
    var x := Replacing(s, doc, [], Inserting(ChunksOf(s, doc), [], count));
    ReplacingAlone(s, doc, [], Inserting(ChunksOf(s, doc), [], count));
    assert s.used + (set i: nat | i in []) == s.used;
    AloneThen(s, StartReplacing(doc), x, InsertRow(s.nextReplacer, id), s.(nextReplacer := s.nextReplacer + 1));
  }
}
