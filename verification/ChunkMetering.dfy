/** Charging for embedded chunks: redelivered jobs on any number of workers, each filling a chunk's
    embedding and recording its usage event in one transaction, while processing runs replace a
    document's chunks and removals delete them. Row locks are derived from the open transactions. */
module ChunkMetering {
  import opened Common
  import opened Runs

  /** `run` is the replacement that inserted the row, `size` how many rows that one inserted. */
  datatype Chunk = Chunk(doc: nat, index: nat, embedded: bool, run: nat, size: nat)

  /** A job's progress: the ids it read as lacking an embedding, then per chunk the fill (an open
      transaction holding the row) and the recorded event. */
  datatype WorkerStep =
    | Looping(pending: seq<nat>)
    | Filling(chunk: nat, rest: seq<nat>)
    | Filled(chunk: nat, rest: seq<nat>)
    | Recorded(chunk: nat, rest: seq<nat>, inserted: bool)

  /** A replacement's progress: its DELETE has chosen rows, has deleted them, its INSERT of `count`
      rows has got as far as the ids drawn. */
  datatype ReplacerStep = Choosing(ids: set<nat>) | Deleted(ids: set<nat>) | Inserting(ids: set<nat>, drawn: seq<nat>, count: nat)

  datatype Worker = Worker(doc: nat, step: WorkerStep)
  datatype Replacer = Replacer(doc: nat, step: ReplacerStep)

  /** `used` holds every chunk id ever drawn; `events` holds the keys of usage events by chunk id;
      `charges` logs every insert in order. */
  datatype State = State(
    docs: set<nat>, chunks: map<nat, Chunk>, used: set<nat>, events: set<nat>, charges: seq<nat>,
    workers: map<nat, Worker>, nextWorker: nat, replacers: map<nat, Replacer>, nextReplacer: nat)

  function Init(): State {
    State({}, map[], {}, {}, [], map[], 0, map[], 0)
  }

  datatype Event =
    | Upload(doc: nat)
    | Remove(doc: nat)
    | StartWorker(doc: nat, order: seq<nat>)
    | Work(w: nat)
    | StopWorker(w: nat)
    | StartReplacing(doc: nat)
    | Delete(r: nat)
    | BeginInsert(r: nat, count: nat)
    | InsertRow(r: nat, id: nat)
    | CommitReplacing(r: nat)
    | StopReplacing(r: nat)

  // ---------------------------------------------------------------- rows and locks

  predicate WorkerLocks(x: Worker, id: nat) {
    (x.step.Filled? || x.step.Recorded?) && x.step.chunk == id
  }

  predicate ReplacerLocks(x: Replacer, id: nat) {
    !x.step.Choosing? && id in x.step.ids
  }

  predicate Busy(s: State, w: Option<nat>, r: Option<nat>, id: nat) {
    || (exists o | o in s.workers :: Some(o) != w && WorkerLocks(s.workers[o], id))
    || (exists o | o in s.replacers :: Some(o) != r && ReplacerLocks(s.replacers[o], id))
  }

  function ChunksOf(s: State, doc: nat): set<nat> {
    set id | id in s.chunks && s.chunks[id].doc == doc
  }

  predicate HasInserted(x: Replacer) {
    x.step.Inserting? && x.step.drawn != []
  }

  /** Another replacement has inserted a row with this index and not committed. */
  predicate RowPending(s: State, r: nat, doc: nat, index: nat) {
    exists o | o in s.replacers :: o != r && s.replacers[o].doc == doc && s.replacers[o].step.Inserting? && index < |s.replacers[o].step.drawn|
  }

  predicate InDraw(x: Replacer, id: nat) {
    x.step.Inserting? && id in x.step.drawn
  }

  ghost predicate Increasing(ids: seq<nat>) {
    forall i, j | 0 <= i < j < |ids| :: ids[i] < ids[j]
  }

  /** The rows a run inserts, one for each id it drew. */
  function Rows(doc: nat, drawn: seq<nat>, run: nat, size: nat): (r: map<nat, Chunk>)
    ensures forall id :: id in r <==> id in drawn
    ensures forall id | id in r :: exists k :: 0 <= k < |drawn| && drawn[k] == id && r[id] == Chunk(doc, k, false, run, size)
  {
    if drawn == [] then map[]
    else
      var front, last := drawn[..|drawn| - 1], drawn[|drawn| - 1];
      assert drawn == front + [last];
      Rows(doc, front, run, size)[last := Chunk(doc, |front|, false, run, size)]
  }

  // ---------------------------------------------------------------- statements

  function WorkerAt(s: State, w: nat, x: Worker): State {
    s.(workers := s.workers[w := x])
  }

  function ReplacerAt(s: State, r: nat, x: Replacer): State {
    s.(replacers := s.replacers[r := x])
  }

  /** UPDATE ... WHERE id = $2 AND embedding IS NULL, then the event, ignored if its key is taken. */
  function Working(s: State, w: nat): Option<State>
    requires w in s.workers
  {
    var x := s.workers[w];
    match x.step
    case Looping(pending) =>
      if pending == [] then Some(s.(workers := s.workers - {w}))
      else Some(WorkerAt(s, w, x.(step := Filling(pending[0], pending[1..]))))
    case Filling(id, rest) =>
      if Busy(s, Some(w), None, id) then None
      else if id in s.chunks && !s.chunks[id].embedded then Some(WorkerAt(s, w, x.(step := Filled(id, rest))))
      else Some(WorkerAt(s, w, x.(step := Looping(rest))))
    case Filled(id, rest) => Some(WorkerAt(s, w, x.(step := Recorded(id, rest, id !in s.events))))
    case Recorded(id, rest, inserted) =>
      if id !in s.chunks then None
      else
        Some(WorkerAt(s, w, x.(step := Looping(rest)))
             .(chunks := s.chunks[id := s.chunks[id].(embedded := true)],
               events := if inserted then s.events + {id} else s.events,
               charges := if inserted then s.charges + [id] else s.charges))
  }

  /** DELETE waits for locked rows and passes over those that vanish meanwhile. */
  function Deleting(s: State, r: nat): Option<State>
    requires r in s.replacers && s.replacers[r].step.Choosing?
  {
    var x := s.replacers[r];
    if exists id | id in x.step.ids :: Busy(s, None, Some(r), id) then None
    else Some(ReplacerAt(s, r, x.(step := Deleted(set id | id in x.step.ids && id in s.chunks))))
  }

  /** The INSERT draws an id and writes a row at a time: any fresh id above its last, as a sequence
      gives them to whoever asks. The row violates the foreign key if the document is gone, and the
      unique key if a row of the document with its index is left; an uncommitted one is waited for. */
  function InsertingRow(s: State, r: nat, id: nat): Option<State>
    requires r in s.replacers && s.replacers[r].step.Inserting?
  {
    var x := s.replacers[r];
    var drawn := x.step.drawn;
    if |drawn| >= x.step.count || id in s.used || (drawn != [] && id <= drawn[|drawn| - 1]) then None
    else if x.doc !in s.docs then Some(s.(replacers := s.replacers - {r}))
    else if RowPending(s, r, x.doc, |drawn|) then None
    else if exists old_ | old_ in ChunksOf(s, x.doc) :: old_ !in x.step.ids && s.chunks[old_].index == |drawn| then
      Some(s.(replacers := s.replacers - {r}))
    else Some(ReplacerAt(s, r, x.(step := x.step.(drawn := drawn + [id]))).(used := s.used + {id}))
  }

  function CommittingRows(s: State, r: nat): State
    requires r in s.replacers && s.replacers[r].step.Inserting?
  {
    var x := s.replacers[r];
    s.(replacers := s.replacers - {r}, chunks := (s.chunks - x.step.ids) + Rows(x.doc, x.step.drawn, r, |x.step.drawn|))
  }

  /** None when a statement waits for a lock, or nobody would issue it. */
  function Apply(s: State, e: Event): Option<State> {
    match e
    case Upload(doc) => if doc in s.docs then None else Some(s.(docs := s.docs + {doc}))
    case Remove(doc) =>
      if (exists id | id in ChunksOf(s, doc) :: Busy(s, None, None, id))
         || (exists o | o in s.replacers :: s.replacers[o].doc == doc && HasInserted(s.replacers[o])) then None
      else Some(s.(docs := s.docs - {doc}, chunks := s.chunks - ChunksOf(s, doc)))
    case StartWorker(doc, order) =>
      if (set id | id in order) == (set id | id in ChunksOf(s, doc) && !s.chunks[id].embedded) then
        Some(WorkerAt(s, s.nextWorker, Worker(doc, Looping(order))).(nextWorker := s.nextWorker + 1))
      else None
    case Work(w) => if w in s.workers then Working(s, w) else None
    case StopWorker(w) => Some(s.(workers := s.workers - {w}))
    case StartReplacing(doc) =>
      Some(ReplacerAt(s, s.nextReplacer, Replacer(doc, Choosing(ChunksOf(s, doc)))).(nextReplacer := s.nextReplacer + 1))
    case Delete(r) => if r in s.replacers && s.replacers[r].step.Choosing? then Deleting(s, r) else None
    case BeginInsert(r, count) =>
      if r in s.replacers && s.replacers[r].step.Deleted? then
        Some(ReplacerAt(s, r, s.replacers[r].(step := Inserting(s.replacers[r].step.ids, [], count))))
      else None
    case InsertRow(r, id) => if r in s.replacers && s.replacers[r].step.Inserting? then InsertingRow(s, r, id) else None
    case CommitReplacing(r) =>
      if r in s.replacers && s.replacers[r].step.Inserting? && |s.replacers[r].step.drawn| == s.replacers[r].step.count then
        Some(CommittingRows(s, r))
      else None
    case StopReplacing(r) => Some(s.(replacers := s.replacers - {r}))
  }

  function Exec(s: State, es: seq<Event>): Option<State> {
    Run(Apply, s, es)
  }

  // ---------------------------------------------------------------- what every state keeps

  ghost predicate Distinct(charges: seq<nat>) {
    forall i, j | 0 <= i < j < |charges| :: charges[i] != charges[j]
  }

  /** A chunk is embedded exactly if it has been charged. */
  predicate ChunkOk(s: State, id: nat, c: Chunk) {
    id in s.used && (c.embedded <==> id in s.events)
  }

  predicate WorkerOk(s: State, x: Worker) {
    && (x.step.Filled? || x.step.Recorded? ==> x.step.chunk in s.chunks && !s.chunks[x.step.chunk].embedded)
    && (x.step.Recorded? ==> x.step.inserted)
  }

  ghost predicate ReplacerOk(s: State, x: Replacer) {
    x.step.Inserting? ==>
      && Increasing(x.step.drawn)
      && forall id | id in x.step.drawn :: id in s.used && id !in s.events && id !in s.chunks
  }

  predicate Together(a: Worker, b: Worker) {
    (b.step.Filled? || b.step.Recorded?) && WorkerLocks(a, b.step.chunk)
  }

  ghost predicate Overlaps(a: Replacer, b: Replacer) {
    exists id :: InDraw(a, id) && InDraw(b, id)
  }

  predicate Collides(a: Worker, b: Replacer) {
    (a.step.Filled? || a.step.Recorded?) && ReplacerLocks(b, a.step.chunk)
  }

  ghost predicate ChargesOk(s: State) {
    && Distinct(s.charges) && (forall id :: id in s.charges <==> id in s.events) && (forall id | id in s.events :: id in s.used)
  }

  ghost predicate LocksOk(s: State) {
    && (forall a, b | a in s.workers && b in s.workers && a != b :: !Together(s.workers[a], s.workers[b]))
    && (forall a, b | a in s.workers && b in s.replacers :: !Collides(s.workers[a], s.replacers[b]))
    && (forall a, b | a in s.replacers && b in s.replacers && a != b :: !Overlaps(s.replacers[a], s.replacers[b]))
  }

  ghost predicate Inv(s: State) {
    && ChargesOk(s) && LocksOk(s)
    && (forall id | id in s.chunks :: ChunkOk(s, id, s.chunks[id]))
    && (forall w | w in s.workers :: w < s.nextWorker && WorkerOk(s, s.workers[w]))
    && (forall r | r in s.replacers :: r < s.nextReplacer && ReplacerOk(s, s.replacers[r]))
  }

  lemma ApartWorkers(a: Worker, b: Worker)
    requires forall id :: !(WorkerLocks(a, id) && WorkerLocks(b, id))
    ensures !Together(a, b)
  {
    assert b.step.Filled? || b.step.Recorded? ==> WorkerLocks(b, b.step.chunk);
  }

  lemma WorkerMoves(s: State, s': State, w: nat)
    requires Inv(s) && w in s'.workers && w < s'.nextWorker && s.nextWorker <= s'.nextWorker
    requires s' == s.(workers := s.workers[w := s'.workers[w]], nextWorker := s'.nextWorker)
    requires WorkerOk(s, s'.workers[w])
    requires forall id | WorkerLocks(s'.workers[w], id) :: !Busy(s, Some(w), None, id)
    ensures Inv(s')
  {
    forall id | WorkerLocks(s'.workers[w], id)
      ensures forall o | o in s.workers && o != w :: !WorkerLocks(s.workers[o], id)
      ensures forall r | r in s.replacers :: !ReplacerLocks(s.replacers[r], id)
    {
      assert forall o | o in s.workers && o != w :: Some(o) != Some(w);
      assert forall r | r in s.replacers :: Some(r) != None;
    }
    forall a, b | a in s'.workers && b in s'.workers && a != b ensures !Together(s'.workers[a], s'.workers[b]) {
      if a != w && b != w {
        assert !Together(s.workers[a], s.workers[b]);
      } else {
        ApartWorkers(s'.workers[a], s'.workers[b]);
      }
    }
    forall a, b | a in s'.workers && b in s'.replacers ensures !Collides(s'.workers[a], s'.replacers[b]) {
      if a != w {
        assert !Collides(s.workers[a], s.replacers[b]);
      } else {
        assert WorkerLocks(s'.workers[w], if s'.workers[w].step.Looping? then 0 else s'.workers[w].step.chunk) || !Collides(s'.workers[w], s'.replacers[b]);
      }
    }
    assert forall x | WorkerOk(s, x) :: WorkerOk(s', x);
    assert forall x | ReplacerOk(s, x) :: ReplacerOk(s', x);
    assert forall id, c | ChunkOk(s, id, c) :: ChunkOk(s', id, c);
  }

  /** A worker already holding its chunk moves on with it. */
  lemma HolderAlone(s: State, w: nat)
    requires LocksOk(s) && w in s.workers && (s.workers[w].step.Filled? || s.workers[w].step.Recorded?)
    ensures !Busy(s, Some(w), None, s.workers[w].step.chunk)
  {
    var id := s.workers[w].step.chunk;
    forall o | o in s.workers && Some(o) != Some(w) ensures !WorkerLocks(s.workers[o], id) {
      assert !Together(s.workers[o], s.workers[w]);
    }
    forall o | o in s.replacers ensures !ReplacerLocks(s.replacers[o], id) {
      assert !Collides(s.workers[w], s.replacers[o]);
    }
  }

  lemma DistinctSnoc(charges: seq<nat>, id: nat)
    requires Distinct(charges) && id !in charges
    ensures Distinct(charges + [id]) && forall x :: x in charges + [id] <==> x in charges || x == id
  {
    assert forall x :: x in charges + [id] <==> x in charges || x in [id];
  }

  lemma ChargeKeepsInv(s: State, w: nat)
    requires Inv(s) && w in s.workers && s.workers[w].step.Recorded?
    ensures Working(s, w).Some? && Inv(Working(s, w).value)
  {
    var id := s.workers[w].step.chunk;
    assert WorkerOk(s, s.workers[w]) && ChunkOk(s, id, s.chunks[id]);
    var s' := Working(s, w).value;
    DistinctSnoc(s.charges, id);
    forall o | o in s'.workers ensures WorkerOk(s', s'.workers[o]) {
      assert WorkerOk(s, s.workers[o]);
      assert o != w ==> !Together(s.workers[w], s.workers[o]);
    }
    forall r | r in s'.replacers ensures ReplacerOk(s', s'.replacers[r]) {
      assert ReplacerOk(s, s.replacers[r]);
    }
    forall i | i in s'.chunks ensures ChunkOk(s', i, s'.chunks[i]) {
      assert ChunkOk(s, i, s.chunks[i]);
    }
    forall a, b | a in s'.workers && b in s'.workers && a != b ensures !Together(s'.workers[a], s'.workers[b]) {
      assert !Together(s.workers[a], s.workers[b]);
    }
    forall a, b | a in s'.workers && b in s'.replacers ensures !Collides(s'.workers[a], s'.replacers[b]) {
      assert !Collides(s.workers[a], s.replacers[b]);
    }
  }

  lemma WorkKeepsInv(s: State, w: nat)
    requires Inv(s) && w in s.workers && Working(s, w).Some?
    ensures Inv(Working(s, w).value)
  {
    var x := s.workers[w];
    assert WorkerOk(s, x);
    match x.step
    case Looping(pending) =>
      if pending == [] {
        ForgetKeepsInv(s, {w}, {});
      } else {
        WorkerMoves(s, Working(s, w).value, w);
      }
    case Filling(id, _) => WorkerMoves(s, Working(s, w).value, w);
    case Filled(id, _) =>
      HolderAlone(s, w);
      assert ChunkOk(s, id, s.chunks[id]);
      WorkerMoves(s, Working(s, w).value, w);
    case Recorded(_, _, _) => ChargeKeepsInv(s, w);
  }

  lemma ForgetKeepsInv(s: State, ws: set<nat>, rs: set<nat>)
    requires Inv(s)
    ensures Inv(s.(workers := s.workers - ws, replacers := s.replacers - rs))
  {
    var s' := s.(workers := s.workers - ws, replacers := s.replacers - rs);
    assert forall x | WorkerOk(s, x) :: WorkerOk(s', x);
    assert forall x | ReplacerOk(s, x) :: ReplacerOk(s', x);
    assert forall id, c | ChunkOk(s, id, c) :: ChunkOk(s', id, c);
  }

  // ---------------------------------------------------------------- replacements and removals

  lemma ReplacerMoves(s: State, s': State, r: nat)
    requires Inv(s) && r in s'.replacers && r < s'.nextReplacer && s.nextReplacer <= s'.nextReplacer && s.used <= s'.used
    requires s' == s.(replacers := s.replacers[r := s'.replacers[r]], nextReplacer := s'.nextReplacer, used := s'.used)
    requires ReplacerOk(s', s'.replacers[r])
    requires forall o | o in s.workers :: !Collides(s.workers[o], s'.replacers[r])
    requires forall o | o in s.replacers && o != r :: !Overlaps(s'.replacers[r], s.replacers[o])
    ensures Inv(s')
  {
    forall a, b | a in s'.replacers && b in s'.replacers && a != b ensures !Overlaps(s'.replacers[a], s'.replacers[b]) {
      if a != r && b != r {
        assert !Overlaps(s.replacers[a], s.replacers[b]);
      } else {
        assert !Overlaps(s'.replacers[r], s.replacers[if a == r then b else a]);
      }
    }
    forall a, b | a in s'.workers && b in s'.replacers ensures !Collides(s'.workers[a], s'.replacers[b]) {
      if b != r {
        assert !Collides(s.workers[a], s.replacers[b]);
      }
    }
    assert forall x | WorkerOk(s, x) :: WorkerOk(s', x);
    assert forall x | ReplacerOk(s, x) :: ReplacerOk(s', x);
    assert forall id, c | ChunkOk(s, id, c) :: ChunkOk(s', id, c);
  }

  lemma ChosenRowsAreFree(s: State, r: nat, x: Replacer)
    requires r in s.replacers && s.replacers[r].step.Choosing? && (forall id | id in s.replacers[r].step.ids :: !Busy(s, None, Some(r), id))
    requires x.step.Deleted? && x.step.ids <= s.replacers[r].step.ids
    ensures forall o | o in s.workers :: !Collides(s.workers[o], x)
  {
    forall o, id | o in s.workers && id in x.step.ids ensures !WorkerLocks(s.workers[o], id) {
      assert !Busy(s, None, Some(r), id) && Some(o) != None;
    }
    forall o | o in s.workers ensures !Collides(s.workers[o], x) {
      assert (s.workers[o].step.Filled? || s.workers[o].step.Recorded?) ==> WorkerLocks(s.workers[o], s.workers[o].step.chunk);
    }
  }

  lemma DeleteKeepsInv(s: State, r: nat)
    requires Inv(s) && r in s.replacers && s.replacers[r].step.Choosing? && Deleting(s, r).Some?
    ensures Inv(Deleting(s, r).value)
  {
    var s' := Deleting(s, r).value;
    ChosenRowsAreFree(s, r, s'.replacers[r]);
    ReplacerMoves(s, s', r);
  }

  lemma BeginKeepsInv(s: State, r: nat, count: nat)
    requires Inv(s) && Apply(s, BeginInsert(r, count)).Some?
    ensures Inv(Apply(s, BeginInsert(r, count)).value)
  {
    var s' := Apply(s, BeginInsert(r, count)).value;
    forall o | o in s.workers ensures !Collides(s.workers[o], s'.replacers[r]) {
      assert !Collides(s.workers[o], s.replacers[r]);
    }
    ReplacerMoves(s, s', r);
  }

  /** An id just drawn belongs to no chunk, no event and no other replacement. */
  lemma RowKeepsInv(s: State, r: nat, id: nat)
    requires Inv(s) && r in s.replacers && s.replacers[r].step.Inserting? && InsertingRow(s, r, id).Some?
    ensures Inv(InsertingRow(s, r, id).value)
  {
    var x := s.replacers[r];
    var s' := InsertingRow(s, r, id).value;
    if r !in s'.replacers {
      assert s' == s.(workers := s.workers - {}, replacers := s.replacers - {r});
      ForgetKeepsInv(s, {}, {r});
    } else {
      DrawnIsFresh(s, r, id);
      forall o | o in s.workers ensures !Collides(s.workers[o], s'.replacers[r]) {
        assert !Collides(s.workers[o], x);
      }
      forall o | o in s.replacers && o != r ensures !Overlaps(s'.replacers[r], s.replacers[o]) {
        assert !Overlaps(x, s.replacers[o]) && ReplacerOk(s, s.replacers[o]);
        assert forall i | InDraw(s'.replacers[r], i) :: i == id || InDraw(x, i);
      }
      ReplacerMoves(s, s', r);
    }
  }

  lemma DrawnIsFresh(s: State, r: nat, id: nat)
    requires Inv(s) && r in s.replacers && s.replacers[r].step.Inserting? && id !in s.used
    requires var drawn := s.replacers[r].step.drawn; drawn == [] || drawn[|drawn| - 1] < id
    ensures var x := s.replacers[r];
            ReplacerOk(s.(used := s.used + {id}), x.(step := x.step.(drawn := x.step.drawn + [id])))
  {
    var x := s.replacers[r];
    assert ReplacerOk(s, x);
    assert id !in s.chunks by {
      assert forall i | i in s.chunks :: ChunkOk(s, i, s.chunks[i]);
    }
    var all := x.step.drawn + [id];
    assert forall i | i in all :: i in x.step.drawn || i == id;
  }

  ghost predicate Comes(s: State, rs: set<nat>, drawn: map<nat, Chunk>) {
    && (forall id | id in drawn :: id in s.used && id !in s.events && id !in s.chunks && !drawn[id].embedded)
    && (forall id, o | id in drawn && o in s.replacers && o !in rs :: !InDraw(s.replacers[o], id))
  }

  /** Rows no worker holds go, and new ones, never charged, come. */
  lemma SwapKeepsInv(s: State, s': State, rs: set<nat>, ids: set<nat>, drawn: map<nat, Chunk>)
    requires Inv(s) && s' == s.(replacers := s.replacers - rs, chunks := (s.chunks - ids) + drawn, docs := s'.docs)
    requires forall w, id | w in s.workers && id in ids :: !WorkerLocks(s.workers[w], id)
    requires Comes(s, rs, drawn)
    ensures Inv(s')
  {
    forall w | w in s'.workers ensures WorkerOk(s', s'.workers[w]) {
      assert WorkerOk(s, s.workers[w]);
      assert s.workers[w].step.Filled? || s.workers[w].step.Recorded? ==> WorkerLocks(s.workers[w], s.workers[w].step.chunk);
    }
    forall r | r in s'.replacers ensures ReplacerOk(s', s'.replacers[r]) {
      assert ReplacerOk(s, s.replacers[r]);
      assert forall id | InDraw(s.replacers[r], id) :: id !in drawn;
    }
    forall id | id in s'.chunks ensures ChunkOk(s', id, s'.chunks[id]) {
      if id !in drawn {
        assert ChunkOk(s, id, s.chunks[id]);
      }
    }
  }

  lemma CommitKeepsInv(s: State, r: nat)
    requires Inv(s) && r in s.replacers && s.replacers[r].step.Inserting?
    ensures Inv(CommittingRows(s, r))
  {
    var x := s.replacers[r];
    var drawn := Rows(x.doc, x.step.drawn, r, |x.step.drawn|);
    assert ReplacerOk(s, x);
    forall w, id | w in s.workers && id in x.step.ids ensures !WorkerLocks(s.workers[w], id) {
      assert !Collides(s.workers[w], x);
    }
    forall id, o | id in drawn && o in s.replacers && o !in {r} ensures !InDraw(s.replacers[o], id) {
      assert !Overlaps(x, s.replacers[o]) && InDraw(x, id);
    }
    SwapKeepsInv(s, CommittingRows(s, r), {r}, x.step.ids, drawn);
  }

  lemma RemoveKeepsInv(s: State, doc: nat)
    requires Inv(s) && Apply(s, Remove(doc)).Some?
    ensures Inv(Apply(s, Remove(doc)).value)
  {
    var s' := Apply(s, Remove(doc)).value;
    var ids := ChunksOf(s, doc);
    forall w, id | w in s.workers && id in ids ensures !WorkerLocks(s.workers[w], id) {
      assert !Busy(s, None, None, id) && Some(w) != None;
    }
    assert s'.chunks == (s.chunks - ids) + map[] && s'.replacers == s.replacers - {};
    SwapKeepsInv(s, s', {}, ids, map[]);
  }

  lemma ApplyKeepsInv(s: State, e: Event)
    requires Inv(s) && Apply(s, e).Some?
    ensures Inv(Apply(s, e).value)
  {
    var s' := Apply(s, e).value;
    match e
    case Upload(_) =>
      assert s' == s.(docs := s'.docs, replacers := s.replacers - {}, chunks := (s.chunks - {}) + map[]);
      SwapKeepsInv(s, s', {}, {}, map[]);
    case Remove(doc) => RemoveKeepsInv(s, doc);
    case StartWorker(_, _) => WorkerMoves(s, s', s.nextWorker);
    case Work(w) => WorkKeepsInv(s, w);
    case StopWorker(w) =>
      assert s'.replacers == s.replacers - {};
      ForgetKeepsInv(s, {w}, {});
    case StartReplacing(_) => ReplacerMoves(s, s', s.nextReplacer);
    case Delete(r) => DeleteKeepsInv(s, r);
    case BeginInsert(r, count) => BeginKeepsInv(s, r, count);
    case InsertRow(r, id) => RowKeepsInv(s, r, id);
    case CommitReplacing(r) => CommitKeepsInv(s, r);
    case StopReplacing(r) =>
      assert s'.workers == s.workers - {};
      ForgetKeepsInv(s, {}, {r});
  }

  lemma RunKeepsInv(s: State, es: seq<Event>)
    requires Inv(s) && Exec(s, es).Some?
    ensures Inv(Exec(s, es).value)
  {
    forall t, e | Inv(t) && Apply(t, e).Some? ensures Inv(Apply(t, e).value) {
      ApplyKeepsInv(t, e);
    }
    RunKeeps(Apply, t => Inv(t), s, es);
  }

  ghost predicate Reachable(s: State) {
    exists es :: Exec(Init(), es) == Some(s)
  }

  lemma ReachableInv(s: State)
    requires Reachable(s)
    ensures Inv(s)
  {
    var es :| Exec(Init(), es) == Some(s);
    RunKeepsInv(Init(), es);
  }
}
