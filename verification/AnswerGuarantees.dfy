/** What the answer protocol guarantees in every reachable state, and exactly where it stops. */
module AnswerGuarantees {
  import opened Common
  import opened Runs
  import opened Quotas
  import opened AnswerLedger

  // ---------------------------------------------------------------- the ledger of one quota row

  /** Requests since the last reconciliation that committed a billable row and kept its unit. */
  function Billed(s: State, id: nat): set<nat>
    requires id in s.books
  {
    set r | r in Holding(s.requests, id, s.books[id].sinceRequest) && WroteBillable(s, s.requests[r])
  }

  /** Units taken by requests still running that have committed nothing billable. */
  function Open(s: State, id: nat): set<nat>
    requires id in s.books
  {
    set r | r in Holding(s.requests, id, s.books[id].sinceRequest)
            && !WroteBillable(s, s.requests[r]) && !Finished(s.requests[r].phase)
  }

  /** Units taken by requests that crashed before committing anything billable. */
  function Leaked(s: State, id: nat): set<nat>
    requires id in s.books
  {
    set r | r in Holding(s.requests, id, s.books[id].sinceRequest)
            && !WroteBillable(s, s.requests[r]) && s.requests[r].phase.Dead?
  }

  /** Requests that committed a billable row and were refunded all the same. */
  function Forgiven(s: State, id: nat): set<nat>
    requires id in s.books
  {
    set r | r in s.requests && s.books[id].sinceRequest <= r && s.requests[r].hold == UnitOf(id)
            && WroteBillable(s, s.requests[r]) && s.requests[r].refunds > 0
  }

  /** A finished request that kept its unit delivered a fresh billable answer. */
  lemma KeptMeansBillable(s: State, r: nat)
    requires r in s.requests && RequestOk(s, r, s.requests[r]) && s.requests[r].phase.Done? && s.requests[r].hold.UnitOf?
    ensures s.requests[r].refunds == 0 <==> KeepsUnit(s.requests[r].phase.outcome)
    ensures s.requests[r].refunds <= 1
    ensures s.requests[r].refunds == 0 ==> WroteBillable(s, s.requests[r]) && !s.requests[r].unheard
    ensures s.requests[r].refunds > 0 && WroteBillable(s, s.requests[r]) ==> s.requests[r].unheard
  {}

  lemma ReachableRequest(s: State, r: nat)
    requires Reachable(s) && r in s.requests
    ensures RequestOk(s, r, s.requests[r])
  {
    ReachableInv(s);
  }

  lemma HoldingSplits(s: State, id: nat)
    requires RequestsOk(s) && id in s.books
    ensures |Holding(s.requests, id, s.books[id].sinceRequest)| == |Billed(s, id)| + |Open(s, id)| + |Leaked(s, id)|
  {
    var all, b, o, l := Holding(s.requests, id, s.books[id].sinceRequest), Billed(s, id), Open(s, id), Leaked(s, id);
    forall r | r in all ensures r in b + o + l {
      assert RequestOk(s, r, s.requests[r]);
      if s.requests[r].phase.Done? {
        KeptMeansBillable(s, r);
      }
    }
    assert all == b + o + l;
    assert b !! o && b !! l && o !! l;
  }

  /** The ledger balances in every reachable state: a row's counter is what the last
      reconciliation found, plus billable answers charged since, plus open reservations, plus
      units leaked by crashes; and it stays within the allowance. A row never reconciled starts
      from zero. */
  lemma LedgerBalances(s: State, id: nat)
    requires Reachable(s) && id in s.quotas
    ensures id in s.books
    ensures s.quotas[id].used == s.books[id].base + |Billed(s, id)| + |Open(s, id)| + |Leaked(s, id)|
    ensures 0 <= s.quotas[id].used <= s.quotas[id].allowance
    ensures s.books[id].sinceRow == 0 ==> s.books[id].base == 0
  {
    ReachableInv(s);
    assert Counted(s, id, s.books[id]);
    HoldingSplits(s, id);
    if s.books[id].sinceRow == 0 {
      assert Metered(s, id, 0) == {};
    }
  }

  /** Every uncrashed request that took a unit and finished either committed exactly one billable
      event and kept the unit, or gave the unit back exactly once and committed nothing billable,
      unless its commit took effect unheard: then the unit is given back although the row stands. */
  lemma ChargedOrRefunded(s: State, r: nat)
    requires Reachable(s) && r in s.requests && s.requests[r].phase.Done? && s.requests[r].hold.UnitOf?
    ensures var q := s.requests[r];
            && q.refunds <= 1
            && (q.refunds == 0 <==>
                  && q.phase.outcome.Delivers? && !q.phase.outcome.delivery.replayed
                  && q.phase.outcome.delivery.answer.body.status in {Answered, WasRefused})
            && (WroteBillable(s, q) <==>
                  && q.wrote.Some? && q.wrote.value in s.conversations
                  && s.conversations[q.wrote.value].body.status in {Answered, WasRefused})
            && ((q.refunds == 0 <==> WroteBillable(s, q)) <==> !(q.unheard && WroteBillable(s, q)))
  {
    ReachableRequest(s, r);
    KeptMeansBillable(s, r);
  }

  /** Only a commit that took effect unheard is ever forgiven. */
  lemma ForgivenIsUnheard(s: State, id: nat)
    requires Reachable(s) && id in s.quotas
    ensures id in s.books && forall r | r in Forgiven(s, id) :: s.requests[r].unheard
  {
    ReachableInv(s);
    forall r | r in Forgiven(s, id) ensures s.requests[r].unheard {
      ReachableRequest(s, r);
      RefundedIsUnheard(s, r);
    }
  }

  lemma RefundedIsUnheard(s: State, r: nat)
    requires r in s.requests && RequestOk(s, r, s.requests[r]) && WroteBillable(s, s.requests[r]) && s.requests[r].refunds > 0
    ensures s.requests[r].unheard
  {}

  /** Billable rows charged to a quota row since its last reconciliation. */
  function BillableRows(s: State, id: nat): set<nat>
    requires id in s.books
  {
    set c | c in s.conversations && s.books[id].sinceRow <= c && c in s.events && s.events[c].billable
            && s.conversations[c].writer in s.requests && s.requests[s.conversations[c].writer].hold == UnitOf(id)
  }

  lemma {:induction false} SameSize(rs: set<nat>, cs: set<nat>, requests: map<nat, Request>)
    requires forall r | r in rs :: r in requests && requests[r].wrote.Some? && requests[r].wrote.value in cs
    requires forall c | c in cs :: exists r | r in rs :: requests[r].wrote == Some(c)
    requires forall r, o | r in rs && o in rs && r != o :: requests[r].wrote != requests[o].wrote
    ensures |rs| == |cs|
    decreases |rs|
  {
    if rs == {} {
      assert cs == {} by {
        if c :| c in cs {
          assert false;
        }
      }
    } else {
      var r :| r in rs;
      var c := requests[r].wrote.value;
      forall d | d in cs - {c} ensures exists o | o in rs - {r} :: requests[o].wrote == Some(d) {
        var o :| o in rs && requests[o].wrote == Some(d);
        assert o in rs - {r};
      }
      SameSize(rs - {r}, cs - {c}, requests);
    }
  }

  lemma BilledHasRow(s: State, id: nat, r: nat)
    requires r in s.requests && RequestOk(s, r, s.requests[r]) && id in s.books && InOrder(r, s.requests[r], s.books[id])
    requires id in s.quotas && s.quotas[id].workspace == s.books[id].workspace
    requires r in Billed(s, id) + Forgiven(s, id)
    ensures s.requests[r].wrote.Some? && s.requests[r].wrote.value in BillableRows(s, id)
    ensures s.conversations[s.requests[r].wrote.value].writer == r
  {}

  lemma RowHasWriter(s: State, id: nat, c: nat)
    requires c in s.conversations && RowOk(s, c, s.conversations[c]) && id in s.books && c in BillableRows(s, id)
    requires var w := s.conversations[c].writer; InOrder(w, s.requests[w], s.books[id]) && s.requests[w].workspace == s.books[id].workspace
    ensures s.conversations[c].writer in Billed(s, id) + Forgiven(s, id)
    ensures s.requests[s.conversations[c].writer].wrote == Some(c)
  {}

  /** Rows and their writers correspond one to one. */
  lemma BillableRowsCounted(s: State, id: nat)
    requires RequestsOk(s) && TablesOk(s) && OrdersOk(s) && id in s.books && id in s.quotas && Counted(s, id, s.books[id])
    ensures |BillableRows(s, id)| == |Billed(s, id)| + |Forgiven(s, id)|
  {
    var b, f := Billed(s, id), Forgiven(s, id);
    var rows := BillableRows(s, id);
    assert b !! f;
    forall r | r in b + f
      ensures r in s.requests && s.requests[r].wrote.Some? && s.requests[r].wrote.value in rows
              && s.conversations[s.requests[r].wrote.value].writer == r
    {
      assert RequestOk(s, r, s.requests[r]) && InOrder(r, s.requests[r], s.books[id]);
      BilledHasRow(s, id, r);
    }
    forall c | c in rows ensures exists r | r in b + f :: s.requests[r].wrote == Some(c) {
      assert RowOk(s, c, s.conversations[c]);
      var w := s.conversations[c].writer;
      assert InOrder(w, s.requests[w], s.books[id]) && RequestOk(s, w, s.requests[w]);
      RowHasWriter(s, id, c);
      assert w in b + f;
    }
    SameSize(b + f, rows, s.requests);
  }

  // ---------------------------------------------------------------- reconciliation

  /** Billable rows charged here since the last reconciliation whose event falls outside the period. */
  function StrayOut(s: State, id: nat): set<nat>
    requires id in s.quotas && id in s.books
  {
    BillableRows(s, id) - Metered(s, id, s.nextRow)
  }

  /** Billable rows since then whose event falls in the period although their unit, if any, was not
      taken here. */
  function StrayIn(s: State, id: nat): set<nat>
    requires id in s.quotas && id in s.books
  {
    Metered(s, id, s.nextRow) - Metered(s, id, s.books[id].sinceRow) - BillableRows(s, id)
  }

  lemma DifferenceSize(a: set<nat>, b: set<nat>)
    ensures |a - b| == |a| - |a * b|
  {
    assert a == (a - b) + a * b;
  }

  lemma SplitSize(all: set<nat>, before: set<nat>, rows: set<nat>)
    requires before <= all && before !! rows
    ensures |all| == |before| + |rows| - |rows - all| + |all - before - rows|
  {
    DifferenceSize(rows, all);
    assert all == before + rows * all + (all - before - rows);
  }

  /** The meter is what it was, plus what was charged here, less what strayed out, plus what
      strayed in. */
  lemma MeteredSplits(s: State, id: nat)
    requires id in s.quotas && id in s.books && s.books[id].sinceRow <= s.nextRow
    ensures |Metered(s, id, s.nextRow)|
         == |Metered(s, id, s.books[id].sinceRow)| + |BillableRows(s, id)| - |StrayOut(s, id)| + |StrayIn(s, id)|
  {
    SplitSize(Metered(s, id, s.nextRow), Metered(s, id, s.books[id].sinceRow), BillableRows(s, id));
  }

  lemma QuiescentHasNothingOpen(s: State, id: nat)
    requires RequestsOk(s) && id in s.books && id in s.quotas && Quiescent(s, s.quotas[id].workspace)
    ensures Open(s, id) == {}
  {
    forall r | r in Holding(s.requests, id, s.books[id].sinceRequest) ensures Finished(s.requests[r].phase) {
      assert RequestOk(s, r, s.requests[r]);
    }
  }

  lemma NothingSince(s: State, id: nat)
    requires RequestsOk(s) && id in s.books && s.books[id].sinceRequest == s.nextRequest
    ensures Leaked(s, id) == {} && Forgiven(s, id) == {} && Billed(s, id) == {}
  {
    forall r | r in s.requests ensures r < s.nextRequest {
      assert RequestOk(s, r, s.requests[r]);
    }
  }

  /** What a reconciliation writes, with no request of the workspace in flight: the counter less
      its leaked units, plus units refunded although their row stands, corrected by the answers
      that straddled a period end, and capped at the allowance. It takes off exactly the leaked
      units if and only if what it adds and what strayed out are equal, or the counter less its
      leaks is at the allowance already and no less was added. */
  lemma ReconcileIsExact(s: State, id: nat)
    requires Reachable(s) && Apply(s, Reconcile(id)).Some?
    ensures id in s.quotas && id in s.books
    ensures var s' := Apply(s, Reconcile(id)).value;
            var kept := s.quotas[id].used - |Leaked(s, id)|;
            var added := |Forgiven(s, id)| + |StrayIn(s, id)|;
            && id in s'.quotas && id in s'.books
            && s'.quotas[id].used == AtMost(kept + added - |StrayOut(s, id)|, s.quotas[id].allowance)
            && (s'.quotas[id].used == kept <==>
                added == |StrayOut(s, id)| || (kept == s.quotas[id].allowance && added >= |StrayOut(s, id)|))
            && Leaked(s', id) == {} && Forgiven(s', id) == {} && Billed(s', id) == {}
  {
    ReachableParts(s);
    RecountValue(s, id);
    ReconcileKeepsRequests(s, id);
  }

  lemma ReachableParts(s: State)
    requires Reachable(s)
    ensures RequestsOk(s) && TablesOk(s) && OrdersOk(s) && CountsOk(s)
  {
    ReachableInv(s);
  }

  lemma RecountValue(s: State, id: nat)
    requires Reachable(s) && id in s.quotas && id in s.books && Quiescent(s, s.quotas[id].workspace)
    ensures var kept := s.quotas[id].used - |Leaked(s, id)|;
            && kept <= s.quotas[id].allowance
            && AtMost(|Metered(s, id, s.nextRow)|, s.quotas[id].allowance)
            == AtMost(kept + |Forgiven(s, id)| + |StrayIn(s, id)| - |StrayOut(s, id)|, s.quotas[id].allowance)
  {
    ReachableParts(s);
    LedgerBalances(s, id);
    assert Counted(s, id, s.books[id]);
    MeterAgrees(s, id);
    QuiescentHasNothingOpen(s, id);
  }

  /** What a recount will write, in terms of the ledger. Where the last reconciliation was capped,
      nothing more can have been billed since. */
  lemma MeterAgrees(s: State, id: nat)
    requires RequestsOk(s) && TablesOk(s) && OrdersOk(s) && id in s.quotas && id in s.books
    requires Counted(s, id, s.books[id]) && |Billed(s, id)| + s.books[id].base <= s.quotas[id].allowance
    ensures AtMost(|Metered(s, id, s.nextRow)|, s.quotas[id].allowance)
         == AtMost(s.books[id].base + |Billed(s, id)| + |Forgiven(s, id)| + |StrayIn(s, id)| - |StrayOut(s, id)|, s.quotas[id].allowance)
  {
    BillableRowsCounted(s, id);
    MeteredSplits(s, id);
    DifferenceSize(BillableRows(s, id), Metered(s, id, s.nextRow));
  }

  lemma ReconcileKeepsRequests(s: State, id: nat)
    requires RequestsOk(s) && Apply(s, Reconcile(id)).Some?
    ensures var s' := Apply(s, Reconcile(id)).value;
            && id in s'.quotas && id in s'.books && s'.quotas == Recount(s.quotas, id, |Metered(s, id, s.nextRow)|)
            && Leaked(s', id) == {} && Forgiven(s', id) == {} && Billed(s', id) == {}
  {
    var s' := Apply(s, Reconcile(id)).value;
    forall r | r in s'.requests ensures RequestOk(s', r, s'.requests[r]) {
      assert RequestOk(s, r, s.requests[r]);
      RequestGrows(s, s', r, s.requests[r]);
    }
    NothingSince(s', id);
  }

  // ---------------------------------------------------------------- idempotency keys

  /** At most one row exists per workspace and key, and one usage event per row, which agrees with
      it on the workspace and on whether the answer is billable. */
  lemma OneRowPerKey(s: State)
    requires Reachable(s)
    ensures forall c, d | c in s.conversations && d in s.conversations
                          && s.conversations[c].key.Some? && s.conversations[c].key == s.conversations[d].key
                          && s.conversations[c].workspace == s.conversations[d].workspace :: c == d
    ensures s.events.Keys == s.conversations.Keys
    ensures forall c | c in s.conversations ::
              c in s.events && s.events[c].workspace == s.conversations[c].workspace
              && s.events[c].billable == (s.conversations[c].body.status in {Answered, WasRefused})
  {
    ReachableInv(s);
    assert forall c | c in s.conversations :: RowOk(s, c, s.conversations[c]);
  }

  /** Whoever returns an answer returns a stored one: with a key, the one row under that key, fresh
      or replayed alike; without, the row the request itself committed. A replay shows neither
      retrieved chunks nor an escalation reason, and a fresh answer is the writer's own. */
  lemma RepliesComeFromRows(s: State, r: nat)
    requires Reachable(s) && r in s.requests && s.requests[r].phase.Done? && s.requests[r].phase.outcome.Delivers?
    ensures var q := s.requests[r];
            var d := q.phase.outcome.delivery;
            && (q.key.Some? ==>
                  && (q.workspace, q.key.value) in s.keyIndex
                  && Stored(s, q, s.keyIndex[(q.workspace, q.key.value)], d.answer))
            && (q.key.None? ==> q.wrote.Some? && Stored(s, q, q.wrote.value, d.answer))
            && (if d.replayed then q.key.Some? && d.answer.shown == NOTHING
                else q.wrote.Some? && q.wrote.value in s.conversations && s.conversations[q.wrote.value].writer == r
                     && (q.key.Some? ==> s.keyIndex[(q.workspace, q.key.value)] == q.wrote.value))
  {
    ReachableInv(s);
    assert RequestOk(s, r, s.requests[r]);
    var q := s.requests[r];
    if !q.phase.outcome.delivery.replayed {
      assert RowOk(s, q.wrote.value, s.conversations[q.wrote.value]);
    }
  }

  /** All requests with one workspace and key that return an answer return the same one, in text,
      citations, status, distance, cache outcome and tokens. At most one of them is fresh; the others
      are replays, which differ from it in what only the response shows. */
  lemma SameKeySameAnswer(s: State, r: nat, o: nat)
    requires Reachable(s) && r in s.requests && o in s.requests
    requires s.requests[r].phase.Done? && s.requests[r].phase.outcome.Delivers?
    requires s.requests[o].phase.Done? && s.requests[o].phase.outcome.Delivers?
    requires s.requests[r].workspace == s.requests[o].workspace && s.requests[r].key == s.requests[o].key && s.requests[r].key.Some?
    ensures var a, b := s.requests[r].phase.outcome.delivery, s.requests[o].phase.outcome.delivery;
            && a.answer.body == b.answer.body && a.answer.tokens == b.answer.tokens
            && (r == o || a.replayed || b.replayed)
            && (a.replayed ==> a.answer.shown == NOTHING) && (b.replayed ==> b.answer.shown == NOTHING)
  {
    RepliesComeFromRows(s, r);
    RepliesComeFromRows(s, o);
  }

  /** The loser of the unique constraint always finds the winner's row. */
  lemma LoserReplays(s: State, r: nat)
    requires Reachable(s) && r in s.requests && s.requests[r].phase.Lost?
    ensures s.requests[r].key.Some?
    ensures var winner := FindReplay(s, s.requests[r].workspace, s.requests[r].key.value);
            && winner.Some?
            && Apply(s, Replay(r)) == Some(To(s, r, Settling(Delivers(Delivery(winner.value, true)))))
  {
    ReachableRequest(s, r);
    ReachableParts(s);
    FoundIsStored(s, r);
  }

  /** Requests under a key that hold a unit. */
  function KeyHolders(s: State, ws: nat, key: string): set<nat> {
    set r | r in s.requests && s.requests[r].workspace == ws && s.requests[r].key == Some(key)
            && s.requests[r].hold.UnitOf? && s.requests[r].refunds == 0
  }

  /** Those of them that are done; the others are still running or have crashed. */
  function DoneHolders(s: State, ws: nat, key: string): set<nat> {
    set r | r in KeyHolders(s, ws, key) && s.requests[r].phase.Done?
  }

  function OtherHolders(s: State, ws: nat, key: string): set<nat> {
    set r | r in KeyHolders(s, ws, key) && !s.requests[r].phase.Done?
  }

  /** The key's row is billable and its writer was on a quota. */
  predicate KeyIsCharged(s: State, ws: nat, key: string) {
    && (ws, key) in s.keyIndex && s.keyIndex[(ws, key)] in s.conversations
    && var row := s.conversations[s.keyIndex[(ws, key)]];
       row.body.status in {Answered, WasRefused} && row.writer in s.requests && s.requests[row.writer].hold.UnitOf?
  }

  function KeyWriter(s: State, ws: nat, key: string): nat
    requires KeyIsCharged(s, ws, key)
  {
    s.conversations[s.keyIndex[(ws, key)]].writer
  }

  /** And the writer is done, having heard of its commit. */
  predicate KeyIsKept(s: State, ws: nat, key: string) {
    && KeyIsCharged(s, ws, key)
    && s.requests[KeyWriter(s, ws, key)].phase.Done? && !s.requests[KeyWriter(s, ws, key)].unheard
  }

  lemma HolderWroteKey(s: State, r: nat, ws: nat, key: string)
    requires TablesOk(s) && r in DoneHolders(s, ws, key) && RequestOk(s, r, s.requests[r])
    ensures KeyIsKept(s, ws, key) && KeyWriter(s, ws, key) == r
  {
    KeptMeansBillable(s, r);
    var c := s.requests[r].wrote.value;
    assert RowOk(s, c, s.conversations[c]);
  }

  lemma WriterHoldsUnit(s: State, ws: nat, key: string)
    requires KeyIsKept(s, ws, key)
    requires IndexOk(s.conversations, (ws, key), s.keyIndex[(ws, key)])
    requires RowOk(s, s.keyIndex[(ws, key)], s.conversations[s.keyIndex[(ws, key)]])
    requires var w := KeyWriter(s, ws, key); RequestOk(s, w, s.requests[w])
    ensures KeyWriter(s, ws, key) in DoneHolders(s, ws, key)
  {
    KeptMeansBillable(s, KeyWriter(s, ws, key));
  }

  lemma KeyRowIsOk(s: State, ws: nat, key: string)
    requires RequestsOk(s) && TablesOk(s) && KeyIsCharged(s, ws, key)
    ensures var c, w := s.keyIndex[(ws, key)], KeyWriter(s, ws, key);
            && IndexOk(s.conversations, (ws, key), c) && RowOk(s, c, s.conversations[c])
            && RequestOk(s, w, s.requests[w]) && s.requests[w].workspace == ws && s.requests[w].key == Some(key)
  {
    var c := s.keyIndex[(ws, key)];
    assert IndexOk(s.conversations, (ws, key), c) && RowOk(s, c, s.conversations[c]);
    assert RequestOk(s, KeyWriter(s, ws, key), s.requests[KeyWriter(s, ws, key)]);
  }

  lemma HoldersAreTheWriter(s: State, ws: nat, key: string)
    requires RequestsOk(s) && TablesOk(s)
    ensures forall r | r in DoneHolders(s, ws, key) :: KeyIsKept(s, ws, key) && KeyWriter(s, ws, key) == r
  {
    forall r | r in DoneHolders(s, ws, key) ensures KeyIsKept(s, ws, key) && KeyWriter(s, ws, key) == r {
      assert RequestOk(s, r, s.requests[r]);
      HolderWroteKey(s, r, ws, key);
    }
  }

  /** In every reachable state, whatever else runs or has crashed under the key: among its requests
      that are done, exactly the writer of its row keeps a unit, if the row is billable, the writer
      was on a quota, is done and heard of its commit; otherwise none does. What the key costs beyond
      that is held by requests still running or crashed. */
  lemma KeyCostsOneUnit(s: State, ws: nat, key: string)
    requires Reachable(s)
    ensures DoneHolders(s, ws, key) == if KeyIsKept(s, ws, key) then {KeyWriter(s, ws, key)} else {}
    ensures |KeyHolders(s, ws, key)| == (if KeyIsKept(s, ws, key) then 1 else 0) + |OtherHolders(s, ws, key)|
  {
    ReachableParts(s);
    DoneHolderIsWriter(s, ws, key);
    HoldersSplit(s, ws, key);
  }

  lemma DoneHolderIsWriter(s: State, ws: nat, key: string)
    requires RequestsOk(s) && TablesOk(s)
    ensures DoneHolders(s, ws, key) == if KeyIsKept(s, ws, key) then {KeyWriter(s, ws, key)} else {}
  {
    HoldersAreTheWriter(s, ws, key);
    if KeyIsKept(s, ws, key) {
      KeyRowIsOk(s, ws, key);
      WriterHoldsUnit(s, ws, key);
    }
  }

  lemma HoldersSplit(s: State, ws: nat, key: string)
    ensures |KeyHolders(s, ws, key)| == |DoneHolders(s, ws, key)| + |OtherHolders(s, ws, key)|
  {
    assert KeyHolders(s, ws, key) == DoneHolders(s, ws, key) + OtherHolders(s, ws, key);
  }

  /** So once every request under a key is done and none had its commit go unheard, the key costs
      one unit if its row is billable and written on a quota, and nothing otherwise. */
  lemma SettledKeyCostsOneUnit(s: State, ws: nat, key: string)
    requires Reachable(s)
    requires forall r | r in s.requests && s.requests[r].workspace == ws && s.requests[r].key == Some(key) ::
               s.requests[r].phase.Done? && !s.requests[r].unheard
    ensures |KeyHolders(s, ws, key)| == if KeyIsCharged(s, ws, key) then 1 else 0
  {
    ReachableParts(s);
    KeyCostsOneUnit(s, ws, key);
    if KeyIsCharged(s, ws, key) {
      KeyRowIsOk(s, ws, key);
    }
    assert OtherHolders(s, ws, key) == {};
  }

  // ---------------------------------------------------------------- where it stops

  const SEVEN := Tokens(Some(4), Some(7))

  const HELLO := Answer(Body("hello", [], Answered, None, Miss), SEVEN, Shown([3], None))

  lemma Step(s: State, e: Event) returns (s': State)
    requires Reachable(s) && Apply(s, e).Some?
    ensures Reachable(s') && s' == Apply(s, e).value
  {
    var now, es :| Exec(Init(now), es) == Some(s);
    RunSnoc(Apply, Init(now), es, e);
    s' := Apply(s, e).value;
    assert Exec(Init(now), es + [e]) == Some(s');
  }

  lemma StartIsReachable(now: int)
    ensures Reachable(Init(now))
  {
    assert Exec(Init(now), []) == Some(Init(now));
  }

  const TAKEN := Request(1, None, false, UnitOf(0), Producing, None, 0, false)

  /** A request of workspace 1 arrives and takes a unit of quota row 0. */
  lemma TakeUnit(s: State) returns (s': State)
    requires Reachable(s) && 0 in s.quotas && Grants(s.quotas[0], 1, s.now)
    ensures Reachable(s')
    ensures s' == s.(requests := s.requests[s.nextRequest := TAKEN], quotas := Charge(s.quotas, 0), nextRequest := s.nextRequest + 1)
  {
    var arrived := Step(s, Arrive(1, None, false));
    assert arrived.requests[s.nextRequest] == TAKEN.(hold := NoHold, phase := Reserving);
    s' := Step(arrived, Reserve(s.nextRequest, Some(0)));
  }

  /** It is answered and its row inserted. */
  lemma InsertAnswer(s: State, r: nat) returns (s': State)
    requires Reachable(s) && r in s.requests && s.requests[r] == TAKEN
    ensures Reachable(s')
    ensures s' == s.(requests := s.requests[r := TAKEN.(phase := Writing(HELLO, s.nextRow))], nextRow := s.nextRow + 1)
  {
    var produced := Step(s, Produce(r, HELLO));
    assert produced.requests[r] == TAKEN.(phase := Inserting(HELLO));
    s' := Step(produced, Insert(r));
  }

  /** Its transaction commits, heard or not, and it settles. */
  lemma CommitAnswer(s: State, r: nat, c: nat, heard: bool) returns (s': State)
    requires Reachable(s) && r in s.requests && s.requests[r] == TAKEN.(phase := Writing(HELLO, c)) && c !in s.events
    requires 0 in s.quotas && s.quotas[0].used > 0
    ensures Reachable(s')
    ensures s'.events == s.events[c := UsageEvent(1, true, SEVEN, s.now)] && s'.nextRow == s.nextRow
    ensures s'.now == s.now && s'.quotas == (if heard then s.quotas else GiveBack(s.quotas, 0))
    ensures s'.requests.Keys == s.requests.Keys && s'.requests[r].phase.Done? && s'.requests == s.requests[r := s'.requests[r]]
  {
    var outcome := if heard then Delivers(Delivery(HELLO, false)) else Throws;
    var committed := Step(s, if heard then Commit(r) else CommitUnheard(r));
    assert committed.requests[r] == TAKEN.(phase := Settling(outcome), wrote := Some(c), unheard := !heard);
    s' := Step(committed, Settle(r));
  }

  lemma OneAnswer(s: State, heard: bool) returns (s': State)
    requires Reachable(s) && 0 in s.quotas && Grants(s.quotas[0], 1, s.now) && s.nextRow !in s.events && s.quotas[0].used >= 0
    ensures Reachable(s')
    ensures s'.events == s.events[s.nextRow := UsageEvent(1, true, SEVEN, s.now)] && s'.nextRow == s.nextRow + 1
    ensures s'.now == s.now && s'.quotas == if heard then Charge(s.quotas, 0) else s.quotas
  {
    var taken := TakeUnit(s);
    var inserted := InsertAnswer(taken, s.nextRequest);
    s' := CommitAnswer(inserted, s.nextRequest, s.nextRow, heard);
  }

  /** A commit that takes effect although the client is told it failed is refunded, so an allowance
      of one can meter two billable answers. */
  lemma UnheardCommitOversells() returns (s: State)
    ensures Reachable(s)
    ensures 0 in s.quotas && s.quotas[0].allowance == 1
    ensures s.events.Keys == {0, 1} && s.events[0].billable && s.events[1].billable
  {
    StartIsReachable(0);
    s := Step(Init(0), OpenPeriod(0, 1, 1, 0, 10));
    s := OneAnswer(s, false);
    s := OneAnswer(s, true);
  }

  lemma ReconcileNext(done: State) returns (s: State)
    requires Reachable(done) && Quiescent(done, 1) && 1 in done.quotas && done.now == 12 && done.nextRow == 1
    requires done.quotas[1] == Quota(1, 5, 0, 10, 20) && done.events == map[0 := UsageEvent(1, true, SEVEN, 12)]
    ensures Reachable(s) && s.events == done.events && s.quotas == done.quotas[1 := Quota(1, 5, 1, 10, 20)]
  {
    assert Metered(done, 1, 1) == {0};
    s := Step(done, Reconcile(1));
  }

  /** An answer reserved in one period and committed in the next is counted by a reconciliation of
      the next, although its unit came from the first: both rows then carry it. */
  lemma StraddlingAnswerCountsTwice() returns (s: State)
    ensures Reachable(s)
    ensures s.events.Keys == {0} && 0 in s.quotas && 1 in s.quotas
    ensures s.quotas[0].used == 1 && s.quotas[1].used == 1
  {
    StartIsReachable(0);
    var first := Step(Init(0), OpenPeriod(0, 1, 5, 0, 10));
    var second := Step(first, OpenPeriod(1, 1, 5, 10, 20));
    var taken := TakeUnit(second);
    var later := Step(taken, Tick(12));
    var inserted := InsertAnswer(later, 0);
    var done := CommitAnswer(inserted, 0, 0, true);
    s := ReconcileNext(done);
  }
}
