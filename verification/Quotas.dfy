/** Answer allowances per workspace and period: the counter and its four-way outcome. */
module Quotas {
  import opened Common

  const TRIAL_DAYS := 7
  const TRIAL_ANSWERS := 200
  const DAY := 86_400

  /** One allowance for one half-open period; `used` counts the units given out. */
  datatype Quota = Quota(workspace: nat, allowance: nat, used: int, periodStart: int, periodEnd: int)

  type Table = map<nat, Quota>

  datatype Reservation =
    | Reserved(quotaId: nat)
    | Unlimited
    | Exhausted(allowance: nat, periodEnd: int)
    | Expired(latestEnd: int)

  predicate Covers(q: Quota, ws: nat, now: int) {
    q.workspace == ws && q.periodStart <= now < q.periodEnd
  }

  /** The WHERE clause of the reserving UPDATE. */
  predicate Grants(q: Quota, ws: nat, now: int) {
    Covers(q, ws, now) && q.used < q.allowance
  }

  predicate HasCurrent(rows: Table, ws: nat, now: int) {
    exists id | id in rows :: Covers(rows[id], ws, now)
  }

  predicate HasAny(rows: Table, ws: nat) {
    exists id | id in rows :: rows[id].workspace == ws
  }

  predicate Overlap(a: Quota, b: Quota) {
    a.workspace == b.workspace && a.periodStart < b.periodEnd && b.periodStart < a.periodEnd
  }

  /** The CHECK constraints of the schema. */
  ghost predicate CheckedTable(rows: Table) {
    forall id | id in rows ::
      rows[id].allowance > 0 && 0 <= rows[id].used <= rows[id].allowance && rows[id].periodStart < rows[id].periodEnd
  }

  /** And periods of one workspace that do not overlap, as half-open ranges are meant not to. */
  ghost predicate ValidTable(rows: Table) {
    && CheckedTable(rows)
    && (forall i, j | i in rows && j in rows && i != j :: !Overlap(rows[i], rows[j]))
  }

  function Charge(rows: Table, id: nat): Table
    requires id in rows
  {
    rows[id := rows[id].(used := rows[id].used + 1)]
  }

  /** UPDATE ... SET used = used - 1 WHERE id = ... AND used > 0. */
  function GiveBack(rows: Table, id: nat): Table {
    if id in rows && rows[id].used > 0 then rows[id := rows[id].(used := rows[id].used - 1)] else rows
  }

  /** The counter recomputed from the meter, never above the allowance. */
  function Recount(rows: Table, id: nat, metered: nat): Table
    requires id in rows
  {
    rows[id := rows[id].(used := if metered < rows[id].allowance then metered else rows[id].allowance)]
  }

  /** At most one period of a workspace covers an instant. */
  lemma OneCurrent(rows: Table, ws: nat, now: int, i: nat, j: nat)
    requires ValidTable(rows) && i in rows && j in rows && Covers(rows[i], ws, now) && Covers(rows[j], ws, now)
    ensures i == j
  {
    assert Overlap(rows[i], rows[j]);
  }

  /** Where one period ends as the next begins there is neither gap nor overlap: an instant belongs
      to exactly one of them from the first one's start up to the second one's end. */
  lemma AdjacentPeriods(p: Quota, q: Quota, ws: nat, now: int)
    requires p.workspace == ws && q.workspace == ws && p.periodStart < p.periodEnd == q.periodStart < q.periodEnd
    ensures Covers(p, ws, now) || Covers(q, ws, now) <==> p.periodStart <= now < q.periodEnd
    ensures !(Covers(p, ws, now) && Covers(q, ws, now)) && !Overlap(p, q)
  {}

  /** The reserving UPDATE has no LIMIT: it charges every row that grants. */
  function ChargeAll(rows: Table, ws: nat, now: int): Table {
    map id | id in rows :: if Grants(rows[id], ws, now) then rows[id].(used := rows[id].used + 1) else rows[id]
  }

  /** It charges just the row it returns exactly if no other grants too; a refund gives back only
      that one. */
  lemma ChargesOneIffOneGrants(rows: Table, ws: nat, now: int, first: nat)
    requires first in rows && Grants(rows[first], ws, now)
    ensures ChargeAll(rows, ws, now) == Charge(rows, first) <==> forall id | id in rows && Grants(rows[id], ws, now) :: id == first
  {
    if id: nat :| id in rows && Grants(rows[id], ws, now) && id != first {
      assert ChargeAll(rows, ws, now)[id].used == rows[id].used + 1 && Charge(rows, first)[id] == rows[id];
    }
  }

  ghost predicate OneGrants(rows: Table, ws: nat, now: int) {
    forall i, j | i in rows && j in rows && Grants(rows[i], ws, now) && Grants(rows[j], ws, now) :: i == j
  }

  lemma RefundUndoes(rows: Table, ws: nat, now: int, first: nat)
    requires CheckedTable(rows) && first in rows && Grants(rows[first], ws, now)
    ensures GiveBack(ChargeAll(rows, ws, now), first) == rows <==> OneGrants(rows, ws, now)
  {
    var after := GiveBack(ChargeAll(rows, ws, now), first);
    if i: nat :| i in rows && Grants(rows[i], ws, now) && i != first {
      assert after[i].used == rows[i].used + 1;
    } else {
      assert after == rows;
    }
  }

  lemma ChargeAllIsValid(rows: Table, ws: nat, now: int)
    ensures CheckedTable(rows) ==> CheckedTable(ChargeAll(rows, ws, now))
    ensures ValidTable(rows) ==> ValidTable(ChargeAll(rows, ws, now))
  {
    var after := ChargeAll(rows, ws, now);
    if ValidTable(rows) {
      forall i, j | i in after && j in after && i != j ensures !Overlap(after[i], after[j]) {
        assert !Overlap(rows[i], rows[j]);
      }
    }
  }

  /** With periods that do not overlap no other ever does. */
  lemma OnlyOneGrants(rows: Table, ws: nat, now: int, first: nat)
    requires ValidTable(rows) && first in rows && Grants(rows[first], ws, now)
    ensures ChargeAll(rows, ws, now) == Charge(rows, first)
  {
    forall id | id in rows && Grants(rows[id], ws, now) ensures id == first {
      OneCurrent(rows, ws, now, id, first);
    }
    ChargesOneIffOneGrants(rows, ws, now, first);
  }

  lemma ChargeIsValid(rows: Table, id: nat)
    requires ValidTable(rows) && id in rows && rows[id].used < rows[id].allowance
    ensures ValidTable(Charge(rows, id))
  {
    forall i, j | i in rows && j in rows && i != j ensures !Overlap(Charge(rows, id)[i], Charge(rows, id)[j]) {
      assert !Overlap(rows[i], rows[j]);
    }
  }

  lemma GiveBackIsValid(rows: Table, id: nat)
    requires ValidTable(rows)
    ensures ValidTable(GiveBack(rows, id))
  {
    forall i, j | i in rows && j in rows && i != j ensures !Overlap(GiveBack(rows, id)[i], GiveBack(rows, id)[j]) {
      assert !Overlap(rows[i], rows[j]);
    }
  }

  lemma {:induction false} LatestExists(rows: Table, ids: set<nat>) returns (id: nat)
    requires ids != {} && ids <= rows.Keys
    ensures id in ids && forall j | j in ids :: rows[j].periodEnd <= rows[id].periodEnd
    decreases |ids|
  {
    id :| id in ids;
    if ids - {id} != {} {
      var other := LatestExists(rows, ids - {id});
      assert forall j | j in ids && j != id :: j in ids - {id};
      if rows[id].periodEnd < rows[other].periodEnd {
        id := other;
      }
    } else {
      assert ids == {id};
    }
  }

  class QuotaService {
    var rows: Table

    constructor ()
      ensures rows == map[]
    {
      rows := map[];
    }

    /** A trial starts now; a workspace is created together with it, so it has no other period. */
    method CreateTrial(id: nat, ws: nat, now: int)
      requires CheckedTable(rows) && id !in rows
      modifies this
      ensures CheckedTable(rows)
      ensures ValidTable(old(rows)) && !HasAny(old(rows), ws) ==> ValidTable(rows)
      ensures rows == old(rows)[id := Quota(ws, 200, 0, now, now + 604_800)]
    {
      rows := rows[id := Quota(ws, TRIAL_ANSWERS, 0, now, now + TRIAL_DAYS * DAY)];
    }

    /** Exactly one of four outcomes, and which one: a unit of a current period with any left, and
        otherwise no change, telling a used-up period from an ended one and both from a workspace
        that never had one. Where periods do not overlap the unit is taken from that one row alone.
        The reading statements may run a little later. */
    method Reserve(ws: nat, now: int, later: int) returns (r: Reservation)
      requires CheckedTable(rows) && now <= later
      modifies this
      ensures CheckedTable(rows) && (ValidTable(old(rows)) ==> ValidTable(rows))
      ensures r.Reserved? <==> exists id | id in old(rows) :: Grants(old(rows)[id], ws, now)
      ensures r.Reserved? ==> r.quotaId in old(rows) && Grants(old(rows)[r.quotaId], ws, now) && rows == ChargeAll(old(rows), ws, now)
      ensures r.Reserved? && ValidTable(old(rows)) ==> rows == Charge(old(rows), r.quotaId)
      ensures !r.Reserved? ==> rows == old(rows)
      ensures r.Exhausted? <==> !(exists id | id in old(rows) :: Grants(old(rows)[id], ws, now)) && HasCurrent(old(rows), ws, later)
      ensures r.Exhausted? ==>
                exists id | id in rows :: Covers(rows[id], ws, later) && rows[id].allowance == r.allowance && rows[id].periodEnd == r.periodEnd
                                          && (Covers(rows[id], ws, now) ==> rows[id].used == rows[id].allowance)
      ensures r.Expired? ==>
                && HasAny(rows, ws) && !HasCurrent(rows, ws, later)
                && (forall id | id in rows && rows[id].workspace == ws :: rows[id].periodEnd <= r.latestEnd)
                && (exists id | id in rows :: rows[id].workspace == ws && rows[id].periodEnd == r.latestEnd)
      ensures r.Expired? <==> !(exists id | id in old(rows) :: Grants(old(rows)[id], ws, now)) && !HasCurrent(old(rows), ws, later) && HasAny(old(rows), ws)
      ensures r.Unlimited? <==> !HasAny(rows, ws)
    {
      var hit := UpdateGranting(ws, now);
      if hit.Some? {
        assert rows[hit.value].workspace == ws;
        return Reserved(hit.value);
      }
      if current :| current in rows && Covers(rows[current], ws, later) {
        return Exhausted(rows[current].allowance, rows[current].periodEnd);
      }
      var latest := SelectLatest(ws);
      return if latest.Some? then Expired(latest.value) else Unlimited;
    }

    /** UPDATE ... SET used = used + 1 WHERE the period is current and not used up RETURNING id. */
    method UpdateGranting(ws: nat, now: int) returns (hit: Option<nat>)
      requires CheckedTable(rows)
      modifies this
      ensures CheckedTable(rows) && (ValidTable(old(rows)) ==> ValidTable(rows))
      ensures hit.None? ==> rows == old(rows) && forall id | id in rows :: !Grants(rows[id], ws, now)
      ensures hit.Some? ==> hit.value in old(rows) && Grants(old(rows)[hit.value], ws, now) && rows == ChargeAll(old(rows), ws, now)
      ensures hit.Some? && ValidTable(old(rows)) ==> rows == Charge(old(rows), hit.value)
    {
      var granted := set id | id in rows && Grants(rows[id], ws, now);
      if granted == {} {
        assert forall id | id in rows :: Grants(rows[id], ws, now) ==> id in granted;
        return None;
      }
      var first :| first in granted;
      ChargeAllIsValid(rows, ws, now);
      if ValidTable(rows) {
        OnlyOneGrants(rows, ws, now, first);
      }
      rows := ChargeAll(rows, ws, now);
      return Some(first);
    }

    /** SELECT period_end ... ORDER BY period_end DESC LIMIT 1. */
    method SelectLatest(ws: nat) returns (latestEnd: Option<int>)
      ensures latestEnd.None? <==> !HasAny(rows, ws)
      ensures latestEnd.Some? ==>
                && (forall id | id in rows && rows[id].workspace == ws :: rows[id].periodEnd <= latestEnd.value)
                && (exists id | id in rows :: rows[id].workspace == ws && rows[id].periodEnd == latestEnd.value)
    {
      var mine := set id | id in rows && rows[id].workspace == ws;
      if mine == {} {
        assert forall id | id in rows :: rows[id].workspace == ws ==> id in mine;
        return None;
      }
      ghost var last := LatestExists(rows, mine);
      var latest :| latest in mine && forall j | j in mine :: rows[j].periodEnd <= rows[latest].periodEnd;
      return Some(rows[latest].periodEnd);
    }

    /** Gives a unit back once; anything but a reservation is left alone. */
    method Refund(r: Reservation)
      requires CheckedTable(rows)
      modifies this
      ensures CheckedTable(rows) && (ValidTable(old(rows)) ==> ValidTable(rows))
      ensures rows == if r.Reserved? then GiveBack(old(rows), r.quotaId) else old(rows)
    {
      if !r.Reserved? {
        return;
      }
      if ValidTable(rows) {
        GiveBackIsValid(rows, r.quotaId);
      }
      if r.quotaId in rows && rows[r.quotaId].used > 0 {
        rows := rows[r.quotaId := rows[r.quotaId].(used := rows[r.quotaId].used - 1)];
      }
    }

    /** Every current period's counter is set from the meter of its own range, and nothing happens
        between periods. Where periods do not overlap that is one row. */
    method Reconcile(ws: nat, now: int, metered: nat -> nat) returns (change: Option<(int, int)>)
      requires CheckedTable(rows)
      modifies this
      ensures CheckedTable(rows)
      ensures change.None? <==> !HasCurrent(old(rows), ws, now)
      ensures change.None? ==> rows == old(rows)
      ensures change.Some? ==>
                exists id | id in old(rows) && id in rows ::
                  && Covers(old(rows)[id], ws, now) && change.value == (old(rows)[id].used, rows[id].used)
                  && rows[id].used == (if metered(id) < rows[id].allowance then metered(id) else rows[id].allowance)
                  && (ValidTable(old(rows)) ==> rows == Recount(old(rows), id, metered(id)))
    {
      if id :| id in rows && Covers(rows[id], ws, now) {
        var before := rows[id].used;
        ghost var was := rows;
        rows := map i | i in rows :: if Covers(rows[i], ws, now) then Recount(rows, i, metered(i))[i] else rows[i];
        if ValidTable(was) {
          forall i | i in was && Covers(was[i], ws, now) ensures i == id {
            OneCurrent(was, ws, now, i, id);
          }
          assert rows == Recount(was, id, metered(id));
        }
        return Some((before, rows[id].used));
      }
      return None;
    }

    /** A refund undoes the reservation it is given, whatever was reserved, exactly if no two rows
        granted it. */
    method ReserveThenRefund(ws: nat, now: int) returns (r: Reservation)
      requires CheckedTable(rows)
      modifies this
      ensures rows == old(rows) <==> OneGrants(old(rows), ws, now)
    {
      ghost var was := rows;
      r := Reserve(ws, now, now);
      if r.Reserved? {
        RefundUndoes(was, ws, now, r.quotaId);
      }
      Refund(r);
    }
  }
}
