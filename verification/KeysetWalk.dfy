/** Walking a growing transcript backwards with a keyset cursor. */
module KeysetWalk {
  import opened Common

  datatype CursorPage<T> = CursorPage(items: seq<T>, nextCursor: Option<int>, hasMore: bool)

  function BuildCursorPage<T>(rows: seq<T>, limit: nat, toCursor: T -> int): CursorPage<T> {
    var hasMore := |rows| > limit;
    var items := if hasMore then rows[..limit] else rows;
    CursorPage(items, if hasMore && |items| > 0 then Some(toCursor(items[|items| - 1])) else None, hasMore)
  }

  datatype Turn = Turn(id: int, workspaceId: int, sessionId: string, body: string)

  /** What the query string's cursor turns into: nothing, a whole number, or neither. */
  datatype Cursor = Absent | Before(id: int) | NotAnInteger

  datatype ListError = InvalidCursor

  /** Rows in arrival order. Serial ids grow with arrival. */
  predicate Serial(table: seq<Turn>) {
    forall i, j | 0 <= i < j < |table| :: table[i].id < table[j].id
  }

  /** The rows of one session with an id below the bound, in arrival order. */
  function SessionRows(table: seq<Turn>, ws: int, session: string, bound: Option<int>): seq<Turn> {
    if table == [] then []
    else
      var last := table[|table| - 1];
      var front := SessionRows(table[..|table| - 1], ws, session, bound);
      if last.workspaceId == ws && last.sessionId == session && (bound.Some? ==> last.id < bound.value)
      then front + [last] else front
  }

  lemma {:induction false} RowsOfSession(table: seq<Turn>, ws: int, session: string, bound: Option<int>, t: Turn)
    ensures t in SessionRows(table, ws, session, bound) <==>
            t in table && t.workspaceId == ws && t.sessionId == session && (bound.Some? ==> t.id < bound.value)
    decreases |table|
  {
    if table != [] {
      RowsOfSession(table[..|table| - 1], ws, session, bound, t);
      assert table == table[..|table| - 1] + [table[|table| - 1]];
    }
  }

  function Reverse<T>(s: seq<T>): (r: seq<T>)
    ensures |r| == |s|
  {
    if s == [] then [] else Reverse(s[1..]) + [s[0]]
  }

  /** The rows of one page, given every row below the cursor in arrival order: read newest first
      for the seek, at most one more than asked for, and returned oldest first. */
  function PageOf(ascending: seq<Turn>, limit: nat): CursorPage<Turn> {
    var newestFirst := Reverse(ascending);
    var rows := if |newestFirst| > limit + 1 then newestFirst[..limit + 1] else newestFirst;
    var page := BuildCursorPage(rows, limit, (t: Turn) => t.id);
    page.(items := Reverse(page.items))
  }

  function ListTurns(table: seq<Turn>, ws: int, session: string, cursor: Cursor, limit: nat): Result<CursorPage<Turn>, ListError> {
    match cursor
    case NotAnInteger => Err(InvalidCursor)
    case Absent => Ok(PageOf(SessionRows(table, ws, session, None), limit))
    case Before(id) => Ok(PageOf(SessionRows(table, ws, session, Some(id)), limit))
  }

  /** A page is the newest `limit` of the rows below the cursor, oldest first; when older rows
      remain the next cursor is the oldest row returned, and otherwise there is none. */
  lemma PageIsNewestRows(rows: seq<Turn>, limit: nat)
    requires limit >= 1
    ensures PageOf(rows, limit) ==
            if |rows| > limit then CursorPage(rows[|rows| - limit..], Some(rows[|rows| - limit].id), true)
            else CursorPage(rows, None, false)
  {
    var newestFirst := Reverse(rows);
    if |rows| > limit {
      ReverseTake(rows, limit);
      ReverseAt(rows, limit - 1);
      var read := if |newestFirst| > limit + 1 then newestFirst[..limit + 1] else newestFirst;
      assert read[..limit] == newestFirst[..limit];
    } else {
      ReverseTake(rows, |rows|);
      assert newestFirst[..|rows|] == newestFirst;
    }
  }

  /** The rows a page is taken from: the session's, with ids below the cursor if there is one. */
  predicate Seeks(t: Turn, ws: int, session: string, cursor: Cursor) {
    t.workspaceId == ws && t.sessionId == session && (cursor.Before? ==> t.id < cursor.id)
  }

  lemma {:induction false} RowsAreSerial(table: seq<Turn>, ws: int, session: string, bound: Option<int>)
    requires Serial(table)
    ensures Serial(SessionRows(table, ws, session, bound))
    decreases |table|
  {
    if table != [] {
      var front, last := table[..|table| - 1], table[|table| - 1];
      RowsAreSerial(front, ws, session, bound);
      var rows := SessionRows(front, ws, session, bound);
      forall i | 0 <= i < |rows| ensures rows[i].id < last.id {
        RowsOfSession(front, ws, session, bound, rows[i]);
        var j :| 0 <= j < |front| && front[j] == rows[i];
        assert table[j].id < table[|table| - 1].id;
      }
    }
  }

  /** Listing fails exactly on a cursor that is no integer. Otherwise the page holds, in order, rows
      the cursor seeks, at most `limit`; it says there is more exactly if it leaves one out, and what
      it leaves out is older than all it holds, the oldest of which is then the next cursor. */
  lemma ListedTurns(table: seq<Turn>, ws: int, session: string, cursor: Cursor, limit: nat)
    requires Serial(table) && limit >= 1
    ensures var listed := ListTurns(table, ws, session, cursor, limit);
            && (listed.Err? <==> cursor == NotAnInteger)
            && (listed.Ok? ==>
                  var page := listed.value;
                  && Serial(page.items) && |page.items| <= limit
                  && (forall t | t in page.items :: t in table && Seeks(t, ws, session, cursor))
                  && (page.hasMore <==> exists t :: t in table && Seeks(t, ws, session, cursor) && t !in page.items)
                  && (forall t, u | t in table && Seeks(t, ws, session, cursor) && t !in page.items && u in page.items :: t.id < u.id)
                  && page.nextCursor == if page.hasMore && page.items != [] then Some(page.items[0].id) else None)
  {
    if cursor != NotAnInteger {
      var bound := if cursor.Before? then Some(cursor.id) else None;
      var rows := SessionRows(table, ws, session, bound);
      forall t ensures t in rows <==> t in table && Seeks(t, ws, session, cursor) {
        RowsOfSession(table, ws, session, bound, t);
      }
      RowsAreSerial(table, ws, session, bound);
      PageIsNewestRows(rows, limit);
      NewestRows(rows, if |rows| > limit then |rows| - limit else 0);
    }
  }

  lemma NewestRows(rows: seq<Turn>, k: nat)
    requires Serial(rows) && k <= |rows|
    ensures Serial(rows[k..]) && (k > 0 ==> rows[0] in rows && rows[0] !in rows[k..])
    ensures forall t, u | t in rows && t !in rows[k..] && u in rows[k..] :: t.id < u.id
    ensures k == 0 ==> rows[k..] == rows
  {
    assert forall n | k <= n < |rows| :: rows[n] == rows[k..][n - k];
    forall t, u | t in rows && t !in rows[k..] && u in rows[k..] ensures t.id < u.id {
      var i :| 0 <= i < |rows| && rows[i] == t;
      var j :| 0 <= j < |rows[k..]| && rows[k..][j] == u;
    }
  }

  lemma {:induction false} ReverseSnoc<T>(s: seq<T>, x: T)
    ensures Reverse(s + [x]) == [x] + Reverse(s)
  {
    if s == [] {
      assert s + [x] == [x];
    } else {
      assert (s + [x])[1..] == s[1..] + [x];
      ReverseSnoc(s[1..], x);
    }
  }

  lemma {:induction false} ReverseAt<T>(s: seq<T>, i: nat)
    requires i < |s|
    ensures Reverse(s)[i] == s[|s| - 1 - i]
  {
    if i < |s| - 1 {
      ReverseAt(s[1..], i);
    }
  }

  lemma {:induction false} ReverseTake<T>(s: seq<T>, n: nat)
    requires n <= |s|
    ensures Reverse(Reverse(s)[..n]) == s[|s| - n..]
    decreases |s|
  {
    if n > 0 {
      var front, last := s[..|s| - 1], s[|s| - 1];
      assert s == front + [last];
      ReverseSnoc(front, last);
      var rest := Reverse(front);
      assert Reverse(s)[..n][1..] == rest[..n - 1];
      ReverseTake(front, n - 1);
      assert s[|s| - n..] == front[|front| - (n - 1)..] + [last];
    }
  }

  /** Rows only ever arrive: each fetch sees the table the one before it saw, and more after it. */
  predicate Growing(early: seq<Turn>, tables: seq<seq<Turn>>)
    decreases |tables|
  {
    tables == [] || (early <= tables[0] && Serial(tables[0]) && Growing(tables[0], tables[1..]))
  }

  /** What the reader of the transcript ends up with: the turns gathered, the number of fetches,
      and whether the end was reached. */
  datatype Walked = Walked(turns: seq<Turn>, fetches: nat, ended: bool)

  function Walk(tables: seq<seq<Turn>>, ws: int, session: string, cursor: Cursor, limit: nat): Walked
    decreases |tables|
  {
    if tables == [] then Walked([], 0, false)
    else
      match ListTurns(tables[0], ws, session, cursor, limit)
      case Err(_) => Walked([], 1, false)
      case Ok(page) =>
        if page.nextCursor.None? then Walked(page.items, 1, true)
        else
          var older := Walk(tables[1..], ws, session, Before(page.nextCursor.value), limit);
          Walked(older.turns + page.items, older.fetches + 1, older.ended)
  }

  /** New arrivals are invisible below a cursor that was already in the table. */
  lemma {:induction false} ArrivalsStayAbove(early: seq<Turn>, late: seq<Turn>, ws: int, session: string, bound: int)
    requires early <= late && Serial(late) && early != [] && bound <= early[|early| - 1].id
    ensures SessionRows(late, ws, session, Some(bound)) == SessionRows(early, ws, session, Some(bound))
    decreases |late|
  {
    if |late| > |early| {
      ArrivalsStayAbove(early, late[..|late| - 1], ws, session, bound);
      assert late[|early| - 1].id < late[|late| - 1].id;
    } else {
      assert late == early;
    }
  }

  /** Moving the bound down to the oldest row already shown leaves exactly the older rows. */
  lemma {:induction false} BoundCuts(table: seq<Turn>, ws: int, session: string, bound: Option<int>, k: nat)
    requires Serial(table) && k < |SessionRows(table, ws, session, bound)|
    ensures var rows := SessionRows(table, ws, session, bound);
            SessionRows(table, ws, session, Some(rows[k].id)) == rows[..k]
    decreases |table|
  {
    var rows := SessionRows(table, ws, session, bound);
    var cut := rows[k].id;
    var front := table[..|table| - 1];
    var last := table[|table| - 1];
    var frontRows := SessionRows(front, ws, session, bound);
    if k < |frontRows| {
      BoundCuts(front, ws, session, bound, k);
      RowsOfSession(front, ws, session, bound, frontRows[k]);
      assert frontRows[k] in front;
      assert cut < last.id;
    } else {
      assert rows == frontRows + [last] && rows[..k] == frontRows;
      AllBelow(front, ws, session, bound, last.id);
    }
  }

  lemma {:induction false} AllBelow(table: seq<Turn>, ws: int, session: string, bound: Option<int>, top: int)
    requires forall t | t in table :: t.id < top
    requires bound.Some? ==> top < bound.value
    ensures SessionRows(table, ws, session, Some(top)) == SessionRows(table, ws, session, bound)
    decreases |table|
  {
    if table != [] {
      AllBelow(table[..|table| - 1], ws, session, bound, top);
      assert table[|table| - 1] in table;
    }
  }

  /** How many fetches a transcript of `n` turns takes. */
  function Fetches(n: nat, limit: nat): (r: nat)
    requires limit >= 1
    ensures r >= 1
  {
    if n <= limit then 1 else Fetches(n - limit, limit) + 1
  }

  /** That is n / limit rounded up, and one when there is nothing to fetch. */
  lemma {:induction false} FetchesIsCeiling(n: nat, limit: nat)
    requires limit >= 1
    ensures var f := Fetches(n, limit); f >= 1 && n <= f * limit && (f == 1 || (f - 1) * limit < n)
  {
    if n > limit {
      FetchesIsCeiling(n - limit, limit);
    }
  }

  lemma PrefixIsSerial(early: seq<Turn>, late: seq<Turn>)
    requires early <= late && Serial(late)
    ensures Serial(early)
  {
    forall i, j | 0 <= i < j < |early| ensures early[i].id < early[j].id {
      assert late[i].id < late[j].id;
    }
  }

  function FromBound(bound: Option<int>): Cursor {
    if bound.Some? then Before(bound.value) else Absent
  }

  /** One turn of the walk, in terms of the rows below the bound. */
  lemma WalkStep(tables: seq<seq<Turn>>, ws: int, session: string, bound: Option<int>, limit: nat)
    requires limit >= 1 && tables != []
    ensures var rows := SessionRows(tables[0], ws, session, bound);
            var walked := Walk(tables, ws, session, FromBound(bound), limit);
            if |rows| > limit then
              var k := |rows| - limit;
              var older := Walk(tables[1..], ws, session, Before(rows[k].id), limit);
              walked == Walked(older.turns + rows[k..], older.fetches + 1, older.ended)
            else walked == Walked(rows, 1, true)
  {
    PageAt(tables[0], ws, session, bound, limit);
    WalkPage(tables, ws, session, FromBound(bound), limit);
  }

  lemma PageAt(table: seq<Turn>, ws: int, session: string, bound: Option<int>, limit: nat)
    requires limit >= 1
    ensures var rows := SessionRows(table, ws, session, bound);
            ListTurns(table, ws, session, FromBound(bound), limit) ==
            Ok(if |rows| > limit then CursorPage(rows[|rows| - limit..], Some(rows[|rows| - limit].id), true)
               else CursorPage(rows, None, false))
  {
    PageIsNewestRows(SessionRows(table, ws, session, bound), limit);
  }

  lemma WalkPage(tables: seq<seq<Turn>>, ws: int, session: string, cursor: Cursor, limit: nat)
    requires tables != [] && ListTurns(tables[0], ws, session, cursor, limit).Ok?
    ensures var page := ListTurns(tables[0], ws, session, cursor, limit).value;
            Walk(tables, ws, session, cursor, limit) ==
            if page.nextCursor.None? then Walked(page.items, 1, true)
            else
              var older := Walk(tables[1..], ws, session, Before(page.nextCursor.value), limit);
              Walked(older.turns + page.items, older.fetches + 1, older.ended)
  {}

  lemma {:induction false} WalkFrom(tables: seq<seq<Turn>>, first: seq<Turn>, ws: int, session: string, bound: Option<int>, limit: nat)
    requires limit >= 1 && Growing(first, tables) && tables != []
    requires bound.None? ==> first == tables[0]
    requires bound.Some? ==> first != [] && bound.value <= first[|first| - 1].id
    requires |tables| >= Fetches(|SessionRows(first, ws, session, bound)|, limit)
    ensures var rows := SessionRows(first, ws, session, bound);
            Walk(tables, ws, session, FromBound(bound), limit)
            == Walked(rows, Fetches(|rows|, limit), true)
    decreases |tables|
  {
    var rows := SessionRows(first, ws, session, bound);
    NextFetch(tables, first, ws, session, bound, limit);
    if |rows| > limit {
      var older := Some(rows[|rows| - limit].id);
      WalkFrom(tables[1..], first, ws, session, older, limit);
      assert FromBound(older) == Before(older.value);
      WalkOn(tables, rows, ws, session, bound, limit);
    } else {
      WalkStep(tables, ws, session, bound, limit);
    }
  }

  /** One fetch in front of an exact walk of what is older makes an exact walk. */
  lemma WalkOn(tables: seq<seq<Turn>>, rows: seq<Turn>, ws: int, session: string, bound: Option<int>, limit: nat)
    requires limit >= 1 && tables != [] && rows == SessionRows(tables[0], ws, session, bound) && |rows| > limit
    requires var k := |rows| - limit;
             Walk(tables[1..], ws, session, Before(rows[k].id), limit) == Walked(rows[..k], Fetches(k, limit), true)
    ensures Walk(tables, ws, session, FromBound(bound), limit) == Walked(rows, Fetches(|rows|, limit), true)
  {
    WalkStep(tables, ws, session, bound, limit);
    PagesJoin(rows, limit, Walk(tables[1..], ws, session, Before(rows[|rows| - limit].id), limit));
  }

  lemma PagesJoin(rows: seq<Turn>, limit: nat, older: Walked)
    requires 1 <= limit < |rows|
    requires var k := |rows| - limit; older == Walked(rows[..k], Fetches(k, limit), true)
    ensures Walked(older.turns + rows[|rows| - limit..], older.fetches + 1, older.ended) == Walked(rows, Fetches(|rows|, limit), true)
  {
    var k := |rows| - limit;
    assert rows == rows[..k] + rows[k..];
  }

  /** The fetch sees the rows of the first one, and what is left is in place for the next. */
  lemma NextFetch(tables: seq<seq<Turn>>, first: seq<Turn>, ws: int, session: string, bound: Option<int>, limit: nat)
    requires limit >= 1 && Growing(first, tables) && tables != []
    requires bound.None? ==> first == tables[0]
    requires bound.Some? ==> first != [] && bound.value <= first[|first| - 1].id
    requires |tables| >= Fetches(|SessionRows(first, ws, session, bound)|, limit)
    ensures var rows := SessionRows(first, ws, session, bound);
            && SessionRows(tables[0], ws, session, bound) == rows
            && (|rows| > limit ==>
                  var k := |rows| - limit;
                  && Growing(first, tables[1..]) && |tables| > 1
                  && first != [] && rows[k].id <= first[|first| - 1].id
                  && SessionRows(first, ws, session, Some(rows[k].id)) == rows[..k]
                  && |tables| - 1 >= Fetches(k, limit))
  {
    var rows := SessionRows(first, ws, session, bound);
    if bound.Some? {
      ArrivalsStayAbove(first, tables[0], ws, session, bound.value);
    }
    if |rows| > limit {
      OlderRows(first, tables[0], ws, session, bound, |rows| - limit);
      StillGrowing(first, tables[0], tables[1..]);
    }
  }

  lemma OlderRows(first: seq<Turn>, table: seq<Turn>, ws: int, session: string, bound: Option<int>, k: nat)
    requires first <= table && Serial(table) && k < |SessionRows(first, ws, session, bound)|
    ensures var rows := SessionRows(first, ws, session, bound);
            && first != [] && rows[k].id <= first[|first| - 1].id
            && SessionRows(first, ws, session, Some(rows[k].id)) == rows[..k]
  {
    PrefixIsSerial(first, table);
    BoundCuts(first, ws, session, bound, k);
    var rows := SessionRows(first, ws, session, bound);
    RowsOfSession(first, ws, session, bound, rows[k]);
    assert rows[k] in rows && rows[k] in first;
    var i :| 0 <= i < |first| && first[i] == rows[k];
  }

  lemma StillGrowing(early: seq<Turn>, later: seq<Turn>, tables: seq<seq<Turn>>)
    requires early <= later && Growing(later, tables)
    ensures Growing(early, tables)
  {}

  /** Following the cursor from the newest page to the end, while any turns of any session keep
      arriving between fetches, gathers exactly the turns present at the first fetch, each once
      and in order, in max(1, ceil(n / limit)) fetches. */
  lemma WalkIsExact(tables: seq<seq<Turn>>, ws: int, session: string, limit: nat)
    requires limit >= 1 && tables != [] && Growing(tables[0], tables)
    requires |tables| >= Fetches(|SessionRows(tables[0], ws, session, None)|, limit)
    ensures var rows := SessionRows(tables[0], ws, session, None);
            Walk(tables, ws, session, Absent, limit) == Walked(rows, Fetches(|rows|, limit), true)
  {
    WalkFrom(tables, tables[0], ws, session, None, limit);
  }
}
