/**
 * src/continuity/session-event-store.ts and session-event-schema.ts: sessions
 * with an append-only, numbered event log that is read page by page. The store
 * writes two kinds of events today; the schema's triggers and the pages do not
 * depend on that, and are modelled for logs of any length.
 */
module SessionLog {
  import opened Wrappers

  datatype Problem = NotFound | Conflict | RevisionInvalid | SessionClosed | CursorInvalid | LimitInvalid
                   | Noncontiguous

  datatype State = Active | Closed

  datatype Row = Row(projectId: string, state: State, revision: nat, nextSeq: nat)

  datatype Kind = Started | ClosedKind

  /** The primary key of the events table. */
  datatype Key = Key(sessionId: string, seqNo: nat)

  datatype Tables = Tables(sessions: map<string, Row>, events: map<Key, Kind>)

  const EMPTY := Tables(map[], map[])

  /** The events of the session are numbered from 1 to `n`. */
  ghost predicate Contiguous(events: map<Key, Kind>, sessionId: string, n: nat) {
    forall i: nat :: Key(sessionId, i) in events <==> 1 <= i <= n
  }

  /** `COALESCE(MAX(seq), 0)` over the events of the session. */
  ghost predicate Highest(events: map<Key, Kind>, sessionId: string, m: nat) {
    && (m > 0 ==> Key(sessionId, m) in events)
    && forall i: nat :: Key(sessionId, i) in events ==> i <= m
  }

  /** The trigger `events_sequence_order` lets a row in only behind the last one. */
  ghost predicate TriggerAllows(events: map<Key, Kind>, key: Key) {
    exists m: nat :: Highest(events, key.sessionId, m) && key.seqNo == m + 1
  }

  // ---------------------------------------------------------------- transactions

  datatype Operation =
    | Create(sessionId: string, projectId: string)
    | Close(sessionId: string, projectId: string, expected: int)

  function ClosedRow(row: Row): Row {
    row.(state := Closed, revision := row.revision + 1, nextSeq := row.nextSeq + 1)
  }

  /** The row that `getSession` looks for. */
  predicate HasSession(sessions: map<string, Row>, sessionId: string, projectId: string) {
    sessionId in sessions && sessions[sessionId].projectId == projectId
  }

  ghost function Refusal(tables: Tables, op: Operation): Option<Problem> {
    match op
    case Create(sessionId, _) =>
      if sessionId in tables.sessions then Some(Conflict)
      else if !TriggerAllows(tables.events, Key(sessionId, 1)) then Some(Noncontiguous)
      else None
    case Close(sessionId, projectId, expected) =>
      if expected < 1 then Some(RevisionInvalid)
      else if !HasSession(tables.sessions, sessionId, projectId) then Some(NotFound)
      else if tables.sessions[sessionId].revision != expected then Some(Conflict)
      else if tables.sessions[sessionId].state != Active then Some(SessionClosed)
      else if !TriggerAllows(tables.events, Key(sessionId, tables.sessions[sessionId].nextSeq)) then Some(Noncontiguous)
      else None
  }

  ghost function Apply(tables: Tables, op: Operation): Tables {
    if Refusal(tables, op).Some? then tables
    else match op
      case Create(sessionId, projectId) =>
        Tables(tables.sessions[sessionId := Row(projectId, Active, 1, 2)], tables.events[Key(sessionId, 1) := Started])
      case Close(sessionId, _, _) =>
        var row := tables.sessions[sessionId];
        Tables(tables.sessions[sessionId := ClosedRow(row)],
               tables.events[Key(sessionId, row.nextSeq) := ClosedKind])
  }

  /** A log is contiguous, ends before `nextSeq`, and ends in `session.closed` exactly when the session is closed. */
  ghost predicate LogSound(tables: Tables, sessionId: string) {
    if sessionId !in tables.sessions then Contiguous(tables.events, sessionId, 0)
    else
      var row := tables.sessions[sessionId];
      && row.nextSeq >= 2 && Contiguous(tables.events, sessionId, row.nextSeq - 1)
      && (row.state == Closed <==> tables.events[Key(sessionId, row.nextSeq - 1)] == ClosedKind)
  }

  ghost predicate Sound(tables: Tables) {
    forall sessionId :: LogSound(tables, sessionId)
  }

  lemma AppendKeeps(events: map<Key, Kind>, sessionId: string, n: nat, kind: Kind)
    requires Contiguous(events, sessionId, n)
    ensures Contiguous(events[Key(sessionId, n + 1) := kind], sessionId, n + 1)
  {
    var after := events[Key(sessionId, n + 1) := kind];
    forall i: nat
      ensures Key(sessionId, i) in after <==> 1 <= i <= n + 1
    {
      assert Key(sessionId, i) in events <==> 1 <= i <= n;
    }
  }

  lemma OthersKeep(events: map<Key, Kind>, key: Key, kind: Kind, sessionId: string, n: nat)
    requires Contiguous(events, sessionId, n) && key.sessionId != sessionId
    ensures Contiguous(events[key := kind], sessionId, n)
  {
    var after := events[key := kind];
    forall i: nat
      ensures Key(sessionId, i) in after <==> 1 <= i <= n
    {
      assert Key(sessionId, i) in events <==> 1 <= i <= n;
    }
  }

  // ---------------------------------------------------------------- what the triggers keep

  /** Any statement on the events table. */
  datatype Write = Insert(key: Key, kind: Kind) | Update(key: Key, kind: Kind) | Delete(key: Key)

  /** The triggers `events_no_update` and `events_no_delete` abort the latter two. */
  ghost function Written(events: map<Key, Kind>, write: Write): map<Key, Kind> {
    if write.Insert? && TriggerAllows(events, write.key) then events[write.key := write.kind] else events
  }

  ghost function WrittenAll(writes: seq<Write>): map<Key, Kind> {
    if writes == [] then map[] else Written(WrittenAll(writes[..|writes| - 1]), writes[|writes| - 1])
  }

  ghost predicate HasLog(events: map<Key, Kind>, sessionId: string) {
    exists n: nat :: Contiguous(events, sessionId, n)
  }

  /** The number of events in the log of the session. */
  ghost function LogLength(events: map<Key, Kind>, sessionId: string): (n: nat)
    requires HasLog(events, sessionId)
    ensures Contiguous(events, sessionId, n)
  {
    var n: nat :| Contiguous(events, sessionId, n);
    n
  }

  lemma LengthUnique(events: map<Key, Kind>, sessionId: string, m: nat, n: nat)
    requires Contiguous(events, sessionId, m) && Contiguous(events, sessionId, n)
    ensures m == n
  {
    assert Key(sessionId, m) in events <==> 1 <= m <= n;
    assert Key(sessionId, n) in events <==> 1 <= n <= m;
  }

  /** In a numbered log the highest number is the length. */
  lemma HighestIsLength(events: map<Key, Kind>, sessionId: string, n: nat, m: nat)
    requires Contiguous(events, sessionId, n)
    ensures Highest(events, sessionId, m) <==> m == n
  {
    assert Key(sessionId, m) in events <==> 1 <= m <= n;
    assert Key(sessionId, n) in events <==> 1 <= n <= n;
  }

  /** `b` has all that the log holds in `a`, unchanged. */
  ghost predicate Extends(a: map<Key, Kind>, b: map<Key, Kind>, sessionId: string) {
    && HasLog(a, sessionId) && HasLog(b, sessionId)
    && forall i: nat :: Key(sessionId, i) in a ==>
         Key(sessionId, i) in b && a[Key(sessionId, i)] == b[Key(sessionId, i)]
  }

  lemma ExtendsLength(a: map<Key, Kind>, b: map<Key, Kind>, sessionId: string)
    requires Extends(a, b, sessionId)
    ensures LogLength(a, sessionId) <= LogLength(b, sessionId)
  {
    var (m, n) := (LogLength(a, sessionId), LogLength(b, sessionId));
    assert Key(sessionId, m) in a <==> 1 <= m <= m;
    assert Key(sessionId, m) in b <==> 1 <= m <= n;
  }

  /** Whatever is attempted on the table, a numbered log stays numbered and is at most appended to. */
  lemma WrittenExtends(events: map<Key, Kind>, write: Write, sessionId: string)
    requires HasLog(events, sessionId)
    ensures Extends(events, Written(events, write), sessionId)
  {
    var n := LogLength(events, sessionId);
    if write.Insert? && TriggerAllows(events, write.key) {
      if write.key.sessionId == sessionId {
        HighestIsLength(events, sessionId, n, write.key.seqNo - 1);
        AppendKeeps(events, sessionId, n, write.kind);
      } else {
        OthersKeep(events, write.key, write.kind, sessionId, n);
      }
    }
  }

  /** The triggers alone number every log from 1 without gaps. */
  lemma {:induction false} TriggersNumberLogs(writes: seq<Write>, sessionId: string)
    ensures HasLog(WrittenAll(writes), sessionId)
  {
    if writes == [] {
      assert Contiguous(WrittenAll(writes), sessionId, 0);
    } else {
      TriggersNumberLogs(writes[..|writes| - 1], sessionId);
      WrittenExtends(WrittenAll(writes[..|writes| - 1]), writes[|writes| - 1], sessionId);
    }
  }

  /** The triggers alone keep every log append-only. */
  lemma {:induction false} TriggersOnlyAppend(writes: seq<Write>, more: seq<Write>, sessionId: string)
    ensures Extends(WrittenAll(writes), WrittenAll(writes + more), sessionId)
    decreases |more|
  {
    var all := writes + more;
    TriggersNumberLogs(writes, sessionId);
    if more == [] {
      assert all == writes;
    } else {
      assert all[..|all| - 1] == writes + more[..|more| - 1];
      TriggersOnlyAppend(writes, more[..|more| - 1], sessionId);
      WrittenExtends(WrittenAll(all[..|all| - 1]), all[|all| - 1], sessionId);
    }
  }

  /** A log may become as long as one likes. */
  lemma {:induction false} LogsOfAnyLength(sessionId: string, n: nat) returns (writes: seq<Write>)
    ensures Contiguous(WrittenAll(writes), sessionId, n)
  {
    if n == 0 {
      writes := [];
    } else {
      var init := LogsOfAnyLength(sessionId, n - 1);
      writes := init + [Insert(Key(sessionId, n), Started)];
      assert writes[..|writes| - 1] == init;
      HighestIsLength(WrittenAll(init), sessionId, n - 1, n - 1);
      AppendKeeps(WrittenAll(init), sessionId, n - 1, Started);
    }
  }

  // ---------------------------------------------------------------- what the operations keep

  /** The trigger never stands in the way, and every log stays sound. */
  lemma ApplyKeepsSound(tables: Tables, op: Operation)
    requires Sound(tables)
    ensures Sound(Apply(tables, op)) && Refusal(tables, op) != Some(Noncontiguous)
  {
    var (after, id) := (Apply(tables, op), op.sessionId);
    assert LogSound(tables, id);
    var n := if id in tables.sessions then tables.sessions[id].nextSeq - 1 else 0;
    HighestIsLength(tables.events, id, n, n);
    assert TriggerAllows(tables.events, Key(id, n + 1));
    forall sessionId
      ensures LogSound(after, sessionId)
    {
      assert LogSound(tables, sessionId);
      if Refusal(tables, op).None? {
        var kind := if op.Create? then Started else ClosedKind;
        if sessionId == id {
          AppendKeeps(tables.events, id, n, kind);
        } else {
          var m := if sessionId in tables.sessions then tables.sessions[sessionId].nextSeq - 1 else 0;
          OthersKeep(tables.events, Key(id, n + 1), kind, sessionId, m);
        }
      }
    }
  }

  ghost function After(ops: seq<Operation>): Tables {
    if ops == [] then EMPTY else Apply(After(ops[..|ops| - 1]), ops[|ops| - 1])
  }

  /** In every run every log is sound. */
  lemma {:induction false} EveryLogIsSound(ops: seq<Operation>)
    ensures Sound(After(ops))
  {
    if ops != [] {
      EveryLogIsSound(ops[..|ops| - 1]);
      ApplyKeepsSound(After(ops[..|ops| - 1]), ops[|ops| - 1]);
    }
  }

  // ---------------------------------------------------------------- pages

  datatype Event = Event(seqNo: nat, kind: Kind)

  datatype Page = Page(events: seq<Event>, nextCursor: nat, hasMore: bool)

  predicate Stores(events: map<Key, Kind>, sessionId: string, e: Event) {
    Key(sessionId, e.seqNo) in events && events[Key(sessionId, e.seqNo)] == e.kind
  }

  /** What `WHERE session_id = ? AND seq > ? ORDER BY seq ASC LIMIT ?` answers. */
  ghost predicate Selects(events: map<Key, Kind>, sessionId: string, after: nat, bound: nat, rows: seq<Event>) {
    && |rows| <= bound
    && (forall i :: 0 <= i < |rows| ==> rows[i].seqNo > after && Stores(events, sessionId, rows[i]))
    && (forall i, j :: 0 <= i < j < |rows| ==> rows[i].seqNo < rows[j].seqNo)
    && (forall seqNo: nat :: seqNo > after && Key(sessionId, seqNo) in events ==>
          (exists i :: 0 <= i < |rows| && rows[i].seqNo == seqNo)
          || (|rows| == bound && forall i :: 0 <= i < |rows| ==> rows[i].seqNo < seqNo))
  }

  /** The events numbered from `from + 1` to `to`. */
  ghost function Slice(events: map<Key, Kind>, sessionId: string, from: nat, to: nat): seq<Event>
    requires from <= to && forall i: nat :: from < i <= to ==> Key(sessionId, i) in events
  {
    seq(to - from, i requires 0 <= i < to - from => Event(from + 1 + i, events[Key(sessionId, from + 1 + i)]))
  }

  function Stop(after: nat, limit: nat, n: nat): nat {
    if after + limit <= n then after + limit else if after <= n then n else after
  }

  predicate Consecutive(rows: seq<Event>, after: nat) {
    forall i :: 0 <= i < |rows| ==> rows[i].seqNo == after + 1 + i
  }

  predicate AllStored(events: map<Key, Kind>, sessionId: string, rows: seq<Event>) {
    forall i :: 0 <= i < |rows| ==> Stores(events, sessionId, rows[i])
  }

  /** The possible answers of the database. */
  ghost function Answers(events: map<Key, Kind>, sessionId: string, after: nat, bound: nat): iset<seq<Event>> {
    iset rows: seq<Event> | Selects(events, sessionId, after, bound, rows)
  }

  /** From a contiguous log the rows are the next ones. */
  lemma AnswersAreNext(events: map<Key, Kind>, sessionId: string, after: nat, bound: nat, rows: seq<Event>, n: nat)
    requires rows in Answers(events, sessionId, after, bound) && Contiguous(events, sessionId, n)
    ensures |rows| == Stop(after, bound, n) - after
    ensures Consecutive(rows, after) && AllStored(events, sessionId, rows)
  {
    RowsAreConsecutive(events, sessionId, after, bound, rows, n, |rows|);
    var next := after + |rows| + 1;
    assert next <= n ==> Key(sessionId, next) in events;
    if rows != [] {
      assert Stores(events, sessionId, rows[|rows| - 1]);
    }
  }

  lemma {:induction false} RowsAreConsecutive(
      events: map<Key, Kind>, sessionId: string, after: nat, bound: nat, rows: seq<Event>, n: nat, k: nat)
    requires Selects(events, sessionId, after, bound, rows) && Contiguous(events, sessionId, n) && k <= |rows|
    ensures forall i :: 0 <= i < k ==> rows[i].seqNo == after + 1 + i
  {
    if k > 0 {
      RowsAreConsecutive(events, sessionId, after, bound, rows, n, k - 1);
      var (row, expected) := (rows[k - 1], after + k);
      assert Stores(events, sessionId, row);
      assert k > 1 ==> rows[k - 2].seqNo < row.seqNo;
      assert expected <= n <==> Key(sessionId, expected) in events;
      assert forall i :: k - 1 <= i < |rows| ==> rows[i].seqNo >= row.seqNo;
    }
  }

  /** Consecutive stored rows are a slice of the log. */
  lemma RowsAreSlice(events: map<Key, Kind>, sessionId: string, after: nat, rows: seq<Event>, n: nat)
    requires Contiguous(events, sessionId, n) && (rows != [] ==> after + |rows| <= n)
    requires Consecutive(rows, after) && AllStored(events, sessionId, rows)
    ensures rows == Slice(events, sessionId, after, after + |rows|)
  {
  }

  function FirstRows(rows: seq<Event>, limit: nat): seq<Event> {
    if |rows| <= limit then rows else rows[..limit]
  }

  lemma PageIsSlice(events: map<Key, Kind>, sessionId: string, after: nat, limit: nat, rows: seq<Event>, n: nat)
    requires Contiguous(events, sessionId, n) && |rows| == Stop(after, limit + 1, n) - after
    requires Consecutive(rows, after) && AllStored(events, sessionId, rows)
    ensures var (page, stop) := (FirstRows(rows, limit), Stop(after, limit, n));
            && page == Slice(events, sessionId, after, stop)
            && (|rows| > limit <==> after + limit < n)
            && (if page == [] then stop == after else page[|page| - 1].seqNo == stop)
  {
    var page := FirstRows(rows, limit);
    assert Consecutive(page, after) && AllStored(events, sessionId, page);
    RowsAreSlice(events, sessionId, after, page, n);
  }

  /** The page after the cursor: the next events, where the cursor moves, and whether the log goes on. */
  ghost function PageAfter(events: map<Key, Kind>, sessionId: string, after: nat, limit: nat): Page
    requires HasLog(events, sessionId)
  {
    var n := LogLength(events, sessionId);
    var stop := Stop(after, limit, n);
    Page(Slice(events, sessionId, after, stop), stop, after + limit < n)
  }

  /** The rows the database answers make up that page. */
  lemma RowsGivePage(events: map<Key, Kind>, sessionId: string, after: nat, limit: nat, rows: seq<Event>)
    requires HasLog(events, sessionId) && rows in Answers(events, sessionId, after, limit + 1)
    ensures var page := FirstRows(rows, limit);
            Page(page, if |page| == 0 then after else page[|page| - 1].seqNo, |rows| > limit)
            == PageAfter(events, sessionId, after, limit)
  {
    var n := LogLength(events, sessionId);
    AnswersAreNext(events, sessionId, after, limit + 1, rows, n);
    PageIsSlice(events, sessionId, after, limit, rows, n);
  }

  // ---------------------------------------------------------------- page after page

  /** The events table when one page is read, and the limit of that page. */
  datatype Visit = Visit(events: map<Key, Kind>, limit: nat)

  function Latest(visits: seq<Visit>): Visit
    requires visits != []
  {
    visits[|visits| - 1]
  }

  /** Between pages the log is only appended to. */
  ghost predicate Grows(visits: seq<Visit>, sessionId: string) {
    visits != [] ==>
    && HasLog(Latest(visits).events, sessionId)
    && (|visits| > 1 ==> Extends(visits[|visits| - 2].events, Latest(visits).events, sessionId))
    && Grows(visits[..|visits| - 1], sessionId)
  }

  /** The page that a visit reads from this cursor. */
  ghost function PageAt(visit: Visit, sessionId: string, from: nat): Page
    requires HasLog(visit.events, sessionId)
  {
    PageAfter(visit.events, sessionId, from, visit.limit)
  }

  /** The cursor after these visits, starting from 0. */
  ghost function Cursor(visits: seq<Visit>, sessionId: string): nat
    requires Grows(visits, sessionId)
  {
    if visits == [] then 0
    else PageAt(Latest(visits), sessionId, Cursor(visits[..|visits| - 1], sessionId)).nextCursor
  }

  /** All pages one after the other, each from the cursor the one before returned. */
  ghost function Pages(visits: seq<Visit>, sessionId: string): seq<Event>
    requires Grows(visits, sessionId)
  {
    if visits == [] then []
    else
      var init := visits[..|visits| - 1];
      Pages(init, sessionId) + PageAt(Latest(visits), sessionId, Cursor(init, sessionId)).events
  }

  lemma {:induction false} CursorInLog(visits: seq<Visit>, sessionId: string)
    requires Grows(visits, sessionId) && visits != []
    ensures Cursor(visits[..|visits| - 1], sessionId) <= Cursor(visits, sessionId)
    ensures Cursor(visits, sessionId) <= LogLength(Latest(visits).events, sessionId)
  {
    var init := visits[..|visits| - 1];
    if init != [] {
      CursorInLog(init, sessionId);
      ExtendsLength(Latest(init).events, Latest(visits).events, sessionId);
    }
  }

  /** The first `n` events of the session's log. */
  ghost function LogUpTo(events: map<Key, Kind>, sessionId: string, n: nat): seq<Event>
    requires HasLog(events, sessionId) && n <= LogLength(events, sessionId)
  {
    Slice(events, sessionId, 0, n)
  }

  /**
   * However long the log is and whatever is appended between pages, following
   * the cursor with any limits visits every event up to it exactly once and in
   * order.
   */
  lemma {:induction false} PagesReadTheLog(visits: seq<Visit>, sessionId: string)
    requires Grows(visits, sessionId) && visits != []
    ensures Cursor(visits, sessionId) <= LogLength(Latest(visits).events, sessionId)
    ensures Pages(visits, sessionId) == LogUpTo(Latest(visits).events, sessionId, Cursor(visits, sessionId))
  {
    var (init, events) := (visits[..|visits| - 1], Latest(visits).events);
    CursorInLog(visits, sessionId);
    var (from, to) := (Cursor(init, sessionId), Cursor(visits, sessionId));
    SlicesJoin(events, sessionId, from, to);
    if init == [] {
      assert Pages(init, sessionId) == [];
    } else {
      PagesReadTheLog(init, sessionId);
      ExtendsLength(Latest(init).events, events, sessionId);
      SlicesAgree(Latest(init).events, events, sessionId, from);
    }
  }

  lemma SlicesJoin(events: map<Key, Kind>, sessionId: string, from: nat, to: nat)
    requires from <= to && forall i: nat :: 0 < i <= to ==> Key(sessionId, i) in events
    ensures Slice(events, sessionId, 0, from) + Slice(events, sessionId, from, to) == Slice(events, sessionId, 0, to)
  {
  }

  lemma SlicesAgree(a: map<Key, Kind>, b: map<Key, Kind>, sessionId: string, n: nat)
    requires Extends(a, b, sessionId)
    requires forall i: nat :: 0 < i <= n ==> Key(sessionId, i) in a && Key(sessionId, i) in b
    ensures Slice(a, sessionId, 0, n) == Slice(b, sessionId, 0, n)
  {
  }

  /**
   * A page that says there is no more has reached the end of the log; any other
   * moves the cursor by its whole limit.
   */
  lemma PagesReachTheEnd(visits: seq<Visit>, sessionId: string)
    requires Grows(visits, sessionId) && visits != []
    ensures var before := Cursor(visits[..|visits| - 1], sessionId);
            Cursor(visits, sessionId) ==
              if PageAt(Latest(visits), sessionId, before).hasMore then before + Latest(visits).limit
              else LogLength(Latest(visits).events, sessionId)
  {
    var init := visits[..|visits| - 1];
    if init != [] {
      CursorInLog(init, sessionId);
      ExtendsLength(Latest(init).events, Latest(visits).events, sessionId);
    }
  }

  // ---------------------------------------------------------------- what happens between pages

  /** What had been attempted on the table when one page was read, and the limit of that page. */
  datatype Reading = Reading(writes: seq<Write>, limit: nat)

  predicate InTurn(readings: seq<Reading>) {
    forall i, j :: 0 <= i < j < |readings| ==> readings[i].writes <= readings[j].writes
  }

  ghost function VisitsOf(readings: seq<Reading>): seq<Visit> {
    if readings == [] then []
    else
      var last := readings[|readings| - 1];
      VisitsOf(readings[..|readings| - 1]) + [Visit(WrittenAll(last.writes), last.limit)]
  }

  lemma {:induction false} VisitsAre(readings: seq<Reading>)
    ensures |VisitsOf(readings)| == |readings|
    ensures readings != [] ==>
              && VisitsOf(readings)[..|readings| - 1] == VisitsOf(readings[..|readings| - 1])
              && Latest(VisitsOf(readings)).events == WrittenAll(readings[|readings| - 1].writes)
  {
    if readings != [] {
      VisitsAre(readings[..|readings| - 1]);
    }
  }

  /** Under the triggers the log grows from page to page, whatever is attempted between them. */
  lemma {:induction false} TriggersMakeLogsGrow(readings: seq<Reading>, sessionId: string)
    requires InTurn(readings)
    ensures Grows(VisitsOf(readings), sessionId)
  {
    VisitsAre(readings);
    if readings != [] {
      var (init, last) := (readings[..|readings| - 1], readings[|readings| - 1]);
      TriggersMakeLogsGrow(init, sessionId);
      TriggersNumberLogs(last.writes, sessionId);
      if init != [] {
        var before := init[|init| - 1].writes;
        assert before == readings[|init| - 1].writes && before <= last.writes;
        VisitsAre(init);
        TriggersOnlyAppend(before, last.writes[|before|..], sessionId);
        assert before + last.writes[|before|..] == last.writes;
        assert VisitsOf(readings)[|readings| - 2] == Latest(VisitsOf(init));
      }
    }
  }

  /** So any writers at all between the pages leave them complete, without repetition and in order. */
  lemma PagesSurviveWriters(readings: seq<Reading>, sessionId: string)
    requires InTurn(readings) && readings != []
    ensures |VisitsOf(readings)| == |readings| && Grows(VisitsOf(readings), sessionId)
    ensures var (visits, events) := (VisitsOf(readings), WrittenAll(readings[|readings| - 1].writes));
            && HasLog(events, sessionId) && Cursor(visits, sessionId) <= LogLength(events, sessionId)
            && Pages(visits, sessionId) == LogUpTo(events, sessionId, Cursor(visits, sessionId))
  {
    VisitsAre(readings);
    TriggersMakeLogsGrow(readings, sessionId);
    PagesReadTheLog(VisitsOf(readings), sessionId);
  }

  // ---------------------------------------------------------------- the store's own operations as writes

  /** The row an operation puts into the events table, if it is not refused. */
  ghost function WritesOf(ops: seq<Operation>): seq<Write> {
    if ops == [] then []
    else
      var (before, op) := (After(ops[..|ops| - 1]), ops[|ops| - 1]);
      WritesOf(ops[..|ops| - 1]) + if Refusal(before, op).Some? then [] else [WriteOf(before, op)]
  }

  ghost function WriteOf(tables: Tables, op: Operation): Write
    requires Refusal(tables, op).None?
  {
    match op
    case Create(sessionId, _) => Insert(Key(sessionId, 1), Started)
    case Close(sessionId, _, _) => Insert(Key(sessionId, tables.sessions[sessionId].nextSeq), ClosedKind)
  }

  /** The events table is what its writes under the triggers make it. */
  lemma {:induction false} OperationsWrite(ops: seq<Operation>)
    ensures After(ops).events == WrittenAll(WritesOf(ops))
  {
    if ops != [] {
      var (init, op) := (ops[..|ops| - 1], ops[|ops| - 1]);
      OperationsWrite(init);
      var (before, writes) := (After(init), WritesOf(ops));
      if Refusal(before, op).Some? {
        assert writes == WritesOf(init);
      } else {
        assert writes == WritesOf(init) + [WriteOf(before, op)];
        assert writes[..|writes| - 1] == WritesOf(init);
      }
    }
  }

  /** Creating and closing are all that is written, so today's logs hold two events at most. */
  lemma {:induction false} StoreLogsAreShort(ops: seq<Operation>, sessionId: string)
    ensures HasLog(After(ops).events, sessionId) && LogLength(After(ops).events, sessionId) <= 2
    ensures sessionId in After(ops).sessions ==>
              var row := After(ops).sessions[sessionId]; row.nextSeq == if row.state == Active then 2 else 3
  {
    EveryLogIsSound(ops);
    if ops != [] {
      StoreLogsAreShort(ops[..|ops| - 1], sessionId);
    }
    var tables := After(ops);
    assert LogSound(tables, sessionId);
    var n := if sessionId in tables.sessions then tables.sessions[sessionId].nextSeq - 1 else 0;
    assert Contiguous(tables.events, sessionId, n);
    LengthUnique(tables.events, sessionId, n, LogLength(tables.events, sessionId));
  }

  /** A session is created once for one project, and closed once by a close that expects its first revision. */
  datatype Life = Unborn | Alive(projectId: string) | Over(projectId: string)

  function LifeOf(ops: seq<Operation>, sessionId: string): Life {
    if ops == [] then Unborn
    else
      var (life, op) := (LifeOf(ops[..|ops| - 1], sessionId), ops[|ops| - 1]);
      if life.Unborn? && op.Create? && op.sessionId == sessionId then Alive(op.projectId)
      else if life.Alive? && op == Close(sessionId, life.projectId, 1) then Over(life.projectId)
      else life
  }

  /** The row of the session, as its life tells it. */
  function RowOf(life: Life): Option<Row> {
    match life
    case Unborn => None
    case Alive(projectId) => Some(Row(projectId, Active, 1, 2))
    case Over(projectId) => Some(Row(projectId, Closed, 2, 3))
  }

  lemma {:induction false} RowsTellLives(ops: seq<Operation>, sessionId: string)
    ensures var tables := After(ops);
            RowOf(LifeOf(ops, sessionId)) ==
              if sessionId in tables.sessions then Some(tables.sessions[sessionId]) else None
  {
    if ops != [] {
      var init := ops[..|ops| - 1];
      RowsTellLives(init, sessionId);
      EveryLogIsSound(init);
      ApplyKeepsSound(After(init), ops[|ops| - 1]);
    }
  }

  /**
   * After any operations a close succeeds exactly on the living session of its
   * project when it expects revision 1; a closed one is at revision 2.
   */
  lemma CloseSucceeds(ops: seq<Operation>, sessionId: string, projectId: string, expected: int)
    ensures Refusal(After(ops), Close(sessionId, projectId, expected)) ==
            if expected < 1 then Some(RevisionInvalid)
            else match LifeOf(ops, sessionId)
              case Unborn => Some(NotFound)
              case Alive(owner) =>
                if owner != projectId then Some(NotFound) else if expected == 1 then None else Some(Conflict)
              case Over(owner) =>
                if owner != projectId then Some(NotFound) else if expected == 2 then Some(SessionClosed) else Some(Conflict)
  {
    RowsTellLives(ops, sessionId);
    EveryLogIsSound(ops);
    ApplyKeepsSound(After(ops), Close(sessionId, projectId, expected));
  }

  lemma {:induction false} WritesGrow(ops: seq<Operation>, more: seq<Operation>)
    ensures WritesOf(ops) <= WritesOf(ops + more)
    decreases |more|
  {
    var all := ops + more;
    if more == [] {
      assert all == ops;
    } else {
      assert all[..|all| - 1] == ops + more[..|more| - 1];
      WritesGrow(ops, more[..|more| - 1]);
    }
  }

  /** Whatever the store does later, a log is only appended to. */
  lemma LogsOnlyGrow(ops: seq<Operation>, more: seq<Operation>, sessionId: string)
    ensures Extends(After(ops).events, After(ops + more).events, sessionId)
  {
    WritesGrow(ops, more);
    OperationsWrite(ops);
    OperationsWrite(ops + more);
    var (first, all) := (WritesOf(ops), WritesOf(ops + more));
    assert first + all[|first|..] == all;
    TriggersOnlyAppend(first, all[|first|..], sessionId);
  }

  /** What the store had done when one page was read, and the limit of that page. */
  datatype StoreReading = StoreReading(done: seq<Operation>, limit: nat)

  predicate StoreInTurn(readings: seq<StoreReading>) {
    forall i, j :: 0 <= i < j < |readings| ==> readings[i].done <= readings[j].done
  }

  ghost function AsWrites(readings: seq<StoreReading>): seq<Reading> {
    seq(|readings|, i requires 0 <= i < |readings| => Reading(WritesOf(readings[i].done), readings[i].limit))
  }

  /** The same of pages read between the store's own operations. */
  lemma StorePagesReadTheLog(readings: seq<StoreReading>, sessionId: string)
    requires StoreInTurn(readings) && readings != []
    ensures Grows(VisitsOf(AsWrites(readings)), sessionId)
    ensures var visits := VisitsOf(AsWrites(readings));
            var events := After(readings[|readings| - 1].done).events;
            && HasLog(events, sessionId) && Cursor(visits, sessionId) <= LogLength(events, sessionId)
            && Pages(visits, sessionId) == LogUpTo(events, sessionId, Cursor(visits, sessionId))
  {
    var writes := AsWrites(readings);
    forall i, j | 0 <= i < j < |writes|
      ensures writes[i].writes <= writes[j].writes
    {
      var (a, b) := (readings[i].done, readings[j].done);
      WritesGrow(a, b[|a|..]);
      assert a + b[|a|..] == b;
    }
    OperationsWrite(readings[|readings| - 1].done);
    PagesSurviveWriters(writes, sessionId);
  }

  // ---------------------------------------------------------------- the store

  class Store {
    var sessions: map<string, Row>
    var events: map<Key, Kind>

    ghost function Snapshot(): Tables
      reads this
    {
      Tables(sessions, events)
    }

    constructor ()
      ensures Snapshot() == EMPTY
    {
      sessions, events := map[], map[];
    }

    /** `sessionId` is a fresh random id; the trigger was shown never to fire. */
    method CreateSession(sessionId: string, projectId: string) returns (problem: Option<Problem>)
      requires Sound(Snapshot())
      modifies this
      ensures problem == old(Refusal(Snapshot(), Create(sessionId, projectId)))
      ensures Snapshot() == Apply(old(Snapshot()), Create(sessionId, projectId)) && Sound(Snapshot())
    {
      ApplyKeepsSound(Snapshot(), Create(sessionId, projectId));
      if sessionId in sessions {
        return Some(Conflict);
      }
      sessions := sessions[sessionId := Row(projectId, Active, 1, 1)];
      events := events[Key(sessionId, 1) := Started];
      sessions := sessions[sessionId := sessions[sessionId].(nextSeq := 2)];
      problem := None;
    }

    method CloseSession(sessionId: string, projectId: string, expected: int) returns (problem: Option<Problem>)
      requires Sound(Snapshot())
      modifies this
      ensures problem == old(Refusal(Snapshot(), Close(sessionId, projectId, expected)))
      ensures Snapshot() == Apply(old(Snapshot()), Close(sessionId, projectId, expected)) && Sound(Snapshot())
    {
      ApplyKeepsSound(Snapshot(), Close(sessionId, projectId, expected));
      if expected < 1 {
        return Some(RevisionInvalid);
      }
      if !HasSession(sessions, sessionId, projectId) {
        return Some(NotFound);
      }
      var row := sessions[sessionId];
      if row.revision != expected {
        return Some(Conflict);
      }
      if row.state != Active {
        return Some(SessionClosed);
      }
      sessions := sessions[sessionId := ClosedRow(row)];
      events := events[Key(sessionId, row.nextSeq) := ClosedKind];
      problem := None;
    }

    /** `rows` is what the database answers. */
    method ListEvents(sessionId: string, projectId: string, afterSeq: int, limit: int, rows: seq<Event>)
      returns (r: Result<Page, Problem>)
      requires Sound(Snapshot())
      requires afterSeq >= 0 && limit >= 1 ==> rows in Answers(events, sessionId, afterSeq, limit + 1)
      ensures r == Failure(CursorInvalid) <==> afterSeq < 0
      ensures r == Failure(LimitInvalid) <==> afterSeq >= 0 && !(1 <= limit <= 100)
      ensures r == Failure(NotFound) <==>
              afterSeq >= 0 && 1 <= limit <= 100 && !HasSession(sessions, sessionId, projectId)
      ensures afterSeq >= 0 && 1 <= limit <= 100 && HasSession(sessions, sessionId, projectId) ==>
                HasLog(events, sessionId) && r == Success(PageAfter(events, sessionId, afterSeq, limit))
    {
      if afterSeq < 0 {
        return Failure(CursorInvalid);
      }
      if limit < 1 || limit > 100 {
        return Failure(LimitInvalid);
      }
      if !HasSession(sessions, sessionId, projectId) {
        return Failure(NotFound);
      }
      assert LogSound(Snapshot(), sessionId);
      assert HasLog(events, sessionId);
      RowsGivePage(events, sessionId, afterSeq, limit, rows);
      var page := FirstRows(rows, limit);
      var nextCursor := if |page| == 0 then afterSeq else page[|page| - 1].seqNo;
      r := Success(Page(page, nextCursor, |rows| > limit));
    }
  }
}
