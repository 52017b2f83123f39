/**
 Cursor-paged pull: the server's per-table query, the client's merge into its local tables, and the
 pagination loop that joins them.

 A server table is the sequence of the rows visible to the user, in the order in which the index on
 `updated_at` yields them; the server does not change while a pull runs.
 */
module SyncPull {
  import opened Prelude

  datatype Row = Row(id: string, createdAt: int, updatedAt: int, deleted: bool, fields: map<string, string>)

  type Server = s: seq<seq<Row>> | |s| == TABLES witness seq(6, _ => [])
  type Local = map<string, Row>
  type Locals = s: seq<Local> | |s| == TABLES witness seq(6, _ => map[])

  // conversations, messages, conversation_participants, calls, call_participants, message_receipts
  const TABLES := 6
  const CALL_PARTICIPANTS := 4

  // ---- the server's page ---------------------------------------------------------------------

  predicate Wanted(row: Row, cursor: int) {
    if cursor == 0 then !row.deleted else row.updatedAt > cursor
  }

  /** What the query would return without its limit. */
  function Pending(table: seq<Row>, cursor: int): (rows: seq<Row>) {
    if table == [] then []
    else if Wanted(table[0], cursor) then [table[0]] + Pending(table[1..], cursor)
    else Pending(table[1..], cursor)
  }

  function Page(table: seq<Row>, cursor: int, limit: nat): (rows: seq<Row>) {
    var rows := Pending(table, cursor);
    if |rows| <= limit then rows else rows[..limit]
  }

  predicate IsCreated(row: Row, cursor: int) {
    !row.deleted && (cursor == 0 || row.createdAt > cursor)
  }

  predicate IsUpdated(row: Row, cursor: int) {
    !row.deleted && !(cursor == 0 || row.createdAt > cursor)
  }

  function Created(page: seq<Row>, cursor: int): seq<Row> {
    if page == [] then []
    else Created(page[..|page| - 1], cursor) + (if IsCreated(page[|page| - 1], cursor) then [page[|page| - 1]] else [])
  }

  function Updated(page: seq<Row>, cursor: int): seq<Row> {
    if page == [] then []
    else Updated(page[..|page| - 1], cursor) + (if IsUpdated(page[|page| - 1], cursor) then [page[|page| - 1]] else [])
  }

  function Deleted(page: seq<Row>): seq<string> {
    if page == [] then []
    else Deleted(page[..|page| - 1]) + (if page[|page| - 1].deleted then [page[|page| - 1].id] else [])
  }

  datatype Changes = Changes(
    created: seq<Row>, updated: seq<Row>, deleted: seq<string>, nextCursor: Option<int>, hasMore: bool)

  function Fetch(table: seq<Row>, cursor: int, limit: nat): Changes {
    var page := Page(table, cursor, limit);
    Changes(Created(page, cursor), Updated(page, cursor), Deleted(page),
            if page == [] then None else Some(page[|page| - 1].updatedAt), |page| == limit)
  }

  /** `get_table_changes`, with its loop over the fetched records. */
  method GetTableChanges(table: seq<Row>, cursor: int, limit: nat) returns (changes: Changes)
    ensures changes == Fetch(table, cursor, limit)
  {
    var results := Page(table, cursor, limit);
    var created, updated, deleted := [], [], [];
    var i := 0;
    while i < |results|
      invariant 0 <= i <= |results|
      invariant created == Created(results[..i], cursor)
      invariant updated == Updated(results[..i], cursor)
      invariant deleted == Deleted(results[..i])
    {
      var record := results[i];
      assert results[..i + 1][..i] == results[..i];
      if record.deleted {
        deleted := deleted + [record.id];
      } else if cursor == 0 || record.createdAt > cursor {
        created := created + [record];
      } else {
        updated := updated + [record];
      }
      i := i + 1;
    }
    assert results[..i] == results;
    changes := Changes(created, updated, deleted,
                       if results == [] then None else Some(results[|results| - 1].updatedAt), |results| == limit);
  }

  // ---- the client's merge --------------------------------------------------------------------

  function PutAll(local: Local, rows: seq<Row>): Local
    decreases rows
  {
    if rows == [] then local else PutAll(local[rows[0].id := rows[0]], rows[1..])
  }

  /** `{...existing, ...record}` */
  function Merge(existing: Row, record: Row): Row {
    record.(fields := existing.fields + record.fields)
  }

  function MergeOne(local: Local, record: Row): Local {
    if record.id !in local then local[record.id := record]
    else
      var existing := local[record.id];
      if record.updatedAt != 0 && existing.updatedAt != 0 && record.updatedAt < existing.updatedAt then local
      else local[record.id := Merge(existing, record)]
  }

  function MergeAll(local: Local, rows: seq<Row>): Local
    decreases rows
  {
    if rows == [] then local else MergeAll(MergeOne(local, rows[0]), rows[1..])
  }

  function DeleteAll(local: Local, ids: seq<string>): Local {
    map id | id in local && id !in ids :: local[id]
  }

  function ApplyTable(local: Local, changes: Changes): Local {
    DeleteAll(MergeAll(PutAll(local, changes.created), changes.updated), changes.deleted)
  }

  function ApplyPages(server: Server, locals: Locals, cursor: int, limit: nat): Locals {
    seq(TABLES, t requires 0 <= t < TABLES =>
      if t == CALL_PARTICIPANTS then locals[t] else ApplyTable(locals[t], Fetch(server[t], cursor, limit)))
  }

  // ---- the pagination loop -------------------------------------------------------------------

  /** The cursor a table offers: only when it has more rows, and a zero cursor counts as none. */
  function Offer(changes: Changes): Option<int> {
    if changes.hasMore && changes.nextCursor.Some? && changes.nextCursor.value != 0
    then changes.nextCursor else None
  }

  function Least(a: Option<int>, b: Option<int>): (m: Option<int>) {
    if a.None? then b else if b.None? || a.value <= b.value then a else b
  }

  /** The smallest cursor on offer among the first `n` tables. */
  function NextCursor(server: Server, cursor: int, limit: nat, n: nat): (next: Option<int>)
    requires n <= TABLES
    ensures next.Some? ==>
              exists t | 0 <= t < n :: Offer(Fetch(server[t], cursor, limit)) == next
    ensures forall t | 0 <= t < n ::
              Offer(Fetch(server[t], cursor, limit)).Some? ==>
                next.Some? && next.value <= Offer(Fetch(server[t], cursor, limit)).value
  {
    if n == 0 then None
    else Least(NextCursor(server, cursor, limit, n - 1), Offer(Fetch(server[n - 1], cursor, limit)))
  }

  function Max(a: int, b: int): int {
    if a < b then b else a
  }

  /** A bound on every `updated_at` of a table ... */
  function NewestIn(table: seq<Row>): (newest: int)
    ensures forall r | r in table :: r.updatedAt <= newest
  {
    if table == [] then 0 else Max(table[0].updatedAt, NewestIn(table[1..]))
  }

  /** ... and of the first `n` tables. */
  function Newest(server: Server, n: nat): (newest: int)
    requires n <= TABLES
    ensures forall t, r | 0 <= t < n && r in server[t] :: r.updatedAt <= newest
  {
    if n == 0 then 0 else Max(Newest(server, n - 1), NewestIn(server[n - 1]))
  }

  lemma {:induction false} PendingMembers(table: seq<Row>, cursor: int, r: Row)
    ensures r in Pending(table, cursor) <==> r in table && Wanted(r, cursor)
  {
    if table != [] {
      PendingMembers(table[1..], cursor, r);
    }
  }

  /** An offered cursor is the time of a wanted row, so it moves forward and stays in the snapshot. */
  lemma OfferIsARow(table: seq<Row>, cursor: int, limit: nat)
    requires Offer(Fetch(table, cursor, limit)).Some?
    ensures exists r :: r in table && Wanted(r, cursor) && Offer(Fetch(table, cursor, limit)) == Some(r.updatedAt)
  {
    var page := Page(table, cursor, limit);
    PendingMembers(table, cursor, page[|page| - 1]);
  }

  lemma NextIsBounded(server: Server, cursor: int, limit: nat)
    ensures NextCursor(server, cursor, limit, TABLES).Some? ==>
              NextCursor(server, cursor, limit, TABLES).value <= Newest(server, TABLES)
  {
    var next := NextCursor(server, cursor, limit, TABLES);
    if next.Some? {
      var t :| 0 <= t < TABLES && Offer(Fetch(server[t], cursor, limit)) == next;
      OfferIsARow(server[t], cursor, limit);
    }
  }

  predicate Advances(server: Server, cursor: int, limit: nat) {
    var next := NextCursor(server, cursor, limit, TABLES);
    next.Some? && next.value > cursor
  }

  /** The local tables after the whole pagination loop; the cursor bounds the number of pages. */
  function PullAll(server: Server, locals: Locals, cursor: int, limit: nat): Locals
    decreases Newest(server, TABLES) - cursor
  {
    NextIsBounded(server, cursor, limit);
    var applied := ApplyPages(server, locals, cursor, limit);
    if Advances(server, cursor, limit)
    then PullAll(server, applied, NextCursor(server, cursor, limit, TABLES).value, limit)
    else applied
  }

  /** The local tables after at most `pages` rounds of the loop. */
  function PullSome(server: Server, locals: Locals, cursor: int, limit: nat, pages: nat): Locals
    decreases pages
  {
    if pages == 0 then locals
    else
      var applied := ApplyPages(server, locals, cursor, limit);
      if Advances(server, cursor, limit)
      then PullSome(server, applied, NextCursor(server, cursor, limit, TABLES).value, limit, pages - 1)
      else applied
  }

  /** How many pages the whole loop fetches. */
  function Pages(server: Server, cursor: int, limit: nat): (n: nat)
    ensures n >= 1
    decreases Newest(server, TABLES) - cursor
  {
    NextIsBounded(server, cursor, limit);
    if Advances(server, cursor, limit)
    then 1 + Pages(server, NextCursor(server, cursor, limit, TABLES).value, limit)
    else 1
  }

  lemma PullNone(server: Server, locals: Locals, cursor: int, limit: nat)
    ensures PullSome(server, locals, cursor, limit, 0) == locals
  {
  }

  lemma PullRound(server: Server, locals: Locals, cursor: int, limit: nat, pages: nat)
    ensures
      var applied := ApplyPages(server, locals, cursor, limit);
      var next := NextCursor(server, cursor, limit, TABLES);
      && PullAll(server, locals, cursor, limit)
         == (if Advances(server, cursor, limit) then PullAll(server, applied, next.value, limit) else applied)
      && PullSome(server, locals, cursor, limit, pages + 1)
         == (if Advances(server, cursor, limit) then PullSome(server, applied, next.value, limit, pages) else applied)
      && Pages(server, cursor, limit)
         == 1 + (if Advances(server, cursor, limit) then Pages(server, next.value, limit) else 0)
  {
  }

  class SyncClient {
    var tables: Locals
    var lastPulledAt: int

    constructor ()
      ensures tables == seq(TABLES, _ => map[]) && lastPulledAt == 0
    {
      tables, lastPulledAt := seq(TABLES, _ => map[]), 0;
    }

    /** `applyTableChanges`: upserts, then merges record by record, then hard deletes. */
    method ApplyTableChanges(t: nat, changes: Changes)
      requires t < TABLES
      modifies this`tables
      ensures tables == old(tables)[t := ApplyTable(old(tables[t]), changes)]
    {
      var table := PutAll(tables[t], changes.created);
      ghost var merged := MergeAll(table, changes.updated);
      var i := 0;
      while i < |changes.updated|
        invariant 0 <= i <= |changes.updated|
        invariant MergeAll(table, changes.updated[i..]) == merged
      {
        var record := changes.updated[i];
        assert changes.updated[i..][1..] == changes.updated[i + 1..];
        i := i + 1;
        if record.id !in table {
          table := table[record.id := record];
          continue;
        }
        var existing := table[record.id];
        if record.updatedAt != 0 && existing.updatedAt != 0 && record.updatedAt < existing.updatedAt {
          continue;
        }
        table := table[record.id := Merge(existing, record)];
      }
      table := DeleteAll(table, changes.deleted);
      tables := tables[t := table];
    }

    /** `applyChanges`: the five tables the client keeps; `call_participants` is not one of them. */
    method ApplyChanges(changes: seq<Changes>)
      requires |changes| == TABLES
      modifies this`tables
      ensures forall t | 0 <= t < TABLES ::
                tables[t] == if t == CALL_PARTICIPANTS then old(tables[t]) else ApplyTable(old(tables[t]), changes[t])
    {
      for t := 0 to TABLES
        invariant forall k | 0 <= k < TABLES ::
                    tables[k] == if k >= t || k == CALL_PARTICIPANTS then old(tables[k])
                                 else ApplyTable(old(tables[k]), changes[k])
      {
        if t != CALL_PARTICIPANTS {
          ApplyTableChanges(t, changes[t]);
        }
      }
    }

    /** One round of the loop: fetch a page of every table, apply them, choose the next cursor. */
    method PullPage(server: Server, cursor: int, limit: nat) returns (nextCursor: Option<int>)
      modifies this`tables
      ensures tables == ApplyPages(server, old(tables), cursor, limit)
      ensures nextCursor == NextCursor(server, cursor, limit, TABLES)
    {
      var changes := FetchAll(server, cursor, limit);
      ApplyChanges(changes);
      nextCursor := None;
      for t := 0 to TABLES
        invariant nextCursor == NextCursor(server, cursor, limit, t)
      {
        nextCursor := Least(nextCursor, Offer(changes[t]));
      }
    }

    /**
     `pull`. The request for page number `failsAt` fails, if there is one; `clock(k)` is the server's
     time stamp on page `k`. A complete pull stores the stamp of its last page; a failed one keeps the
     pages it applied but not their cursor.
     */
    method Pull(server: Server, limit: nat, clock: nat -> int, failsAt: Option<nat>) returns (ok: bool)
      modifies this
      ensures ok ==>
                && tables == PullAll(server, old(tables), old(lastPulledAt), limit)
                && lastPulledAt == clock(Pages(server, old(lastPulledAt), limit) - 1)
      ensures !ok ==>
                && failsAt.Some?
                && tables == PullSome(server, old(tables), old(lastPulledAt), limit, failsAt.value)
                && lastPulledAt == old(lastPulledAt)
    {
      hide PullAll, PullSome, Pages, ApplyPages, NextCursor, Newest;
      var cursor, finalTimestamp, shouldContinue, k := lastPulledAt, lastPulledAt, true, 0;
      ghost var whole := PullAll(server, tables, cursor, limit);
      ghost var partly := PullSome(server, tables, cursor, limit, if failsAt.Some? then failsAt.value else 0);
      while shouldContinue
        invariant lastPulledAt == old(lastPulledAt)
        invariant shouldContinue ==> PullAll(server, tables, cursor, limit) == whole
        invariant !shouldContinue ==> tables == whole && k >= 1 && finalTimestamp == clock(k - 1)
        invariant Pages(server, lastPulledAt, limit)
                  == k + if shouldContinue then Pages(server, cursor, limit) else 0
        invariant shouldContinue && failsAt.Some? ==>
                    k <= failsAt.value && PullSome(server, tables, cursor, limit, failsAt.value - k) == partly
        decreases shouldContinue, Newest(server, TABLES) - cursor
      {
        if failsAt == Some(k) {
          PullNone(server, tables, cursor, limit);
          return false;
        }
        NextIsBounded(server, cursor, limit);
        ghost var left: nat := if failsAt.Some? then failsAt.value - k - 1 else 0;
        PullRound(server, tables, cursor, limit, left);
        var nextCursor := PullPage(server, cursor, limit);
        finalTimestamp := clock(k);
        k := k + 1;
        if nextCursor.Some? && nextCursor.value > cursor {
          cursor := nextCursor.value;
        } else {
          shouldContinue := false;
        }
      }
      lastPulledAt := finalTimestamp;
      ok := true;
    }
  }

  /** The handler of `/sync/pull`: one page of every table. */
  method FetchAll(server: Server, cursor: int, limit: nat) returns (changes: seq<Changes>)
    ensures |changes| == TABLES
    ensures forall t | 0 <= t < TABLES :: changes[t] == Fetch(server[t], cursor, limit)
  {
    changes := [];
    for t := 0 to TABLES
      invariant |changes| == t
      invariant forall k | 0 <= k < t :: changes[k] == Fetch(server[k], cursor, limit)
    {
      var page := GetTableChanges(server[t], cursor, limit);
      changes := changes + [page];
    }
  }
}
