/**
 What pulling does to a client's own rows: a row that is newer than the server's survives as long as
 the server neither reports it as created nor as deleted, and a merge keeps what the server left out.
 */
module SyncLocalEdits {
  import opened SyncPull
  import opened SyncConvergence

  // ---- merging a list of updates -----------------------------------------------------------------

  function TimeAt(local: Local, id: string): int
    requires id in local
  {
    local[id].updatedAt
  }

  ghost predicate PositiveTimes(rows: seq<Row>) {
    forall r | r in rows :: r.updatedAt > 0
  }

  ghost predicate AllOlder(rows: seq<Row>, id: string, time: int) {
    forall r | r in rows && r.id == id :: r.updatedAt < time
  }

  /** Updates that are all older than the local row leave it alone. */
  lemma {:induction false} OlderUpdatesAreIgnored(local: Local, rows: seq<Row>, id: string)
    requires id in local && TimeAt(local, id) > 0
    requires PositiveTimes(rows) && AllOlder(rows, id, TimeAt(local, id))
    ensures id in MergeAll(local, rows) && MergeAll(local, rows)[id] == local[id]
    decreases rows
  {
    if rows != [] {
      assert rows[0] in rows;
      OlderUpdatesAreIgnored(MergeOne(local, rows[0]), rows[1..], id);
    }
  }

  /** Merging never turns a row back: its time ends as the latest of its own and the updates' times. */
  lemma {:induction false} MergeNeverGoesBack(local: Local, rows: seq<Row>, id: string)
    requires id in local && TimeAt(local, id) > 0 && PositiveTimes(rows)
    ensures id in MergeAll(local, rows)
    ensures TimeAt(MergeAll(local, rows), id) >= TimeAt(local, id)
    ensures forall r | r in rows && r.id == id :: TimeAt(MergeAll(local, rows), id) >= r.updatedAt
    ensures TimeAt(MergeAll(local, rows), id) == TimeAt(local, id)
            || exists r :: r in rows && r.id == id && TimeAt(MergeAll(local, rows), id) == r.updatedAt
    decreases rows
  {
    if rows != [] {
      assert rows[0] in rows;
      MergeNeverGoesBack(MergeOne(local, rows[0]), rows[1..], id);
      assert forall r | r in rows :: r == rows[0] || r in rows[1..];
    }
  }

  /** One update that is not older replaces what it names and keeps the columns it leaves out. */
  lemma {:induction false} MergeKeepsOtherColumns(local: Local, rows: seq<Row>, r: Row)
    requires r in rows && IdsDetermine(rows) && r.id in local
    requires r.updatedAt == 0 || local[r.id].updatedAt == 0 || local[r.id].updatedAt <= r.updatedAt
    ensures r.id in MergeAll(local, rows)
    ensures
      var mine, merged := local[r.id], MergeAll(local, rows)[r.id];
      && merged.updatedAt == r.updatedAt && merged.createdAt == r.createdAt && merged.deleted == r.deleted
      && (forall k | k in r.fields :: k in merged.fields && merged.fields[k] == r.fields[k])
      && (forall k | k in mine.fields && k !in r.fields :: k in merged.fields && merged.fields[k] == mine.fields[k])
      && (forall k | k in merged.fields :: k in r.fields || k in mine.fields)
    decreases rows
  {
    var next := MergeOne(local, rows[0]);
    if r in rows[1..] {
      MergeKeepsOtherColumns(next, rows[1..], r);
    } else {
      assert r == rows[0];
      forall q | q in rows[1..] ensures q.id != r.id {}
      MergeOther(next, rows[1..], r.id);
    }
  }

  // ---- one page ----------------------------------------------------------------------------------

  /** The local row is a newer version of a row of the server. */
  ghost predicate Newer(local: Local, r: Row) {
    r.id in local && 0 < r.updatedAt < local[r.id].updatedAt
  }

  ghost predicate SameAt(a: Local, b: Local, id: string) {
    (id in a <==> id in b) && (id in a ==> a[id] == b[id])
  }

  /** A newer local row survives a page exactly if it is not on it, or is on it as an update. */
  lemma PageKeepsEditIff(local: Local, table: seq<Row>, cursor: int, limit: nat, r: Row)
    requires IdsDetermine(table) && r in table && Newer(local, r)
    ensures SameAt(local, ApplyTable(local, Fetch(table, cursor, limit)), r.id)
            <==> r !in Page(table, cursor, limit) || IsUpdated(r, cursor)
  {
    var page := Page(table, cursor, limit);
    PageIdsDetermine(table, cursor, limit);
    if r !in page {
      forall q | q in page ensures q.id != r.id {
        PageMembers(table, cursor, limit, q);
      }
      AppliedOther(local, table, cursor, limit, r.id);
    } else if IsUpdated(r, cursor) {
      UpdateOnPageIsIgnored(local, page, cursor, r);
    } else {
      NewOnPageReplaces(local, page, cursor, r);
    }
  }

  lemma UpdateOnPageIsIgnored(local: Local, page: seq<Row>, cursor: int, r: Row)
    requires IdsDetermine(page) && r in page && IsUpdated(r, cursor) && Newer(local, r)
    ensures
      var applied := DeleteAll(MergeAll(PutAll(local, Created(page, cursor)), Updated(page, cursor)), Deleted(page));
      SameAt(local, applied, r.id)
  {
    var created, updated := Created(page, cursor), Updated(page, cursor);
    forall q | q in created ensures q.id != r.id {
      CreatedMembers(page, cursor, q);
    }
    PutOther(local, created, r.id);
    forall q | q in updated && q.id == r.id ensures q == r {
      UpdatedMembers(page, cursor, q);
    }
    OlderRecordIsIgnored(PutAll(local, created), updated, r);
    DeletedMembers(page, r.id);
  }

  lemma {:induction false} OlderRecordIsIgnored(local: Local, rows: seq<Row>, r: Row)
    requires Newer(local, r) && forall q | q in rows && q.id == r.id :: q == r
    ensures SameAt(local, MergeAll(local, rows), r.id)
    decreases rows
  {
    if rows != [] {
      assert rows[0] in rows;
      OlderRecordIsIgnored(MergeOne(local, rows[0]), rows[1..], r);
    }
  }

  lemma NewOnPageReplaces(local: Local, page: seq<Row>, cursor: int, r: Row)
    requires IdsDetermine(page) && r in page && !IsUpdated(r, cursor) && Newer(local, r)
    ensures
      var applied := DeleteAll(MergeAll(PutAll(local, Created(page, cursor)), Updated(page, cursor)), Deleted(page));
      if r.deleted then r.id !in applied else r.id in applied && applied[r.id] == r
  {
    var created, updated := Created(page, cursor), Updated(page, cursor);
    DeletedMembers(page, r.id);
    if !r.deleted {
      forall q | q in created ensures q in page {
        CreatedMembers(page, cursor, q);
      }
      CreatedMembers(page, cursor, r);
      PutAt(local, created, r);
      forall q | q in updated ensures q.id != r.id {
        UpdatedMembers(page, cursor, q);
      }
      MergeOther(PutAll(local, created), updated, r.id);
    }
  }

  // ---- a whole pull ------------------------------------------------------------------------------

  /**
   Whatever the server holds of this id is live, was known at the cursor, and is older than the local
   row: the client has edited it and not pushed yet.
   */
  ghost predicate IsUnpushedEdit(local: Local, table: seq<Row>, id: string, cursor: int) {
    && cursor > 0 && id in local
    && forall r | r in table && r.id == id :: !r.deleted && r.createdAt <= cursor && Newer(local, r)
  }

  lemma PageKeepsEdit(local: Local, table: seq<Row>, cursor: int, limit: nat, id: string)
    requires IdsDetermine(table) && IsUnpushedEdit(local, table, id, cursor)
    ensures SameAt(local, ApplyTable(local, Fetch(table, cursor, limit)), id)
  {
    if r :| r in table && r.id == id {
      PageKeepsEditIff(local, table, cursor, limit, r);
    } else {
      forall q | q in Page(table, cursor, limit) ensures q.id != id {
        PageMembers(table, cursor, limit, q);
      }
      AppliedOther(local, table, cursor, limit, id);
    }
  }

  lemma RoundKeepsEdit(server: Server, locals: Locals, cursor: int, limit: nat, t: nat, id: string)
    requires t < TABLES && IdsDetermine(server[t]) && IsUnpushedEdit(locals[t], server[t], id, cursor)
    ensures SameAt(locals[t], ApplyPages(server, locals, cursor, limit)[t], id)
    ensures Advances(server, cursor, limit) ==>
              IsUnpushedEdit(ApplyPages(server, locals, cursor, limit)[t], server[t], id,
                             NextCursor(server, cursor, limit, TABLES).value)
  {
    PageKeepsEdit(locals[t], server[t], cursor, limit, id);
  }

  /** A pull, complete or cut short, keeps an edit that has not been pushed yet. */
  lemma {:induction false} PullKeepsEdit(
    server: Server, locals: Locals, cursor: int, limit: nat, pages: nat, t: nat, id: string)
    requires t < TABLES && IdsDetermine(server[t]) && IsUnpushedEdit(locals[t], server[t], id, cursor)
    ensures SameAt(locals[t], PullAll(server, locals, cursor, limit)[t], id)
    ensures SameAt(locals[t], PullSome(server, locals, cursor, limit, pages)[t], id)
    decreases Newest(server, TABLES) - cursor
  {
    hide ApplyPages, NextCursor, IsUnpushedEdit, PullAll, PullSome;
    NextIsBounded(server, cursor, limit);
    RoundKeepsEdit(server, locals, cursor, limit, t, id);
    var left: nat := if pages > 0 then pages - 1 else 0;
    PullRound(server, locals, cursor, limit, left);
    PullNone(server, locals, cursor, limit);
    if Advances(server, cursor, limit) {
      PullKeepsEdit(server, ApplyPages(server, locals, cursor, limit),
                    NextCursor(server, cursor, limit, TABLES).value, limit, left, t, id);
    }
  }

  /** The first pull of a client does not: what it is sent replaces what it has, newer or not. */
  lemma FirstPageReplacesEdit(local: Local, table: seq<Row>, limit: nat, r: Row)
    requires IdsDetermine(table) && Newer(local, r) && r in Page(table, 0, limit)
    ensures r.id in ApplyTable(local, Fetch(table, 0, limit)) && ApplyTable(local, Fetch(table, 0, limit))[r.id] == r
  {
    PageMembers(table, 0, limit, r);
    PageIdsDetermine(table, 0, limit);
    NewOnPageReplaces(local, Page(table, 0, limit), 0, r);
  }
}
