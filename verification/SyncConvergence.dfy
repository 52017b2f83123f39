/**
 When pull converges: on a quiescent server the pagination loop makes every applied table equal to
 the server's live rows, as long as no chosen cursor equals the time of a row that did not fit on
 its page. Distinct times rule that out; without them it is exactly what goes wrong.
 */
module SyncConvergence {
  import opened Prelude
  import opened SyncPull

  // ---- what is assumed of a table, and what is kept of a local table ---------------------------

  ghost predicate IdsDetermine(rows: seq<Row>) {
    forall r, q | r in rows && q in rows && r.id == q.id :: r == q
  }

  ghost predicate Increasing(rows: seq<Row>) {
    forall i, j | 0 <= i < j < |rows| :: rows[i].updatedAt < rows[j].updatedAt
  }

  ghost predicate NonDecreasing(rows: seq<Row>) {
    forall i, j | 0 <= i < j < |rows| :: rows[i].updatedAt <= rows[j].updatedAt
  }

  ghost predicate TableOk(table: seq<Row>) {
    && IdsDetermine(table)
    && NonDecreasing(table)
    && forall r | r in table :: r.updatedAt > 0
  }

  ghost predicate Agrees(local: Local, r: Row) {
    if r.deleted then r.id !in local else r.id in local && local[r.id] == r
  }

  /** A version of the row that the row may overwrite: not newer, and with no columns of its own. */
  ghost predicate Outdated(mine: Row, r: Row) {
    mine.updatedAt <= r.updatedAt && mine.fields.Keys <= r.fields.Keys
  }

  ghost predicate Known(local: Local, table: seq<Row>) {
    forall id | id in local :: exists r :: r in table && r.id == id && Outdated(local[id], r)
  }

  ghost predicate NoneDeleted(local: Local, table: seq<Row>) {
    forall r | r in table && r.deleted :: r.id !in local
  }

  /**
   The client agreed with the server at `cursor`: rows that have not changed since are mirrored,
   rows that have may be missing or outdated. At cursor 0 it holds no row the server has deleted;
   a client that never pulled holds nothing at all.
   */
  ghost predicate Synced(local: Local, table: seq<Row>, cursor: int) {
    && Known(local, table)
    && (forall r | r in table && r.updatedAt <= cursor :: Agrees(local, r))
    && (cursor == 0 ==> NoneDeleted(local, table))
  }

  ghost predicate Mirrors(local: Local, table: seq<Row>) {
    && (forall r | r in table :: Agrees(local, r))
    && (forall id | id in local :: exists r :: r in table && r.id == id)
  }

  lemma FreshClientIsSynced(table: seq<Row>)
    requires TableOk(table)
    ensures Synced(map[], table, 0)
  {
  }

  // ---- applying one page -----------------------------------------------------------------------

  lemma {:induction false} CreatedMembers(page: seq<Row>, cursor: int, r: Row)
    ensures r in Created(page, cursor) <==> r in page && IsCreated(r, cursor)
  {
    if page != [] {
      CreatedMembers(page[..|page| - 1], cursor, r);
      assert r in page <==> r in page[..|page| - 1] || r == page[|page| - 1];
    }
  }

  lemma {:induction false} UpdatedMembers(page: seq<Row>, cursor: int, r: Row)
    ensures r in Updated(page, cursor) <==> r in page && IsUpdated(r, cursor)
  {
    if page != [] {
      UpdatedMembers(page[..|page| - 1], cursor, r);
      assert r in page <==> r in page[..|page| - 1] || r == page[|page| - 1];
    }
  }

  lemma {:induction false} DeletedMembers(page: seq<Row>, id: string)
    ensures id in Deleted(page) <==> exists r :: r in page && r.deleted && r.id == id
  {
    if page != [] {
      var rest, last := page[..|page| - 1], page[|page| - 1];
      DeletedMembers(rest, id);
      assert forall r :: r in page <==> r in rest || r == last;
    }
  }

  lemma {:induction false} PutOther(local: Local, rows: seq<Row>, id: string)
    requires forall r | r in rows :: r.id != id
    ensures id in PutAll(local, rows) <==> id in local
    ensures id in local ==> PutAll(local, rows)[id] == local[id]
    decreases rows
  {
    if rows != [] {
      PutOther(local[rows[0].id := rows[0]], rows[1..], id);
    }
  }

  lemma {:induction false} PutAt(local: Local, rows: seq<Row>, r: Row)
    requires r in rows && IdsDetermine(rows)
    ensures r.id in PutAll(local, rows) && PutAll(local, rows)[r.id] == r
    decreases rows
  {
    var next := local[rows[0].id := rows[0]];
    if r in rows[1..] {
      PutAt(next, rows[1..], r);
    } else {
      assert r == rows[0];
      forall q | q in rows[1..] ensures q.id != r.id {}
      PutOther(next, rows[1..], r.id);
    }
  }

  lemma {:induction false} MergeOther(local: Local, rows: seq<Row>, id: string)
    requires forall r | r in rows :: r.id != id
    ensures id in MergeAll(local, rows) <==> id in local
    ensures id in local ==> MergeAll(local, rows)[id] == local[id]
    decreases rows
  {
    if rows != [] {
      MergeOther(MergeOne(local, rows[0]), rows[1..], id);
    }
  }

  lemma MergeReplaces(mine: Row, r: Row)
    requires Outdated(mine, r)
    ensures Merge(mine, r) == r
  {
    assert mine.fields + r.fields == r.fields;
  }

  lemma {:induction false} MergeAt(local: Local, rows: seq<Row>, r: Row)
    requires r in rows && IdsDetermine(rows)
    requires r.id in local ==> Outdated(local[r.id], r)
    ensures r.id in MergeAll(local, rows) && MergeAll(local, rows)[r.id] == r
    decreases rows
  {
    var next := MergeOne(local, rows[0]);
    if rows[0].id == r.id {
      assert rows[0] == r;
      if r.id in local {
        MergeReplaces(local[r.id], r);
      }
      assert next[r.id] == r;
    }
    if r in rows[1..] {
      MergeAt(next, rows[1..], r);
    } else {
      assert r == rows[0];
      forall q | q in rows[1..] ensures q.id != r.id {}
      MergeOther(next, rows[1..], r.id);
    }
  }

  /** A row in the page is mirrored afterwards, through whichever of the three lists it came. */
  lemma AppliedAt(local: Local, table: seq<Row>, cursor: int, limit: nat, r: Row)
    requires IdsDetermine(Page(table, cursor, limit)) && r in Page(table, cursor, limit)
    requires r.id in local ==> Outdated(local[r.id], r)
    ensures Agrees(ApplyTable(local, Fetch(table, cursor, limit)), r)
  {
    var page := Page(table, cursor, limit);
    var created, updated := Created(page, cursor), Updated(page, cursor);
    forall q | q in created || q in updated ensures q in page {
      CreatedMembers(page, cursor, q);
      UpdatedMembers(page, cursor, q);
    }
    CreatedMembers(page, cursor, r);
    UpdatedMembers(page, cursor, r);
    DeletedMembers(page, r.id);
    if IsCreated(r, cursor) {
      PutAt(local, created, r);
      forall q | q in updated ensures q.id != r.id {
        UpdatedMembers(page, cursor, q);
      }
      MergeOther(PutAll(local, created), updated, r.id);
    } else if IsUpdated(r, cursor) {
      forall q | q in created ensures q.id != r.id {
        CreatedMembers(page, cursor, q);
      }
      PutOther(local, created, r.id);
      MergeAt(PutAll(local, created), updated, r);
    }
  }

  /** An id that is not in the page keeps its local row. */
  lemma AppliedOther(local: Local, table: seq<Row>, cursor: int, limit: nat, id: string)
    requires forall r | r in Page(table, cursor, limit) :: r.id != id
    ensures
      var applied := ApplyTable(local, Fetch(table, cursor, limit));
      (id in applied <==> id in local) && (id in local ==> applied[id] == local[id])
  {
    var page := Page(table, cursor, limit);
    var created, updated := Created(page, cursor), Updated(page, cursor);
    forall q | q in created || q in updated ensures q.id != id {
      CreatedMembers(page, cursor, q);
      UpdatedMembers(page, cursor, q);
    }
    DeletedMembers(page, id);
    PutOther(local, created, id);
    MergeOther(PutAll(local, created), updated, id);
  }

  // ---- what a page covers ----------------------------------------------------------------------

  lemma {:induction false} PendingOrdered(table: seq<Row>, cursor: int)
    ensures NonDecreasing(table) ==> NonDecreasing(Pending(table, cursor))
    ensures Increasing(table) ==> Increasing(Pending(table, cursor))
  {
    if table != [] {
      PendingOrdered(table[1..], cursor);
      var rest := Pending(table[1..], cursor);
      forall k | 0 <= k < |rest|
        ensures exists m | 1 <= m < |table| :: table[m] == rest[k]
      {
        PendingMembers(table[1..], cursor, rest[k]);
        var m :| 0 <= m < |table[1..]| && table[1..][m] == rest[k];
        assert table[m + 1] == rest[k];
      }
    }
  }

  /** The cursor `next` passes, or meets, the first row that did not fit on the page. */
  predicate SplitsTie(table: seq<Row>, cursor: int, limit: nat, next: int) {
    var rows := Pending(table, cursor);
    |rows| > limit && rows[limit].updatedAt <= next
  }

  /**
   One page: the page and a later cursor together leave no wanted row behind if and only if the
   cursor is before the first row that did not fit. The strict comparison of the query loses it
   otherwise.
   */
  lemma NothingSkippedIff(table: seq<Row>, cursor: int, limit: nat, next: int)
    requires NonDecreasing(table)
    ensures
      var rows := Pending(table, cursor);
      (forall k | limit <= k < |rows| :: rows[k].updatedAt > next) <==> !SplitsTie(table, cursor, limit, next)
  {
    PendingOrdered(table, cursor);
  }

  /** ... and then the page holds every wanted row up to the cursor. */
  lemma PageCovers(table: seq<Row>, cursor: int, limit: nat, next: int, r: Row)
    requires NonDecreasing(table) && r in table && Wanted(r, cursor)
    requires r.updatedAt <= next && !SplitsTie(table, cursor, limit, next)
    ensures r in Page(table, cursor, limit)
  {
    NothingSkippedIff(table, cursor, limit, next);
    PendingMembers(table, cursor, r);
    var rows := Pending(table, cursor);
    var k :| 0 <= k < |rows| && rows[k] == r;
    if |rows| > limit {
      assert Page(table, cursor, limit)[k] == r;
    }
  }

  lemma PageMembers(table: seq<Row>, cursor: int, limit: nat, r: Row)
    requires r in Page(table, cursor, limit)
    ensures r in table && Wanted(r, cursor)
  {
    PendingMembers(table, cursor, r);
  }

  // ---- one round ---------------------------------------------------------------------------------

  /** Whatever page is applied, the client keeps knowing only outdated or current server rows. */
  lemma KnownAfterPage(local: Local, table: seq<Row>, cursor: int, limit: nat)
    requires IdsDetermine(table) && Known(local, table)
    ensures Known(ApplyTable(local, Fetch(table, cursor, limit)), table)
    ensures NoneDeleted(local, table) ==> NoneDeleted(ApplyTable(local, Fetch(table, cursor, limit)), table)
  {
    var page := Page(table, cursor, limit);
    var applied := ApplyTable(local, Fetch(table, cursor, limit));
    forall r | r in page ensures r in table && Agrees(applied, r) {
      PageMembers(table, cursor, limit, r);
      PageIdsDetermine(table, cursor, limit);
      AppliedAt(local, table, cursor, limit, r);
    }
    forall id | id in applied
      ensures exists r :: r in table && r.id == id && Outdated(applied[id], r)
    {
      if r :| r in page && r.id == id {
        assert Outdated(applied[id], r);
      } else {
        AppliedOther(local, table, cursor, limit, id);
      }
    }
    if NoneDeleted(local, table) {
      forall r | r in table && r.deleted ensures r.id !in applied {
        if q :| q in page && q.id == r.id {
        } else {
          AppliedOther(local, table, cursor, limit, r.id);
        }
      }
    }
  }

  lemma PageIdsDetermine(table: seq<Row>, cursor: int, limit: nat)
    requires IdsDetermine(table)
    ensures IdsDetermine(Page(table, cursor, limit))
  {
    var page := Page(table, cursor, limit);
    forall r | r in page ensures r in table {
      PageMembers(table, cursor, limit, r);
    }
  }

  /** A row that was mirrored, or is in the page, is mirrored afterwards. */
  lemma AgreesAfterPage(local: Local, table: seq<Row>, cursor: int, limit: nat, r: Row)
    requires IdsDetermine(table) && Known(local, table) && r in table
    requires Agrees(local, r) || r in Page(table, cursor, limit)
    ensures Agrees(ApplyTable(local, Fetch(table, cursor, limit)), r)
  {
    var page := Page(table, cursor, limit);
    PageIdsDetermine(table, cursor, limit);
    if r in page {
      AppliedAt(local, table, cursor, limit, r);
    } else {
      forall q | q in page ensures q.id != r.id {
        PageMembers(table, cursor, limit, q);
      }
      AppliedOther(local, table, cursor, limit, r.id);
    }
  }

  /**
   The heart of the loop: after a page, everything up to `next` is mirrored, provided `next` is
   before the first row that did not fit.
   */
  lemma SyncedAfterPage(local: Local, table: seq<Row>, cursor: int, limit: nat, next: int)
    requires TableOk(table) && Synced(local, table, cursor) && next > 0
    requires !SplitsTie(table, cursor, limit, next)
    ensures Synced(ApplyTable(local, Fetch(table, cursor, limit)), table, next)
  {
    KnownAfterPage(local, table, cursor, limit);
    forall r | r in table && r.updatedAt <= next
      ensures Agrees(ApplyTable(local, Fetch(table, cursor, limit)), r)
    {
      if Wanted(r, cursor) {
        PageCovers(table, cursor, limit, next, r);
      }
      AgreesAfterPage(local, table, cursor, limit, r);
    }
  }

  /** The last page of a table leaves it mirrored. */
  lemma MirroredAfterLastPage(local: Local, table: seq<Row>, cursor: int, limit: nat)
    requires TableOk(table) && Synced(local, table, cursor) && limit > 0
    requires |Page(table, cursor, limit)| < limit
    ensures Mirrors(ApplyTable(local, Fetch(table, cursor, limit)), table)
  {
    var newest := Max(1, NewestIn(table));
    SyncedAfterPage(local, table, cursor, limit, newest);
  }

  // ---- the whole run -----------------------------------------------------------------------------

  ghost predicate ServerOk(server: Server) {
    forall t | 0 <= t < TABLES :: TableOk(server[t])
  }

  ghost predicate AllSynced(server: Server, locals: Locals, cursor: int) {
    forall t | 0 <= t < TABLES && t != CALL_PARTICIPANTS :: Synced(locals[t], server[t], cursor)
  }

  /** With positive times a full page always offers a cursor, and an offered cursor always advances. */
  lemma GuardNeverFires(server: Server, cursor: int, limit: nat)
    requires ServerOk(server) && limit > 0 && cursor >= 0
    ensures NextCursor(server, cursor, limit, TABLES).Some? ==> Advances(server, cursor, limit)
    ensures forall t | 0 <= t < TABLES ::
              |Page(server[t], cursor, limit)| == limit ==>
                && Advances(server, cursor, limit)
                && NextCursor(server, cursor, limit, TABLES).value
                   <= Page(server[t], cursor, limit)[limit - 1].updatedAt
  {
    var next := NextCursor(server, cursor, limit, TABLES);
    forall t | 0 <= t < TABLES && |Page(server[t], cursor, limit)| == limit
      ensures Offer(Fetch(server[t], cursor, limit)) == Some(Page(server[t], cursor, limit)[limit - 1].updatedAt)
    {
      PageMembers(server[t], cursor, limit, Page(server[t], cursor, limit)[limit - 1]);
    }
    if next.Some? {
      var t :| 0 <= t < TABLES && Offer(Fetch(server[t], cursor, limit)) == next;
      OfferIsARow(server[t], cursor, limit);
    }
  }

  /** In this round the chosen cursor is before every row that did not fit. */
  predicate RoundIsClean(server: Server, cursor: int, limit: nat)
    requires Advances(server, cursor, limit)
  {
    forall t | 0 <= t < TABLES && t != CALL_PARTICIPANTS ::
      !SplitsTie(server[t], cursor, limit, NextCursor(server, cursor, limit, TABLES).value)
  }

  /** In every round of the loop; a matter of the server's times alone. */
  predicate RunIsClean(server: Server, cursor: int, limit: nat)
    decreases Newest(server, TABLES) - cursor
  {
    NextIsBounded(server, cursor, limit);
    Advances(server, cursor, limit) ==>
      RoundIsClean(server, cursor, limit) && RunIsClean(server, NextCursor(server, cursor, limit, TABLES).value, limit)
  }

  lemma RoundKeepsSynced(server: Server, locals: Locals, cursor: int, limit: nat)
    requires ServerOk(server) && AllSynced(server, locals, cursor) && cursor >= 0
    requires Advances(server, cursor, limit) && RoundIsClean(server, cursor, limit)
    ensures AllSynced(server, ApplyPages(server, locals, cursor, limit),
                      NextCursor(server, cursor, limit, TABLES).value)
  {
    hide Synced, ApplyTable, NextCursor, SplitsTie;
    forall t | 0 <= t < TABLES && t != CALL_PARTICIPANTS
      ensures Synced(ApplyPages(server, locals, cursor, limit)[t], server[t],
                     NextCursor(server, cursor, limit, TABLES).value)
    {
      SyncedAfterPage(locals[t], server[t], cursor, limit, NextCursor(server, cursor, limit, TABLES).value);
    }
  }

  /**
   Convergence: in a clean run, a client that agreed with the server at its cursor ends the loop with
   every applied table equal to the server's live rows.
   */
  lemma {:induction false} CleanPullConverges(server: Server, locals: Locals, cursor: int, limit: nat)
    requires ServerOk(server) && AllSynced(server, locals, cursor) && limit > 0 && cursor >= 0
    requires RunIsClean(server, cursor, limit)
    ensures AllMirrored(server, PullAll(server, locals, cursor, limit))
    decreases Newest(server, TABLES) - cursor
  {
    NextIsBounded(server, cursor, limit);
    GuardNeverFires(server, cursor, limit);
    PullRound(server, locals, cursor, limit, 0);
    if Advances(server, cursor, limit) {
      RoundKeepsSynced(server, locals, cursor, limit);
      CleanPullConverges(server, ApplyPages(server, locals, cursor, limit),
                         NextCursor(server, cursor, limit, TABLES).value, limit);
    } else {
      forall t | 0 <= t < TABLES && t != CALL_PARTICIPANTS
        ensures Mirrors(ApplyPages(server, locals, cursor, limit)[t], server[t])
      {
        assert |Page(server[t], cursor, limit)| <= limit;
        MirroredAfterLastPage(locals[t], server[t], cursor, limit);
      }
    }
  }

  ghost predicate AllMirrored(server: Server, locals: Locals) {
    forall t | 0 <= t < TABLES && t != CALL_PARTICIPANTS :: Mirrors(locals[t], server[t])
  }

  ghost predicate DistinctTimes(server: Server) {
    forall t | 0 <= t < TABLES && t != CALL_PARTICIPANTS :: Increasing(server[t])
  }

  /** With distinct times every run is clean. */
  lemma {:induction false} DistinctTimesAreClean(server: Server, cursor: int, limit: nat)
    requires ServerOk(server) && DistinctTimes(server) && limit > 0 && cursor >= 0
    ensures RunIsClean(server, cursor, limit)
    decreases Newest(server, TABLES) - cursor
  {
    NextIsBounded(server, cursor, limit);
    GuardNeverFires(server, cursor, limit);
    if Advances(server, cursor, limit) {
      var next := NextCursor(server, cursor, limit, TABLES).value;
      forall t | 0 <= t < TABLES && t != CALL_PARTICIPANTS ensures !SplitsTie(server[t], cursor, limit, next) {
        PendingOrdered(server[t], cursor);
        var rows := Pending(server[t], cursor);
        if |rows| > limit {
          assert Page(server[t], cursor, limit)[limit - 1] == rows[limit - 1];
        }
      }
      DistinctTimesAreClean(server, next, limit);
    }
  }

  /** So it converges. */
  lemma PullConverges(server: Server, locals: Locals, cursor: int, limit: nat)
    requires ServerOk(server) && DistinctTimes(server)
    requires AllSynced(server, locals, cursor) && limit > 0 && cursor >= 0
    ensures AllMirrored(server, PullAll(server, locals, cursor, limit))
  {
    DistinctTimesAreClean(server, cursor, limit);
    CleanPullConverges(server, locals, cursor, limit);
  }

  lemma RoundKeepsStart(server: Server, locals: Locals, start: int, cursor: int, limit: nat)
    requires ServerOk(server) && AllSynced(server, locals, cursor) && AllSynced(server, locals, start)
    ensures AllSynced(server, ApplyPages(server, locals, cursor, limit), start)
  {
    forall t | 0 <= t < TABLES && t != CALL_PARTICIPANTS
      ensures Synced(ApplyPages(server, locals, cursor, limit)[t], server[t], start)
    {
      var applied := ApplyTable(locals[t], Fetch(server[t], cursor, limit));
      KnownAfterPage(locals[t], server[t], cursor, limit);
      forall r | r in server[t] && r.updatedAt <= start ensures Agrees(applied, r) {
        AgreesAfterPage(locals[t], server[t], cursor, limit, r);
      }
    }
  }

  /**
   A pull that fails on some page keeps the pages it has applied and the cursor it started from; the
   client still agrees with the server at that cursor, so the next pull converges.
   */
  lemma {:induction false} FailedPullIsResumable(
    server: Server, locals: Locals, start: int, cursor: int, limit: nat, pages: nat)
    requires ServerOk(server) && RunIsClean(server, cursor, limit) && 0 <= start <= cursor
    requires AllSynced(server, locals, cursor) && AllSynced(server, locals, start)
    ensures AllSynced(server, PullSome(server, locals, cursor, limit, pages), start)
    decreases pages
  {
    hide Synced, ApplyTable, NextCursor, TableOk, RoundIsClean, PullAll;
    if pages > 0 {
      var left: nat := pages - 1;
      PullRound(server, locals, cursor, limit, left);
      RoundKeepsStart(server, locals, start, cursor, limit);
      if Advances(server, cursor, limit) {
        var applied, next := ApplyPages(server, locals, cursor, limit), NextCursor(server, cursor, limit, TABLES).value;
        RoundKeepsSynced(server, locals, cursor, limit);
        FailedPullIsResumable(server, applied, start, next, limit, left);
        assert PullSome(server, locals, cursor, limit, pages) == PullSome(server, applied, next, limit, left);
      }
    }
  }

  /**
   Between two pulls the server may change as long as every row it changed carries a time after the
   client's cursor and no row disappears: then the client still agrees with it at that cursor.
   (A row pushed with an older client time breaks the condition and is missed.)
   */
  lemma ServerMovesOn(local: Local, table: seq<Row>, later: seq<Row>, cursor: int)
    requires Mirrors(local, table) && cursor != 0
    requires forall r | r in later && r.updatedAt <= cursor :: r in table
    requires forall r | r in table :: exists q :: q in later && q.id == r.id && Outdated(r, q)
    ensures Synced(local, later, cursor)
  {
    forall id | id in local
      ensures exists q :: q in later && q.id == id && Outdated(local[id], q)
    {
      var r :| r in table && r.id == id;
      assert Agrees(local, r);
    }
  }
}
