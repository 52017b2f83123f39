/** What a push guarantees: no lost remote update, and closed references. */
module SyncPushSafety {
  import opened Prelude
  import opened SyncPush
  import opened SyncPushGuards
  import opened SyncPushAnswers
  import opened SyncPushEffects

  // ---- no lost remote update -------------------------------------------------------------------

  /** The guard of an overwrite: the row has not changed since the client's last pull and is live. */
  ghost predicate MayOverwrite(row: Row, lastPulledAt: int) {
    row.updatedAt <= lastPulledAt && !row.deleted
  }

  /** What the table's part of a push may do to a row: overwrite it under the guard, or mark it deleted if listed. */
  ghost predicate MayBecome(row: Row, after: Row, listed: bool, lastPulledAt: int, now: int) {
    || after == row
    || MayOverwrite(row, lastPulledAt)
    || (listed && after == row.(deleted := true, updatedAt := now))
  }

  /** One record leaves other rows alone, and is stored over an existing row only under the guard. */
  lemma UpsertIsChecked(s: Session, table: Table, d: Datum, lastPulledAt: int, now: int, key: Key)
    ensures
      var r := Upsert(s, table, d, lastPulledAt, now);
      && (r.Go? && key.table == table && d.id == Ref(key.id) && key in s.db.rows ==>
            MayOverwrite(s.db.rows[key], lastPulledAt) && key in r.session.db.rows)
      && (r.Skip? || (r.Go? && (key.table != table || d.id != Ref(key.id))) ==> SameRow(s.db, r.session.db, key))
  {
    GuardKeepsRows(s, table, d);
    hide Guard;
  }

  /** After the loop a row is as it was, or the guard admitted its overwriting. */
  lemma {:induction false} UpsertAllIsChecked(
    s: Session, table: Table, data: seq<Datum>, lastPulledAt: int, now: int, key: Key)
    requires key in s.db.rows
    ensures
      var r := UpsertAll(s, table, data, lastPulledAt, now);
      !r.Abort? ==>
        && key in r.session.db.rows
        && (r.session.db.rows[key] == s.db.rows[key]
            || (key.table == table && MayOverwrite(s.db.rows[key], lastPulledAt)))
  {
    hide Upsert, MayOverwrite;
    if data != [] {
      var before := data[..|data| - 1];
      UpsertAllIsChecked(s, table, before, lastPulledAt, now, key);
      var r := UpsertAll(s, table, before, lastPulledAt, now);
      if !r.Abort? {
        UpsertIsChecked(r.session, table, data[|data| - 1], lastPulledAt, now, key);
      }
    }
  }

  lemma {:induction false} PrefixPasses(s: Session, table: Table, data: seq<Datum>, i: nat, lastPulledAt: int, now: int)
    requires i <= |data| && !UpsertAll(s, table, data, lastPulledAt, now).Abort?
    ensures !UpsertAll(s, table, data[..i], lastPulledAt, now).Abort?
  {
    if UpsertAll(s, table, data[..i], lastPulledAt, now).Abort? {
      AbortSticks(s, table, data, i, lastPulledAt, now);
    }
  }

  /**
   Every record that is not skipped was checked: if its row existed before the loop, that row was live
   and unchanged since the client's last pull, whatever the record stores and whatever is deleted later.
   */
  lemma StoredRecordWasChecked(
    s: Session, table: Table, data: seq<Datum>, i: nat, lastPulledAt: int, now: int, key: Key)
    requires i < |data| && !UpsertAll(s, table, data, lastPulledAt, now).Abort?
    requires UpsertAll(s, table, data[..i + 1], lastPulledAt, now).Go?
    requires data[i].id == Ref(key.id) && key.table == table && key in s.db.rows
    ensures MayOverwrite(s.db.rows[key], lastPulledAt)
  {
    hide Upsert, MayOverwrite;
    PrefixPasses(s, table, data, i, lastPulledAt, now);
    assert data[..i + 1][..i] == data[..i];
    UpsertAllIsChecked(s, table, data[..i], lastPulledAt, now, key);
    UpsertIsChecked(UpsertAll(s, table, data[..i], lastPulledAt, now).session, table, data[i], lastPulledAt, now, key);
  }

  lemma PushTableIsChecked(
    s: Session, table: Table, c: TableChanges, lastPulledAt: int, now: int, rejected: bool, key: Key)
    requires key in s.db.rows
    ensures
      var r := PushTable(s, table, c, lastPulledAt, now, rejected);
      !r.Abort? ==>
        && key in r.session.db.rows
        && (key.table != table ==> r.session.db.rows[key] == s.db.rows[key])
        && MayBecome(s.db.rows[key], r.session.db.rows[key], Ref(key.id) in c.Deletions(), lastPulledAt, now)
  {
    hide UpsertAll, SoftDeleteAll, Accepts, MayOverwrite;
    UpsertAllIsChecked(s, table, c.Upserts(), lastPulledAt, now, key);
    var r := UpsertAll(s, table, c.Upserts(), lastPulledAt, now);
    if !r.Abort? {
      DeletionsMark(r.session, table, c.Deletions(), now, key);
    }
  }

  ghost predicate ListedForDeletion(changes: Changes, key: Key) {
    exists k | 0 <= k < 6 :: ORDER[k] == key.table && Ref(key.id) in changes[k].Deletions()
  }

  lemma {:induction false} PushTablesAreChecked(
    s: Session, changes: Changes, n: nat, lastPulledAt: int, now: int, rejects: set<Table>, key: Key)
    requires n <= 6 && key in s.db.rows
    ensures
      var r := PushTables(s, changes, n, lastPulledAt, now, rejects);
      !r.Abort? ==>
        && key in r.session.db.rows
        && (key.table !in ORDER[..n] ==> r.session.db.rows[key] == s.db.rows[key])
        && MayBecome(s.db.rows[key], r.session.db.rows[key], ListedForDeletion(changes, key), lastPulledAt, now)
  {
    hide PushTable, MayOverwrite;
    if n > 0 {
      PushTablesAreChecked(s, changes, n - 1, lastPulledAt, now, rejects, key);
      var r := PushTables(s, changes, n - 1, lastPulledAt, now, rejects);
      if !r.Abort? {
        PushTableIsChecked(r.session, ORDER[n - 1], changes[n - 1], lastPulledAt, now, ORDER[n - 1] in rejects, key);
        assert ORDER[..n] == ORDER[..n - 1] + [ORDER[n - 1]];
        EachTableOnce(n);
      }
    }
  }

  lemma EachTableOnce(n: nat)
    requires 0 < n <= 6
    ensures ORDER[n - 1] !in ORDER[..n - 1]
  {
  }

  /**
   Optimistic concurrency, by effect: a push that commits has removed no row, and every row either is
   unchanged, or was live and unchanged since the client's last pull, or was listed and only marked
   deleted.
   */
  lemma PushIsOptimistic(
    db: Db, changes: Changes, lastPulledAt: int, now: int, rejects: set<Table>, commitFails: bool, key: Key)
    requires key in db.rows
    ensures
      var (status, after) := Push(db, changes, lastPulledAt, now, rejects, commitFails);
      && key in after.rows
      && MayBecome(db.rows[key], after.rows[key], ListedForDeletion(changes, key), lastPulledAt, now)
  {
    PushTablesAreChecked(Begin(db), changes, 6, lastPulledAt, now, rejects, key);
  }

  /**
   Optimistic concurrency, by record: every record of a committed push that is not skipped and whose
   row existed found that row live and unchanged since the client's last pull, also when the row is
   listed for deletion as well, and also when the record changes nothing.
   */
  lemma PushChecksEveryRecord(
    db: Db, changes: Changes, lastPulledAt: int, now: int, rejects: set<Table>, k: nat, i: nat, key: Key)
    requires Push(db, changes, lastPulledAt, now, rejects, false).0 == Ok
    requires k < 6 && i < |changes[k].Upserts()| && key.table == ORDER[k] && key in db.rows
    requires Stored(Push(db, changes, lastPulledAt, now, rejects, false).1.rows, key, changes[k].Upserts()[i])
    ensures MayOverwrite(db.rows[key], lastPulledAt)
  {
    hide UpsertAll, SoftDeleteAll, MayOverwrite, CachesSound, PushTables, IsSkipped;
    TableOfPush(db, changes, k, lastPulledAt, now, rejects);
    var s, data := PushTables(Begin(db), changes, k, lastPulledAt, now, rejects).session, changes[k].Upserts();
    BeforeTable(db, changes, k, lastPulledAt, now, rejects);
    ParentsComeFirst(k);
    BeginHasNoCaches(db);
    NothingPushedYet(db, changes, lastPulledAt, now, rejects);
    OtherTablesKeep(Begin(db), changes, 0, k, lastPulledAt, now, rejects, key);
    StoredRecordIsReached(s, data, i, lastPulledAt, now,
                          Push(db, changes, lastPulledAt, now, rejects, false).1.rows, key);
    StoredRecordWasChecked(s, ORDER[k], data, i, lastPulledAt, now, key);
  }

  lemma StoredRecordIsReached(
    s: Session, data: seq<Datum>, i: nat, lastPulledAt: int, now: int, rows: map<Key, Row>, key: Key)
    requires CachesSound(s) && SameParents(s.db.rows, rows, key.table)
    requires !UpsertAll(s, key.table, data, lastPulledAt, now).Abort?
    requires i < |data| && Stored(rows, key, data[i])
    ensures UpsertAll(s, key.table, data[..i + 1], lastPulledAt, now).Go?
  {
    hide Upsert, CachesSound, Carries, IsSkipped, StopsWith, NewUsers;
    PrefixPasses(s, key.table, data, i, lastPulledAt, now);
    PrefixPasses(s, key.table, data, i + 1, lastPulledAt, now);
    assert data[..i + 1][..i] == data[..i];
    UpsertAllKeepsCaches(s, key.table, data[..i], lastPulledAt, now);
    var mid := UpsertAll(s, key.table, data[..i], lastPulledAt, now).session;
    SkippedAlike(mid.db.rows, rows, key.table, data[i]);
    UpsertMeans(mid, key.table, data[i], lastPulledAt, now, Ok);
  }

  // ---- closed references -----------------------------------------------------------------------

  /** Every foreign key of the table's rows points to a row or user that exists. */
  ghost predicate Closed(db: Db, table: Table) {
    forall key | key in db.rows && key.table == table :: RefsPresent(db, table, db.rows[key])
  }

  ghost predicate RefsClosed(db: Db) {
    forall table: Table :: Closed(db, table)
  }

  /** Growing keeps a table closed when its own rows are unchanged. */
  lemma ClosedGrows(a: Db, b: Db, table: Table, other: Table)
    requires Grows(a, b) && OnlyTable(a, b, table) && other != table && Closed(a, other)
    ensures Closed(b, other)
  {
    forall key | key in b.rows && key.table == other
      ensures RefsPresent(b, other, b.rows[key])
    {
      assert RefsPresent(a, other, a.rows[key]);
    }
  }

  lemma OverwriteKeepsRefs(db: Db, row: Row, table: Table, d: Datum, now: int)
    requires Guarded(table) && RefsPresent(db, table, row)
    requires d.parent.Ref? ==> Key(ParentTable(table), d.parent.id) in db.rows
    requires d.user.Ref? ==> d.user.id in db.users
    ensures RefsPresent(db, table, Overwrite(row, table, d, now))
  {
  }

  lemma RefsPresentGrows(a: Db, b: Db, table: Table, row: Row)
    requires Grows(a, b) && RefsPresent(a, table, row)
    ensures RefsPresent(b, table, row)
  {
  }

  /** In a guarded table one record keeps the references closed, without any help from the database. */
  lemma UpsertKeepsClosed(s: Session, table: Table, d: Datum, lastPulledAt: int, now: int)
    requires CachesSound(s) && Guarded(table) && Closed(s.db, table)
    ensures
      var r := Upsert(s, table, d, lastPulledAt, now);
      !r.Abort? ==> Closed(r.session.db, table)
  {
    GuardSound(s, table, d);
    UpsertKeepsCaches(s, table, d, lastPulledAt, now);
    var r, after := Upsert(s, table, d, lastPulledAt, now), Guard(s, table, d);
    if !r.Abort? {
      forall key | key in r.session.db.rows && key.table == table
        ensures RefsPresent(r.session.db, table, r.session.db.rows[key])
      {
        hide Guard, RefsPresent, CachesSound, OnlyTable;
        var old_ := if key in s.db.rows then s.db.rows[key] else Row(None, None, now, false, map[]);
        if key in s.db.rows {
          RefsPresentGrows(s.db, r.session.db, table, old_);
        } else {
          EmptyRowHasNoRefs(r.session.db, table, old_);
        }
        if r.Go? && key == Key(table, d.id.id) {
          assert r.session.db.rows[key] == Overwrite(old_, table, d, now);
          OverwriteKeepsRefs(r.session.db, old_, table, d, now);
        } else {
          assert r.session.db.rows[key] == old_;
        }
      }
    }
  }

  lemma EmptyRowHasNoRefs(db: Db, table: Table, row: Row)
    requires row.parent.None? && row.user.None?
    ensures RefsPresent(db, table, row)
  {
  }

  /** Both together, for any table. */
  lemma UpsertSound(s: Session, table: Table, d: Datum, lastPulledAt: int, now: int)
    requires CachesSound(s)
    ensures
      var r := Upsert(s, table, d, lastPulledAt, now);
      !r.Abort? ==>
        && CachesSound(r.session) && Grows(s.db, r.session.db) && OnlyTable(s.db, r.session.db, table)
        && (Guarded(table) && Closed(s.db, table) ==> Closed(r.session.db, table))
  {
    hide Upsert, CachesSound, Closed, OnlyTable, Grows;
    UpsertKeepsCaches(s, table, d, lastPulledAt, now);
    if Guarded(table) && Closed(s.db, table) {
      UpsertKeepsClosed(s, table, d, lastPulledAt, now);
    }
  }

  lemma {:induction false} UpsertAllSound(s: Session, table: Table, data: seq<Datum>, lastPulledAt: int, now: int)
    requires CachesSound(s)
    ensures
      var r := UpsertAll(s, table, data, lastPulledAt, now);
      !r.Abort? ==>
        && CachesSound(r.session) && Grows(s.db, r.session.db) && OnlyTable(s.db, r.session.db, table)
        && (Guarded(table) && Closed(s.db, table) ==> Closed(r.session.db, table))
  {
    if data != [] {
      UpsertAllSound(s, table, data[..|data| - 1], lastPulledAt, now);
      var r := UpsertAll(s, table, data[..|data| - 1], lastPulledAt, now);
      if !r.Abort? {
        UpsertSound(r.session, table, data[|data| - 1], lastPulledAt, now);
      }
    }
  }

  lemma SoftDeleteAllSound(s: Session, table: Table, ids: seq<Field>, now: int)
    requires CachesSound(s)
    ensures
      var t := SoftDeleteAll(s, table, ids, now);
      && CachesSound(t) && t.db.users == s.db.users && t.db.rows.Keys == s.db.rows.Keys
      && OnlyTable(s.db, t.db, table)
      && (Closed(s.db, table) ==> Closed(t.db, table))
  {
    hide SoftDeleteAll;
    var t := SoftDeleteAll(s, table, ids, now);
    DeletionsChangeRows(s, table, ids, now);
    forall key: Key
      ensures key in t.db.rows <==> key in s.db.rows
      ensures key in s.db.rows ==>
                t.db.rows[key] == if key.table == table && Ref(key.id) in ids
                                  then s.db.rows[key].(deleted := true, updatedAt := now) else s.db.rows[key]
    {
      DeletionsMark(s, table, ids, now, key);
    }
    if Closed(s.db, table) {
      forall key | key in t.db.rows && key.table == table ensures RefsPresent(t.db, table, t.db.rows[key]) {
        assert RefsPresent(s.db, table, s.db.rows[key]);
      }
    }
  }

  /**
   The guards do the database's work: in a table with guards the flush finds every foreign key
   present, whatever the client sent.
   */
  lemma GuardedFlushFindsRefs(s: Session, table: Table, c: TableChanges, lastPulledAt: int, now: int)
    requires CachesSound(s) && Guarded(table) && Closed(s.db, table)
    ensures
      var r := UpsertAll(s, table, c.Upserts(), lastPulledAt, now);
      !r.Abort? ==> Closed(SoftDeleteAll(r.session, table, c.Deletions(), now).db, table)
  {
    UpsertAllSound(s, table, c.Upserts(), lastPulledAt, now);
    var r := UpsertAll(s, table, c.Upserts(), lastPulledAt, now);
    if !r.Abort? {
      SoftDeleteAllSound(r.session, table, c.Deletions(), now);
    }
  }

  lemma PushTableSound(s: Session, table: Table, c: TableChanges, lastPulledAt: int, now: int, rejected: bool)
    requires CachesSound(s) && RefsClosed(s.db)
    ensures
      var r := PushTable(s, table, c, lastPulledAt, now, rejected);
      !r.Abort? ==> CachesSound(r.session) && RefsClosed(r.session.db)
  {
    var data := c.Upserts();
    UpsertAllSound(s, table, data, lastPulledAt, now);
    var r := UpsertAll(s, table, data, lastPulledAt, now);
    if !r.Abort? {
      SoftDeleteAllSound(r.session, table, c.Deletions(), now);
      var t := SoftDeleteAll(r.session, table, c.Deletions(), now);
      if Accepts(t.db, table) {
        assert Closed(t.db, table);
        forall other: Table | other != table
          ensures Closed(t.db, other)
        {
          ClosedGrows(s.db, t.db, table, other);
        }
      }
    }
  }

  lemma {:induction false} PushTablesSound(
    s: Session, changes: Changes, n: nat, lastPulledAt: int, now: int, rejects: set<Table>)
    requires n <= 6 && CachesSound(s) && RefsClosed(s.db)
    ensures
      var r := PushTables(s, changes, n, lastPulledAt, now, rejects);
      !r.Abort? ==> CachesSound(r.session) && RefsClosed(r.session.db)
  {
    if n > 0 {
      PushTablesSound(s, changes, n - 1, lastPulledAt, now, rejects);
      var r := PushTables(s, changes, n - 1, lastPulledAt, now, rejects);
      if !r.Abort? {
        PushTableSound(r.session, ORDER[n - 1], changes[n - 1], lastPulledAt, now, ORDER[n - 1] in rejects);
      }
    }
  }

  /** Reference closure is an invariant of the database under pushes of any content. */
  lemma PushKeepsReferences(
    db: Db, changes: Changes, lastPulledAt: int, now: int, rejects: set<Table>, commitFails: bool)
    requires RefsClosed(db)
    ensures RefsClosed(Push(db, changes, lastPulledAt, now, rejects, commitFails).1)
  {
    PushTablesSound(Begin(db), changes, 6, lastPulledAt, now, rejects);
  }

  // ---- required columns --------------------------------------------------------------------------

  /** A participant names its user, and a receipt its message and its user. */
  ghost predicate NamesWhatItMust(key: Key, row: Row) {
    match key.table
    case Participants => row.user.Some?
    case Receipts => row.parent.Some? && row.user.Some?
    case _ => true
  }

  /** What a row refers to exists. */
  ghost predicate RefersToExisting(db: Db, key: Key, row: Row) {
    && (row.user.Some? ==> row.user.value in db.users)
    && (row.parent.Some? ==>
          match key.table
          case CallParticipants => Key(Calls, row.parent.value) in db.rows
          case Receipts => Key(Messages, row.parent.value) in db.rows
          case _ => Key(Conversations, row.parent.value) in db.rows)
  }

  /** The database takes a flush exactly when every row of the table is whole. */
  lemma AcceptsIff(db: Db, table: Table)
    ensures Accepts(db, table) <==>
            forall key | key in db.rows && key.table == table ::
              NamesWhatItMust(key, db.rows[key]) && RefersToExisting(db, key, db.rows[key])
  {
    forall key | key in db.rows && key.table == table
      ensures RefsPresent(db, table, db.rows[key]) <==> RefersToExisting(db, key, db.rows[key])
      ensures RequiredPresent(table, db.rows[key]) <==> NamesWhatItMust(key, db.rows[key])
    {
    }
  }

  ghost predicate NothingMissing(db: Db) {
    forall key | key in db.rows :: NamesWhatItMust(key, db.rows[key])
  }

  lemma PushTableKeepsRequired(s: Session, table: Table, c: TableChanges, lastPulledAt: int, now: int, rejected: bool)
    requires CachesSound(s) && NothingMissing(s.db)
    ensures
      var r := PushTable(s, table, c, lastPulledAt, now, rejected);
      !r.Abort? ==> CachesSound(r.session) && NothingMissing(r.session.db)
  {
    hide UpsertAll, SoftDeleteAll, Accepts, CachesSound, NamesWhatItMust;
    UpsertAllKeepsCaches(s, table, c.Upserts(), lastPulledAt, now);
    var r := UpsertAll(s, table, c.Upserts(), lastPulledAt, now);
    if !r.Abort? {
      var t := SoftDeleteAll(r.session, table, c.Deletions(), now);
      DeletionsKeepCaches(r.session, table, c.Deletions(), now);
      AcceptsIff(t.db, table);
    }
  }

  lemma {:induction false} PushTablesKeepRequired(
    s: Session, changes: Changes, n: nat, lastPulledAt: int, now: int, rejects: set<Table>)
    requires n <= 6 && CachesSound(s) && NothingMissing(s.db)
    ensures
      var r := PushTables(s, changes, n, lastPulledAt, now, rejects);
      !r.Abort? ==> CachesSound(r.session) && NothingMissing(r.session.db)
  {
    hide PushTable, CachesSound, NothingMissing;
    if n > 0 {
      PushTablesKeepRequired(s, changes, n - 1, lastPulledAt, now, rejects);
      var r := PushTables(s, changes, n - 1, lastPulledAt, now, rejects);
      if !r.Abort? {
        PushTableKeepsRequired(r.session, ORDER[n - 1], changes[n - 1], lastPulledAt, now, ORDER[n - 1] in rejects);
      }
    }
  }

  /** No push, whatever it sends, leaves a participant without user or a receipt without user or message. */
  lemma PushKeepsRequired(
    db: Db, changes: Changes, lastPulledAt: int, now: int, rejects: set<Table>, commitFails: bool)
    requires NothingMissing(db)
    ensures NothingMissing(Push(db, changes, lastPulledAt, now, rejects, commitFails).1)
  {
    hide PushTables, NothingMissing;
    BeginHasNoCaches(db);
    PushTablesKeepRequired(Begin(db), changes, 6, lastPulledAt, now, rejects);
  }
}
