/** What one record of a push does, said in terms of rows and users alone: the caches never show. */
module SyncPushGuards {
  import opened Prelude
  import opened SyncPush

  ghost predicate SameRow(a: Db, b: Db, key: Key) {
    (key in b.rows <==> key in a.rows) && (key in a.rows ==> b.rows[key] == a.rows[key])
  }

  lemma GuardKeepsRows(s: Session, table: Table, d: Datum)
    ensures !Guard(s, table, d).Abort? ==>
              && Guard(s, table, d).session.db.rows == s.db.rows
              && s.db.users <= Guard(s, table, d).session.db.users
  {
  }

  /** An id in a cache is a row, or user, of the transaction. */
  ghost predicate CachesSound(s: Session) {
    && (forall id | id in s.conversations :: Key(Conversations, id) in s.db.rows)
    && (forall id | id in s.calls :: Key(Calls, id) in s.db.rows)
    && (forall id | id in s.messages :: Key(Messages, id) in s.db.rows)
    && s.users <= s.db.users
    && s.missing <= s.db.users
  }

  ghost predicate Grows(a: Db, b: Db) {
    && a.users <= b.users
    && a.rows.Keys <= b.rows.Keys
  }

  /** The rows of other tables stay as they are. */
  ghost predicate OnlyTable(a: Db, b: Db, table: Table) {
    forall key: Key | key.table != table ::
      (key in b.rows <==> key in a.rows) && (key in a.rows ==> b.rows[key] == a.rows[key])
  }

  lemma EnsureParentSound(s: Session, table: Table, parent: Field)
    requires CachesSound(s)
    ensures
      var (after, found) := EnsureParent(s, table, parent);
      && CachesSound(after) && after.db == s.db
      && (found && parent.Ref? ==> Key(ParentTable(table), parent.id) in s.db.rows)
  {
  }

  lemma EnsureUserSound(s: Session, user: Field)
    requires CachesSound(s)
    ensures
      var r := EnsureUser(s, user);
      !r.Abort? ==>
        && CachesSound(r.session) && r.session.db.rows == s.db.rows && s.db.users <= r.session.db.users
        && (user.Ref? ==> user.id in r.session.db.users)
  {
  }

  /** A guard that lets a record through has its parent and its user present. */
  lemma GuardSound(s: Session, table: Table, d: Datum)
    requires CachesSound(s)
    ensures
      var r := Guard(s, table, d);
      !r.Abort? ==>
        && CachesSound(r.session) && r.session.db.rows == s.db.rows && s.db.users <= r.session.db.users
        && (r.Go? && Guarded(table) ==>
              && (d.parent.Ref? ==> Key(ParentTable(table), d.parent.id) in s.db.rows)
              && (d.user.Ref? ==> d.user.id in r.session.db.users))
        && (r.Go? && table.Receipts? ==> d.parent.Ref?)
  {
    if Guarded(table) {
      if table.Receipts? {
        EnsureUserSound(s, d.user);
        var r := EnsureUser(s, d.user);
        if !r.Abort? {
          EnsureParentSound(r.session, table, d.parent);
        }
      } else {
        EnsureParentSound(s, table, d.parent);
        EnsureUserSound(EnsureParent(s, table, d.parent).0, d.user);
      }
    } else if !table.Conversations? {
      EnsureUserSound(s, d.user);
    }
  }

  lemma UpsertKeepsCaches(s: Session, table: Table, d: Datum, lastPulledAt: int, now: int)
    requires CachesSound(s)
    ensures
      var r := Upsert(s, table, d, lastPulledAt, now);
      !r.Abort? ==> CachesSound(r.session) && Grows(s.db, r.session.db) && OnlyTable(s.db, r.session.db, table)
  {
    GuardSound(s, table, d);
    hide Guard, Overwrite, Castable;
  }

  // ---- the guards ------------------------------------------------------------------------------

  /** The record's parent exists, or it may do without one. */
  predicate HasParent(rows: map<Key, Row>, table: Table, parent: Field) {
    match parent
    case Ref(id) =>
      (match table
       case CallParticipants => Key(Calls, id) in rows
       case Receipts => Key(Messages, id) in rows
       case _ => Key(Conversations, id) in rows)
    case Malformed => false
    case _ => table != Receipts
  }

  /**
   A record is passed over exactly in these cases: a call without its conversation, a participant
   without its call, and a receipt without its message, unless the receipt's user is malformed.
   */
  predicate IsSkipped(rows: map<Key, Row>, table: Table, d: Datum) {
    && table in {Calls, CallParticipants, Receipts}
    && !HasParent(rows, table, d.parent)
    && !(table == Receipts && d.user == Malformed)
  }

  /** The users a record brings in: whoever it names and nobody knows, even if a receipt is then passed over. */
  function NewUsers(db: Db, table: Table, d: Datum): set<Id> {
    if table != Conversations && d.user.Ref? && d.user.id !in db.users
       && (table == Receipts || !IsSkipped(db.rows, table, d))
    then {d.user.id} else {}
  }

  lemma EnsureParentMeans(s: Session, table: Table, parent: Field)
    requires CachesSound(s) && Guarded(table)
    ensures EnsureParent(s, table, parent).0.db == s.db
    ensures EnsureParent(s, table, parent).1 <==> HasParent(s.db.rows, table, parent)
  {
  }

  lemma EnsureUserMeans(s: Session, user: Field)
    requires CachesSound(s)
    ensures EnsureUser(s, user).Abort? <==> user == Malformed
    ensures EnsureUser(s, user).Abort? ==> EnsureUser(s, user).status == InternalError
    ensures !EnsureUser(s, user).Abort? ==>
              && EnsureUser(s, user).Go?
              && var guests := if user.Ref? && user.id !in s.db.users then {user.id} else {};
                 EnsureUser(s, user).session.db
                 == s.db.(users := s.db.users + guests, guests := s.db.guests + guests)
  {
    if user.Ref? && user.id in s.db.users {
      assert s.db.users + {} == s.db.users && s.db.guests + {} == s.db.guests;
    }
  }

  /** The guard of a record, by its three answers. */
  lemma GuardMeans(s: Session, table: Table, d: Datum)
    requires CachesSound(s)
    ensures Guard(s, table, d).Skip? <==> IsSkipped(s.db.rows, table, d)
    ensures Guard(s, table, d).Abort? <==>
            d.user == Malformed && table != Conversations && !IsSkipped(s.db.rows, table, d)
    ensures Guard(s, table, d).Abort? ==> Guard(s, table, d).status == InternalError
    ensures !Guard(s, table, d).Abort? ==>
              Guard(s, table, d).session.db
              == s.db.(users := s.db.users + NewUsers(s.db, table, d), guests := s.db.guests + NewUsers(s.db, table, d))
  {
    hide EnsureUser, EnsureParent;
    EnsureUserMeans(s, d.user);
    assert s.db.users + {} == s.db.users && s.db.guests + {} == s.db.guests;
    if table == Receipts {
      EnsureUserSound(s, d.user);
      if d.user != Malformed {
        EnsureParentMeans(EnsureUser(s, d.user).session, table, d.parent);
      }
    } else if Guarded(table) {
      EnsureParentMeans(s, table, d.parent);
      EnsureParentSound(s, table, d.parent);
      EnsureUserMeans(EnsureParent(s, table, d.parent).0, d.user);
    }
  }

  // ---- one record ------------------------------------------------------------------------------

  /** A record without an id, or with a null or malformed reference, cannot be read. */
  predicate IsUnreadable(table: Table, d: Datum) {
    || !d.id.Ref?
    || (table != Conversations && (d.parent in {Null, Malformed} || d.user in {Null, Malformed}))
  }

  /** Why a record stops a push. */
  predicate StopsWith(rows: map<Key, Row>, table: Table, d: Datum, lastPulledAt: int, status: Status) {
    && !IsSkipped(rows, table, d)
    && match status
       case Ok => false
       case InternalError => IsUnreadable(table, d)
       case Conflict =>
         && !IsUnreadable(table, d) && Key(table, d.id.id) in rows
         && rows[Key(table, d.id.id)].updatedAt > lastPulledAt
       case Gone =>
         && !IsUnreadable(table, d) && Key(table, d.id.id) in rows
         && rows[Key(table, d.id.id)].updatedAt <= lastPulledAt && rows[Key(table, d.id.id)].deleted
  }

  function Found(rows: map<Key, Row>, key: Key): Option<Row> {
    if key in rows then Some(rows[key]) else None
  }

  /**
   The row a record leaves, field by field: what it names is stored, what it leaves out stays as it
   was, and in a new row is absent; a row without a time of its own is stamped with the present.
   */
  ghost predicate Carries(row: Row, was: Option<Row>, table: Table, d: Datum, now: int) {
    && row.updatedAt == (if d.updatedAt.Some? then d.updatedAt.value else now)
    && row.deleted == (if d.deleted.Some? then d.deleted.value else was.Some? && was.value.deleted)
    && row.parent == (if table != Conversations && d.parent.Ref? then Some(d.parent.id)
                      else if was.Some? then was.value.parent else None)
    && row.user == (if table != Conversations && d.user.Ref? then Some(d.user.id)
                    else if was.Some? then was.value.user else None)
    && (forall k :: k in row.data <==> k in d.data || (was.Some? && k in was.value.data))
    && (forall k :: k in row.data ==>
          row.data[k] == if k in d.data then d.data[k] else if was.Some? then was.value.data[k] else "")
  }

  lemma OverwriteCarries(row: Row, table: Table, d: Datum, now: int)
    ensures Carries(Overwrite(row, table, d, now), Some(row), table, d, now)
    ensures Carries(Fresh(table, d, now), None, table, d, now)
  {
  }

  lemma ReadableIsCastable(table: Table, d: Datum)
    ensures Castable(table, d) <==> !IsUnreadable(table, d)
  {
  }

  /**
   One record, by its effect on rows and users: it stops the push exactly for a reason, is passed over
   exactly without its parent, and otherwise leaves its row as it says and no other row changed.
   */
  lemma UpsertMeans(s: Session, table: Table, d: Datum, lastPulledAt: int, now: int, status: Status)
    requires CachesSound(s)
    ensures
      var r := Upsert(s, table, d, lastPulledAt, now);
      && (r == Abort(status) <==> StopsWith(s.db.rows, table, d, lastPulledAt, status))
      && (r.Skip? <==> IsSkipped(s.db.rows, table, d))
      && (!r.Abort? ==> r.session.db.users == s.db.users + NewUsers(s.db, table, d)
                        && r.session.db.guests == s.db.guests + NewUsers(s.db, table, d))
      && (r.Skip? ==> r.session.db.rows == s.db.rows)
      && (r.Go? ==>
            && d.id.Ref?
            && var key := Key(table, d.id.id);
               && key in r.session.db.rows
               && r.session.db.rows == s.db.rows[key := r.session.db.rows[key]]
               && Carries(r.session.db.rows[key], Found(s.db.rows, key), table, d, now))
  {
    hide Guard, IsSkipped, NewUsers, Overwrite, Fresh, Carries, Castable, CachesSound;
    GuardMeans(s, table, d);
    ReadableIsCastable(table, d);
    hide IsUnreadable;
    if d.id.Ref? && Key(table, d.id.id) in s.db.rows {
      OverwriteCarries(s.db.rows[Key(table, d.id.id)], table, d, now);
    } else {
      OverwriteCarries(Row(None, None, now, false, map[]), table, d, now);
    }
  }

  // ---- caches over a whole push ----------------------------------------------------------------

  /** Deletions change nothing of a session but rows. */
  lemma {:induction false} DeletionsChangeRows(s: Session, table: Table, ids: seq<Field>, now: int)
    ensures
      var t := SoftDeleteAll(s, table, ids, now);
      t == s.(db := s.db.(rows := t.db.rows))
  {
    if ids != [] {
      DeletionsChangeRows(s, table, ids[..|ids| - 1], now);
    }
  }

  /** The deletions of a table mark every listed row that exists, and change no other. */
  lemma {:induction false} DeletionsMark(s: Session, table: Table, ids: seq<Field>, now: int, key: Key)
    ensures
      var after := SoftDeleteAll(s, table, ids, now).db;
      && (key in after.rows <==> key in s.db.rows)
      && (key in s.db.rows ==>
            after.rows[key] == if key.table == table && Ref(key.id) in ids
                               then s.db.rows[key].(deleted := true, updatedAt := now) else s.db.rows[key])
  {
    if ids != [] {
      DeletionsMark(s, table, ids[..|ids| - 1], now, key);
    }
  }

  lemma {:induction false} UpsertAllKeepsCaches(s: Session, table: Table, data: seq<Datum>, lastPulledAt: int, now: int)
    requires CachesSound(s)
    ensures
      var r := UpsertAll(s, table, data, lastPulledAt, now);
      !r.Abort? ==> CachesSound(r.session) && Grows(s.db, r.session.db) && OnlyTable(s.db, r.session.db, table)
  {
    hide Upsert;
    if data != [] {
      UpsertAllKeepsCaches(s, table, data[..|data| - 1], lastPulledAt, now);
      var r := UpsertAll(s, table, data[..|data| - 1], lastPulledAt, now);
      if !r.Abort? {
        UpsertKeepsCaches(r.session, table, data[|data| - 1], lastPulledAt, now);
      }
    }
  }

  lemma DeletionsKeepCaches(s: Session, table: Table, ids: seq<Field>, now: int)
    requires CachesSound(s)
    ensures
      var t := SoftDeleteAll(s, table, ids, now);
      && CachesSound(t) && t.db.users == s.db.users && t.db.guests == s.db.guests && t.db.rows.Keys == s.db.rows.Keys
      && OnlyTable(s.db, t.db, table)
  {
    hide SoftDeleteAll;
    DeletionsChangeRows(s, table, ids, now);
    var t := SoftDeleteAll(s, table, ids, now);
    forall key: Key
      ensures key in t.db.rows <==> key in s.db.rows
      ensures key in s.db.rows && key.table != table ==> t.db.rows[key] == s.db.rows[key]
    {
      DeletionsMark(s, table, ids, now, key);
    }
  }

  lemma {:induction false} PushTablesKeepCaches(
    s: Session, changes: Changes, n: nat, lastPulledAt: int, now: int, rejects: set<Table>)
    requires n <= 6 && CachesSound(s)
    ensures
      var r := PushTables(s, changes, n, lastPulledAt, now, rejects);
      !r.Abort? ==> CachesSound(r.session)
  {
    hide UpsertAll, SoftDeleteAll, Accepts, CachesSound;
    if n > 0 {
      PushTablesKeepCaches(s, changes, n - 1, lastPulledAt, now, rejects);
      var r, c := PushTables(s, changes, n - 1, lastPulledAt, now, rejects), changes[n - 1];
      if !r.Abort? {
        UpsertAllKeepsCaches(r.session, ORDER[n - 1], c.Upserts(), lastPulledAt, now);
        var u := UpsertAll(r.session, ORDER[n - 1], c.Upserts(), lastPulledAt, now);
        if !u.Abort? {
          DeletionsKeepCaches(u.session, ORDER[n - 1], c.Deletions(), now);
        }
      }
    }
  }

  lemma BeginHasNoCaches(db: Db)
    ensures CachesSound(Begin(db))
  {
  }
}
