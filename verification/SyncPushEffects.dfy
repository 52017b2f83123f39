/** What a committed push has stored, row by row, and which users it has brought in. */
module SyncPushEffects {
  import opened Prelude
  import opened SyncPush
  import opened SyncPushGuards
  import opened SyncPushAnswers

  // ---- one table -------------------------------------------------------------------------------

  /** Both know the same parents for the records of a table. */
  ghost predicate SameParents(a: map<Key, Row>, b: map<Key, Row>, table: Table) {
    forall key: Key | Guarded(table) && key.table == ParentTable(table) :: key in a <==> key in b
  }

  lemma SkippedAlike(a: map<Key, Row>, b: map<Key, Row>, table: Table, d: Datum)
    requires SameParents(a, b, table)
    ensures IsSkipped(a, table, d) <==> IsSkipped(b, table, d)
  {
  }

  lemma StillSameParents(a: Db, b: Db, rows: map<Key, Row>, table: Table)
    requires SameParents(a.rows, rows, table) && OnlyTable(a, b, table)
    ensures SameParents(b.rows, rows, table)
  {
  }

  /** Record `d` is stored in the row of `key`, given the parents in `rows`. */
  predicate Stored(rows: map<Key, Row>, key: Key, d: Datum) {
    d.id == Ref(key.id) && !IsSkipped(rows, key.table, d)
  }

  /** The stored records of `data`, one after the other, lead the row of `key` from `was` to `after`. */
  ghost predicate Leads(
    rows: map<Key, Row>, key: Key, was: Option<Row>, data: seq<Datum>, now: int, after: Option<Row>)
  {
    if data == [] then after == was
    else
      var before, d := data[..|data| - 1], data[|data| - 1];
      exists mid: Option<Row> :: Leads(rows, key, was, before, now, mid) && LeadsBy(rows, key, mid, d, now, after)
  }

  ghost predicate LeadsBy(rows: map<Key, Row>, key: Key, was: Option<Row>, d: Datum, now: int, after: Option<Row>) {
    if Stored(rows, key, d) then after.Some? && Carries(after.value, was, key.table, d, now) else after == was
  }

  lemma {:induction false} LoopLeads(
    s: Session, data: seq<Datum>, lastPulledAt: int, now: int, rows: map<Key, Row>, key: Key)
    requires CachesSound(s) && SameParents(s.db.rows, rows, key.table)
    requires !UpsertAll(s, key.table, data, lastPulledAt, now).Abort?
    ensures
      var after := UpsertAll(s, key.table, data, lastPulledAt, now).session.db.rows;
      Leads(rows, key, Found(s.db.rows, key), data, now, Found(after, key))
  {
    hide Upsert, Carries, IsSkipped, NewUsers, StopsWith, CachesSound;
    if data != [] {
      var before, d := data[..|data| - 1], data[|data| - 1];
      LoopLeads(s, before, lastPulledAt, now, rows, key);
      UpsertAllKeepsCaches(s, key.table, before, lastPulledAt, now);
      var mid := UpsertAll(s, key.table, before, lastPulledAt, now).session;
      UpsertMeans(mid, key.table, d, lastPulledAt, now, Ok);
      SkippedAlike(mid.db.rows, rows, key.table, d);
      var after := UpsertAll(s, key.table, data, lastPulledAt, now).session.db.rows;
      assert LeadsBy(rows, key, Found(mid.db.rows, key), d, now, Found(after, key));
    }
  }

  lemma NoRecordsLeadNowhere(rows: map<Key, Row>, key: Key, was: Option<Row>, now: int)
    ensures Leads(rows, key, was, [], now, was)
  {
  }

  /** Records that are not stored in a row leave it alone. */
  lemma {:induction false} UnstoredLeaveRow(
    rows: map<Key, Row>, key: Key, was: Option<Row>, data: seq<Datum>, now: int, after: Option<Row>)
    requires Leads(rows, key, was, data, now, after)
    requires forall d | d in data :: !Stored(rows, key, d)
    ensures after == was
  {
    hide Stored, Carries;
    if data != [] {
      var mid :| Leads(rows, key, was, data[..|data| - 1], now, mid)
                 && LeadsBy(rows, key, mid, data[|data| - 1], now, after);
      UnstoredLeaveRow(rows, key, was, data[..|data| - 1], now, mid);
    }
  }

  /** The last record stored in a row is the one it carries, on top of what the earlier ones left. */
  lemma {:induction false} LastRecordWins(
    rows: map<Key, Row>, key: Key, was: Option<Row>, data: seq<Datum>, now: int, after: Option<Row>, i: nat)
    returns (mid: Option<Row>)
    requires Leads(rows, key, was, data, now, after)
    requires i < |data| && Stored(rows, key, data[i])
    requires forall j :: i < j < |data| ==> !Stored(rows, key, data[j])
    ensures Leads(rows, key, was, data[..i], now, mid)
    ensures after.Some? && Carries(after.value, mid, key.table, data[i], now)
  {
    hide Stored, Carries;
    var n := |data| - 1;
    mid :| Leads(rows, key, was, data[..n], now, mid) && LeadsBy(rows, key, mid, data[n], now, after);
    if i < n {
      assert data[..n][..i] == data[..i];
      mid := LastRecordWins(rows, key, was, data[..n], now, mid, i);
    }
  }

  /** Record `d` names `user` as someone who has to exist. */
  predicate Brings(rows: map<Key, Row>, table: Table, d: Datum, user: Id) {
    table != Conversations && d.user == Ref(user) && (table == Receipts || !IsSkipped(rows, table, d))
  }

  /** The users known after a step are those known before and those the step brought; the new ones are guests. */
  ghost predicate Admits(a: Db, b: Db, user: Id, brought: bool) {
    && (user in b.users <==> user in a.users || brought)
    && (user in b.guests <==> user in a.guests || (brought && user !in a.users))
  }

  lemma {:induction false} LoopUsers(
    s: Session, table: Table, data: seq<Datum>, lastPulledAt: int, now: int, rows: map<Key, Row>, user: Id)
    requires CachesSound(s) && SameParents(s.db.rows, rows, table)
    requires !UpsertAll(s, table, data, lastPulledAt, now).Abort?
    ensures Admits(s.db, UpsertAll(s, table, data, lastPulledAt, now).session.db, user,
                   exists d :: d in data && Brings(rows, table, d, user))
  {
    hide Upsert, Carries, IsSkipped, StopsWith, CachesSound, SameParents;
    if data != [] {
      var before, d := data[..|data| - 1], data[|data| - 1];
      assert data == before + [d];
      LoopUsers(s, table, before, lastPulledAt, now, rows, user);
      UpsertAllKeepsCaches(s, table, before, lastPulledAt, now);
      var mid := UpsertAll(s, table, before, lastPulledAt, now).session;
      StillSameParents(s.db, mid.db, rows, table);
      UpsertMeans(mid, table, d, lastPulledAt, now, Ok);
      SkippedAlike(mid.db.rows, rows, table, d);
      assert (exists e :: e in data && Brings(rows, table, e, user))
             <==> (exists e :: e in before && Brings(rows, table, e, user)) || Brings(rows, table, d, user);
    }
  }

  // ---- the whole push --------------------------------------------------------------------------

  /** When a push visits a table. */
  function Turn(table: Table): (n: nat)
    ensures n < 6 && ORDER[n] == table
  {
    match table
    case Conversations => 0
    case Messages => 1
    case Participants => 2
    case Calls => 3
    case CallParticipants => 4
    case Receipts => 5
  }

  lemma ParentsComeFirst(n: nat)
    requires n < 6
    ensures Turn(ORDER[n]) == n
    ensures Guarded(ORDER[n]) ==> Turn(ParentTable(ORDER[n])) < n
  {
  }

  lemma TableKeepsRow(
    s: Session, table: Table, c: TableChanges, lastPulledAt: int, now: int, rejected: bool, key: Key)
    requires CachesSound(s) && key.table != table
    ensures
      var r := PushTable(s, table, c, lastPulledAt, now, rejected);
      !r.Abort? ==> SameRow(s.db, r.session.db, key)
  {
    hide UpsertAll, SoftDeleteAll, Accepts, CachesSound;
    UpsertAllKeepsCaches(s, table, c.Upserts(), lastPulledAt, now);
    var r := UpsertAll(s, table, c.Upserts(), lastPulledAt, now);
    if !r.Abort? {
      DeletionsMark(r.session, table, c.Deletions(), now, key);
    }
  }

  /** Tables other than its own leave a row as it is. */
  lemma {:induction false} OtherTablesKeep(
    s: Session, changes: Changes, k: nat, n: nat, lastPulledAt: int, now: int, rejects: set<Table>, key: Key)
    requires CachesSound(s) && k <= n <= 6 && !(k <= Turn(key.table) < n)
    requires !PushTables(s, changes, n, lastPulledAt, now, rejects).Abort?
    ensures !PushTables(s, changes, k, lastPulledAt, now, rejects).Abort?
    ensures SameRow(PushTables(s, changes, k, lastPulledAt, now, rejects).session.db,
                    PushTables(s, changes, n, lastPulledAt, now, rejects).session.db, key)
  {
    hide PushTable, CachesSound, Turn;
    if k < n {
      OtherTablesKeep(s, changes, k, n - 1, lastPulledAt, now, rejects, key);
      PushTablesKeepCaches(s, changes, n - 1, lastPulledAt, now, rejects);
      ParentsComeFirst(n - 1);
      TableKeepsRow(PushTables(s, changes, n - 1, lastPulledAt, now, rejects).session,
                    ORDER[n - 1], changes[n - 1], lastPulledAt, now, ORDER[n - 1] in rejects, key);
    }
  }

  /** Before table `k` its own rows are those of the start, and its parents already those of the end. */
  lemma BeforeTable(db: Db, changes: Changes, k: nat, lastPulledAt: int, now: int, rejects: set<Table>)
    requires Push(db, changes, lastPulledAt, now, rejects, false).0 == Ok && k < 6
    ensures
      var r := PushTables(Begin(db), changes, k, lastPulledAt, now, rejects);
      && !r.Abort? && CachesSound(r.session)
      && SameParents(r.session.db.rows, Push(db, changes, lastPulledAt, now, rejects, false).1.rows, ORDER[k])
  {
    hide CachesSound, PushTables, Turn;
    TableOfPush(db, changes, k, lastPulledAt, now, rejects);
    BeginHasNoCaches(db);
    PushTablesKeepCaches(Begin(db), changes, k, lastPulledAt, now, rejects);
    ParentsComeFirst(k);
    forall key: Key | Guarded(ORDER[k]) && key.table == ParentTable(ORDER[k])
      ensures key in PushTables(Begin(db), changes, k, lastPulledAt, now, rejects).session.db.rows
              <==> key in Push(db, changes, lastPulledAt, now, rejects, false).1.rows
    {
      OtherTablesKeep(Begin(db), changes, k, 6, lastPulledAt, now, rejects, key);
    }
  }

  lemma NothingPushedYet(db: Db, changes: Changes, lastPulledAt: int, now: int, rejects: set<Table>)
    ensures PushTables(Begin(db), changes, 0, lastPulledAt, now, rejects) == Go(Begin(db))
  {
  }

  /** The row after a table's deletions. */
  function Marked(row: Option<Row>, listed: bool, now: int): Option<Row> {
    if row.Some? && listed then Some(row.value.(deleted := true, updatedAt := now)) else row
  }

  /**
   The exact effect of a committed push on one row: the records of its id that are not skipped are laid
   over it in their order, skipped when the push ends without their parent, and a listed row is marked.
   */
  lemma RowAfterPush(
    db: Db, changes: Changes, lastPulledAt: int, now: int, rejects: set<Table>, k: nat, key: Key)
    returns (mid: Option<Row>)
    requires Push(db, changes, lastPulledAt, now, rejects, false).0 == Ok
    requires k < 6 && key.table == ORDER[k]
    ensures
      var after := Push(db, changes, lastPulledAt, now, rejects, false).1.rows;
      && Leads(after, key, Found(db.rows, key), changes[k].Upserts(), now, mid)
      && Found(after, key) == Marked(mid, Ref(key.id) in changes[k].Deletions(), now)
  {
    hide UpsertAll, SoftDeleteAll, Accepts, CachesSound, Leads, PushTables, Turn;
    var after := Push(db, changes, lastPulledAt, now, rejects, false).1.rows;
    BeforeTable(db, changes, k, lastPulledAt, now, rejects);
    TableOfPush(db, changes, k, lastPulledAt, now, rejects);
    var s, c := PushTables(Begin(db), changes, k, lastPulledAt, now, rejects).session, changes[k];
    BeginHasNoCaches(db);
    NothingPushedYet(db, changes, lastPulledAt, now, rejects);
    ParentsComeFirst(k);
    OtherTablesKeep(Begin(db), changes, 0, k, lastPulledAt, now, rejects, key);
    OtherTablesKeep(Begin(db), changes, k + 1, 6, lastPulledAt, now, rejects, key);
    if c.Absent? {
      mid := Found(db.rows, key);
      NoRecordsLeadNowhere(after, key, mid, now);
    } else {
      LoopLeads(s, c.Upserts(), lastPulledAt, now, after, key);
      var u := UpsertAll(s, ORDER[k], c.Upserts(), lastPulledAt, now).session;
      mid := Found(u.db.rows, key);
      DeletionsMark(u, ORDER[k], c.Deletions(), now, key);
    }
  }

  /**
   A push that commits has stored, for every record whose parent it knows and that no later such record
   of the same id replaces, what the record says, and what it leaves out as it was; an id that is also
   listed for deletion ends deleted.
   */
  lemma PushStoresWhatItAccepts(
    db: Db, changes: Changes, lastPulledAt: int, now: int, rejects: set<Table>, k: nat, i: nat, key: Key)
    requires Push(db, changes, lastPulledAt, now, rejects, false).0 == Ok
    requires k < 6 && key.table == ORDER[k] && i < |changes[k].Upserts()|
    requires
      var after, data := Push(db, changes, lastPulledAt, now, rejects, false).1.rows, changes[k].Upserts();
      Stored(after, key, data[i]) && forall j :: i < j < |data| ==> !Stored(after, key, data[j])
    ensures
      var after, data := Push(db, changes, lastPulledAt, now, rejects, false).1.rows, changes[k].Upserts();
      && key in after
      && if data[i].id in changes[k].Deletions() then after[key].deleted && after[key].updatedAt == now
         else && (exists was :: Carries(after[key], was, key.table, data[i], now))
              && ((forall j :: 0 <= j < i ==> !Stored(after, key, data[j])) ==>
                    Carries(after[key], Found(db.rows, key), key.table, data[i], now))
  {
    hide Push, Carries, Leads, IsSkipped;
    var after, data := Push(db, changes, lastPulledAt, now, rejects, false).1.rows, changes[k].Upserts();
    var end := RowAfterPush(db, changes, lastPulledAt, now, rejects, k, key);
    var mid := LastRecordWins(after, key, Found(db.rows, key), data, now, end, i);
    if forall j :: 0 <= j < i ==> !Stored(after, key, data[j]) {
      UnstoredLeaveRow(after, key, Found(db.rows, key), data[..i], now, mid);
    }
  }

  /** A row all of whose records are skipped is as before, or only marked. */
  lemma SkippedRecordsStoreNothing(
    db: Db, changes: Changes, lastPulledAt: int, now: int, rejects: set<Table>, k: nat, key: Key)
    requires Push(db, changes, lastPulledAt, now, rejects, false).0 == Ok
    requires k < 6 && key.table == ORDER[k]
    requires forall d | d in changes[k].Upserts() ::
               !Stored(Push(db, changes, lastPulledAt, now, rejects, false).1.rows, key, d)
    ensures Found(Push(db, changes, lastPulledAt, now, rejects, false).1.rows, key)
            == Marked(Found(db.rows, key), Ref(key.id) in changes[k].Deletions(), now)
  {
    hide Push, Stored, Leads;
    var after := Push(db, changes, lastPulledAt, now, rejects, false).1.rows;
    var end := RowAfterPush(db, changes, lastPulledAt, now, rejects, k, key);
    UnstoredLeaveRow(after, key, Found(db.rows, key), changes[k].Upserts(), now, end);
  }

  // ---- users -----------------------------------------------------------------------------------

  /** Some record of the first `n` tables brings the user in. */
  ghost predicate BroughtIn(rows: map<Key, Row>, changes: Changes, n: nat, user: Id)
    requires n <= 6
  {
    exists k, d :: 0 <= k < n && d in changes[k].Upserts() && Brings(rows, ORDER[k], d, user)
  }

  lemma BroughtInByNext(rows: map<Key, Row>, changes: Changes, k: nat, user: Id)
    requires k < 6
    ensures BroughtIn(rows, changes, k + 1, user)
            <==> BroughtIn(rows, changes, k, user)
                 || exists d :: d in changes[k].Upserts() && Brings(rows, ORDER[k], d, user)
    ensures !BroughtIn(rows, changes, 0, user)
  {
  }

  lemma {:induction false} TablesAdmit(
    db: Db, changes: Changes, n: nat, lastPulledAt: int, now: int, rejects: set<Table>, user: Id)
    requires Push(db, changes, lastPulledAt, now, rejects, false).0 == Ok && n <= 6
    ensures !PushTables(Begin(db), changes, n, lastPulledAt, now, rejects).Abort?
    ensures Admits(db, PushTables(Begin(db), changes, n, lastPulledAt, now, rejects).session.db, user,
                   BroughtIn(Push(db, changes, lastPulledAt, now, rejects, false).1.rows, changes, n, user))
  {
    hide UpsertAll, SoftDeleteAll, CachesSound, Brings, BroughtIn, Push, PushTables, SameParents;
    var rows := Push(db, changes, lastPulledAt, now, rejects, false).1.rows;
    if n == 0 {
      BroughtInByNext(rows, changes, n, user);
      NothingPushedYet(db, changes, lastPulledAt, now, rejects);
    } else {
      var k, c := n - 1, changes[n - 1];
      TablesAdmit(db, changes, k, lastPulledAt, now, rejects, user);
      BeforeTable(db, changes, k, lastPulledAt, now, rejects);
      TableOfPush(db, changes, k, lastPulledAt, now, rejects);
      var s := PushTables(Begin(db), changes, k, lastPulledAt, now, rejects).session;
      if c.TableChanges? {
        LoopUsers(s, ORDER[k], c.Upserts(), lastPulledAt, now, rows, user);
        DeletionsChangeRows(UpsertAll(s, ORDER[k], c.Upserts(), lastPulledAt, now).session,
                            ORDER[k], c.Deletions(), now);
      }
      BroughtInByNext(rows, changes, k, user);
    }
  }

  /**
   The users after a committed push are those before and those some record brings in, guests exactly if
   nobody knew them; a record skipped for its parent brings in nobody unless it is a receipt.
   */
  lemma UsersAfterPush(
    db: Db, changes: Changes, lastPulledAt: int, now: int, rejects: set<Table>, user: Id)
    requires Push(db, changes, lastPulledAt, now, rejects, false).0 == Ok
    ensures
      var after := Push(db, changes, lastPulledAt, now, rejects, false).1;
      Admits(db, after, user, BroughtIn(after.rows, changes, 6, user))
  {
    hide PushTables, BroughtIn;
    TablesAdmit(db, changes, 6, lastPulledAt, now, rejects, user);
  }
}
