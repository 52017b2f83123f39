/** What a push answers, and why: all or nothing, with the exact cause of every refusal. */
module SyncPushAnswers {
  import opened SyncPush
  import opened SyncPushGuards

  lemma {:induction false} AbortNeverOk(
    s: Session, changes: Changes, n: nat, lastPulledAt: int, now: int, rejects: set<Table>)
    requires n <= 6
    ensures
      var r := PushTables(s, changes, n, lastPulledAt, now, rejects);
      r.Abort? ==> r.status != Ok
  {
    if n > 0 {
      AbortNeverOk(s, changes, n - 1, lastPulledAt, now, rejects);
      var r := PushTables(s, changes, n - 1, lastPulledAt, now, rejects);
      if !r.Abort? {
        AbortIsAnError(r.session, ORDER[n - 1], changes[n - 1].Upserts(), lastPulledAt, now);
      }
    }
  }

  /** Where a push stands before record `i` of table `k`, if it gets there. */
  function SessionAt(db: Db, changes: Changes, k: nat, i: nat, lastPulledAt: int, now: int, rejects: set<Table>): Result
    requires k < 6 && i <= |changes[k].Upserts()|
  {
    var r := PushTables(Begin(db), changes, k, lastPulledAt, now, rejects);
    if r.Abort? then r else UpsertAll(r.session, ORDER[k], changes[k].Upserts()[..i], lastPulledAt, now)
  }

  /** Record `i` of table `k` is reached and stops the push. */
  predicate StoppedAt(
    db: Db, changes: Changes, k: nat, i: nat, lastPulledAt: int, now: int, rejects: set<Table>, status: Status)
  {
    && k < 6 && i < |changes[k].Upserts()|
    && !SessionAt(db, changes, k, i, lastPulledAt, now, rejects).Abort?
    && StopsWith(SessionAt(db, changes, k, i, lastPulledAt, now, rejects).session.db.rows, ORDER[k],
                 changes[k].Upserts()[i], lastPulledAt, status)
  }

  /** All records of table `k` are reached and pass, and the database refuses its flush. */
  predicate FlushRefused(db: Db, changes: Changes, k: nat, lastPulledAt: int, now: int, rejects: set<Table>) {
    && k < 6 && changes[k].TableChanges?
    && var r := SessionAt(db, changes, k, |changes[k].Upserts()|, lastPulledAt, now, rejects);
       && !r.Abort?
       && (ORDER[k] in rejects
           || !Accepts(SoftDeleteAll(r.session, ORDER[k], changes[k].Deletions(), now).db, ORDER[k]))
  }

  /** The loop over one table aborts exactly when some record it reaches stops it. */
  lemma {:induction false} LoopStopsIff(
    s: Session, table: Table, data: seq<Datum>, lastPulledAt: int, now: int, status: Status)
    requires CachesSound(s)
    ensures UpsertAll(s, table, data, lastPulledAt, now) == Abort(status) <==>
            exists i: nat :: StopsLoop(s, table, data, i, lastPulledAt, now, status)
  {
    hide StopsWith, Upsert, CachesSound, Carries;
    if data != [] {
      var n := |data| - 1;
      var before := data[..n];
      LoopStopsIff(s, table, before, lastPulledAt, now, status);
      forall i | 0 <= i <= n
        ensures i < n ==>
                  (StopsLoop(s, table, data, i, lastPulledAt, now, status)
                   <==> StopsLoop(s, table, before, i, lastPulledAt, now, status))
      {
        assert i < n ==> before[..i] == data[..i];
      }
      var r := UpsertAll(s, table, before, lastPulledAt, now);
      if !r.Abort? {
        UpsertAllKeepsCaches(s, table, before, lastPulledAt, now);
        UpsertMeans(r.session, table, data[n], lastPulledAt, now, status);
      }
      assert StopsLoop(s, table, data, n, lastPulledAt, now, status)
             <==> !r.Abort? && StopsWith(r.session.db.rows, table, data[n], lastPulledAt, status);
    }
  }

  predicate StopsLoop(
    s: Session, table: Table, data: seq<Datum>, i: nat, lastPulledAt: int, now: int, status: Status)
  {
    && i < |data|
    && var r := UpsertAll(s, table, data[..i], lastPulledAt, now);
       !r.Abort? && StopsWith(r.session.db.rows, table, data[i], lastPulledAt, status)
  }

  /** Something stops the push in its first `n` tables. */
  ghost predicate StoppedWithin(
    db: Db, changes: Changes, n: nat, lastPulledAt: int, now: int, rejects: set<Table>, status: Status)
  {
    || (exists k: nat, i: nat :: k < n && StoppedAt(db, changes, k, i, lastPulledAt, now, rejects, status))
    || (status == InternalError && exists k: nat :: k < n && FlushRefused(db, changes, k, lastPulledAt, now, rejects))
  }

  lemma {:induction false} TablesStopIff(
    db: Db, changes: Changes, n: nat, lastPulledAt: int, now: int, rejects: set<Table>, status: Status)
    requires n <= 6
    ensures PushTables(Begin(db), changes, n, lastPulledAt, now, rejects) == Abort(status)
            <==> StoppedWithin(db, changes, n, lastPulledAt, now, rejects, status)
  {
    hide StoppedAt, FlushRefused, Accepts, UpsertAll, SoftDeleteAll;
    if n > 0 {
      TablesStopIff(db, changes, n - 1, lastPulledAt, now, rejects, status);
      TableStopsIff(db, changes, n - 1, lastPulledAt, now, rejects, status);
    }
  }

  lemma TableStopsIff(
    db: Db, changes: Changes, k: nat, lastPulledAt: int, now: int, rejects: set<Table>, status: Status)
    requires k < 6
    ensures
      var r := PushTables(Begin(db), changes, k, lastPulledAt, now, rejects);
      (!r.Abort? && PushTable(r.session, ORDER[k], changes[k], lastPulledAt, now, ORDER[k] in rejects) == Abort(status))
      <==> (exists i: nat :: StoppedAt(db, changes, k, i, lastPulledAt, now, rejects, status))
           || (status == InternalError && FlushRefused(db, changes, k, lastPulledAt, now, rejects))
  {
    hide Accepts, UpsertAll, SoftDeleteAll, StopsWith, PushTables;
    var r, data := PushTables(Begin(db), changes, k, lastPulledAt, now, rejects), changes[k].Upserts();
    assert data[..|data|] == data;
    if !r.Abort? {
      BeginHasNoCaches(db);
      PushTablesKeepCaches(Begin(db), changes, k, lastPulledAt, now, rejects);
      LoopStopsIff(r.session, ORDER[k], data, lastPulledAt, now, status);
      assert forall i: nat :: i < |data| ==>
        (StopsLoop(r.session, ORDER[k], data, i, lastPulledAt, now, status)
         <==> StoppedAt(db, changes, k, i, lastPulledAt, now, rejects, status));
    }
  }

  /**
   All or nothing, and why: a push answers a conflict, a deleted record or an error exactly when some
   record it reaches meets a row changed since the client's last pull, meets a deleted row, or cannot
   be read, or when a flush or the commit is refused; unless it answers ok the database is as it was.
   */
  lemma PushIsAllOrNothing(
    db: Db, changes: Changes, lastPulledAt: int, now: int, rejects: set<Table>, commitFails: bool, status: Status)
    ensures
      var (answer, after) := Push(db, changes, lastPulledAt, now, rejects, commitFails);
      && (answer != Ok ==> after == db)
      && (status == Ok ==> !StoppedWithin(db, changes, 6, lastPulledAt, now, rejects, status))
      && (status != Ok ==>
            (answer == status <==>
               || StoppedWithin(db, changes, 6, lastPulledAt, now, rejects, status)
               || (status == InternalError && commitFails
                   && forall other :: !StoppedWithin(db, changes, 6, lastPulledAt, now, rejects, other))))
  {
    hide PushTables, StoppedWithin;
    AbortNeverOk(Begin(db), changes, 6, lastPulledAt, now, rejects);
    forall other: Status
      ensures PushTables(Begin(db), changes, 6, lastPulledAt, now, rejects) == Abort(other)
              <==> StoppedWithin(db, changes, 6, lastPulledAt, now, rejects, other)
    {
      TablesStopIff(db, changes, 6, lastPulledAt, now, rejects, other);
    }
  }

  /** In a push that commits every table is its records and then its deletions. */
  lemma TableOfPush(db: Db, changes: Changes, k: nat, lastPulledAt: int, now: int, rejects: set<Table>)
    requires Push(db, changes, lastPulledAt, now, rejects, false).0 == Ok && k < 6
    ensures
      var r := PushTables(Begin(db), changes, k, lastPulledAt, now, rejects);
      var next := PushTables(Begin(db), changes, k + 1, lastPulledAt, now, rejects);
      && !r.Abort? && !next.Abort?
      && (changes[k].Absent? ==> next == Go(r.session))
      && (changes[k].TableChanges? ==>
            var u := UpsertAll(r.session, ORDER[k], changes[k].Upserts(), lastPulledAt, now);
            !u.Abort? && next == Go(SoftDeleteAll(u.session, ORDER[k], changes[k].Deletions(), now)))
    ensures !PushTables(Begin(db), changes, 6, lastPulledAt, now, rejects).Abort?
  {
    hide UpsertAll, SoftDeleteAll, Accepts;
    AbortNeverOk(Begin(db), changes, 6, lastPulledAt, now, rejects);
    PushAborts(Begin(db), changes, k, lastPulledAt, now, rejects);
    PushAborts(Begin(db), changes, k + 1, lastPulledAt, now, rejects);
  }
}
