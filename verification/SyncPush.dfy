/**
 Transactional push: the per-table upsert loop with its existence guards and caches, the soft
 deletes, the flush per table and the final commit or rollback.

 The session is the rows as the transaction sees them. What the database checks at a flush is the
 foreign keys and required columns of the table; any other rejection is an input of the run.
 */
module SyncPush {
  import opened Prelude

  type Id = string

  /** The tables in the order in which a push visits them. */
  datatype Table = Conversations | Messages | Participants | Calls | CallParticipants | Receipts

  const ORDER := [Conversations, Messages, Participants, Calls, CallParticipants, Receipts]

  datatype Key = Key(table: Table, id: Id)

  /** `parent` is the conversation, call or message a row belongs to; `user` its foreign key to a user. */
  datatype Row = Row(parent: Option<Id>, user: Option<Id>, updatedAt: int, deleted: bool, data: map<string, string>)

  datatype Db = Db(users: set<Id>, guests: set<Id>, rows: map<Key, Row>)

  function ParentTable(table: Table): Table {
    match table
    case CallParticipants => Calls
    case Receipts => Messages
    case _ => Conversations
  }

  predicate Guarded(table: Table) {
    table.Calls? || table.CallParticipants? || table.Receipts?
  }

  // ---- what the client sends -------------------------------------------------------------------

  /** A key of the record: absent, null or empty, not a UUID, or a UUID. */
  datatype Field = Missing | Null | Malformed | Ref(id: Id)

  datatype Datum = Datum(
    id: Field, parent: Field, user: Field, updatedAt: Option<int>, deleted: Option<bool>, data: map<string, string>)

  /** What the client sends for one table; a table it does not mention is not visited. */
  datatype TableChanges = Absent | TableChanges(created: seq<Datum>, updated: seq<Datum>, deleted: seq<Field>)
  {
    function Upserts(): seq<Datum> {
      if Absent? then [] else created + updated
    }

    function Deletions(): seq<Field> {
      if Absent? then [] else deleted
    }
  }

  datatype Status = Ok | Conflict | Gone | InternalError

  /** The transaction: its rows, and the caches of ids known to exist. */
  datatype Session = Session(
    db: Db, conversations: set<Id>, calls: set<Id>, messages: set<Id>, users: set<Id>, missing: set<Id>)

  datatype Result = Go(session: Session) | Skip(session: Session) | Abort(status: Status)

  // ---- existence guards ------------------------------------------------------------------------

  function CachedParents(s: Session, table: Table): set<Id> {
    match ParentTable(table)
    case Calls => s.calls
    case Messages => s.messages
    case _ => s.conversations
  }

  function Remember(s: Session, table: Table, id: Id): Session {
    match table
    case Calls => s.(calls := s.calls + {id})
    case Messages => s.(messages := s.messages + {id})
    case _ => s.(conversations := s.conversations + {id})
  }

  /** `ensure_conversation_exists`, `ensure_call_exists` and `ensure_message_exists`. */
  function EnsureParent(s: Session, table: Table, parent: Field): (Session, bool) {
    match parent
    case Missing => (s, !table.Receipts?)
    case Null => (s, !table.Receipts?)
    case Malformed => (s, false)
    case Ref(id) =>
      if id in CachedParents(s, table) then (s, true)
      else if Key(ParentTable(table), id) in s.db.rows then (Remember(s, ParentTable(table), id), true)
      else (s, false)
  }

  /** `ensure_user_exists`: creates a guest for an unknown user; a malformed id raises. */
  function EnsureUser(s: Session, user: Field): Result {
    match user
    case Missing => Go(s)
    case Null => Go(s)
    case Malformed => Abort(InternalError)
    case Ref(id) =>
      if id in s.users || id in s.missing then Go(s)
      else if id in s.db.users then Go(s.(users := s.users + {id}))
      else Go(s.(db := s.db.(users := s.db.users + {id}, guests := s.db.guests + {id}),
                 users := s.users + {id}, missing := s.missing + {id}))
  }

  function Guard(s: Session, table: Table, d: Datum): Result {
    if table.Conversations? then Go(s)
    else if !Guarded(table) then EnsureUser(s, d.user)
    else if table.Receipts? then
      var r := EnsureUser(s, d.user);
      if r.Abort? then r
      else
        var (after, found) := EnsureParent(r.session, table, d.parent);
        if found then Go(after) else Skip(after)
    else
      var (after, found) := EnsureParent(s, table, d.parent);
      if found then EnsureUser(after, d.user) else Skip(after)
  }

  // ---- upserts, deletes, flush -----------------------------------------------------------------

  /** `cast_to_uuids` raises on a present key that is not a UUID. */
  predicate Castable(table: Table, d: Datum) {
    && d.id.Ref?
    && (table.Conversations? || ((d.parent.Ref? || d.parent.Missing?) && (d.user.Ref? || d.user.Missing?)))
  }

  function Overlay(old_: Option<Id>, field: Field): Option<Id> {
    if field.Ref? then Some(field.id) else old_
  }

  function Overwrite(row: Row, table: Table, d: Datum, now: int): Row {
    Row(if table.Conversations? then row.parent else Overlay(row.parent, d.parent),
        if table.Conversations? then row.user else Overlay(row.user, d.user),
        if d.updatedAt.Some? then d.updatedAt.value else now,
        if d.deleted.Some? then d.deleted.value else row.deleted,
        row.data + d.data)
  }

  function Fresh(table: Table, d: Datum, now: int): Row {
    Overwrite(Row(None, None, now, false, map[]), table, d, now)
  }

  /** One record of `created + updated`. */
  function Upsert(s: Session, table: Table, d: Datum, lastPulledAt: int, now: int): Result {
    match Guard(s, table, d)
    case Abort(status) => Abort(status)
    case Skip(after) => Skip(after)
    case Go(after) =>
      if !Castable(table, d) then Abort(InternalError)
      else
        var key := Key(table, d.id.id);
        if key in after.db.rows then
          var row := after.db.rows[key];
          if row.updatedAt > lastPulledAt then Abort(Conflict)
          else if row.deleted then Abort(Gone)
          else Go(after.(db := after.db.(rows := after.db.rows[key := Overwrite(row, table, d, now)])))
        else
          var inserted := after.(db := after.db.(rows := after.db.rows[key := Fresh(table, d, now)]));
          Go(if table.Calls? || table.Messages? then Remember(inserted, table, d.id.id) else inserted)
  }

  function UpsertAll(s: Session, table: Table, data: seq<Datum>, lastPulledAt: int, now: int): Result {
    if data == [] then Go(s)
    else
      var r := UpsertAll(s, table, data[..|data| - 1], lastPulledAt, now);
      if r.Abort? then r else Upsert(r.session, table, data[|data| - 1], lastPulledAt, now)
  }

  function SoftDelete(s: Session, table: Table, id: Field, now: int): Session {
    if id.Ref? && Key(table, id.id) in s.db.rows then
      var key := Key(table, id.id);
      s.(db := s.db.(rows := s.db.rows[key := s.db.rows[key].(deleted := true, updatedAt := now)]))
    else s
  }

  function SoftDeleteAll(s: Session, table: Table, ids: seq<Field>, now: int): Session {
    if ids == [] then s else SoftDelete(SoftDeleteAll(s, table, ids[..|ids| - 1], now), table, ids[|ids| - 1], now)
  }

  predicate RefsPresent(db: Db, table: Table, row: Row) {
    && (row.parent.Some? ==> Key(ParentTable(table), row.parent.value) in db.rows)
    && (row.user.Some? ==> row.user.value in db.users)
  }

  predicate RequiredPresent(table: Table, row: Row) {
    && (table.Participants? ==> row.user.Some?)
    && (table.Receipts? ==> row.user.Some? && row.parent.Some?)
  }

  /** The checks of the database on the rows of one table. */
  predicate Accepts(db: Db, table: Table) {
    forall key | key in db.rows && key.table == table ::
      RefsPresent(db, table, db.rows[key]) && RequiredPresent(table, db.rows[key])
  }

  function PushTable(s: Session, table: Table, c: TableChanges, lastPulledAt: int, now: int, rejected: bool): Result {
    var r := UpsertAll(s, table, c.Upserts(), lastPulledAt, now);
    if c.Absent? then Go(s)
    else if r.Abort? then r
    else
      var after := SoftDeleteAll(r.session, table, c.Deletions(), now);
      if rejected || !Accepts(after.db, table) then Abort(InternalError) else Go(after)
  }

  type Changes = c: seq<TableChanges> | |c| == 6 witness seq(6, _ => TableChanges([], [], []))

  /** The first `n` tables. */
  function PushTables(s: Session, changes: Changes, n: nat, lastPulledAt: int, now: int, rejects: set<Table>): Result
    requires n <= 6
  {
    if n == 0 then Go(s)
    else
      var r := PushTables(s, changes, n - 1, lastPulledAt, now, rejects);
      if r.Abort? then r
      else PushTable(r.session, ORDER[n - 1], changes[n - 1], lastPulledAt, now, ORDER[n - 1] in rejects)
  }

  function Begin(db: Db): Session {
    Session(db, {}, {}, {}, {}, {})
  }

  /** The outcome of a push and the committed rows afterwards. */
  function Push(
    db: Db, changes: Changes, lastPulledAt: int, now: int, rejects: set<Table>, commitFails: bool): (Status, Db)
  {
    match PushTables(Begin(db), changes, 6, lastPulledAt, now, rejects)
    case Abort(status) => (status, db)
    case Skip(s) => if commitFails then (InternalError, db) else (Ok, s.db)
    case Go(s) => if commitFails then (InternalError, db) else (Ok, s.db)
  }

  // ---- the handler -----------------------------------------------------------------------------

  class Store {
    var committed: Db   // what other sessions see
    var session: Session

    constructor (db: Db)
      ensures committed == db
    {
      committed, session := db, Begin(db);
    }

    method Rollback()
      modifies this`session
      ensures session.db == committed
    {
      session := Begin(committed);
    }

    /** The loop over `created + updated`; false when a record aborted the push. */
    method UpsertRecords(table: Table, data: seq<Datum>, lastPulledAt: int, now: int) returns (status: Status)
      modifies this`session
      ensures
        var r := UpsertAll(old(session), table, data, lastPulledAt, now);
        if r.Abort? then status == r.status else status == Ok && session == r.session
    {
      var i := 0;
      while i < |data|
        invariant 0 <= i <= |data|
        invariant !UpsertAll(old(session), table, data[..i], lastPulledAt, now).Abort?
        invariant session == UpsertAll(old(session), table, data[..i], lastPulledAt, now).session
      {
        var r := Upsert(session, table, data[i], lastPulledAt, now);
        assert data[..i + 1][..i] == data[..i];
        if r.Abort? {
          AbortSticks(old(session), table, data, i + 1, lastPulledAt, now);
          return r.status;
        }
        session := r.session;
        i := i + 1;
      }
      assert data[..i] == data;
      status := Ok;
    }

    method SoftDeleteRecords(table: Table, ids: seq<Field>, now: int)
      modifies this`session
      ensures session == SoftDeleteAll(old(session), table, ids, now)
    {
      var i := 0;
      while i < |ids|
        invariant 0 <= i <= |ids|
        invariant session == SoftDeleteAll(old(session), table, ids[..i], now)
      {
        session := SoftDelete(session, table, ids[i], now);
        assert ids[..i + 1][..i] == ids[..i];
        i := i + 1;
      }
      assert ids[..i] == ids;
    }

    /** One round of the table loop, with its flush. */
    method PushOneTable(table: Table, c: TableChanges, lastPulledAt: int, now: int, rejected: bool)
      returns (status: Status)
      modifies this`session
      ensures
        var r := PushTable(old(session), table, c, lastPulledAt, now, rejected);
        if r.Abort? then status == r.status && status != Ok else status == Ok && session == r.session
    {
      if c.Absent? {
        return Ok;
      }
      AbortIsAnError(session, table, c.created + c.updated, lastPulledAt, now);
      status := UpsertRecords(table, c.created + c.updated, lastPulledAt, now);
      if status == Ok {
        SoftDeleteRecords(table, c.deleted, now);
        if rejected || !Accepts(session.db, table) {
          status := InternalError;
        }
      }
    }

    /** `push_local_data`: any error rolls the session back and leaves the committed rows alone. */
    method PushLocalData(changes: Changes, lastPulledAt: int, now: int, rejects: set<Table>, commitFails: bool)
      returns (status: Status)
      modifies this
      ensures (status, committed) == Push(old(committed), changes, lastPulledAt, now, rejects, commitFails)
      ensures status != Ok ==> committed == old(committed) && session.db == committed
    {
      session := Begin(committed);
      ghost var begin := session;
      var n := 0;
      while n < 6
        invariant 0 <= n <= 6
        invariant committed == old(committed)
        invariant !PushTables(begin, changes, n, lastPulledAt, now, rejects).Abort?
        invariant session == PushTables(begin, changes, n, lastPulledAt, now, rejects).session
      {
        PushAborts(begin, changes, n + 1, lastPulledAt, now, rejects);
        status := PushOneTable(ORDER[n], changes[n], lastPulledAt, now, ORDER[n] in rejects);
        if status != Ok {
          Rollback();
          return;
        }
        n := n + 1;
      }
      if commitFails {
        Rollback();
        return InternalError;
      }
      committed := session.db;
      status := Ok;
    }
  }

  lemma {:induction false} AbortIsAnError(s: Session, table: Table, data: seq<Datum>, lastPulledAt: int, now: int)
    ensures UpsertAll(s, table, data, lastPulledAt, now).Abort? ==>
              UpsertAll(s, table, data, lastPulledAt, now).status != Ok
  {
    if data != [] {
      AbortIsAnError(s, table, data[..|data| - 1], lastPulledAt, now);
    }
  }

  lemma {:induction false} AbortSticks(s: Session, table: Table, data: seq<Datum>, i: nat, lastPulledAt: int, now: int)
    requires i <= |data| && UpsertAll(s, table, data[..i], lastPulledAt, now).Abort?
    ensures UpsertAll(s, table, data, lastPulledAt, now) == UpsertAll(s, table, data[..i], lastPulledAt, now)
  {
    if i < |data| {
      var before := data[..|data| - 1];
      assert before[..i] == data[..i];
      AbortSticks(s, table, before, i, lastPulledAt, now);
    } else {
      assert data[..i] == data;
    }
  }

  lemma {:induction false} PushAborts(
    s: Session, changes: Changes, n: nat, lastPulledAt: int, now: int, rejects: set<Table>)
    requires n <= 6
    ensures PushTables(s, changes, n, lastPulledAt, now, rejects).Abort? ==>
              PushTables(s, changes, 6, lastPulledAt, now, rejects)
              == PushTables(s, changes, n, lastPulledAt, now, rejects)
    decreases 6 - n
  {
    if n < 6 {
      PushAborts(s, changes, n + 1, lastPulledAt, now, rejects);
    }
  }
}
