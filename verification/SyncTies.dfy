/**
 Pull without distinct times: a cursor that passes a live row before it was delivered loses that row,
 and that is the only way a first pull can lose one.
 */
module SyncTies {
  import opened SyncPull
  import opened SyncConvergence

  /** A row the cursor has passed without delivering it never arrives, whatever the times are. */
  lemma {:induction false} SkippedIsLost(server: Server, locals: Locals, cursor: int, limit: nat, t: nat, r: Row)
    requires t < TABLES && IdsDetermine(server[t]) && r in server[t]
    requires cursor > 0 && r.updatedAt <= cursor && r.id !in locals[t]
    ensures r.id !in PullAll(server, locals, cursor, limit)[t]
    decreases Newest(server, TABLES) - cursor
  {
    NextIsBounded(server, cursor, limit);
    PullRound(server, locals, cursor, limit, 0);
    var applied := ApplyPages(server, locals, cursor, limit);
    forall q | q in Page(server[t], cursor, limit) ensures q.id != r.id {
      PageMembers(server[t], cursor, limit, q);
    }
    AppliedOther(locals[t], server[t], cursor, limit, r.id);
    if Advances(server, cursor, limit) {
      SkippedIsLost(server, applied, NextCursor(server, cursor, limit, TABLES).value, limit, t, r);
    }
  }

  ghost predicate OneRowEach(rows: seq<Row>) {
    forall i, j | 0 <= i < j < |rows| :: rows[i].id != rows[j].id
  }

  /** A server that has never deleted anything, with one row for each id. */
  ghost predicate AllLive(server: Server) {
    forall t | 0 <= t < TABLES :: OneRowEach(server[t]) && forall r | r in server[t] :: !r.deleted
  }

  lemma {:induction false} PendingOnce(table: seq<Row>, cursor: int)
    requires OneRowEach(table)
    ensures OneRowEach(Pending(table, cursor))
  {
    if table != [] {
      assert OneRowEach(table[1..]);
      PendingOnce(table[1..], cursor);
      var rest := Pending(table[1..], cursor);
      forall k | 0 <= k < |rest| ensures rest[k].id != table[0].id {
        PendingMembers(table[1..], cursor, rest[k]);
        var m :| 0 <= m < |table[1..]| && table[1..][m] == rest[k];
        assert table[m + 1] == rest[k];
      }
    }
  }

  lemma {:induction false} PageGrows(table: seq<Row>, cursor: int, limit: nat, r: Row)
    requires r in Page(table, cursor, limit)
    ensures r in Page(table, cursor, limit + 1)
  {
    var rows := Pending(table, cursor);
    var k :| 0 <= k < |Page(table, cursor, limit)| && Page(table, cursor, limit)[k] == r;
    assert Page(table, cursor, limit + 1)[k] == r;
  }

  lemma PageOfTail(table: seq<Row>, cursor: int, limit: nat)
    requires table != [] && limit > 0 && Wanted(table[0], cursor)
    ensures Page(table, cursor, limit) == [table[0]] + Page(table[1..], cursor, limit - 1)
  {
  }

  /** A row on a page that a later cursor still wants is on the page of that cursor too. */
  lemma {:induction false} PageAgain(table: seq<Row>, cursor: int, next: int, limit: nat, r: Row)
    requires forall q | q in table && Wanted(q, next) :: Wanted(q, cursor)
    requires r in Page(table, cursor, limit) && Wanted(r, next)
    ensures r in Page(table, next, limit)
  {
    hide Wanted;
    if table != [] && limit > 0 {
      var tail := table[1..];
      assert table[0] in table;
      assert forall q | q in tail :: q in table;
      if !Wanted(table[0], cursor) {
        PageAgain(tail, cursor, next, limit, r);
      } else {
        PageOfTail(table, cursor, limit);
        if r in Page(tail, cursor, limit - 1) {
          PageAgain(tail, cursor, next, limit - 1, r);
          PageGrows(tail, next, limit - 1, r);
        }
        if Wanted(table[0], next) {
          PageOfTail(table, next, limit);
        }
      }
    }
  }

  /** What a client that started empty holds beyond its cursor is on the page it asks for next. */
  ghost predicate AheadOnPage(local: Local, table: seq<Row>, cursor: int, limit: nat) {
    forall r | r in table && r.updatedAt > cursor && r.id in local :: r in Page(table, cursor, limit)
  }

  lemma AheadStaysOnPage(local: Local, table: seq<Row>, cursor: int, limit: nat, next: int)
    requires TableOk(table) && (forall r | r in table :: !r.deleted)
    requires 0 <= cursor < next && AheadOnPage(local, table, cursor, limit)
    ensures AheadOnPage(ApplyTable(local, Fetch(table, cursor, limit)), table, next, limit)
  {
    var applied := ApplyTable(local, Fetch(table, cursor, limit));
    forall r | r in table && r.updatedAt > next && r.id in applied ensures r in Page(table, next, limit) {
      OnPageOrHeld(local, table, cursor, limit, r);
      PageAgain(table, cursor, next, limit, r);
    }
  }

  lemma OnPageOrHeld(local: Local, table: seq<Row>, cursor: int, limit: nat, r: Row)
    requires IdsDetermine(table) && r in table
    requires r.id in ApplyTable(local, Fetch(table, cursor, limit))
    ensures r in Page(table, cursor, limit) || r.id in local
  {
    if r !in Page(table, cursor, limit) {
      forall q | q in Page(table, cursor, limit) ensures q.id != r.id {
        PageMembers(table, cursor, limit, q);
      }
      AppliedOther(local, table, cursor, limit, r.id);
    }
  }

  /** A split tie leaves its first row outside the page and outside the client. */
  lemma SplitTieIsMissing(local: Local, table: seq<Row>, cursor: int, limit: nat, next: int)
    requires TableOk(table) && OneRowEach(table) && cursor >= 0
    requires AheadOnPage(local, table, cursor, limit) && SplitsTie(table, cursor, limit, next)
    ensures
      var r := Pending(table, cursor)[limit];
      r in table && r.updatedAt <= next && r.id !in ApplyTable(local, Fetch(table, cursor, limit))
  {
    var rows := Pending(table, cursor);
    var r := rows[limit];
    PendingMembers(table, cursor, r);
    PendingOnce(table, cursor);
    assert Page(table, cursor, limit) == rows[..limit];
    forall q | q in rows[..limit] ensures q != r {
      var k :| 0 <= k < limit && rows[k] == q;
      assert rows[k].id != rows[limit].id;
    }
    if r.id in ApplyTable(local, Fetch(table, cursor, limit)) {
      OnPageOrHeld(local, table, cursor, limit, r);
    }
  }

  ghost predicate AllAhead(server: Server, locals: Locals, cursor: int, limit: nat) {
    forall t | 0 <= t < TABLES && t != CALL_PARTICIPANTS :: AheadOnPage(locals[t], server[t], cursor, limit)
  }

  /** A run that is not clean ends with a table that is not mirrored. */
  lemma {:induction false} SplitTieIsLost(server: Server, locals: Locals, cursor: int, limit: nat)
    requires ServerOk(server) && AllLive(server) && cursor >= 0 && limit > 0
    requires AllAhead(server, locals, cursor, limit) && !RunIsClean(server, cursor, limit)
    ensures !AllMirrored(server, PullAll(server, locals, cursor, limit))
    decreases Newest(server, TABLES) - cursor
  {
    hide SplitsTie, Mirrors, ApplyTable, AheadOnPage, NextCursor, PullAll, TableOk, OneRowEach;
    NextIsBounded(server, cursor, limit);
    PullRound(server, locals, cursor, limit, 0);
    var next := NextCursor(server, cursor, limit, TABLES).value;
    var applied := ApplyPages(server, locals, cursor, limit);
    if !RoundIsClean(server, cursor, limit) {
      var t :| 0 <= t < TABLES && t != CALL_PARTICIPANTS && SplitsTie(server[t], cursor, limit, next);
      SplitTieLosesRow(server, locals, cursor, limit, t, next);
    } else {
      forall t | 0 <= t < TABLES && t != CALL_PARTICIPANTS ensures AheadOnPage(applied[t], server[t], next, limit) {
        AheadStaysOnPage(locals[t], server[t], cursor, limit, next);
      }
      SplitTieIsLost(server, applied, next, limit);
    }
  }

  lemma SplitTieLosesRow(server: Server, locals: Locals, cursor: int, limit: nat, t: nat, next: int)
    requires ServerOk(server) && AllLive(server) && 0 <= cursor < next
    requires t < TABLES && t != CALL_PARTICIPANTS && AheadOnPage(locals[t], server[t], cursor, limit)
    requires SplitsTie(server[t], cursor, limit, next)
    ensures !Mirrors(PullAll(server, ApplyPages(server, locals, cursor, limit), next, limit)[t], server[t])
  {
    hide AheadOnPage, ApplyTable;
    SplitTieIsMissing(locals[t], server[t], cursor, limit, next);
    var r := Pending(server[t], cursor)[limit];
    SkippedIsLost(server, ApplyPages(server, locals, cursor, limit), next, limit, t, r);
  }

  /**
   On a server without deletions times alone decide: the first pull of a client ends with every applied
   table mirrored if and only if no chosen cursor meets a row that did not fit.
   */
  lemma TimesDecideWithoutDeletions(server: Server, locals: Locals, limit: nat)
    requires ServerOk(server) && AllLive(server) && limit > 0
    requires forall t | 0 <= t < TABLES :: locals[t] == map[]
    ensures AllMirrored(server, PullAll(server, locals, 0, limit)) <==> RunIsClean(server, 0, limit)
  {
    hide PullAll, RunIsClean, Mirrors, Synced, AheadOnPage, TableOk, OneRowEach, Page;
    if RunIsClean(server, 0, limit) {
      forall t | 0 <= t < TABLES && t != CALL_PARTICIPANTS ensures Synced(locals[t], server[t], 0) {
        FreshClientIsSynced(server[t]);
      }
      CleanPullConverges(server, locals, 0, limit);
    } else {
      forall t | 0 <= t < TABLES && t != CALL_PARTICIPANTS ensures AheadOnPage(locals[t], server[t], 0, limit) {
        FreshClientIsAhead(server[t], limit);
      }
      SplitTieIsLost(server, locals, 0, limit);
    }
  }

  lemma FreshClientIsAhead(table: seq<Row>, limit: nat)
    ensures AheadOnPage(map[], table, 0, limit)
  {
  }

  // ---- the exact condition with deletions --------------------------------------------------------

  type Seen = s: seq<set<Row>> | |s| == TABLES witness seq(6, _ => {})

  /** The rows delivered so far, after one more page of every table. */
  function SeenAfter(server: Server, seen: Seen, cursor: int, limit: nat): (after: Seen)
    ensures forall t | 0 <= t < TABLES :: after[t] == seen[t] + PageSet(server[t], cursor, limit)
  {
    seq(TABLES, t requires 0 <= t < TABLES => seen[t] + PageSet(server[t], cursor, limit))
  }

  function PageSet(table: seq<Row>, cursor: int, limit: nat): set<Row> {
    set r | r in Page(table, cursor, limit)
  }

  /** Every live row up to `next` has been delivered. */
  predicate LeavesNone(server: Server, seen: Seen, next: int) {
    forall t, r | 0 <= t < TABLES && t != CALL_PARTICIPANTS && r in server[t] && !r.deleted && r.updatedAt <= next ::
      r in seen[t]
  }

  /** No round of the loop chooses a cursor that leaves a live row undelivered behind it. */
  predicate NothingLeftBehind(server: Server, seen: Seen, cursor: int, limit: nat)
    decreases Newest(server, TABLES) - cursor
  {
    NextIsBounded(server, cursor, limit);
    Advances(server, cursor, limit) ==>
      var next, after := NextCursor(server, cursor, limit, TABLES).value, SeenAfter(server, seen, cursor, limit);
      LeavesNone(server, after, next) && NothingLeftBehind(server, after, next, limit)
  }

  /** A client that started empty holds exactly the live rows it was sent. */
  ghost predicate HoldsSeen(local: Local, table: seq<Row>, seen: set<Row>) {
    && (forall r | r in seen :: r in table && (!r.deleted ==> r.id in local && local[r.id] == r))
    && (forall id | id in local :: exists r :: r in seen && !r.deleted && r.id == id && local[id] == r)
  }

  ghost predicate AllHoldSeen(server: Server, locals: Locals, seen: Seen) {
    forall t | 0 <= t < TABLES && t != CALL_PARTICIPANTS :: HoldsSeen(locals[t], server[t], seen[t])
  }

  lemma PageReplaces(local: Local, table: seq<Row>, seen: set<Row>, cursor: int, limit: nat, r: Row)
    requires IdsDetermine(table) && HoldsSeen(local, table, seen) && r in Page(table, cursor, limit)
    ensures r in table && Agrees(ApplyTable(local, Fetch(table, cursor, limit)), r)
  {
    PageMembers(table, cursor, limit, r);
    PageIdsDetermine(table, cursor, limit);
    if r.id in local {
      var q :| q in seen && !q.deleted && q.id == r.id && local[r.id] == q;
    }
    AppliedAt(local, table, cursor, limit, r);
  }

  lemma PageLeaves(local: Local, table: seq<Row>, cursor: int, limit: nat, r: Row)
    requires IdsDetermine(table) && r in table && r !in Page(table, cursor, limit)
    ensures
      var applied := ApplyTable(local, Fetch(table, cursor, limit));
      (r.id in applied <==> r.id in local) && (r.id in local ==> applied[r.id] == local[r.id])
  {
    forall q | q in Page(table, cursor, limit) ensures q.id != r.id {
      PageMembers(table, cursor, limit, q);
    }
    AppliedOther(local, table, cursor, limit, r.id);
  }

  lemma HoldsSeenAfter(local: Local, table: seq<Row>, seen: set<Row>, cursor: int, limit: nat)
    requires IdsDetermine(table) && HoldsSeen(local, table, seen)
    ensures HoldsSeen(ApplyTable(local, Fetch(table, cursor, limit)), table, seen + PageSet(table, cursor, limit))
  {
    hide ApplyTable, Page;
    var applied, after := ApplyTable(local, Fetch(table, cursor, limit)), seen + PageSet(table, cursor, limit);
    forall r | r in after ensures r in table && (!r.deleted ==> r.id in applied && applied[r.id] == r) {
      if r in Page(table, cursor, limit) {
        PageReplaces(local, table, seen, cursor, limit, r);
      } else {
        PageLeaves(local, table, cursor, limit, r);
      }
    }
    forall id | id in applied ensures exists r :: r in after && !r.deleted && r.id == id && applied[id] == r {
      if r :| r in Page(table, cursor, limit) && r.id == id {
        PageReplaces(local, table, seen, cursor, limit, r);
        assert r in after;
      } else {
        AppliedOther(local, table, cursor, limit, id);
        var r :| r in seen && !r.deleted && r.id == id && local[id] == r;
        assert r in after;
      }
    }
  }

  lemma AllHoldSeenAfter(server: Server, locals: Locals, seen: Seen, cursor: int, limit: nat)
    requires ServerOk(server) && AllHoldSeen(server, locals, seen)
    ensures AllHoldSeen(server, ApplyPages(server, locals, cursor, limit), SeenAfter(server, seen, cursor, limit))
  {
    hide ApplyTable, HoldsSeen, PageSet;
    forall t | 0 <= t < TABLES && t != CALL_PARTICIPANTS
      ensures HoldsSeen(ApplyPages(server, locals, cursor, limit)[t], server[t],
                        SeenAfter(server, seen, cursor, limit)[t])
    {
      HoldsSeenAfter(locals[t], server[t], seen[t], cursor, limit);
    }
  }

  lemma HeldIsSeen(local: Local, table: seq<Row>, seen: set<Row>, r: Row)
    requires IdsDetermine(table) && HoldsSeen(local, table, seen) && r in table
    ensures r.id in local ==> r in seen
  {
    if r.id in local {
      var q :| q in seen && !q.deleted && q.id == r.id && local[r.id] == q;
      assert q in table;
    }
  }

  /** A live row that was not delivered and is behind the cursor is missing at the end. */
  lemma LeftBehindIsLost(server: Server, locals: Locals, seen: Seen, next: int, limit: nat)
    requires ServerOk(server) && AllHoldSeen(server, locals, seen) && next > 0
    requires !LeavesNone(server, seen, next)
    ensures !AllMirrored(server, PullAll(server, locals, next, limit))
  {
    hide PullAll;
    var t, r :| 0 <= t < TABLES && t != CALL_PARTICIPANTS && r in server[t] && !r.deleted && r.updatedAt <= next
                && r !in seen[t];
    HeldIsSeen(locals[t], server[t], seen[t], r);
    SkippedIsLost(server, locals, next, limit, t, r);
    assert !Agrees(PullAll(server, locals, next, limit)[t], r);
  }

  /** The last round delivers what is still wanted. */
  lemma LastRoundMirrors(server: Server, locals: Locals, seen: Seen, cursor: int, limit: nat)
    requires ServerOk(server) && AllHoldSeen(server, locals, seen) && LeavesNone(server, seen, cursor)
    requires limit > 0 && cursor >= 0 && !Advances(server, cursor, limit)
    ensures AllMirrored(server, ApplyPages(server, locals, cursor, limit))
  {
    GuardNeverFires(server, cursor, limit);
    AllHoldSeenAfter(server, locals, seen, cursor, limit);
    forall t | 0 <= t < TABLES && t != CALL_PARTICIPANTS
      ensures Mirrors(ApplyPages(server, locals, cursor, limit)[t], server[t])
    {
      SeenIsMirrored(ApplyPages(server, locals, cursor, limit)[t], server[t], seen[t], cursor, limit);
    }
  }

  lemma SeenIsMirrored(applied: Local, table: seq<Row>, seen: set<Row>, cursor: int, limit: nat)
    requires TableOk(table) && HoldsSeen(applied, table, seen + PageSet(table, cursor, limit))
    requires |Page(table, cursor, limit)| != limit
    requires forall r | r in table && !r.deleted && r.updatedAt <= cursor :: r in seen
    ensures Mirrors(applied, table)
  {
    forall r | r in table ensures Agrees(applied, r) {
      PendingMembers(table, cursor, r);
      if !r.deleted && r !in seen {
        assert r in Page(table, cursor, limit);
        assert r in seen + PageSet(table, cursor, limit);
      }
    }
  }

  /** The rest of a first pull is complete exactly when nothing is left behind from here on. */
  lemma {:induction false} RestMirrorsIff(server: Server, locals: Locals, seen: Seen, cursor: int, limit: nat)
    requires ServerOk(server) && AllHoldSeen(server, locals, seen) && LeavesNone(server, seen, cursor)
    requires limit > 0 && cursor >= 0
    ensures AllMirrored(server, PullAll(server, locals, cursor, limit))
            <==> NothingLeftBehind(server, seen, cursor, limit)
    decreases Newest(server, TABLES) - cursor
  {
    hide AllHoldSeen, AllMirrored, LeavesNone, NextCursor, ApplyPages, SeenAfter, ServerOk, PullAll;
    NextIsBounded(server, cursor, limit);
    PullRound(server, locals, cursor, limit, 0);
    if Advances(server, cursor, limit) {
      var next := NextCursor(server, cursor, limit, TABLES).value;
      var applied, after := ApplyPages(server, locals, cursor, limit), SeenAfter(server, seen, cursor, limit);
      AllHoldSeenAfter(server, locals, seen, cursor, limit);
      if LeavesNone(server, after, next) {
        RestMirrorsIff(server, applied, after, next, limit);
      } else {
        LeftBehindIsLost(server, applied, after, next, limit);
      }
    } else {
      LastRoundMirrors(server, locals, seen, cursor, limit);
    }
  }

  /**
   The exact condition, deletions included: the first pull of a client ends with every applied table
   mirrored if and only if no round chooses a cursor with an undelivered live row at or behind it.
   */
  lemma FirstPullMirrorsIff(server: Server, locals: Locals, limit: nat)
    requires ServerOk(server) && limit > 0
    requires forall t | 0 <= t < TABLES :: locals[t] == map[]
    ensures AllMirrored(server, PullAll(server, locals, 0, limit))
            <==> NothingLeftBehind(server, seq(TABLES, _ => {}), 0, limit)
  {
    hide PullAll, NothingLeftBehind, AllMirrored;
    var seen: Seen := seq(TABLES, _ => {});
    assert LeavesNone(server, seen, 0) by {
      forall t, r | 0 <= t < TABLES && r in server[t] ensures r.updatedAt > 0 {
        assert TableOk(server[t]);
      }
    }
    RestMirrorsIff(server, locals, seen, 0, limit);
  }

  const TIE_A := Row("a", 1, 1, false, map[])
  const TIE_B := Row("b", 1, 1, false, map[])
  const TIED: Server := [[], [TIE_A, TIE_B], [], [], [], []]
  const NOTHING: Locals := seq(TABLES, _ => map[])

  lemma TiePage()
    ensures Page(TIED[1], 0, 1) == [TIE_A]
    ensures IdsDetermine(TIED[1])
  {
    assert Pending(TIED[1][1..], 0) == [TIE_B];
    assert Pending(TIED[1], 0) == [TIE_A, TIE_B];
  }

  /** So a tie across a page boundary loses a live row: two messages of the same millisecond. */
  lemma TieIsLost()
    ensures TIE_B in TIED[1] && !TIE_B.deleted
    ensures TIE_B.id !in PullAll(TIED, NOTHING, 0, 1)[1]
  {
    TiePage();
    assert TIE_B == TIED[1][1];
    AppliedOther(NOTHING[1], TIED[1], 0, 1, TIE_B.id);
    TieRounds(TIED, NOTHING, 1, TIE_B);
  }

  lemma TieRounds(server: Server, locals: Locals, t: nat, r: Row)
    requires t < TABLES && IdsDetermine(server[t]) && r in server[t] && r.updatedAt == 1
    requires r.id !in ApplyPages(server, locals, 0, 1)[t]
    ensures r.id !in PullAll(server, locals, 0, 1)[t]
  {
    PullRound(server, locals, 0, 1, 0);
    NextIsBounded(server, 0, 1);
    if Advances(server, 0, 1) {
      SkippedIsLost(server, ApplyPages(server, locals, 0, 1), NextCursor(server, 0, 1, TABLES).value, 1, t, r);
    }
  }
}
