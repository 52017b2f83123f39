/** Conservation laws of the ghost migration. */
module MigrationLaws {
  import opened Prelude
  import opened Migration

  type DirectId = (UserId, UserId) -> ConvId

  function Snapshot(t: Tables, ghost_: UserId): seq<Target> {
    Targets(t, ghost_, |t.participants|)
  }

  // ---- participants ----------------------------------------------------------------------------

  function Count(ps: seq<Participant>, conv: ConvId, user: UserId): nat {
    if ps == [] then 0
    else Count(ps[..|ps| - 1], conv, user) + if ps[|ps| - 1] == Participant(conv, user) then 1 else 0
  }

  lemma {:induction false} CountSplit(a: seq<Participant>, b: seq<Participant>, conv: ConvId, user: UserId)
    ensures Count(a + b, conv, user) == Count(a, conv, user) + Count(b, conv, user)
  {
    if b == [] {
      assert a + b == a;
    } else {
      CountSplit(a, b[..|b| - 1], conv, user);
      assert (a + b)[..|a + b| - 1] == a + b[..|b| - 1];
    }
  }

  lemma {:induction false} CountPresent(ps: seq<Participant>, conv: ConvId, user: UserId)
    ensures Count(ps, conv, user) > 0 <==> IsParticipant(ps, conv, user)
  {
    if ps != [] {
      CountPresent(ps[..|ps| - 1], conv, user);
      assert ps == ps[..|ps| - 1] + [ps[|ps| - 1]];
    }
  }

  function Max(a: nat, b: nat): nat {
    if a < b then b else a
  }

  /** How often `x` is a participant of `conv` after the reassignment. */
  function Expected(ps: seq<Participant>, conv: ConvId, x: UserId, ghost_: UserId, user: UserId): nat {
    if x == ghost_ then 0
    else if x == user && Count(ps, conv, ghost_) > 0 then Max(1, Count(ps, conv, user))
    else Count(ps, conv, x)
  }

  lemma CountCons(done: seq<Participant>, p: Participant, tail: seq<Participant>, conv: ConvId, x: UserId)
    ensures
      var one := if p == Participant(conv, x) then 1 else 0;
      && Count([p] + tail, conv, x) == one + Count(tail, conv, x)
      && Count(done + [p], conv, x) == Count(done, conv, x) + one
  {
    CountSplit([p], tail, conv, x);
    CountSplit(done, [p], conv, x);
    assert [p][..0] == [];
  }

  lemma {:induction false} ReassignKeepsOthers(
    done: seq<Participant>, rest: seq<Participant>, conv: ConvId, x: UserId, ghost_: UserId, user: UserId)
    requires user != ghost_ && x != user
    ensures Count(Reassign(done, rest, ghost_, user), conv, x)
            == Count(done, conv, x) + if x == ghost_ then 0 else Count(rest, conv, x)
    decreases rest
  {
    if rest != [] {
      var p, tail, q := rest[0], rest[1..], Participant(rest[0].conv, user);
      assert rest == [p] + tail;
      CountCons(done, p, tail, conv, x);
      CountCons(done, q, tail, conv, x);
      if p.user != ghost_ {
        ReassignKeepsOthers(done + [p], tail, conv, x, ghost_, user);
      } else if IsParticipant(done + rest, p.conv, user) {
        ReassignKeepsOthers(done, tail, conv, x, ghost_, user);
      } else {
        ReassignKeepsOthers(done + [q], tail, conv, x, ghost_, user);
      }
    }
  }

  lemma NoParticipants(conv: ConvId, user: UserId)
    ensures Count([], conv, user) == 0
  {
  }

  lemma {:induction false} ReassignUser(
    done: seq<Participant>, rest: seq<Participant>, conv: ConvId, ghost_: UserId, user: UserId)
    requires user != ghost_
    ensures
      var n := Count(done, conv, user) + Count(rest, conv, user);
      Count(Reassign(done, rest, ghost_, user), conv, user) == if Count(rest, conv, ghost_) > 0 then Max(1, n) else n
    decreases rest
  {
    hide Count, IsParticipant;
    NoParticipants(conv, user);
    NoParticipants(conv, ghost_);
    if rest != [] {
      var p, tail, q := rest[0], rest[1..], Participant(rest[0].conv, user);
      assert rest == [p] + tail;
      CountCons(done, p, tail, conv, user);
      CountCons(done, p, tail, conv, ghost_);
      CountCons(done, q, tail, conv, user);
      if p.user != ghost_ {
        ReassignUser(done + [p], tail, conv, ghost_, user);
      } else {
        CountPresent(done + rest, p.conv, user);
        CountSplit(done, rest, p.conv, user);
        if IsParticipant(done + rest, p.conv, user) {
          ReassignUser(done, tail, conv, ghost_, user);
        } else {
          ReassignUser(done + [q], tail, conv, ghost_, user);
        }
      }
    }
  }

  lemma {:induction false} WithoutCounts(ps: seq<Participant>, gone: UserId, conv: ConvId, x: UserId)
    ensures Count(Without(ps, gone), conv, x) == if x == gone then 0 else Count(ps, conv, x)
  {
    if ps != [] {
      WithoutCounts(ps[1..], gone, conv, x);
      assert ps == [ps[0]] + ps[1..];
      CountSplit([ps[0]], ps[1..], conv, x);
      CountSplit(if ps[0].user == gone then [] else [ps[0]], Without(ps[1..], gone), conv, x);
    }
  }

  lemma {:induction false} MergeKeepsParticipants(t: Tables, targets: seq<Target>, user: UserId, directId: DirectId)
    requires forall x | x in targets :: x.conv in t.conversations
    ensures MergeAll(t, targets, user, directId).participants == t.participants
    ensures MergeAll(t, targets, user, directId).users == t.users
    ensures MergeAll(t, targets, user, directId).messages.Keys == t.messages.Keys
  {
    if targets != [] {
      MergeKeepsParticipants(t, targets[..|targets| - 1], user, directId);
    }
  }

  /**
   Participation is conserved: the user ends up in every conversation the ghost was in, once unless
   it was there more often before; nobody else's participation changes; the ghost has none.
   */
  lemma ParticipationConserved(t: Tables, ghost_: UserId, user: UserId, directId: DirectId, conv: ConvId, x: UserId)
    requires user != ghost_
    ensures Count(Migrate(t, ghost_, user, directId).participants, conv, x)
            == Expected(t.participants, conv, x, ghost_, user)
  {
    var moved := Moved(t, ghost_, user);
    TargetsAreConversations(t, ghost_, |t.participants|);
    MergeKeepsParticipants(moved, Snapshot(t, ghost_), user, directId);
    if x == user {
      ReassignUser([], t.participants, conv, ghost_, user);
    } else {
      ReassignKeepsOthers([], t.participants, conv, x, ghost_, user);
    }
    WithoutCounts(moved.participants, ghost_, conv, x);
  }

  // ---- messages --------------------------------------------------------------------------------

  predicate Merged(convs: set<ConvId>, target: Target, user: UserId, directId: DirectId) {
    directId(user, target.other) in convs
  }

  /** Where the merge phase leaves a message of conversation `conv`. */
  function Dest(convs: set<ConvId>, targets: seq<Target>, user: UserId, directId: DirectId, conv: ConvId): ConvId {
    if targets == [] then conv
    else
      var before := Dest(convs, targets[..|targets| - 1], user, directId, conv);
      var last := targets[|targets| - 1];
      if before == last.conv && Merged(convs, last, user, directId) then directId(user, last.other) else before
  }

  lemma {:induction false} MergeMovesMessages(
    t: Tables, targets: seq<Target>, user: UserId, directId: DirectId, m: MsgId)
    requires forall x | x in targets :: x.conv in t.conversations
    requires m in t.messages
    ensures
      var r := MergeAll(t, targets, user, directId);
      && m in r.messages
      && r.messages[m]
         == t.messages[m].(conv := Dest(t.conversations.Keys, targets, user, directId, t.messages[m].conv))
  {
    if targets != [] {
      MergeMovesMessages(t, targets[..|targets| - 1], user, directId, m);
    }
  }

  /** Before the deletion nothing references the ghost any more. */
  lemma NothingReferencesGhost(t: Tables, ghost_: UserId, user: UserId, directId: DirectId)
    requires user != ghost_
    ensures
      var r := AfterMerge(t, ghost_, user, directId);
      && (forall m | m in r.messages :: r.messages[m].sender != Some(ghost_))
      && (forall conv :: !IsParticipant(r.participants, conv, ghost_))
  {
    var moved := Moved(t, ghost_, user);
    var r := AfterMerge(t, ghost_, user, directId);
    TargetsAreConversations(t, ghost_, |t.participants|);
    MergeKeepsParticipants(moved, Snapshot(t, ghost_), user, directId);
    forall m | m in r.messages
      ensures r.messages[m].sender != Some(ghost_)
    {
      MergeMovesMessages(moved, Snapshot(t, ghost_), user, directId, m);
    }
    forall conv
      ensures !IsParticipant(r.participants, conv, ghost_)
    {
      ReassignKeepsOthers([], t.participants, conv, ghost_, ghost_, user);
      CountPresent(r.participants, conv, ghost_);
    }
  }

  /** What the migration makes of one message, as long as the ghost is not the user itself. */
  lemma MessageAfterMigration(t: Tables, ghost_: UserId, user: UserId, directId: DirectId, m: MsgId)
    requires user != ghost_ && m in t.messages
    ensures
      var r := Migrate(t, ghost_, user, directId);
      && m in r.messages
      && r.messages[m].content == t.messages[m].content
      && r.messages[m].sender == (if t.messages[m].sender == Some(ghost_) then Some(user) else t.messages[m].sender)
      && r.messages[m].conv == Dest(t.conversations.Keys, Snapshot(t, ghost_), user, directId, t.messages[m].conv)
  {
    var moved := Moved(t, ghost_, user);
    TargetsAreConversations(t, ghost_, |t.participants|);
    MergeMovesMessages(moved, Snapshot(t, ghost_), user, directId, m);
  }

  /**
   No message is lost, and none appears, if and only if the account is not its own ghost or the
   ghost sent nothing: the code does not compare the two ids, and deleting the ghost takes its
   messages along.
   */
  lemma MessagesConservedIff(t: Tables, ghost_: UserId, user: UserId, directId: DirectId)
    ensures Migrate(t, ghost_, user, directId).messages.Keys == t.messages.Keys
            <==> (user != ghost_ || forall m | m in t.messages :: t.messages[m].sender != Some(ghost_))
  {
    var moved := Moved(t, ghost_, user);
    var r := Migrate(t, ghost_, user, directId);
    TargetsAreConversations(t, ghost_, |t.participants|);
    MergeKeepsParticipants(moved, Snapshot(t, ghost_), user, directId);
    forall m | m in t.messages
      ensures m in r.messages <==> (user != ghost_ || t.messages[m].sender != Some(ghost_))
    {
      MergeMovesMessages(moved, Snapshot(t, ghost_), user, directId, m);
    }
  }

  // ---- threads ---------------------------------------------------------------------------------

  /** No thread that is being merged is itself the direct conversation of a merge. */
  ghost predicate DirectsAreNotThreads(targets: seq<Target>, user: UserId, directId: DirectId) {
    forall x, y | x in targets && y in targets :: directId(user, x.other) != y.conv
  }

  /** Some merged entry of the thread `conv` moves its messages to `to`. */
  ghost predicate MovesTo(
    convs: set<ConvId>, targets: seq<Target>, user: UserId, directId: DirectId, conv: ConvId, to: ConvId)
  {
    exists x :: x in targets && x.conv == conv && Merged(convs, x, user, directId) && directId(user, x.other) == to
  }

  /** Nothing moves the messages of a thread. */
  ghost predicate Stays(convs: set<ConvId>, targets: seq<Target>, user: UserId, directId: DirectId, conv: ConvId) {
    forall x | x in targets && x.conv == conv :: !Merged(convs, x, user, directId)
  }

  /**
   A message leaves its conversation only if that is a merged SMS thread, for the direct conversation
   with its peer, or, when that is itself a thread being merged, onward to the direct conversation of
   some merged thread.
   */
  lemma {:induction false} DestIsThreadOrDirect(
    convs: set<ConvId>, targets: seq<Target>, user: UserId, directId: DirectId, conv: ConvId)
    ensures
      var to := Dest(convs, targets, user, directId, conv);
      || (to == conv && Stays(convs, targets, user, directId, conv))
      || MovesTo(convs, targets, user, directId, conv, to)
      || (exists direct, thread ::
            && MovesTo(convs, targets, user, directId, conv, direct)
            && !Stays(convs, targets, user, directId, direct)
            && MovesTo(convs, targets, user, directId, thread, to))
    ensures DirectsAreNotThreads(targets, user, directId) ==>
              var to := Dest(convs, targets, user, directId, conv);
              || (to == conv && Stays(convs, targets, user, directId, conv))
              || MovesTo(convs, targets, user, directId, conv, to)
  {
    if targets != [] {
      var before, last := targets[..|targets| - 1], targets[|targets| - 1];
      assert targets == before + [last];
      DestIsThreadOrDirect(convs, before, user, directId, conv);
      DestStep(convs, before, last, user, directId, conv);
    }
  }

  lemma DestStep(
    convs: set<ConvId>, before: seq<Target>, last: Target, user: UserId, directId: DirectId, conv: ConvId)
    ensures
      var targets := before + [last];
      && (forall from, to :: MovesTo(convs, before, user, directId, from, to) ==>
                               MovesTo(convs, targets, user, directId, from, to))
      && (forall from :: Stays(convs, targets, user, directId, from)
                         <==> Stays(convs, before, user, directId, from)
                              && !(last.conv == from && Merged(convs, last, user, directId)))
      && (Merged(convs, last, user, directId) ==>
            MovesTo(convs, targets, user, directId, last.conv, directId(user, last.other)))
  {
    forall from, to | MovesTo(convs, before, user, directId, from, to)
      ensures MovesTo(convs, before + [last], user, directId, from, to)
    {
      var x :| x in before && x.conv == from && Merged(convs, x, user, directId) && directId(user, x.other) == to;
      assert x in before + [last];
    }
    assert last in before + [last];
    forall from
      ensures Stays(convs, before + [last], user, directId, from)
              <==> Stays(convs, before, user, directId, from)
                   && !(last.conv == from && Merged(convs, last, user, directId))
    {
      assert forall x :: x in before + [last] <==> x in before || x == last;
    }
  }

  /** Messages of a thread that no entry merges stay where they are. */
  lemma {:induction false} StaysPut(
    convs: set<ConvId>, targets: seq<Target>, user: UserId, directId: DirectId, conv: ConvId)
    requires Stays(convs, targets, user, directId, conv)
    ensures Dest(convs, targets, user, directId, conv) == conv
  {
    if targets != [] {
      assert targets == targets[..|targets| - 1] + [targets[|targets| - 1]];
      StaysPut(convs, targets[..|targets| - 1], user, directId, conv);
    }
  }

  lemma {:induction false} MergeMarksThreads(
    t: Tables, targets: seq<Target>, user: UserId, directId: DirectId, conv: ConvId)
    requires forall x | x in targets :: x.conv in t.conversations
    requires conv in t.conversations
    ensures
      var r := MergeAll(t, targets, user, directId).conversations[conv];
      && (r.deleted <==>
            t.conversations[conv].deleted
            || exists x :: x in targets && x.conv == conv && Merged(t.conversations.Keys, x, user, directId))
      && r.kind == (if exists x :: x in targets && x.conv == conv && !Merged(t.conversations.Keys, x, user, directId)
                    then Direct else t.conversations[conv].kind)
  {
    if targets != [] {
      var before, last := targets[..|targets| - 1], targets[|targets| - 1];
      assert targets == before + [last];
      MergeMarksThreads(t, before, user, directId, conv);
    }
  }

  /** After these entries, messages of some conversation are in `conv`. */
  predicate Occupied(
    convs: set<ConvId>, targets: seq<Target>, user: UserId, directId: DirectId, conv: ConvId)
  {
    if targets == [] then true
    else
      var before, last := targets[..|targets| - 1], targets[|targets| - 1];
      if !Merged(convs, last, user, directId) then Occupied(convs, before, user, directId, conv)
      else
        || (last.conv != conv && Occupied(convs, before, user, directId, conv))
        || (directId(user, last.other) == conv && Occupied(convs, before, user, directId, last.conv))
  }

  lemma {:induction false} FirstEntryFinds(
    convs: set<ConvId>, targets: seq<Target>, user: UserId, directId: DirectId, conv: ConvId)
    requires forall x | x in targets :: x.conv != conv
    ensures Occupied(convs, targets, user, directId, conv)
  {
    if targets != [] {
      assert targets[|targets| - 1] in targets;
      FirstEntryFinds(convs, targets[..|targets| - 1], user, directId, conv);
    }
  }

  lemma {:induction false} DestIsOccupied(
    convs: set<ConvId>, targets: seq<Target>, user: UserId, directId: DirectId, conv: ConvId)
    ensures Occupied(convs, targets, user, directId, Dest(convs, targets, user, directId, conv))
  {
    if targets != [] {
      DestIsOccupied(convs, targets[..|targets| - 1], user, directId, conv);
    }
  }

  lemma {:induction false} OccupiedIsDest(
    convs: set<ConvId>, targets: seq<Target>, user: UserId, directId: DirectId, conv: ConvId) returns (from: ConvId)
    requires Occupied(convs, targets, user, directId, conv)
    ensures Dest(convs, targets, user, directId, from) == conv
  {
    if targets == [] {
      from := conv;
    } else {
      var before, last := targets[..|targets| - 1], targets[|targets| - 1];
      if !Merged(convs, last, user, directId) || (last.conv != conv && Occupied(convs, before, user, directId, conv)) {
        from := OccupiedIsDest(convs, before, user, directId, conv);
      } else {
        from := OccupiedIsDest(convs, before, user, directId, last.conv);
      }
    }
  }

  /**
   Entry `j` is at or after the last one of the thread `conv`, its direct conversation is that thread,
   and there is something for it to move. (A first entry of a thread always has something to move.)
   */
  ghost predicate Refills(
    convs: set<ConvId>, targets: seq<Target>, user: UserId, directId: DirectId, conv: ConvId, j: nat)
  {
    && j < |targets| && directId(user, targets[j].other) == conv
    && Occupied(convs, targets[..j], user, directId, targets[j].conv)
    && forall i | j < i < |targets| :: targets[i].conv != conv
  }

  ghost predicate IsRefilled(
    convs: set<ConvId>, targets: seq<Target>, user: UserId, directId: DirectId, conv: ConvId)
  {
    exists j: nat :: Refills(convs, targets, user, directId, conv, j)
  }

  /** A merged thread that no entry refills is no message's destination. */
  lemma {:induction false} EmptiedUnlessRefilled(
    convs: set<ConvId>, targets: seq<Target>, user: UserId, directId: DirectId, target: Target, conv: ConvId)
    requires target in targets
    requires forall x | x in targets && x.conv == target.conv :: Merged(convs, x, user, directId)
    requires !IsRefilled(convs, targets, user, directId, target.conv)
    ensures Dest(convs, targets, user, directId, conv) != target.conv
  {
    hide Occupied;
    var n := |targets| - 1;
    var before, last := targets[..n], targets[n];
    assert last in targets;
    assert !Refills(convs, targets, user, directId, target.conv, n);
    DestIsOccupied(convs, before, user, directId, conv);
    if last.conv != target.conv {
      forall j: nat ensures !Refills(convs, before, user, directId, target.conv, j) {
        if j < n {
          assert before[..j] == targets[..j];
          assert !Refills(convs, targets, user, directId, target.conv, j);
        }
      }
      assert target in before;
      EmptiedUnlessRefilled(convs, before, user, directId, target, conv);
    }
  }

  /** Threads that carry no direct id, as those the server creates, are never refilled. */
  lemma SeparateThreadsAreNotRefilled(
    convs: set<ConvId>, targets: seq<Target>, user: UserId, directId: DirectId, target: Target)
    requires DirectsAreNotThreads(targets, user, directId) && target in targets
    ensures !IsRefilled(convs, targets, user, directId, target.conv)
  {
    forall j: nat ensures !Refills(convs, targets, user, directId, target.conv, j) {
      if j < |targets| {
        assert targets[j] in targets;
      }
    }
  }

  /** What has reached a conversation that no later entry names stays there. */
  lemma {:induction false} DestSettles(
    convs: set<ConvId>, targets: seq<Target>, n: nat, user: UserId, directId: DirectId, conv: ConvId)
    requires n <= |targets|
    requires forall i | n <= i < |targets| :: targets[i].conv != Dest(convs, targets[..n], user, directId, conv)
    ensures Dest(convs, targets, user, directId, conv) == Dest(convs, targets[..n], user, directId, conv)
  {
    if n < |targets| {
      var before := targets[..|targets| - 1];
      assert before[..n] == targets[..n];
      DestSettles(convs, before, n, user, directId, conv);
    } else {
      assert targets[..n] == targets;
    }
  }

  /** What the refilling entry finds in its thread ends up in the refilled one. */
  lemma RefilledIsDest(
    convs: set<ConvId>, targets: seq<Target>, user: UserId, directId: DirectId, conv: ConvId, j: nat, from: ConvId)
    requires conv in convs && Refills(convs, targets, user, directId, conv, j)
    requires Dest(convs, targets[..j], user, directId, from) == targets[j].conv
    ensures Dest(convs, targets, user, directId, from) == conv
  {
    assert targets[..j + 1] == targets[..j] + [targets[j]];
    assert targets[..j + 1][..j] == targets[..j];
    DestSettles(convs, targets, j + 1, user, directId, from);
  }

  ghost predicate HoldsNothing(t: Tables, conv: ConvId) {
    forall m | m in t.messages :: t.messages[m].conv != conv
  }

  lemma MergedThreadIsDeleted(t: Tables, ghost_: UserId, user: UserId, directId: DirectId, target: Target)
    requires target in Snapshot(t, ghost_) && Merged(t.conversations.Keys, target, user, directId)
    ensures
      var r := Migrate(t, ghost_, user, directId);
      target.conv in r.conversations && r.conversations[target.conv].deleted
  {
    var moved := Moved(t, ghost_, user);
    TargetsAreConversations(t, ghost_, |t.participants|);
    MergeMarksThreads(moved, Snapshot(t, ghost_), user, directId, target.conv);
  }

  /** A merged thread ends soft-deleted, and empty unless an entry at or after its last one refills it. */
  lemma MergedThreadIsEmptied(t: Tables, ghost_: UserId, user: UserId, directId: DirectId, target: Target)
    requires user != ghost_
    requires target in Snapshot(t, ghost_) && Merged(t.conversations.Keys, target, user, directId)
    requires !IsRefilled(t.conversations.Keys, Snapshot(t, ghost_), user, directId, target.conv)
    ensures
      var r := Migrate(t, ghost_, user, directId);
      && target.conv in r.conversations && r.conversations[target.conv].deleted
      && HoldsNothing(r, target.conv)
  {
    hide Migrate;
    var targets := Snapshot(t, ghost_);
    var r := Migrate(t, ghost_, user, directId);
    MergedThreadIsDeleted(t, ghost_, user, directId, target);
    SamePeer(t, ghost_, |t.participants|, target);
    NoMessageAppears(t, ghost_, user, directId);
    forall m | m in r.messages
      ensures r.messages[m].conv != target.conv
    {
      MessageAfterMigration(t, ghost_, user, directId, m);
      EmptiedUnlessRefilled(t.conversations.Keys, targets, user, directId, target, t.messages[m].conv);
    }
  }

  lemma NoMessageAppears(t: Tables, ghost_: UserId, user: UserId, directId: DirectId)
    requires user != ghost_
    ensures Migrate(t, ghost_, user, directId).messages.Keys == t.messages.Keys
  {
    MessagesConservedIff(t, ghost_, user, directId);
  }

  /** Otherwise it ends soft-deleted while it holds every message that the refilling entry found in its thread. */
  lemma RefilledThreadHidesMessages(
    t: Tables, ghost_: UserId, user: UserId, directId: DirectId, target: Target, j: nat, m: MsgId)
    requires user != ghost_
    requires target in Snapshot(t, ghost_) && Merged(t.conversations.Keys, target, user, directId)
    requires Refills(t.conversations.Keys, Snapshot(t, ghost_), user, directId, target.conv, j)
    requires m in t.messages
    requires Dest(t.conversations.Keys, Snapshot(t, ghost_)[..j], user, directId, t.messages[m].conv)
             == Snapshot(t, ghost_)[j].conv
    ensures
      var r := Migrate(t, ghost_, user, directId);
      && target.conv in r.conversations && r.conversations[target.conv].deleted
      && m in r.messages && r.messages[m].conv == target.conv
  {
    hide Migrate;
    MergedThreadIsDeleted(t, ghost_, user, directId, target);
    MessageAfterMigration(t, ghost_, user, directId, m);
    TargetsAreConversations(t, ghost_, |t.participants|);
    RefilledIsDest(t.conversations.Keys, Snapshot(t, ghost_), user, directId, target.conv, j, t.messages[m].conv);
  }

  /**
   The exact condition: whatever messages there are, a merged thread ends empty if and only if no entry
   at or after its last one has it as direct conversation and something to move there.
   */
  lemma MergedThreadIsEmptiedIff(t: Tables, ghost_: UserId, user: UserId, directId: DirectId, target: Target)
    requires user != ghost_
    requires target in Snapshot(t, ghost_) && Merged(t.conversations.Keys, target, user, directId)
    ensures (forall ms :: HoldsNothing(Migrate(t.(messages := ms), ghost_, user, directId), target.conv))
            <==> !IsRefilled(t.conversations.Keys, Snapshot(t, ghost_), user, directId, target.conv)
  {
    hide Migrate, Refills, Occupied;
    var targets, convs := Snapshot(t, ghost_), t.conversations.Keys;
    forall ms ensures Snapshot(t.(messages := ms), ghost_) == targets {
      TargetsIgnoreMessages(t, ms, ghost_, |t.participants|);
    }
    if IsRefilled(convs, targets, user, directId, target.conv) {
      var j: nat :| Refills(convs, targets, user, directId, target.conv, j);
      RefillFinds(convs, targets, user, directId, target.conv, j);
      var from := OccupiedIsDest(convs, targets[..j], user, directId, targets[j].conv);
      var ms := map["m" := Message(None, from, "")];
      RefilledThreadHidesMessages(t.(messages := ms), ghost_, user, directId, target, j, "m");
      assert !HoldsNothing(Migrate(t.(messages := ms), ghost_, user, directId), target.conv);
    } else {
      forall ms ensures HoldsNothing(Migrate(t.(messages := ms), ghost_, user, directId), target.conv) {
        MergedThreadIsEmptied(t.(messages := ms), ghost_, user, directId, target);
      }
    }
  }

  lemma RefillFinds(
    convs: set<ConvId>, targets: seq<Target>, user: UserId, directId: DirectId, conv: ConvId, j: nat)
    requires Refills(convs, targets, user, directId, conv, j)
    ensures j < |targets| && Occupied(convs, targets[..j], user, directId, targets[j].conv)
  {
  }

  lemma {:induction false} TargetsIgnoreMessages(t: Tables, ms: map<MsgId, Message>, ghost_: UserId, n: nat)
    requires n <= |t.participants|
    ensures Targets(t.(messages := ms), ghost_, n) == Targets(t, ghost_, n)
  {
    if n > 0 {
      TargetsIgnoreMessages(t, ms, ghost_, n - 1);
    }
  }

  const STRANDED := Tables(
    {"ghost", "peer", "user"}, {"ghost"}, [Participant("thread", "ghost"), Participant("thread", "peer")],
    map["m" := Message(Some("peer"), "thread", "hello")], map["thread" := Conversation(Sms, false)])

  /** Such an input: a client has given an SMS thread the direct id of its own pair. */
  lemma OwnDirectThreadIsStranded()
    ensures
      var r := Migrate(STRANDED, "ghost", "user", (a, b) => "thread");
      && "thread" in r.conversations && r.conversations["thread"].deleted
      && "m" in r.messages && r.messages["m"] == Message(Some("peer"), "thread", "hello")
  {
    var directId: DirectId := (a, b) => "thread";
    var target := Target("thread", "peer");
    assert FirstOther(STRANDED.participants, "thread", "ghost") == Some("peer") by {
      assert STRANDED.participants[1..][0] == Participant("thread", "peer");
    }
    assert Targets(STRANDED, "ghost", 1) == [target];
    assert Snapshot(STRANDED, "ghost") == [target];
    assert [target][..0] == [];
    assert Refills({"thread"}, [target], "user", directId, "thread", 0);
    assert STRANDED.conversations.Keys == {"thread"};
    RefilledThreadHidesMessages(STRANDED, "ghost", "user", directId, target, 0, "m");
    MessageAfterMigration(STRANDED, "ghost", "user", directId, "m");
  }

  /** A thread without an existing direct conversation becomes that conversation and keeps its messages. */
  lemma UnmergedThreadIsUpgraded(t: Tables, ghost_: UserId, user: UserId, directId: DirectId, target: Target)
    requires user != ghost_
    requires target in Snapshot(t, ghost_) && !Merged(t.conversations.Keys, target, user, directId)
    ensures
      var r := Migrate(t, ghost_, user, directId);
      && target.conv in r.conversations && r.conversations[target.conv].kind.Direct?
      && forall m | m in t.messages && t.messages[m].conv == target.conv ::
           m in r.messages && r.messages[m].conv == target.conv
  {
    var targets := Snapshot(t, ghost_);
    var moved := Moved(t, ghost_, user);
    TargetsAreConversations(t, ghost_, |t.participants|);
    MergeMarksThreads(moved, targets, user, directId, target.conv);
    forall m | m in t.messages && t.messages[m].conv == target.conv
      ensures m in Migrate(t, ghost_, user, directId).messages
      ensures Migrate(t, ghost_, user, directId).messages[m].conv == target.conv
    {
      MessageAfterMigration(t, ghost_, user, directId, m);
      SamePeer(t, ghost_, |t.participants|, target);
      StaysPut(t.conversations.Keys, targets, user, directId, target.conv);
    }
  }

  /** All snapshot entries of one thread name the same peer. */
  lemma {:induction false} SamePeer(t: Tables, ghost_: UserId, n: nat, target: Target)
    requires n <= |t.participants| && target in Targets(t, ghost_, |t.participants|)
    ensures forall x | x in Targets(t, ghost_, n) && x.conv == target.conv :: x.other == target.other
  {
    PeerIsFirstOther(t, ghost_, |t.participants|, target);
    forall x | x in Targets(t, ghost_, n) && x.conv == target.conv
      ensures x.other == target.other
    {
      PeerIsFirstOther(t, ghost_, n, x);
    }
  }

  lemma {:induction false} PeerIsFirstOther(t: Tables, ghost_: UserId, n: nat, x: Target)
    requires n <= |t.participants| && x in Targets(t, ghost_, n)
    ensures FirstOther(t.participants, x.conv, ghost_) == Some(x.other)
  {
    if n > 0 && x in Targets(t, ghost_, n - 1) {
      PeerIsFirstOther(t, ghost_, n - 1, x);
    }
  }
}
