/** What the migration does to every conversation, said without the snapshot it works from. */
module MigrationThreads {
  import opened Prelude
  import opened Migration
  import opened MigrationLaws

  /** `other` is the first participant of the conversation besides `user`. */
  ghost predicate IsPeer(ps: seq<Participant>, conv: ConvId, user: UserId, other: UserId) {
    exists i ::
      && 0 <= i < |ps| && ps[i] == Participant(conv, other) && other != user
      && forall j | 0 <= j < i && ps[j].conv == conv :: ps[j].user == user
  }

  /** The SMS threads to migrate: the ghost takes part, and somebody else does. */
  ghost predicate IsThread(t: Tables, ghost_: UserId, conv: ConvId, other: UserId) {
    && conv in t.conversations && t.conversations[conv].kind.Sms?
    && Participant(conv, ghost_) in t.participants
    && IsPeer(t.participants, conv, ghost_, other)
  }

  lemma {:induction false} FirstOtherIff(ps: seq<Participant>, conv: ConvId, user: UserId, other: UserId)
    ensures FirstOther(ps, conv, user) == Some(other) <==> IsPeer(ps, conv, user, other)
  {
    if ps != [] {
      var tail := ps[1..];
      FirstOtherIff(tail, conv, user, other);
      if ps[0].conv == conv && ps[0].user != user {
        if IsPeer(ps, conv, user, other) {
          var i :| && 0 <= i < |ps| && ps[i] == Participant(conv, other) && other != user
                   && forall j | 0 <= j < i && ps[j].conv == conv :: ps[j].user == user;
          assert i == 0;
        }
      } else {
        if IsPeer(ps, conv, user, other) {
          var i :| && 0 <= i < |ps| && ps[i] == Participant(conv, other) && other != user
                   && forall j | 0 <= j < i && ps[j].conv == conv :: ps[j].user == user;
          assert tail[i - 1] == ps[i];
          assert forall j | 0 <= j < i - 1 :: tail[j] == ps[j + 1];
        }
        if IsPeer(tail, conv, user, other) {
          var i :| && 0 <= i < |tail| && tail[i] == Participant(conv, other) && other != user
                   && forall j | 0 <= j < i && tail[j].conv == conv :: tail[j].user == user;
          assert ps[i + 1] == tail[i];
          forall j | 0 <= j < i + 1 && ps[j].conv == conv ensures ps[j].user == user {
            assert j > 0 ==> tail[j - 1] == ps[j];
          }
        }
      }
    }
  }

  /** Everybody besides the ghost makes its thread one with a peer. */
  lemma {:induction false} ThreadHasPeer(ps: seq<Participant>, conv: ConvId, user: UserId, x: UserId)
    returns (other: UserId)
    requires Participant(conv, x) in ps && x != user
    ensures IsPeer(ps, conv, user, other) && Participant(conv, other) in ps && other != user
  {
    var i :| 0 <= i < |ps| && ps[i] == Participant(conv, x);
    other := PeerBefore(ps, conv, user, i);
  }

  lemma {:induction false} PeerBefore(ps: seq<Participant>, conv: ConvId, user: UserId, i: nat)
    returns (other: UserId)
    requires i < |ps| && ps[i].conv == conv && ps[i].user != user
    ensures IsPeer(ps, conv, user, other)
  {
    if j :| 0 <= j < i && ps[j].conv == conv && ps[j].user != user {
      other := PeerBefore(ps, conv, user, j);
    } else {
      other := ps[i].user;
      assert ps[i] == Participant(conv, other);
    }
  }

  lemma OnePeer(ps: seq<Participant>, conv: ConvId, user: UserId, x: UserId, y: UserId)
    requires IsPeer(ps, conv, user, x) && IsPeer(ps, conv, user, y)
    ensures x == y
  {
    FirstOtherIff(ps, conv, user, x);
    FirstOtherIff(ps, conv, user, y);
  }

  lemma {:induction false} TargetsIff(t: Tables, ghost_: UserId, n: nat, x: Target)
    requires n <= |t.participants|
    ensures x in Targets(t, ghost_, n) <==>
            && x.conv in t.conversations && t.conversations[x.conv].kind.Sms?
            && Participant(x.conv, ghost_) in t.participants[..n]
            && IsPeer(t.participants, x.conv, ghost_, x.other)
  {
    hide IsPeer;
    if n > 0 {
      var p := t.participants[n - 1];
      TargetsIff(t, ghost_, n - 1, x);
      assert t.participants[..n] == t.participants[..n - 1] + [p];
      FirstOtherIff(t.participants, p.conv, ghost_, x.other);
    }
  }

  /** The snapshot forgets no thread and invents none. */
  lemma SnapshotIsComplete(t: Tables, ghost_: UserId, conv: ConvId, other: UserId)
    ensures Target(conv, other) in Snapshot(t, ghost_) <==> IsThread(t, ghost_, conv, other)
  {
    TargetsIff(t, ghost_, |t.participants|, Target(conv, other));
    assert t.participants[..|t.participants|] == t.participants;
  }

  /** Of these entries, those of one conversation all name `other`. */
  ghost predicate NameOne(targets: seq<Target>, conv: ConvId, other: UserId) {
    forall x | x in targets && x.conv == conv :: x.other == other
  }

  /** The merge phase does one thing to a conversation, however often the snapshot names it. */
  lemma {:induction false} MergeConversation(
    t: Tables, targets: seq<Target>, user: UserId, directId: DirectId, conv: ConvId, other: UserId)
    requires forall x | x in targets :: x.conv in t.conversations
    requires conv in t.conversations && NameOne(targets, conv, other)
    ensures
      var was, r := t.conversations[conv], MergeAll(t, targets, user, directId).conversations;
      && r.Keys == t.conversations.Keys
      && r[conv] == if Target(conv, other) !in targets then was
                    else if directId(user, other) in t.conversations then was.(deleted := true)
                    else was.(kind := Direct)
  {
    if targets != [] {
      var before, last := targets[..|targets| - 1], targets[|targets| - 1];
      assert targets == before + [last];
      MergeConversation(t, before, user, directId, conv, other);
      MergeOneConversation(MergeAll(t, before, user, directId), last, directId(user, last.other), conv);
    }
  }

  lemma MergeOneConversation(t: Tables, target: Target, direct: ConvId, conv: ConvId)
    requires target.conv in t.conversations && conv in t.conversations
    ensures
      var was, r := t.conversations[conv], MergeOne(t, target, direct).conversations;
      && r.Keys == t.conversations.Keys
      && r[conv] == if target.conv != conv then was
                    else if direct in t.conversations then was.(deleted := true) else was.(kind := Direct)
  {
  }

  lemma PeersAreOne(t: Tables, ghost_: UserId, conv: ConvId, other: UserId)
    requires IsThread(t, ghost_, conv, other) || forall x :: !IsThread(t, ghost_, conv, x)
    ensures NameOne(Snapshot(t, ghost_), conv, other)
  {
    forall x | x in Snapshot(t, ghost_) && x.conv == conv ensures x.other == other {
      SnapshotIsComplete(t, ghost_, conv, x.other);
      assert x == Target(conv, x.other);
      OnePeer(t.participants, conv, ghost_, x.other, other);
    }
  }

  /**
   Every conversation survives the migration. A thread of the ghost with somebody else is soft-deleted
   if the account already has a direct conversation with that peer, and otherwise becomes a direct one.
   */
  lemma ThreadAfterMigration(
    t: Tables, ghost_: UserId, user: UserId, directId: DirectId, conv: ConvId, other: UserId)
    requires IsThread(t, ghost_, conv, other)
    ensures
      var r := Migrate(t, ghost_, user, directId);
      && r.conversations.Keys == t.conversations.Keys
      && r.conversations[conv] == if directId(user, other) in t.conversations
                                  then t.conversations[conv].(deleted := true)
                                  else t.conversations[conv].(kind := Direct)
  {
    hide IsThread, MergeAll;
    PeersAreOne(t, ghost_, conv, other);
    SnapshotIsComplete(t, ghost_, conv, other);
    TargetsAreConversations(t, ghost_, |t.participants|);
    MergeConversation(Moved(t, ghost_, user), Snapshot(t, ghost_), user, directId, conv, other);
  }

  /** Every other conversation stays as it is. */
  lemma OtherConversationsStay(t: Tables, ghost_: UserId, user: UserId, directId: DirectId, conv: ConvId)
    requires conv in t.conversations && forall other :: !IsThread(t, ghost_, conv, other)
    ensures
      var r := Migrate(t, ghost_, user, directId);
      conv in r.conversations && r.conversations[conv] == t.conversations[conv]
  {
    hide IsThread, MergeAll;
    PeersAreOne(t, ghost_, conv, "");
    SnapshotIsComplete(t, ghost_, conv, "");
    TargetsAreConversations(t, ghost_, |t.participants|);
    MergeConversation(Moved(t, ghost_, user), Snapshot(t, ghost_), user, directId, conv, "");
  }

  /**
   No SMS thread is left behind: a conversation in which the ghost and somebody else take part is
   afterwards soft-deleted or no SMS thread.
   */
  lemma NoThreadIsLeft(t: Tables, ghost_: UserId, user: UserId, directId: DirectId, conv: ConvId, x: UserId)
    requires conv in t.conversations && Participant(conv, ghost_) in t.participants
    requires Participant(conv, x) in t.participants && x != ghost_
    ensures
      var r := Migrate(t, ghost_, user, directId);
      && conv in r.conversations
      && (r.conversations[conv].kind.Sms? ==> r.conversations[conv].deleted)
      && (t.conversations[conv].deleted ==> r.conversations[conv].deleted)
  {
    hide Migrate;
    var other := ThreadHasPeer(t.participants, conv, ghost_, x);
    if t.conversations[conv].kind.Sms? {
      ThreadAfterMigration(t, ghost_, user, directId, conv, other);
    } else {
      OtherConversationsStay(t, ghost_, user, directId, conv);
    }
  }

  /** No thread has the id of a direct conversation with the peer of a thread. */
  ghost predicate ThreadsAreSeparate(t: Tables, ghost_: UserId, user: UserId, directId: DirectId) {
    forall x, a, y, b | IsThread(t, ghost_, x, a) && IsThread(t, ghost_, y, b) :: directId(user, a) != y
  }

  /**
   Where messages go when threads are separate: those of a thread whose peer has a direct conversation
   with the account go there, and all others stay.
   */
  lemma MessagesFollowTheirThread(
    t: Tables, ghost_: UserId, user: UserId, directId: DirectId, m: MsgId)
    requires user != ghost_ && m in t.messages && ThreadsAreSeparate(t, ghost_, user, directId)
    ensures
      var r, conv := Migrate(t, ghost_, user, directId), t.messages[m].conv;
      && m in r.messages
      && (forall other :: IsThread(t, ghost_, conv, other) && directId(user, other) in t.conversations ==>
            r.messages[m].conv == directId(user, other))
      && ((forall other :: IsThread(t, ghost_, conv, other) ==> directId(user, other) !in t.conversations) ==>
            r.messages[m].conv == conv)
  {
    hide Migrate, IsThread, Dest;
    var targets, conv := Snapshot(t, ghost_), t.messages[m].conv;
    forall x, y | x in targets && y in targets ensures directId(user, x.other) != y.conv {
      SnapshotIsComplete(t, ghost_, x.conv, x.other);
      SnapshotIsComplete(t, ghost_, y.conv, y.other);
    }
    MessageAfterMigration(t, ghost_, user, directId, m);
    DestIsThreadOrDirect(t.conversations.Keys, targets, user, directId, conv);
    forall other | IsThread(t, ghost_, conv, other)
      ensures NameOne(targets, conv, other) && Target(conv, other) in targets
    {
      PeersAreOne(t, ghost_, conv, other);
      SnapshotIsComplete(t, ghost_, conv, other);
    }
    forall x | x in targets && x.conv == conv
      ensures IsThread(t, ghost_, conv, x.other)
    {
      SnapshotIsComplete(t, ghost_, conv, x.other);
    }
  }

  /** Nobody but the ghost loses the account, and nobody gains one. */
  lemma OnlyGhostIsDeleted(t: Tables, ghost_: UserId, user: UserId, directId: DirectId)
    ensures
      var r := Migrate(t, ghost_, user, directId);
      r.users == t.users - {ghost_} && r.guests == t.guests - {ghost_}
  {
    TargetsAreConversations(t, ghost_, |t.participants|);
    MergeKeepsUsers(Moved(t, ghost_, user), Snapshot(t, ghost_), user, directId);
  }

  lemma {:induction false} MergeKeepsUsers(t: Tables, targets: seq<Target>, user: UserId, directId: DirectId)
    requires forall x | x in targets :: x.conv in t.conversations
    ensures
      var r := MergeAll(t, targets, user, directId);
      r.users == t.users && r.guests == t.guests
  {
    if targets != [] {
      MergeKeepsUsers(t, targets[..|targets| - 1], user, directId);
    }
  }
}
