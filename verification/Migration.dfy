/**
 The migration of a ghost user into the account that verified its phone number: snapshot, reassign
 participants, reassign messages, upgrade or merge SMS threads, delete the ghost.

 Identifiers are opaque values. `directId` stands for the deterministic conversation id of a pair of
 users, of which nothing is assumed but what a lemma states.
 */
module Migration {
  import opened Prelude

  type UserId = string
  type ConvId = string
  type MsgId = string

  datatype ConvType = Direct | Solo | Sms

  datatype Conversation = Conversation(kind: ConvType, deleted: bool)

  datatype Participant = Participant(conv: ConvId, user: UserId)

  datatype Message = Message(sender: Option<UserId>, conv: ConvId, content: string)

  datatype Target = Target(conv: ConvId, other: UserId)

  datatype Tables = Tables(
    users: set<UserId>, guests: set<UserId>,
    participants: seq<Participant>,            // in the order in which a query yields them
    messages: map<MsgId, Message>,
    conversations: map<ConvId, Conversation>)

  datatype Outcome = NoPhone | NothingToMigrate | Migrated

  // ---- queries ---------------------------------------------------------------------------------

  /** The first participant of `conv` other than `user`. */
  function FirstOther(ps: seq<Participant>, conv: ConvId, user: UserId): Option<UserId> {
    if ps == [] then None
    else if ps[0].conv == conv && ps[0].user != user then Some(ps[0].user)
    else FirstOther(ps[1..], conv, user)
  }

  predicate IsParticipant(ps: seq<Participant>, conv: ConvId, user: UserId) {
    Participant(conv, user) in ps
  }

  // ---- the five phases -------------------------------------------------------------------------

  /** Phase 1: the SMS threads of the ghost and who is on the other side, before anything changes. */
  function Targets(t: Tables, ghost_: UserId, n: nat): seq<Target>
    requires n <= |t.participants|
  {
    if n == 0 then []
    else
      var p := t.participants[n - 1];
      var before := Targets(t, ghost_, n - 1);
      if p.user == ghost_ && p.conv in t.conversations && t.conversations[p.conv].kind.Sms? then
        match FirstOther(t.participants, p.conv, ghost_)
        case Some(other) => before + [Target(p.conv, other)]
        case None => before
      else before
  }

  /**
   Phase 2: each ghost participation becomes the user's, or is deleted when the user already
   participates: among the rows after it, or among those already treated.
   */
  function Reassign(done: seq<Participant>, rest: seq<Participant>, ghost_: UserId, user: UserId): seq<Participant>
    decreases rest
  {
    if rest == [] then done
    else if rest[0].user != ghost_ then Reassign(done + [rest[0]], rest[1..], ghost_, user)
    else if IsParticipant(done + rest, rest[0].conv, user) then Reassign(done, rest[1..], ghost_, user)
    else Reassign(done + [Participant(rest[0].conv, user)], rest[1..], ghost_, user)
  }

  /** Phase 3 */
  function Resend(ms: map<MsgId, Message>, ghost_: UserId, user: UserId): map<MsgId, Message> {
    map m | m in ms :: if ms[m].sender == Some(ghost_) then ms[m].(sender := Some(user)) else ms[m]
  }

  function MoveMessages(ms: map<MsgId, Message>, from: ConvId, to: ConvId): map<MsgId, Message> {
    map m | m in ms :: if ms[m].conv == from then ms[m].(conv := to) else ms[m]
  }

  /** Phase 4, one thread: upgrade it in place, or move its messages to the existing direct thread. */
  function MergeOne(t: Tables, target: Target, direct: ConvId): Tables
    requires target.conv in t.conversations
  {
    if direct !in t.conversations then
      t.(conversations := t.conversations[target.conv := t.conversations[target.conv].(kind := Direct)])
    else
      t.(messages := MoveMessages(t.messages, target.conv, direct),
         conversations := t.conversations[target.conv := t.conversations[target.conv].(deleted := true)])
  }

  function MergeAll(t: Tables, targets: seq<Target>, user: UserId, directId: (UserId, UserId) -> ConvId): (r: Tables)
    requires forall x | x in targets :: x.conv in t.conversations
    ensures r.conversations.Keys == t.conversations.Keys
  {
    if targets == [] then t
    else
      var before := MergeAll(t, targets[..|targets| - 1], user, directId);
      var last := targets[|targets| - 1];
      MergeOne(before, last, directId(user, last.other))
  }

  /** Phase 5: the ghost and, by cascade, whatever still references it. */
  function DeleteUser(t: Tables, user: UserId): Tables {
    Tables(t.users - {user}, t.guests - {user},
           Without(t.participants, user),
           map m | m in t.messages && t.messages[m].sender != Some(user) :: t.messages[m],
           t.conversations)
  }

  function Without(ps: seq<Participant>, user: UserId): seq<Participant> {
    if ps == [] then []
    else (if ps[0].user == user then [] else [ps[0]]) + Without(ps[1..], user)
  }

  lemma {:induction false} TargetsAreConversations(t: Tables, ghost_: UserId, n: nat)
    requires n <= |t.participants|
    ensures forall x | x in Targets(t, ghost_, n) ::
              x.conv in t.conversations && t.conversations[x.conv].kind.Sms? && x.other != ghost_
              && Participant(x.conv, ghost_) in t.participants[..n]
  {
    if n > 0 {
      TargetsAreConversations(t, ghost_, n - 1);
      assert t.participants[..n] == t.participants[..n - 1] + [t.participants[n - 1]];
      OtherDiffers(t.participants, t.participants[n - 1].conv, ghost_);
    }
  }

  lemma {:induction false} OtherDiffers(ps: seq<Participant>, conv: ConvId, user: UserId)
    ensures FirstOther(ps, conv, user) != Some(user)
  {
    if ps != [] {
      OtherDiffers(ps[1..], conv, user);
    }
  }

  /** After phases 2 and 3. */
  function Moved(t: Tables, ghost_: UserId, user: UserId): Tables {
    t.(participants := Reassign([], t.participants, ghost_, user), messages := Resend(t.messages, ghost_, user))
  }

  function AfterMerge(t: Tables, ghost_: UserId, user: UserId, directId: (UserId, UserId) -> ConvId): Tables {
    var targets := Targets(t, ghost_, |t.participants|);
    TargetsAreConversations(t, ghost_, |t.participants|);
    MergeAll(Moved(t, ghost_, user), targets, user, directId)
  }

  function Migrate(t: Tables, ghost_: UserId, user: UserId, directId: (UserId, UserId) -> ConvId): Tables {
    DeleteUser(AfterMerge(t, ghost_, user, directId), ghost_)
  }

  // ---- the handler -----------------------------------------------------------------------------

  class Store {
    var tables: Tables

    constructor (t: Tables)
      ensures tables == t
    {
      tables := t;
    }

    method SnapshotTargets(ghost_: UserId) returns (targets: seq<Target>)
      ensures targets == Targets(tables, ghost_, |tables.participants|)
    {
      targets := [];
      for n := 0 to |tables.participants|
        invariant targets == Targets(tables, ghost_, n)
      {
        var p := tables.participants[n];
        if p.user == ghost_ && p.conv in tables.conversations && tables.conversations[p.conv].kind.Sms? {
          var other := FirstOther(tables.participants, p.conv, ghost_);
          if other.Some? {
            targets := targets + [Target(p.conv, other.value)];
          }
        }
      }
    }

    method ReassignParticipants(ghost_: UserId, user: UserId)
      modifies this
      ensures tables == old(tables).(participants := Reassign([], old(tables).participants, ghost_, user))
    {
      var ps, i := tables.participants, 0;
      ghost var goal := Reassign([], ps, ghost_, user);
      assert ps[..0] == [] && ps[0..] == ps;
      while i < |ps|
        invariant 0 <= i <= |ps|
        invariant Reassign(ps[..i], ps[i..], ghost_, user) == goal
        decreases |ps| - i
      {
        ghost var done, rest := ps[..i], ps[i..];
        assert done + rest == ps && rest[1..] == ps[i + 1..];
        if ps[i].user != ghost_ {
          assert ps[..i + 1] == done + [ps[i]];
          i := i + 1;
        } else if IsParticipant(ps, ps[i].conv, user) {
          var next := ps[..i] + ps[i + 1..];
          assert next[..i] == done && next[i..] == rest[1..];
          ps := next;
        } else {
          var next := ps[i := Participant(ps[i].conv, user)];
          assert next[..i + 1] == done + [Participant(rest[0].conv, user)] && next[i + 1..] == rest[1..];
          ps := next;
          i := i + 1;
        }
      }
      assert ps[..i] == ps && ps[i..] == [];
      tables := tables.(participants := ps);
    }

    method ReassignMessages(ghost_: UserId, user: UserId)
      modifies this
      ensures tables == old(tables).(messages := Resend(old(tables).messages, ghost_, user))
    {
      var before := tables.messages;
      var todo := set m | m in before && before[m].sender == Some(ghost_);
      ghost var all := todo;
      var now := before;
      while todo != {}
        invariant todo <= all && now.Keys == before.Keys
        invariant forall m | m in now ::
                    now[m] == if m in all - todo then before[m].(sender := Some(user)) else before[m]
        decreases |todo|
      {
        var m :| m in todo;
        now := now[m := now[m].(sender := Some(user))];
        todo := todo - {m};
      }
      assert forall m | m in before :: now[m] == Resend(before, ghost_, user)[m];
      assert now == Resend(before, ghost_, user);
      tables := tables.(messages := now);
    }

    method UpgradeOrMerge(targets: seq<Target>, user: UserId, directId: (UserId, UserId) -> ConvId)
      requires forall x | x in targets :: x.conv in tables.conversations
      modifies this
      ensures tables == MergeAll(old(tables), targets, user, directId)
    {
      var i := 0;
      while i < |targets|
        invariant 0 <= i <= |targets|
        invariant forall x | x in targets[..i] :: x.conv in old(tables).conversations
        invariant tables == MergeAll(old(tables), targets[..i], user, directId)
      {
        var target := targets[i];
        var direct := directId(user, target.other);
        assert targets[..i + 1][..i] == targets[..i];
        assert target in targets;
        tables := MergeOne(tables, target, direct);
        i := i + 1;
      }
      assert targets[..i] == targets;
    }

    /** `migrate_phone_user` for the account `user`; `ghostId` maps a phone number to its ghost. */
    method MigratePhoneUser(user: UserId, phone: Option<string>, ghostId: string -> UserId,
                            directId: (UserId, UserId) -> ConvId)
      returns (outcome: Outcome)
      modifies this
      ensures outcome == (if phone.None? || phone.value == "" then NoPhone
                          else if ghostId(phone.value) !in old(tables).users
                                  || ghostId(phone.value) !in old(tables).guests
                          then NothingToMigrate else Migrated)
      ensures tables == if outcome.Migrated? then Migrate(old(tables), ghostId(phone.value), user, directId)
                        else old(tables)
    {
      if phone.None? || phone.value == "" {
        return NoPhone;
      }
      var ghost_ := ghostId(phone.value);
      if ghost_ !in tables.users || ghost_ !in tables.guests {
        return NothingToMigrate;
      }
      TargetsAreConversations(tables, ghost_, |tables.participants|);
      var targets := SnapshotTargets(ghost_);
      ReassignParticipants(ghost_, user);
      ReassignMessages(ghost_, user);
      UpgradeOrMerge(targets, user, directId);
      tables := DeleteUser(tables, ghost_);
      outcome := Migrated;
    }
  }
}
