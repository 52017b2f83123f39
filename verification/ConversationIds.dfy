/**
 The deterministic conversation ids: a name-based UUID of the two user ids in sorted order, with a
 prefix for SMS threads. The UUID function is uninterpreted and assumed injective on names.
 */
module ConversationIds {
  import opened Text
  import opened Migration
  import opened MigrationLaws

  /** Python's order on strings. */
  predicate LexLeq(a: string, b: string) {
    a == "" || (b != "" && (a[0] < b[0] || (a[0] == b[0] && LexLeq(a[1..], b[1..]))))
  }

  lemma {:induction false} LexTotal(a: string, b: string)
    ensures LexLeq(a, b) || LexLeq(b, a)
    ensures LexLeq(a, b) && LexLeq(b, a) ==> a == b
  {
    if a != "" && b != "" && a[0] == b[0] {
      LexTotal(a[1..], b[1..]);
      assert a == [a[0]] + a[1..] && b == [b[0]] + b[1..];
    }
  }

  /** `":".join(sorted([a, b]))` */
  function DirectName(a: string, b: string): string {
    if LexLeq(a, b) then Fields(a, ':', b) else Fields(b, ':', a)
  }

  function SmsName(a: string, b: string): string {
    Fields("sms", ':', DirectName(a, b))
  }

  ghost predicate InjectiveId(uuid5: string -> ConvId) {
    forall x, y | uuid5(x) == uuid5(y) :: x == y
  }

  ghost predicate Plain(id: string) {
    ':' !in id
  }

  lemma NameParts(a: string, b: string)
    requires Plain(a) && Plain(b)
    ensures Split(DirectName(a, b), ':') == (if LexLeq(a, b) then [a, b] else [b, a])
    ensures |Split(SmsName(a, b), ':')| == 3
  {
    SplitHead(a, ':', b);
    SplitHead(b, ':', a);
    SplitNone(a, ':');
    SplitNone(b, ':');
    SplitHead("sms", ':', DirectName(a, b));
  }

  /** The direct id names the unordered pair: the same from both sides, different for other pairs. */
  lemma DirectIdNamesThePair(uuid5: string -> ConvId, a: string, b: string, c: string, d: string)
    requires InjectiveId(uuid5) && Plain(a) && Plain(b) && Plain(c) && Plain(d)
    ensures uuid5(DirectName(a, b)) == uuid5(DirectName(c, d)) <==> (a == c && b == d) || (a == d && b == c)
  {
    NameParts(a, b);
    NameParts(c, d);
    LexTotal(a, b);
  }

  /** An SMS thread never has the id of a direct conversation. */
  lemma SmsIdIsNotDirect(uuid5: string -> ConvId, a: string, b: string, c: string, d: string)
    requires InjectiveId(uuid5) && Plain(a) && Plain(b) && Plain(c) && Plain(d)
    ensures uuid5(SmsName(a, b)) != uuid5(DirectName(c, d))
  {
    NameParts(a, b);
    NameParts(c, d);
  }

  ghost predicate IsSmsId(uuid5: string -> ConvId, id: ConvId) {
    exists a, b :: Plain(a) && Plain(b) && id == uuid5(SmsName(a, b))
  }

  /** So threads that carry SMS ids satisfy the separation the thread laws ask for. */
  lemma SmsThreadsAreSeparate(uuid5: string -> ConvId, targets: seq<Target>, user: UserId)
    requires InjectiveId(uuid5) && Plain(user)
    requires forall x | x in targets :: Plain(x.other) && IsSmsId(uuid5, x.conv)
    ensures DirectsAreNotThreads(targets, user, (a, b) => uuid5(DirectName(a, b)))
  {
    forall x, y | x in targets && y in targets
      ensures uuid5(DirectName(user, x.other)) != y.conv
    {
      var a, b :| Plain(a) && Plain(b) && y.conv == uuid5(SmsName(a, b));
      SmsIdIsNotDirect(uuid5, a, b, user, x.other);
    }
  }
}
