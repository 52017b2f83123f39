/** The SMS relay: one session row for each phone, driven by incoming messages and operator resets. */
module SmsRelay {
  import opened Prelude
  import Text

  datatype Stage = New | AwaitingTarget | Active | Unknown
  datatype Session = Session(stage: Stage, target: Option<string>, username: Option<string>)
  type Table = map<string, Session>

  /** A user row as the handler reads it; `lookup_number` hides banned users. */
  datatype User = User(username: string, banned: bool, verified: bool)

  /** An incoming message with what the two user queries would return for each number at that moment. */
  datatype Message = Message(number: string, body: string, users: map<string, User>, lookup: map<string, User>)

  datatype Reply = Reply(
    text: string, forwardTo: Option<string>, forwardBody: Option<string>, rejection: Option<string>)

  const WELCOME := "Welcome to SAPOT relay. Send your target number:\n[target] +639XXXXXXXXX"
  const NO_ACCOUNT := "Your number is not registered in SAPOT. Please create an account first."
  const TARGET_NOT_FOUND := "That number is not in SAPOT. Please try another."
  const NEED_TARGET := "Set a target first:\n[target] +639XXXXXXXXX"
  const INVALID_FORMAT := "Bad format. Use:\n[target] +639XXXXXXXXX"
  const NO_ARGUMENT := "Provide a number: [target] +639XXXXXXXXX"
  const BANNED := "This number has been banned by the system"
  const UNVERIFIED := "Please verify your account first."
  const SELF_TARGET := "You cannot set yourself as the target."
  const SMS_MAX := 160

  function Plain(text: string): Reply {
    Reply(text, None, None, None)
  }

  /** Python's `s[:n]`, where a negative bound counts from the end. */
  function Upto(s: string, n: int): string {
    if n >= |s| then s
    else if n >= 0 then s[..n]
    else if |s| + n >= 0 then s[..|s| + n]
    else ""
  }

  function Prefix(sender: string): string {
    "From " + sender + ": "
  }

  /** `_forward_body` */
  function ForwardBody(sender: string, body: string): string {
    var room := SMS_MAX - |Prefix(sender)|;
    Prefix(sender) + if |body| > room then Upto(body, room - 1) + ['\U{2026}'] else body
  }

  /** The forwarded text fits one SMS exactly for senders of at most 152 characters (or 153 and nothing to say). */
  lemma ForwardFitsIff(sender: string, body: string)
    ensures |ForwardBody(sender, body)| <= SMS_MAX <==> |sender| <= 152 || (|sender| == 153 && body == "")
  {
    assert |Prefix(sender)| == |sender| + 7;
  }

  /** The target always sees who wrote, then the message: whole when it fits, else its beginning and an ellipsis. */
  lemma ForwardIsFaithful(sender: string, body: string)
    requires |sender| <= 152
    ensures Prefix(sender) <= ForwardBody(sender, body)
    ensures |body| <= 153 - |sender| ==> ForwardBody(sender, body) == Prefix(sender) + body
    ensures |body| > 153 - |sender| ==>
              && |ForwardBody(sender, body)| == SMS_MAX
              && ForwardBody(sender, body)[|sender| + 7..159] == body[..152 - |sender|]
              && ForwardBody(sender, body)[159] == '\U{2026}'
  {
    assert |Prefix(sender)| == |sender| + 7;
    if |body| > 153 - |sender| {
      var cut := body[..152 - |sender|];
      assert ForwardBody(sender, body) == Prefix(sender) + (cut + ['\U{2026}']);
      assert (Prefix(sender) + (cut + ['\U{2026}']))[|sender| + 7..159] == cut;
    }
  }

  /** `body.lower().startswith("[target]")` */
  function Lower(c: char): char {
    if 'A' <= c <= 'Z' then (c as int + 32) as char else c
  }

  predicate IsCommand(body: string) {
    |body| >= 8 && forall i | 0 <= i < 8 :: Lower(body[i]) == "[target]"[i]
  }

  function FirstSpace(s: string): (i: nat)
    ensures i <= |s|
  {
    if s == "" || Text.IsSpace(s[0]) then 0 else 1 + FirstSpace(s[1..])
  }

  /** What follows the first word, or nothing. */
  function Argument(body: string): Option<string> {
    var rest := Text.Strip(body[FirstSpace(body)..]);
    if rest == "" then None else Some(rest)
  }

  /** `"+"` and at least one digit; `digit` is Python's `str.isdigit` on a character. */
  predicate IsPhone(digit: char -> bool, s: string) {
    |s| >= 2 && s[0] == '+' && forall i | 1 <= i < |s| :: digit(s[i])
  }

  /** The session functions of the database layer. */
  function Opened(table: Table, phone: string): Table {
    if phone in table then table else table[phone := Session(New, None, None)]
  }

  function Cleared(table: Table, phone: string): Table {
    if phone in table then table[phone := Session(New, None, None)] else table
  }

  function Updated(table: Table, phone: string, session: Session): Table {
    if phone in table then table[phone := session] else table
  }

  datatype Outcome = Outcome(table: Table, reply: Reply)

  /** `_cmd_set_target` */
  function SetTarget(digit: char -> bool, table: Table, m: Message, body: string): Outcome {
    match Argument(body)
    case None => Outcome(table, Plain(NO_ARGUMENT))
    case Some(target) =>
      if !IsPhone(digit, target) then Outcome(table, Plain(INVALID_FORMAT))
      else if target == m.number then Outcome(table, Plain(SELF_TARGET))
      else if target !in m.lookup then Outcome(table, Plain(TARGET_NOT_FOUND))
      else
        var username := m.lookup[target].username;
        Outcome(Updated(table, m.number, Session(Active, Some(target), Some(username))),
                Plain("Target: " + username + " (" + target + "). Messages go to them now."))
  }

  function Shown(s: Option<string>): string {
    if s.Some? then s.value else "None"
  }

  /** `_do_forward`: a missing target user echoes the sender's number, without a body. */
  function Forward(table: Table, m: Message, body: string, session: Session): Outcome {
    var name := Shown(session.target);
    if session.target.None? || session.target.value !in m.users then
      Outcome(table, Reply("Target " + name + " does not exist.", Some(m.number), None, None))
    else
      var user := m.users[session.target.value];
      if user.banned then Outcome(table, Plain("This number (" + name + ") has been banned by the system."))
      else if !user.verified then Outcome(table, Plain("Target " + name + " is not verified."))
      else if session.target.value == "" then Outcome(Cleared(table, m.number), Plain(WELCOME))
      else
        Outcome(table, Reply("Forwarded to " + Shown(session.username) + " via SMS & SAPOT app.",
                             session.target, Some(ForwardBody(m.number, body)), None))
  }

  /** The account checks before the session is even read. */
  function Rejection(m: Message): Option<Reply> {
    if m.number !in m.users then Some(Reply(NO_ACCOUNT, None, None, Some("NO_ACCOUNT")))
    else if m.users[m.number].banned then Some(Reply(BANNED, None, None, Some("BANNED_SENDER")))
    else if !m.users[m.number].verified then Some(Reply(UNVERIFIED, None, None, Some("UNVERIFIED_SENDER")))
    else if m.number !in m.lookup then Some(Reply(NO_ACCOUNT, None, None, Some("NO_ACCOUNT")))
    else None
  }

  /** `handle_incoming_sms` */
  function Handle(digit: char -> bool, before: Table, m: Message): Outcome {
    var body := Text.Strip(m.body);
    var rejection := Rejection(m);
    if rejection.Some? then Outcome(before, rejection.value)
    else
      var table := Opened(before, m.number);
      var session := table[m.number];
      if IsCommand(body) then SetTarget(digit, table, m, body)
      else
        match session.stage
        case New => Outcome(Updated(table, m.number, session.(stage := AwaitingTarget)), Plain(WELCOME))
        case AwaitingTarget => Outcome(table, Plain(NEED_TARGET))
        case Active => Forward(table, m, body, session)
        case Unknown => Outcome(Cleared(table, m.number), Plain(WELCOME))
  }

  /** The handler and the session store it updates row by row. */
  class Relay {
    var sessions: Table
    const digit: char -> bool

    constructor (digit: char -> bool)
      ensures sessions == map[] && this.digit == digit
    {
      sessions := map[];
      this.digit := digit;
    }

    method GetSession(phone: string) returns (session: Session)
      modifies this
      ensures sessions == Opened(old(sessions), phone)
      ensures session == sessions[phone]
    {
      if phone !in sessions {
        sessions := sessions[phone := Session(New, None, None)];
      }
      session := sessions[phone];
    }

    /** An update of a row that does not exist changes nothing; a field that is not given stays. */
    method UpdateSession(phone: string, stage: Stage, target: Option<string>, username: Option<string>)
      modifies this
      ensures phone !in old(sessions) ==> sessions == old(sessions)
      ensures phone in old(sessions) ==>
                sessions == old(sessions)[phone := Session(stage,
                    if target.Some? then target else old(sessions)[phone].target,
                    if username.Some? then username else old(sessions)[phone].username)]
    {
      if phone in sessions {
        var row := sessions[phone].(stage := stage);
        if target.Some? {
          row := row.(target := target);
        }
        if username.Some? {
          row := row.(username := username);
        }
        sessions := sessions[phone := row];
      }
    }

    method ResetSession(phone: string)
      modifies this
      ensures sessions == Cleared(old(sessions), phone)
    {
      if phone in sessions {
        sessions := sessions[phone := Session(New, None, None)];
      }
    }

    method CmdSetTarget(m: Message, body: string) returns (reply: Reply)
      modifies this
      ensures Outcome(sessions, reply) == SetTarget(digit, old(sessions), m, body)
    {
      var argument := Argument(body);
      if argument.None? {
        return Plain(NO_ARGUMENT);
      }
      var target := argument.value;
      if !IsPhone(digit, target) {
        return Plain(INVALID_FORMAT);
      }
      if target == m.number {
        return Plain(SELF_TARGET);
      }
      if target !in m.lookup {
        return Plain(TARGET_NOT_FOUND);
      }
      var username := m.lookup[target].username;
      UpdateSession(m.number, Active, Some(target), Some(username));
      reply := Plain("Target: " + username + " (" + target + "). Messages go to them now.");
    }

    method DoForward(m: Message, body: string, session: Session) returns (reply: Reply)
      modifies this
      ensures Outcome(sessions, reply) == Forward(old(sessions), m, body, session)
    {
      var name := Shown(session.target);
      if session.target.None? || session.target.value !in m.users {
        return Reply("Target " + name + " does not exist.", Some(m.number), None, None);
      }
      var user := m.users[session.target.value];
      if user.banned {
        return Plain("This number (" + name + ") has been banned by the system.");
      }
      if !user.verified {
        return Plain("Target " + name + " is not verified.");
      }
      if session.target.value == "" {
        ResetSession(m.number);
        return Plain(WELCOME);
      }
      reply := Reply("Forwarded to " + Shown(session.username) + " via SMS & SAPOT app.",
                     session.target, Some(ForwardBody(m.number, body)), None);
    }

    method HandleIncoming(m: Message) returns (reply: Reply)
      modifies this
      ensures Outcome(sessions, reply) == Handle(digit, old(sessions), m)
    {
      var body := Text.Strip(m.body);
      var rejection := Rejection(m);
      if rejection.Some? {
        return rejection.value;
      }
      var session := GetSession(m.number);
      if IsCommand(body) {
        reply := CmdSetTarget(m, body);
      } else {
        match session.stage
        case New =>
          UpdateSession(m.number, AwaitingTarget, None, None);
          reply := Plain(WELCOME);
        case AwaitingTarget =>
          reply := Plain(NEED_TARGET);
        case Active =>
          reply := DoForward(m, body, session);
        case Unknown =>
          ResetSession(m.number);
          reply := Plain(WELCOME);
      }
    }
  }

  /** Runs: messages from anyone, with the user tables changing freely, and operator resets. */
  datatype Event = Sms(m: Message) | Delete(phone: string)

  function After(digit: char -> bool, table: Table, e: Event): Table {
    match e
    case Sms(m) => Handle(digit, table, m).table
    case Delete(phone) => Cleared(table, phone)
  }

  function Run(digit: char -> bool, events: seq<Event>): Table {
    if events == [] then map[] else After(digit, Run(digit, events[..|events| - 1]), events[|events| - 1])
  }

  /** The sender has an account, verified and not banned, that both queries find. */
  predicate InGoodStanding(m: Message) {
    m.number in m.users && !m.users[m.number].banned && m.users[m.number].verified && m.number in m.lookup
  }

  /** Whoever is not is turned away with the reason, and leaves no trace. */
  lemma TurnedAwayIff(digit: char -> bool, table: Table, m: Message)
    ensures
      var (after, reply) := (Handle(digit, table, m).table, Handle(digit, table, m).reply);
      && (reply.rejection.None? <==> InGoodStanding(m))
      && (reply.rejection.Some? ==> after == table && reply.forwardTo.None? && reply.forwardBody.None?)
      && (reply.rejection == Some("BANNED_SENDER") <==> m.number in m.users && m.users[m.number].banned)
      && (reply.rejection == Some("UNVERIFIED_SENDER") <==>
            m.number in m.users && !m.users[m.number].banned && !m.users[m.number].verified)
      && (reply.rejection == Some("NO_ACCOUNT") <==>
            m.number !in m.users
            || (!m.users[m.number].banned && m.users[m.number].verified && m.number !in m.lookup))
      && (reply.rejection == Some("BANNED_SENDER") ==> reply.text == BANNED)
      && (reply.rejection == Some("UNVERIFIED_SENDER") ==> reply.text == UNVERIFIED)
      && (reply.rejection == Some("NO_ACCOUNT") ==> reply.text == NO_ACCOUNT)
  {
    hide IsPhone, IsCommand, Argument, ForwardBody, Text.Strip;
    assert "BANNED_SENDER"[0] == 'B' && "UNVERIFIED_SENDER"[0] == 'U' && "NO_ACCOUNT"[0] == 'N';
  }

  /** The target that a message sets, read off the message alone. */
  ghost function Accepted(digit: char -> bool, m: Message): Option<string> {
    var target := Argument(Text.Strip(m.body));
    if InGoodStanding(m) && IsCommand(Text.Strip(m.body)) && target.Some? && IsPhone(digit, target.value)
       && target.value != m.number && target.value in m.lookup
    then target else None
  }

  ghost predicate IsReachable(users: map<string, User>, phone: string) {
    phone in users && !users[phone].banned && users[phone].verified
  }

  function RowOf(table: Table, phone: string): Session {
    if phone in table then table[phone] else Session(New, None, None)
  }

  /** What one message does to its sender's row. */
  ghost function RowAfter(digit: char -> bool, row: Session, m: Message): Session {
    if !InGoodStanding(m) then row
    else if IsCommand(Text.Strip(m.body)) then
      if Accepted(digit, m).Some?
      then Session(Active, Accepted(digit, m), Some(m.lookup[Accepted(digit, m).value].username))
      else row
    else if row.stage == New then row.(stage := AwaitingTarget)
    else if row.stage == Unknown || (row.stage == Active && row.target == Some("") && IsReachable(m.users, ""))
    then Session(New, None, None)
    else row
  }

  /** A message touches no row but its sender's, and that one as `RowAfter` says. */
  lemma HandleChangesOneRow(digit: char -> bool, table: Table, m: Message, phone: string)
    ensures RowOf(Handle(digit, table, m).table, phone)
            == if phone == m.number then RowAfter(digit, RowOf(table, phone), m) else RowOf(table, phone)
  {
    hide IsPhone, IsCommand, Argument, ForwardBody, Text.Strip;
  }

  ghost function RowAfterEvent(digit: char -> bool, row: Session, phone: string, e: Event): Session {
    match e
    case Sms(m) => if m.number == phone then RowAfter(digit, row, m) else row
    case Delete(gone) => if gone == phone then Session(New, None, None) else row
  }

  lemma EventChangesOneRow(digit: char -> bool, table: Table, e: Event, phone: string)
    ensures RowOf(After(digit, table, e), phone) == RowAfterEvent(digit, RowOf(table, phone), phone, e)
  {
    hide RowAfter, Handle;
    if e.Sms? {
      HandleChangesOneRow(digit, table, e.m, phone);
    }
  }

  /** A row is blank until a target is accepted, and from then on holds a number that is not its own. */
  ghost predicate RowOk(digit: char -> bool, phone: string, s: Session) {
    match s.stage
    case Active => s.target.Some? && s.username.Some? && IsPhone(digit, s.target.value) && s.target.value != phone
    case Unknown => false
    case _ => s.target.None? && s.username.None?
  }

  ghost function StoredTarget(s: Session): Option<string> {
    if s.stage == Active then s.target else None
  }

  lemma RowAfterIsOk(digit: char -> bool, row: Session, phone: string, e: Event)
    requires RowOk(digit, phone, row)
    ensures RowOk(digit, phone, RowAfterEvent(digit, row, phone, e))
    ensures StoredTarget(RowAfterEvent(digit, row, phone, e))
            == if e.Delete? && e.phone == phone then None
               else if e.Sms? && e.m.number == phone && Accepted(digit, e.m).Some? then Accepted(digit, e.m)
               else StoredTarget(row)
  {
    hide IsCommand, Argument, Text.Strip;
  }

  /** The last target a phone had accepted since its last reset, read off the history alone. */
  ghost function LastTarget(digit: char -> bool, events: seq<Event>, phone: string): Option<string> {
    if events == [] then None
    else
      var e := events[|events| - 1];
      if e.Delete? && e.phone == phone then None
      else if e.Sms? && e.m.number == phone && Accepted(digit, e.m).Some? then Accepted(digit, e.m)
      else LastTarget(digit, events[..|events| - 1], phone)
  }

  /** In every run, every row is sound, and its target is exactly the last one accepted since the last reset. */
  lemma {:induction false} StoredIsLastAccepted(digit: char -> bool, events: seq<Event>, phone: string)
    ensures RowOk(digit, phone, RowOf(Run(digit, events), phone))
    ensures StoredTarget(RowOf(Run(digit, events), phone)) == LastTarget(digit, events, phone)
  {
    hide After, RowOk, StoredTarget, RowAfterEvent, Accepted;
    if events == [] {
      NewRow(digit, phone);
    } else {
      var n := |events| - 1;
      StoredIsLastAccepted(digit, events[..n], phone);
      EventChangesOneRow(digit, Run(digit, events[..n]), events[n], phone);
      RowAfterIsOk(digit, RowOf(Run(digit, events[..n]), phone), phone, events[n]);
    }
  }

  lemma NewRow(digit: char -> bool, phone: string)
    ensures RowOk(digit, phone, Session(New, None, None)) && StoredTarget(Session(New, None, None)).None?
  {
  }

  /** What the caller sends on: only a reply with both a number and a text. */
  ghost predicate IsForwarded(reply: Reply, to: string, text: string) {
    reply.forwardTo == Some(to) && reply.forwardBody == Some(text)
  }

  /** After any history a message goes exactly to the last accepted target, if both ends are in good standing. */
  lemma ForwardsIff(digit: char -> bool, events: seq<Event>, m: Message, to: string, text: string)
    ensures IsForwarded(Handle(digit, Run(digit, events), m).reply, to, text) <==>
            && InGoodStanding(m)
            && !IsCommand(Text.Strip(m.body))
            && LastTarget(digit, events, m.number) == Some(to)
            && IsReachable(m.users, to)
            && text == ForwardBody(m.number, Text.Strip(m.body))
  {
    hide IsCommand, Argument, ForwardBody, LastTarget, Run, Text.Strip;
    StoredIsLastAccepted(digit, events, m.number);
  }

  /** Every forwarded text reaches someone else, in one SMS. */
  lemma ForwardsReachSomeoneElse(digit: char -> bool, events: seq<Event>, m: Message, to: string, text: string)
    requires IsForwarded(Handle(digit, Run(digit, events), m).reply, to, text)
    ensures IsPhone(digit, to) && to != m.number
    ensures |m.number| <= 20 ==> |text| <= SMS_MAX
  {
    hide IsPhone, Run, Handle, ForwardBody;
    ForwardsIff(digit, events, m, to, text);
    StoredIsLastAccepted(digit, events, m.number);
    ForwardFitsIff(m.number, Text.Strip(m.body));
  }

  /** The column widths of the tables the two queries read. */
  ghost predicate WidthsHold(m: Message) {
    forall phone :: phone in m.lookup ==> |phone| <= 20 && |m.lookup[phone].username| <= 50
  }

  ghost predicate RowFits(s: Session) {
    (s.target.Some? ==> |s.target.value| <= 20) && (s.username.Some? ==> |s.username.value| <= 50)
  }

  lemma {:induction false} RunFits(digit: char -> bool, events: seq<Event>, phone: string)
    requires forall e | e in events && e.Sms? :: WidthsHold(e.m)
    ensures RowFits(RowOf(Run(digit, events), phone))
  {
    hide After, IsCommand, Argument, Rejection, IsPhone, Text.Strip;
    if events != [] {
      var n := |events| - 1;
      assert events[n] in events;
      RunFits(digit, events[..n], phone);
      EventChangesOneRow(digit, Run(digit, events[..n]), events[n], phone);
    }
  }

  lemma RejectionFits(m: Message)
    ensures Rejection(m).Some? ==> |Rejection(m).value.text| <= SMS_MAX
  {
  }

  lemma SetTargetFits(digit: char -> bool, table: Table, m: Message, body: string)
    requires WidthsHold(m)
    ensures |SetTarget(digit, table, m, body).reply.text| <= SMS_MAX
  {
    hide Argument, IsPhone;
  }

  lemma ForwardReplyFits(table: Table, m: Message, body: string, session: Session)
    requires RowFits(session)
    ensures |Forward(table, m, body, session).reply.text| <= SMS_MAX
  {
    hide ForwardBody;
  }

  /** In every run, no reply is longer than one SMS. */
  lemma RepliesFit(digit: char -> bool, events: seq<Event>, m: Message)
    requires forall e | e in events && e.Sms? :: WidthsHold(e.m)
    requires WidthsHold(m)
    ensures |Handle(digit, Run(digit, events), m).reply.text| <= SMS_MAX
  {
    hide Run, IsCommand, Rejection, SetTarget, Forward, Text.Strip, WidthsHold;
    RunFits(digit, events, m.number);
    RejectionFits(m);
    var table := Opened(Run(digit, events), m.number);
    SetTargetFits(digit, table, m, Text.Strip(m.body));
    ForwardReplyFits(table, m, Text.Strip(m.body), table[m.number]);
  }
}
