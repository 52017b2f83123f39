/**
 The wire format between the gateway and the modem: the gateway's command builder and event parser,
 the virtual modem's command parser and event frames, and both ends joined over a chunked stream.
 */
module Protocol {
  import opened Prelude
  import opened Text
  import Lines

  // ---- the gateway ---------------------------------------------------------------------------

  datatype SerialEvent =
    | GsmReady | NetworkOk | NetworkLost | SimMissing
    | SmsReceived(number: string, body: string)
    | SmsSent(number: string)
    | SmsFailed(number: string, reason: string)
    | Log(message: string)
    | Unknown(raw: string)

  function ParseLine(raw: string): SerialEvent {
    var line := Strip(raw);
    if line == "" then Unknown(line) else ParseParts(Split(line, '|'), line)
  }

  function ParseParts(parts: seq<string>, line: string): SerialEvent
    requires |parts| >= 1
  {
    var etype := parts[0];
    if etype == "GSM_READY" then GsmReady
    else if etype == "NETWORK_OK" then NetworkOk
    else if etype == "NETWORK_LOST" then NetworkLost
    else if etype == "SIM_MISSING" then SimMissing
    else if etype == "SMS_RECEIVED" && |parts| >= 3 then SmsReceived(parts[1], Join(parts[2..], '|'))
    else if etype == "SMS_SENT" && |parts| >= 2 then SmsSent(parts[1])
    else if etype == "SMS_FAILED" && |parts| >= 3 then SmsFailed(parts[1], parts[2])
    else if etype == "LOG" && |parts| >= 2 then Log(Join(parts[1..], '|'))
    else Unknown(line)
  }

  function SafeBody(body: string): (safe: string)
    ensures '\n' !in safe && '\r' !in safe
  {
    Replace(Replace(body, '\n', ' '), '\r', ' ')
  }

  /** The command without its final newline. */
  function SendSmsLine(number: string, body: string): string {
    Fields("SEND_SMS", '|', Fields(number, '|', SafeBody(body)))
  }

  function BuildSendSms(number: string, body: string): string {
    SendSmsLine(number, body) + ['\n']
  }

  // ---- the virtual modem ---------------------------------------------------------------------

  predicate IsDigit(c: char) {
    '0' <= c <= '9'
  }

  predicate ValidPhoneNumber(number: string) {
    && 8 <= |number| <= 16
    && number[0] == '+'
    && forall i | 1 <= i < |number| :: IsDigit(number[i])
  }

  function Utf8Length(s: string): nat {
    if s == "" then 0
    else
      var u := s[0] as int;
      (if u < 0x80 then 1 else if u < 0x800 then 2 else if u < 0x10000 then 3 else 4) + Utf8Length(s[1..])
  }

  const INBOUND_BODY_MAX_BYTES := 127

  function NormalizeBody(body: string, inbound: bool): Option<string> {
    var normalized := Replace(Replace(body, '\r', ' '), '\n', ' ');
    if Strip(normalized) == "" then None
    else if !inbound then Some(normalized)
    else
      var slashed := Replace(normalized, '|', '/');
      if Utf8Length(slashed) > INBOUND_BODY_MAX_BYTES then None else Some(slashed)
  }

  function ParseSendSms(line: string): Option<(string, string)> {
    var parts := SplitAtMost(line, '|', 2);
    if |parts| != 3 || parts[0] != "SEND_SMS" || !ValidPhoneNumber(parts[1]) then None
    else
      match NormalizeBody(parts[2], false)
      case None => None
      case Some(body) => Some((parts[1], body))
  }

  /** `line.removesuffix("\r")` */
  function RemoveReturn(line: string): string {
    if line != "" && line[|line| - 1] == '\r' then line[..|line| - 1] else line
  }

  function ReceivedLine(number: string, body: string): string {
    Fields("SMS_RECEIVED", '|', Fields(number, '|', body))
  }

  function SentLine(number: string): string {
    Fields("SMS_SENT", '|', number)
  }

  function FailedLine(number: string, reason: string): string {
    Fields("SMS_FAILED", '|', Fields(number, '|', reason))
  }

  // ---- commands: printer and parser ----------------------------------------------------------

  lemma NumberIsPlain(number: string)
    requires ValidPhoneNumber(number)
    ensures '|' !in number && '\n' !in number && '\r' !in number
    ensures !IsSpace(number[0]) && !IsSpace(number[|number| - 1])
  {
    forall i | 0 <= i < |number|
      ensures number[i] != '|' && number[i] != '\n' && number[i] != '\r' && !IsSpace(number[i])
    {
      assert number[i] == '+' || IsDigit(number[i]);
    }
  }

  lemma SafeBodyBlank(body: string)
    ensures Blank(SafeBody(body)) <==> Blank(body)
    ensures SafeBody(SafeBody(body)) == SafeBody(body)
    ensures Replace(Replace(SafeBody(body), '\r', ' '), '\n', ' ') == SafeBody(body)
  {
    var safe := SafeBody(body);
    assert forall i | 0 <= i < |body| :: IsSpace(safe[i]) <==> IsSpace(body[i]);
  }

  /**
   The modem reads back exactly the number and the newline-free body of a command the gateway
   printed, pipes in the body included, if and only if the number is valid and the body not blank.
   */
  lemma CommandRoundTrip(number: string, body: string)
    ensures ParseSendSms(SendSmsLine(number, body)) == Some((number, SafeBody(body)))
            <==> ValidPhoneNumber(number) && !Blank(body)
  {
    SafeBodyBlank(body);
    StripBlank(SafeBody(body));
    if ValidPhoneNumber(number) {
      NumberIsPlain(number);
      SplitThreeAtMost("SEND_SMS", number, SafeBody(body), '|');
    }
  }

  // ---- events: printer and parser ------------------------------------------------------------

  /** `strip` only reaches the last field of a line whose tag and second field are visible. */
  lemma StripFields(tag: string, number: string, last: string)
    requires tag != "" && !IsSpace(tag[0])
    ensures Strip(Fields(tag, '|', Fields(number, '|', last)))
            == Fields(tag, '|', Fields(number, '|', StripRight(last)))
  {
    var head := tag + ['|'] + number + ['|'];
    assert head + last == Fields(tag, '|', Fields(number, '|', last));
    StripPrefixed(head, last);
    assert head + StripRight(last) == Fields(tag, '|', Fields(number, '|', StripRight(last)));
  }

  /** A received message reads back up to trailing white space, whatever pipes its body holds. */
  lemma ReceivedRoundTrip(number: string, body: string)
    requires ValidPhoneNumber(number)
    ensures ParseLine(ReceivedLine(number, body)) == SmsReceived(number, StripRight(body))
  {
    NumberIsPlain(number);
    StripFields("SMS_RECEIVED", number, body);
    SplitThree("SMS_RECEIVED", number, StripRight(body), '|');
    var parts := Split(ReceivedLine(number, StripRight(body)), '|');
    assert parts[2..] == Split(StripRight(body), '|');
    JoinSplit(StripRight(body), '|');
  }

  lemma SentRoundTrip(number: string)
    requires ValidPhoneNumber(number)
    ensures ParseLine(SentLine(number)) == SmsSent(number)
  {
    NumberIsPlain(number);
    StripPrefixed(SentLine(number), "");
    assert SentLine(number) + "" == SentLine(number);
    SplitHead("SMS_SENT", '|', number);
    SplitNone(number, '|');
  }

  lemma FailedParts(parts: seq<string>, line: string)
    requires |parts| >= 3 && parts[0] == "SMS_FAILED"
    ensures ParseParts(parts, line) == SmsFailed(parts[1], parts[2])
  {
  }

  /** A failure frame parses back to its number and to its reason up to the first pipe or trailing space. */
  lemma FailedParses(number: string, reason: string)
    requires ValidPhoneNumber(number)
    ensures ParseLine(FailedLine(number, reason)) == SmsFailed(number, Split(StripRight(reason), '|')[0])
  {
    hide ParseParts;
    NumberIsPlain(number);
    StripFields("SMS_FAILED", number, reason);
    SplitThree("SMS_FAILED", number, StripRight(reason), '|');
    FailedParts(["SMS_FAILED", number] + Split(StripRight(reason), '|'), FailedLine(number, StripRight(reason)));
  }

  /** So the reason survives exactly if it holds no pipe and does not end in white space. */
  lemma FailedRoundTrip(number: string, reason: string)
    requires ValidPhoneNumber(number)
    ensures ParseLine(FailedLine(number, reason)) == SmsFailed(number, reason)
            <==> '|' !in reason && StripRight(reason) == reason
  {
    hide ParseLine, FailedLine;
    FailedParses(number, reason);
    SplitFirst(StripRight(reason), '|');
    StripRightShortens(reason);
  }

  /** What a phone injects comes out as one event: pipes turned to slashes, trailing space dropped. */
  lemma InboundRoundTrip(number: string, body: string)
    requires ValidPhoneNumber(number) && NormalizeBody(body, true).Some?
    ensures
      var sent := NormalizeBody(body, true).value;
      && '\n' !in ReceivedLine(number, sent)
      && ParseLine(ReceivedLine(number, sent)) == SmsReceived(number, StripRight(sent))
      && sent == Replace(SafeBody(body), '|', '/')
  {
    var sent := NormalizeBody(body, true).value;
    NumberIsPlain(number);
    ReceivedRoundTrip(number, sent);
    assert Replace(Replace(body, '\r', ' '), '\n', ' ') == SafeBody(body);
  }

  // ---- both ends over a chunked stream -------------------------------------------------------

  datatype Sms = Sms(number: string, body: string)

  function CommandStream(sends: seq<Sms>): string {
    if sends == [] then "" else BuildSendSms(sends[0].number, sends[0].body) + CommandStream(sends[1..])
  }

  function CommandLines(sends: seq<Sms>): (lines: seq<string>)
    ensures |lines| == |sends|
    ensures forall i | 0 <= i < |sends| :: lines[i] == SendSmsLine(sends[i].number, sends[i].body)
  {
    seq(|sends|, i requires 0 <= i < |sends| => SendSmsLine(sends[i].number, sends[i].body))
  }

  lemma {:induction false} StreamIsLines(sends: seq<Sms>)
    ensures CommandStream(sends) == Lines.Unlines(CommandLines(sends))
  {
    if sends != [] {
      StreamIsLines(sends[1..]);
      assert CommandLines(sends)[1..] == CommandLines(sends[1..]);
      assert CommandLines(sends)[0] + ['\n'] == BuildSendSms(sends[0].number, sends[0].body);
    }
  }

  lemma CommandLineIsPlain(number: string, body: string)
    requires ValidPhoneNumber(number)
    ensures '\n' !in SendSmsLine(number, body)
    ensures RemoveReturn(SendSmsLine(number, body)) == SendSmsLine(number, body)
  {
    NumberIsPlain(number);
    assert '\r' !in SendSmsLine(number, body);
  }

  /** What the modem's loop makes of one complete line. */
  function ReadCommand(line: string): Option<(string, string)> {
    ParseSendSms(RemoveReturn(line))
  }

  lemma ReadsBack(number: string, body: string)
    requires ValidPhoneNumber(number) && !Blank(body)
    ensures ReadCommand(SendSmsLine(number, body)) == Some((number, SafeBody(body)))
  {
    hide ParseSendSms, SendSmsLine, SafeBody, RemoveReturn;
    CommandLineIsPlain(number, body);
    CommandRoundTrip(number, body);
  }

  /**
   End to end: the modem's read loop, fed any chunking of the commands the gateway wrote, sees those
   commands and no others, in order, each with its number and its newline-free body.
   */
  method Deliver(sends: seq<Sms>, chunks: seq<string>) returns (commands: seq<Option<(string, string)>>)
    requires forall i | 0 <= i < |sends| :: ValidPhoneNumber(sends[i].number) && !Blank(sends[i].body)
    requires Lines.Concat(chunks) == CommandStream(sends)
    ensures |commands| == |sends|
    ensures forall i | 0 <= i < |sends| ::
              commands[i] == Some((sends[i].number, SafeBody(sends[i].body)))
  {
    hide ReadCommand, SendSmsLine, SafeBody, ValidPhoneNumber, Blank, CommandStream;
    StreamIsLines(sends);
    forall i | 0 <= i < |sends|
      ensures '\n' !in CommandLines(sends)[i]
    {
      CommandLineIsPlain(sends[i].number, sends[i].body);
    }
    Lines.LinesOfUnlines(CommandLines(sends), "");
    assert Lines.Unlines(CommandLines(sends)) + "" == Lines.Concat(chunks);
    var lines, _ := Lines.ReadAll(chunks);
    commands := [];
    for k := 0 to |lines|
      invariant |commands| == k
      invariant forall i | 0 <= i < k ::
                  commands[i] == Some((sends[i].number, SafeBody(sends[i].body)))
    {
      ReadsBack(sends[k].number, sends[k].body);
      commands := commands + [ReadCommand(lines[k])];
    }
  }

  /** The frames the modem writes. */
  datatype Frame =
    | Inbound(number: string, body: string)
    | Confirmed(number: string)
    | Refused(number: string, reason: string)
    | Ready | Registered | Unregistered | NoSim
    | Logged(message: string)

  function FrameLine(f: Frame): string {
    match f
    case Inbound(number, body) => ReceivedLine(number, body)
    case Confirmed(number) => SentLine(number)
    case Refused(number, reason) => FailedLine(number, reason)
    case Ready => "GSM_READY"
    case Registered => "NETWORK_OK"
    case Unregistered => "NETWORK_LOST"
    case NoSim => "SIM_MISSING"
    case Logged(message) => Fields("LOG", '|', message)
  }

  predicate IsFrame(f: Frame) {
    && (f.Inbound? || f.Confirmed? || f.Refused? ==> ValidPhoneNumber(f.number))
    && '\n' !in FrameLine(f)
  }

  /** What the gateway is meant to take from a frame. */
  function Meaning(f: Frame): SerialEvent {
    match f
    case Inbound(number, body) => SmsReceived(number, StripRight(body))
    case Confirmed(number) => SmsSent(number)
    case Refused(number, reason) => SmsFailed(number, Split(StripRight(reason), '|')[0])
    case Ready => GsmReady
    case Registered => NetworkOk
    case Unregistered => NetworkLost
    case NoSim => SimMissing
    case Logged(message) => Log(StripRight(message))
  }

  function FrameLines(frames: seq<Frame>): (lines: seq<string>)
    ensures |lines| == |frames|
    ensures forall i | 0 <= i < |frames| :: lines[i] == FrameLine(frames[i])
  {
    seq(|frames|, i requires 0 <= i < |frames| => FrameLine(frames[i]))
  }

  /** A line of one bare tag. */
  lemma BareTag(tag: string)
    requires tag != "" && '|' !in tag && !IsSpace(tag[0]) && !IsSpace(tag[|tag| - 1])
    ensures Strip(tag) == tag && Split(tag, '|') == [tag]
  {
    assert tag + "" == tag;
    StripPrefixed(tag, "");
    SplitNone(tag, '|');
  }

  lemma LoggedParts(parts: seq<string>, line: string)
    requires |parts| >= 2 && parts[0] == "LOG"
    ensures ParseParts(parts, line) == Log(Join(parts[1..], '|'))
  {
    hide Join;
  }

  lemma LoggedRoundTrip(message: string)
    ensures Strip(Fields("LOG", '|', message)) == Fields("LOG", '|', StripRight(message))
    ensures ParseLine(Fields("LOG", '|', message)) == Log(StripRight(message))
  {
    hide ParseParts, Split, Join, StripRight;
    var kept := StripRight(message);
    assert "LOG|" + message == Fields("LOG", '|', message);
    StripPrefixed("LOG|", message);
    assert "LOG|" + kept == Fields("LOG", '|', kept);
    SplitHead("LOG", '|', kept);
    JoinSplit(kept, '|');
    var parts := Split(Fields("LOG", '|', kept), '|');
    assert parts[1..] == Split(kept, '|');
    LoggedParts(parts, Fields("LOG", '|', kept));
  }

  /** The loop strips a line before it hands it on, and passes over an empty one. */
  lemma HandledAsMeant(f: Frame)
    requires IsFrame(f)
    ensures Strip(FrameLine(f)) != "" && ParseLine(Strip(FrameLine(f))) == Meaning(f)
  {
    hide ReceivedLine, SentLine, FailedLine, ParseParts, Strip, StripRight, Split, Fields;
    StripTwice(FrameLine(f));
    match f
    case Inbound(number, body) => ReceivedRoundTrip(number, body);
    case Confirmed(number) => SentRoundTrip(number);
    case Refused(number, reason) => FailedParses(number, reason);
    case Logged(message) => LoggedRoundTrip(message);
    case _ => StateFrame(f);
  }

  lemma StateFrame(f: Frame)
    requires f in {Ready, Registered, Unregistered, NoSim}
    ensures ParseLine(FrameLine(f)) == Meaning(f)
  {
    BareTag(FrameLine(f));
  }

  /**
   End to end in the other direction: the gateway's read loop, fed any chunking of the frames the modem
   wrote, hands on exactly their events, in order.
   */
  method Listen(frames: seq<Frame>, chunks: seq<string>) returns (events: seq<SerialEvent>)
    requires forall i | 0 <= i < |frames| :: IsFrame(frames[i])
    requires Lines.Concat(chunks) == Lines.Unlines(FrameLines(frames))
    ensures |events| == |frames|
    ensures forall i | 0 <= i < |frames| :: events[i] == Meaning(frames[i])
  {
    hide FrameLine, ParseLine, Meaning, Strip, ValidPhoneNumber;
    Lines.LinesOfUnlines(FrameLines(frames), "");
    assert Lines.Unlines(FrameLines(frames)) + "" == Lines.Concat(chunks);
    var lines, _ := Lines.ReadAll(chunks);
    events := [];
    for k := 0 to |lines|
      invariant |events| == k
      invariant forall i | 0 <= i < k :: events[i] == Meaning(frames[i])
    {
      HandledAsMeant(frames[k]);
      var line := Strip(lines[k]);
      if line != "" {
        events := events + [ParseLine(line)];
      }
    }
  }
}
