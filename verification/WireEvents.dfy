/** What every line means to the gateway, whoever wrote it: the parser in both directions. */
module WireEvents {
  import opened Prelude
  import opened Text
  import opened Protocol

  // ---- fields ----------------------------------------------------------------------------------

  /** The line is this text, or goes on with a further field. */
  predicate StartsFields(line: string, text: string) {
    line == text || (|text| < |line| && line[..|text|] == text && line[|text|] == '|')
  }

  /** One field comes off a line: what follows splits into the other fields. */
  lemma CutField(line: string) returns (rest: string)
    ensures
      var parts := Split(line, '|');
      && '|' !in parts[0]
      && (|parts| == 1 ==> line == parts[0])
      && (|parts| > 1 ==> line == Fields(parts[0], '|', rest) && Split(rest, '|') == parts[1..])
  {
    var i := Find(line, '|');
    if i < |line| {
      rest := line[i + 1..];
      assert line == Fields(line[..i], '|', rest);
      SplitHead(line[..i], '|', rest);
    } else {
      rest := "";
      SplitNone(line, '|');
    }
  }

  lemma FirstFieldIff(line: string, head: string)
    requires '|' !in head
    ensures Split(line, '|')[0] == head <==> StartsFields(line, head)
  {
    var rest := CutField(line);
    if StartsFields(line, head) {
      if line == head {
        SplitNone(line, '|');
      } else {
        assert line == Fields(head, '|', line[|head| + 1..]);
        SplitHead(head, '|', line[|head| + 1..]);
      }
    }
  }

  /** A line of at least two fields, the first of them `head`, is `head`, a separator and the rest. */
  lemma TwoFieldsIff(line: string, head: string, rest: string)
    requires '|' !in head
    ensures line == Fields(head, '|', rest) <==>
            var parts := Split(line, '|');
            |parts| >= 2 && parts[0] == head && Join(parts[1..], '|') == rest
  {
    var more := CutField(line);
    if line == Fields(head, '|', rest) {
      SplitHead(head, '|', rest);
      JoinSplit(rest, '|');
    } else if |Split(line, '|')| > 1 {
      JoinSplit(more, '|');
    }
  }

  lemma ThreeFieldsIff(line: string, head: string, second: string, rest: string)
    requires '|' !in head
    ensures '|' !in second && line == Fields(head, '|', Fields(second, '|', rest)) <==>
            var parts := Split(line, '|');
            |parts| >= 3 && parts[0] == head && parts[1] == second && Join(parts[2..], '|') == rest
  {
    var parts := Split(line, '|');
    var more := CutField(line);
    TwoFieldsIff(line, head, Fields(second, '|', rest));
    if |parts| >= 2 {
      JoinSplit(more, '|');
      if '|' !in second {
        TwoFieldsIff(more, second, rest);
      }
      var _ := CutField(more);
      assert |parts| >= 3 ==> parts[2..] == parts[1..][1..];
    }
  }

  /** A line whose first two fields are these. */
  lemma SecondFieldIff(line: string, head: string, second: string)
    requires '|' !in head
    ensures '|' !in second && StartsFields(line, Fields(head, '|', second)) <==>
            var parts := Split(line, '|');
            |parts| >= 2 && parts[0] == head && parts[1] == second
  {
    var parts := Split(line, '|');
    var more := CutField(line);
    var text := Fields(head, '|', second);
    if |parts| >= 2 && parts[0] == head {
      var _ := CutField(more);
      if '|' !in second {
        FirstFieldIff(more, second);
        FieldsStart(line, head, second, more);
      }
    } else if StartsFields(line, text) {
      assert line == Fields(head, '|', line[|head| + 1..]);
      SplitHead(head, '|', line[|head| + 1..]);
      assert false;
    }
  }

  lemma FieldsStart(line: string, head: string, second: string, more: string)
    requires line == Fields(head, '|', more)
    ensures StartsFields(line, Fields(head, '|', second)) <==> StartsFields(more, second)
  {
    var n, m := |head| + 1, |second|;
    assert line[n..] == more && line[..n] == head + ['|'];
    if m <= |more| {
      assert line[..n + m] == head + ['|'] + more[..m];
      assert line[..n + m][n..] == more[..m];
    }
    assert Fields(head, '|', second)[n..] == second;
  }

  // ---- events ----------------------------------------------------------------------------------

  /** The lines that stand for an event, by the documented format. */
  predicate StandsFor(line: string, e: SerialEvent) {
    match e
    case GsmReady => StartsFields(line, "GSM_READY")
    case NetworkOk => StartsFields(line, "NETWORK_OK")
    case NetworkLost => StartsFields(line, "NETWORK_LOST")
    case SimMissing => StartsFields(line, "SIM_MISSING")
    case SmsReceived(number, body) => '|' !in number && line == ReceivedLine(number, body)
    case SmsSent(number) => '|' !in number && StartsFields(line, SentLine(number))
    case SmsFailed(number, reason) =>
      '|' !in number && '|' !in reason && StartsFields(line, FailedLine(number, reason))
    case Log(message) => line == Fields("LOG", '|', message)
    case Unknown(_) => false
  }

  lemma FailedIff(line: string, number: string, reason: string)
    ensures StandsFor(line, SmsFailed(number, reason)) <==>
            var parts := Split(line, '|');
            |parts| >= 3 && parts[0] == "SMS_FAILED" && parts[1] == number && parts[2] == reason
  {
    var parts := Split(line, '|');
    var more := CutField(line);
    var last := Fields(number, '|', reason);
    if |parts| >= 2 {
      if '|' !in number {
        SecondFieldIff(more, number, reason);
      }
      FieldsStart(line, parts[0], last, more);
      var _ := CutField(more);
    }
    if StandsFor(line, SmsFailed(number, reason)) {
      StartsWithTag(line, "SMS_FAILED", last);
    }
    if |parts| >= 3 {
      var more2 := CutField(more);
      var _ := CutField(more2);
    }
  }

  lemma StartsWithTag(line: string, tag: string, last: string)
    requires '|' !in tag && StartsFields(line, Fields(tag, '|', last))
    ensures |Split(line, '|')| >= 2 && Split(line, '|')[0] == tag
  {
    assert line == Fields(tag, '|', line[|tag| + 1..]);
    SplitHead(tag, '|', line[|tag| + 1..]);
  }

  /** The event of a stripped line, by what the line says. */
  lemma {:induction false} ParsesTo(line: string, e: SerialEvent)
    requires !e.Unknown?
    ensures ParseParts(Split(line, '|'), line) == e <==> StandsFor(line, e)
  {
    hide Split, Join, StartsFields;
    match e
    case GsmReady => FirstFieldIff(line, "GSM_READY");
    case NetworkOk => FirstFieldIff(line, "NETWORK_OK");
    case NetworkLost => FirstFieldIff(line, "NETWORK_LOST");
    case SimMissing => FirstFieldIff(line, "SIM_MISSING");
    case SmsReceived(number, body) => ThreeFieldsIff(line, "SMS_RECEIVED", number, body);
    case SmsSent(number) => SecondFieldIff(line, "SMS_SENT", number);
    case SmsFailed(number, reason) => FailedIff(line, number, reason);
    case Log(message) => TwoFieldsIff(line, "LOG", message);
  }

  /**
   The gateway takes an event from a line exactly when the line, stripped, stands for it, and so for no
   other; a line that stands for none it reports as unknown.
   */
  lemma ParseLineIff(raw: string, e: SerialEvent)
    ensures ParseLine(raw) == e <==>
            if e.Unknown? then e.raw == Strip(raw) && forall other :: !StandsFor(Strip(raw), other)
            else StandsFor(Strip(raw), e)
  {
    hide ParseParts, StandsFor, Split;
    var line := Strip(raw);
    forall other: SerialEvent
      ensures !other.Unknown? ==> (ParseLine(raw) == other <==> StandsFor(line, other))
      ensures other.Unknown? ==> !StandsFor(line, other)
    {
      if other.Unknown? {
        assert !StandsFor(line, other) by { UnknownStandsForNothing(line, other); }
      } else {
        ParsesTo(line, other);
        if line == "" {
          EmptyLineIsUnknown();
        }
      }
    }
    if ParseLine(raw).Unknown? {
      UnknownKeepsLine(raw);
    }
    assert !ParseLine(raw).Unknown? ==> StandsFor(line, ParseLine(raw));
  }

  lemma UnknownStandsForNothing(line: string, e: SerialEvent)
    requires e.Unknown?
    ensures !StandsFor(line, e)
  {
  }

  lemma EmptyLineIsUnknown()
    ensures ParseParts(Split("", '|'), "") == Unknown("")
  {
  }

  lemma UnknownKeepsLine(raw: string)
    requires ParseLine(raw).Unknown?
    ensures ParseLine(raw) == Unknown(Strip(raw))
  {
  }

  /** An international number: a plus and seven to fifteen digits. */
  lemma PhoneNumberIff(number: string)
    ensures ValidPhoneNumber(number) <==>
            exists digits: string ::
              number == "+" + digits && 7 <= |digits| <= 15 && forall c | c in digits :: c in "0123456789"
  {
    if ValidPhoneNumber(number) {
      var digits := number[1..];
      assert number == "+" + digits;
      forall c | c in digits ensures c in "0123456789" {
        DigitIff(c);
      }
    }
    if digits: string :|
      number == "+" + digits && 7 <= |digits| <= 15 && forall c | c in digits :: c in "0123456789"
    {
      forall i | 1 <= i < |number| ensures IsDigit(number[i]) {
        assert number[i] == digits[i - 1] && digits[i - 1] in digits;
        DigitIff(number[i]);
      }
    }
  }

  lemma DigitIff(c: char)
    ensures IsDigit(c) <==> c in "0123456789"
  {
    if IsDigit(c) {
      assert "0123456789"[c as int - '0' as int] == c;
    }
  }

  // ---- commands --------------------------------------------------------------------------------

  lemma NoMoreCuts(s: string)
    ensures SplitAtMost(s, '|', 0) == [s]
  {
  }

  /** Three parts at most come off a line exactly where its first two separators are. */
  lemma ThreePartsIff(line: string, x: string, y: string, z: string)
    ensures SplitAtMost(line, '|', 2) == [x, y, z]
            <==> '|' !in x && '|' !in y && line == Fields(x, '|', Fields(y, '|', z))
  {
    hide SplitAtMost, Fields;
    var a, b, c := CutTwice(line);
    if SplitAtMost(line, '|', 2) == [x, y, z] {
      assert [a, b, c][0] == x && [a, b, c][1] == y && [a, b, c][2] == z;
    } else if '|' !in x && '|' !in y {
      SplitThreeAtMost(x, y, z, '|');
    }
  }

  lemma CutTwice(line: string) returns (a: string, b: string, c: string)
    ensures var parts := SplitAtMost(line, '|', 2);
            |parts| == 3 ==>
              parts == [a, b, c] && '|' !in a && '|' !in b && line == Fields(a, '|', Fields(b, '|', c))
  {
    hide SplitAtMost, Fields;
    var rest;
    a, rest := CutOnce(line, 1);
    b, c := CutOnce(rest, 0);
    NoMoreCuts(c);
  }

  lemma CutOnce(line: string, most: nat) returns (head: string, rest: string)
    ensures SplitAtMost(line, '|', most + 1) == if '|' in line then [head] + SplitAtMost(rest, '|', most) else [line]
    ensures '|' in line ==> '|' !in head && line == Fields(head, '|', rest)
  {
    hide SplitAtMost;
    var i := Find(line, '|');
    if i < |line| {
      head, rest := line[..i], line[i + 1..];
      assert line == Fields(head, '|', rest);
      SplitHeadAtMost(head, '|', rest, most);
    } else {
      head, rest := "", "";
      SplitNoneAtMost(line, '|', most + 1);
    }
  }

  lemma {:induction false} SplitNoneAtMost(a: string, c: char, most: nat)
    requires c !in a
    ensures SplitAtMost(a, c, most) == [a]
  {
    if a != "" && most > 0 {
      SplitNoneAtMost(a[1..], c, most);
      assert [a[0]] + a[1..] == a;
    }
  }

  /**
   The modem takes a command from a line exactly when the line is one: the tag, a number in international
   format and a body that is not blank, whatever else it holds.
   */
  lemma CommandIff(line: string, number: string, body: string)
    ensures ParseSendSms(line) == Some((number, body)) <==>
            && ValidPhoneNumber(number)
            && exists text: string :: line == Fields("SEND_SMS", '|', Fields(number, '|', text))
                              && !Blank(text) && body == SafeBody(text)
  {
    hide SplitAtMost, ValidPhoneNumber, SafeBody, Fields;
    forall text: string
      ensures NormalizeBody(text, false) == if Blank(text) then None else Some(SafeBody(text))
    {
      BodyIsNormalized(text);
    }
    if ValidPhoneNumber(number) {
      NumberIsPlain(number);
      forall text: string | line == Fields("SEND_SMS", '|', Fields(number, '|', text))
        ensures SplitAtMost(line, '|', 2) == ["SEND_SMS", number, text]
      {
        ThreePartsIff(line, "SEND_SMS", number, text);
      }
    }
    var parts := SplitAtMost(line, '|', 2);
    if |parts| == 3 {
      assert parts == [parts[0], parts[1], parts[2]];
      ThreePartsIff(line, parts[0], parts[1], parts[2]);
    }
  }

  lemma BodyIsNormalized(text: string)
    ensures NormalizeBody(text, false) == if Blank(text) then None else Some(SafeBody(text))
    ensures NormalizeBody(text, true) ==
            if Blank(text) || Utf8Length(Replace(SafeBody(text), '|', '/')) > INBOUND_BODY_MAX_BYTES then None
            else Some(Replace(SafeBody(text), '|', '/'))
  {
    hide Utf8Length;
    assert Replace(Replace(text, '\r', ' '), '\n', ' ') == SafeBody(text);
    StripBlank(SafeBody(text));
    SafeBodyBlank(text);
  }

  // ---- UTF-8 -----------------------------------------------------------------------------------

  /** Section 3 of RFC 3629. */
  function Utf8(c: char): (bytes: seq<int>) {
    var u := c as int;
    if u <= 0x7F then [u]
    else if u <= 0x7FF then [0xC0 + u / 64, 0x80 + u % 64]
    else if u <= 0xFFFF then [0xE0 + u / 4096, 0x80 + u / 64 % 64, 0x80 + u % 64]
    else [0xF0 + u / 262144, 0x80 + u / 4096 % 64, 0x80 + u / 64 % 64, 0x80 + u % 64]
  }

  /** The first byte tells the length, the others continue, and no character is longer than it has to be. */
  lemma Utf8IsWellFormed(c: char)
    ensures
      var b := Utf8(c);
      && (forall i | 1 <= i < |b| :: 0x80 <= b[i] <= 0xBF)
      && match |b|
         case 1 => 0 <= b[0] <= 0x7F
         case 2 => 0xC2 <= b[0] <= 0xDF
         case 3 => 0xE0 <= b[0] <= 0xEF && (b[0] == 0xE0 ==> 0xA0 <= b[1])
         case 4 => 0xF0 <= b[0] <= 0xF4 && (b[0] == 0xF0 ==> 0x90 <= b[1])
         case _ => false
  {
  }

  function Encode(s: string): seq<int> {
    if s == "" then [] else Utf8(s[0]) + Encode(s[1..])
  }

  /** The modem's limit on a body is a limit on its encoding. */
  lemma {:induction false} Utf8LengthIsEncoded(s: string)
    ensures Utf8Length(s) == |Encode(s)|
  {
    if s != "" {
      Utf8LengthIsEncoded(s[1..]);
    }
  }
}
