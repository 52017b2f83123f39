/** What the relay answers, read off the history of a phone alone, and how it reads a command. */
module RelayAnswers {
  import opened Prelude
  import opened SmsRelay
  import Text

  // ---- commands --------------------------------------------------------------------------------

  /** The tag counts in any mixture of cases. */
  lemma CommandInAnyCase(body: string)
    ensures IsCommand(body) <==>
            |body| >= 8 && forall i | 0 <= i < 8 :: body[i] == "[target]"[i] || body[i] == "[TARGET]"[i]
  {
    forall i | 0 <= i < 8 && |body| >= 8
      ensures Lower(body[i]) == "[target]"[i] <==> body[i] == "[target]"[i] || body[i] == "[TARGET]"[i]
    {
      LetterInAnyCase(body[i], i);
    }
  }

  lemma LetterInAnyCase(c: char, i: nat)
    requires i < 8
    ensures Lower(c) == "[target]"[i] <==> c == "[target]"[i] || c == "[TARGET]"[i]
  {
  }

  lemma {:induction false} FirstSpaceIs(word: string, rest: string)
    requires forall c | c in word :: !Text.IsSpace(c)
    requires rest != "" ==> Text.IsSpace(rest[0])
    ensures FirstSpace(word + rest) == |word|
  {
    if word == "" {
      assert word + rest == rest;
    } else {
      assert word[0] in word && (word + rest)[1..] == word[1..] + rest;
      FirstSpaceIs(word[1..], rest);
    }
  }

  lemma {:induction false} WordEndsAtSpace(s: string)
    ensures forall c | c in s[..FirstSpace(s)] :: !Text.IsSpace(c)
    ensures FirstSpace(s) < |s| ==> Text.IsSpace(s[FirstSpace(s)])
  {
    if s != "" && !Text.IsSpace(s[0]) {
      WordEndsAtSpace(s[1..]);
      assert s[..FirstSpace(s)] == [s[0]] + s[1..][..FirstSpace(s[1..])];
    }
  }

  /** The text is a word without white space, a gap of nothing else, and `t`. */
  ghost predicate IsWordAnd(body: string, word: string, gap: string, t: string) {
    && body == word + gap + t
    && (forall c | c in word :: !Text.IsSpace(c))
    && gap != "" && Text.Blank(gap)
  }

  /** The argument of a stripped message is whatever follows its first word, and a bare word has none. */
  lemma ArgumentIff(body: string, t: string)
    requires Text.IsTrimmed(body)
    ensures Argument(body) == Some(t) <==>
            t != "" && Text.IsTrimmed(t) && exists word, gap :: IsWordAnd(body, word, gap, t)
  {
    hide Text.Strip, FirstSpace;
    var i := FirstSpace(body);
    var rest := body[i..];
    WordEndsAtSpace(body);
    Text.StripIff(rest, Text.Strip(rest));
    if Argument(body) == Some(t) {
      var a, b :| Text.Blank(a) && Text.Blank(b) && rest == a + t + b;
      assert body == body[..i] + a + t + b;
      assert IsWordAnd(body, body[..i], a, t);
    }
    if t != "" && Text.IsTrimmed(t) && exists word, gap :: IsWordAnd(body, word, gap, t) {
      var word, gap :| IsWordAnd(body, word, gap, t);
      assert body == word + (gap + t) && (gap + t)[0] == gap[0];
      FirstSpaceIs(word, gap + t);
      assert rest == gap + t + "";
      Text.Surrounded(gap, t, "");
    }
  }

  lemma PhoneIff(digit: char -> bool, s: string)
    ensures IsPhone(digit, s) <==>
            exists digits: string :: s == "+" + digits && digits != "" && forall c | c in digits :: digit(c)
  {
    if IsPhone(digit, s) {
      assert s == "+" + s[1..];
      assert forall c | c in s[1..] :: digit(c);
    }
    if digits: string :| s == "+" + digits && digits != "" && forall c | c in digits :: digit(c) {
      assert forall i | 1 <= i < |s| :: s[i] == digits[i - 1] && digits[i - 1] in digits;
    }
  }

  /** Every command is answered, and nothing is forwarded. */
  lemma CommandIsAnswered(digit: char -> bool, table: Table, m: Message)
    requires InGoodStanding(m) && IsCommand(Text.Strip(m.body))
    ensures
      var argument := Argument(Text.Strip(m.body));
      Handle(digit, table, m).reply == Plain(
        if argument.None? then NO_ARGUMENT
        else if Accepted(digit, m).Some?
        then "Target: " + m.lookup[argument.value].username + " (" + argument.value + "). Messages go to them now."
        else if argument.value == m.number && IsPhone(digit, m.number) then SELF_TARGET
        else if IsPhone(digit, argument.value) then TARGET_NOT_FOUND
        else INVALID_FORMAT)
  {
    hide IsPhone, IsCommand, Argument, Text.Strip;
  }

  // ---- answers -----------------------------------------------------------------------------------

  /** The phone has written since its last reset, other than a command. */
  ghost predicate Greeted(events: seq<Event>, phone: string) {
    if events == [] then false
    else
      match events[|events| - 1]
      case Delete(gone) => gone != phone && Greeted(events[..|events| - 1], phone)
      case Sms(m) =>
        || (m.number == phone && InGoodStanding(m) && !IsCommand(Text.Strip(m.body)))
        || Greeted(events[..|events| - 1], phone)
  }

  /** The name under which the last target was found when it was accepted. */
  ghost function LastName(digit: char -> bool, events: seq<Event>, phone: string): Option<string> {
    if events == [] then None
    else
      match events[|events| - 1]
      case Delete(gone) => if gone == phone then None else LastName(digit, events[..|events| - 1], phone)
      case Sms(m) =>
        if m.number == phone && Accepted(digit, m).Some? then Some(m.lookup[Accepted(digit, m).value].username)
        else LastName(digit, events[..|events| - 1], phone)
  }

  ghost function StageAfter(digit: char -> bool, events: seq<Event>, phone: string): Stage {
    if LastTarget(digit, events, phone).Some? then Active else if Greeted(events, phone) then AwaitingTarget else New
  }

  ghost function History(digit: char -> bool, events: seq<Event>, phone: string): Session {
    Session(StageAfter(digit, events, phone), LastTarget(digit, events, phone), LastName(digit, events, phone))
  }

  /** In every run the row of a phone is its history: stage, target and name. */
  lemma {:induction false} RowIsHistory(digit: char -> bool, events: seq<Event>, phone: string)
    ensures RowOf(Run(digit, events), phone) == History(digit, events, phone)
  {
    if events != [] {
      var n := |events| - 1;
      RowIsHistory(digit, events[..n], phone);
      StoredIsLastAccepted(digit, events[..n], phone);
      EventChangesOneRow(digit, Run(digit, events[..n]), events[n], phone);
      HistoryStep(digit, events, phone);
    }
  }

  lemma HistoryStep(digit: char -> bool, events: seq<Event>, phone: string)
    requires events != []
    requires RowOk(digit, phone, History(digit, events[..|events| - 1], phone))
    ensures History(digit, events, phone)
            == RowAfterEvent(digit, History(digit, events[..|events| - 1], phone), phone, events[|events| - 1])
  {
    hide IsCommand, Argument, Text.Strip, InGoodStanding;
  }

  /** What the relay answers to a message that is no command: it depends on the phone's history alone. */
  lemma AnswerIs(digit: char -> bool, events: seq<Event>, m: Message)
    requires InGoodStanding(m) && !IsCommand(Text.Strip(m.body))
    ensures
      var reply := Handle(digit, Run(digit, events), m).reply;
      match LastTarget(digit, events, m.number)
      case None => reply == Plain(if Greeted(events, m.number) then NEED_TARGET else WELCOME)
      case Some(to) =>
        if to !in m.users then reply == Reply("Target " + to + " does not exist.", Some(m.number), None, None)
        else if m.users[to].banned then reply == Plain("This number (" + to + ") has been banned by the system.")
        else if !m.users[to].verified then reply == Plain("Target " + to + " is not verified.")
        else
          var name := LastName(digit, events, m.number);
          && name.Some?
          && reply == Reply("Forwarded to " + name.value + " via SMS & SAPOT app.", Some(to),
                            Some(ForwardBody(m.number, Text.Strip(m.body))), None)
  {
    hide IsCommand, Argument, ForwardBody, Greeted, LastTarget, LastName, Run, Text.Strip;
    RowIsHistory(digit, events, m.number);
    StoredIsLastAccepted(digit, events, m.number);
  }
}
