/** Where outcomes come from: every outcome of a request in every run has a cause, and every cause its effect. */
module WorkerCauses {
  import opened Prelude
  import opened WorkerModel
  import opened WorkerInvariant
  import opened WorkerRuns

  ghost predicate HeldBySender(s: State, r: Id) {
    s.sender.Holding? && s.sender.r == r
  }

  ghost predicate Overdue(s: State, r: Id) {
    r < |s.reqs| && s.now >= s.reqs[r].deadline
  }

  /** The modem reports on the number of `r` while `r` is in flight. */
  ghost predicate ReportsOn(s: State, e: Event, r: Id) {
    e.ReaderConfirm? && s.inFlight == Has(r) && r < |s.reqs| && s.reqs[r].number == e.number
  }

  /**
   The event `e` is why `r` gets the outcome with this reason; no reason stands for success. A failing
   section gives the outcome at a later event, and so does a report of the modem.
   */
  ghost predicate Causes(s: State, e: Event, r: Id, reason: Option<Reason>) {
    match e
    case ReaderConfirm(_, Sent) => ReportsOn(s, e, r) && reason.None?
    case ReaderConfirm(_, Failed(text)) => ReportsOn(s, e, r) && reason == Some(ModemReason(text))
    case ReaderFail(cause) => s.active == Has(r) && reason == Some(cause)
    case StopFail => s.active == Has(r) && reason == Some(ServiceStopping)
    case SenderCheckReady(ready) => !ready && HeldBySender(s, r) && reason == Some(SenderTimeout)
    case CallerTimeout(q) => q == r && Overdue(s, r) && !s.reqs[r].writeStarted && reason == Some(ClientTimeout)
    case SenderWriteBegin => HeldBySender(s, r) && Overdue(s, r) && reason == Some(SenderTimeout)
    case SenderWaitEnd => HeldBySender(s, r) && Overdue(s, r) && reason == Some(SenderTimeout)
    case SenderWriteEnd(ok) => !ok && HeldBySender(s, r) && reason == Some(WriteError)
    case SenderAccept => !s.accepting && HeldBySender(s, r) && reason == Some(ServiceStopping)
    case DrainComplete => s.stopper == DrainHolding(r) && reason == Some(ServiceStopping)
    case _ => false
  }

  /** The causes that act at once. */
  predicate IsDirect(e: Event) {
    match e
    case CallerTimeout(_) => true
    case SenderWriteBegin => true
    case SenderWaitEnd => true
    case SenderWriteEnd(_) => true
    case SenderAccept => true
    case DrainComplete => true
    case _ => false
  }

  ghost predicate Ends(q: Req, reason: Option<Reason>) {
    q.done && q.reason == reason && (q.success <==> reason.None?)
  }

  // ---- one step ----------------------------------------------------------------------------------

  /** A direct cause gives the outcome at once, with its reason. */
  lemma DirectCauseActs(s: State, e: Event, r: Id, reason: Option<Reason>)
    requires Inv(s) && Enabled(s, e) && Outstanding(s, r) && IsDirect(e) && Causes(s, e, r, reason)
    ensures Ends(Next(s, e).reqs[r], reason)
  {
  }

  /** Every other cause leaves the request to a failing section or to the reader, with its reason. */
  lemma IndirectCauseActs(s: State, e: Event, r: Id, reason: Option<Reason>)
    requires Inv(s) && Enabled(s, e) && Outstanding(s, r) && !IsDirect(e) && Causes(s, e, r, reason)
    ensures
      var t := Next(s, e);
      if e.ReaderConfirm? then t == s.(reader := Resolving(r, e.verdict)) && e.verdict.Explanation() == reason
      else t.section.FailTry? && t.section.r == r && Some(t.section.reason) == reason
  {
    match e
    case ReaderConfirm(_, _) =>
    case ReaderFail(_) =>
    case StopFail =>
    case SenderCheckReady(_) =>
      assert s.active == Has(r);
  }

  /** A report that names another number, or comes when nothing is in flight, changes nothing. */
  lemma ForeignReportIsIgnored(s: State, e: Event)
    requires Inv(s) && Enabled(s, e) && e.ReaderConfirm?
    requires forall r: Id :: !ReportsOn(s, e, r)
    ensures Next(s, e) == s
  {
    assert s.inFlight.Has? ==> !ReportsOn(s, e, s.inFlight.id);
  }

  /** The reader gives its verdict to the request in flight, and to nothing if that is gone. */
  lemma ReportTakesEffect(s: State, r: Id)
    requires Inv(s) && Enabled(s, ReaderResolve) && s.reader.r == r
    ensures
      var t := Next(s, ReaderResolve);
      && t.reader.Idle?
      && (if s.inFlight == Has(r)
          then Ends(t.reqs[r], s.reader.verdict.Explanation()) && t.inFlight.Empty?
          else t.reqs == s.reqs && t.inFlight == s.inFlight)
      && forall q: Id | q < |s.reqs| && q != r :: t.reqs[q] == s.reqs[q]
  {
  }

  /** A failing section ends with an outcome for its request, its own unless a report came in between. */
  lemma FailingSectionEnds(s: State)
    requires Inv(s) && Enabled(s, ContinueFail)
    ensures
      var r, t := s.section.r, Next(s, ContinueFail);
      if t.section.Open? then
        && t.reqs[r].done && t.active.Empty?
        && (!s.reqs[r].done ==> Ends(t.reqs[r], Some(s.section.reason)))
      else s.section.FailTry? && t.section == FailFallback(s.section.who, r, s.section.reason) && t.reqs == s.reqs
  {
  }

  /** What may have happened to a request that was unfinished before a step and is finished after it. */
  ghost predicate EndsBy(s: State, e: Event, r: Id, reason: Option<Reason>) {
    || (IsDirect(e) && Causes(s, e, r, reason))
    || (e.ContinueFail? && !s.section.Open? && s.section.r == r && reason == Some(s.section.reason))
    || (e.ReaderResolve? && s.reader.Resolving? && s.reader.r == r && reason == s.reader.verdict.Explanation())
  }

  lemma SenderStepEnds(s: State, e: Event, r: Id)
    requires Enabled(s, e) && OfSender(e) && Outstanding(s, r) && Next(s, e).reqs[r].done
    ensures EndsBy(s, e, r, Next(s, e).reqs[r].reason)
  {
  }

  lemma FailStepEnds(s: State, r: Id)
    requires Enabled(s, ContinueFail) && Outstanding(s, r) && r < |AfterFail(s).reqs| && AfterFail(s).reqs[r].done
    ensures EndsBy(s, ContinueFail, r, AfterFail(s).reqs[r].reason)
  {
  }

  lemma StepEnds(s: State, e: Event, r: Id)
    requires Enabled(s, e) && r < |Next(s, e).reqs| && Next(s, e).reqs[r].done
    requires r < |s.reqs| ==> !s.reqs[r].done
    ensures EndsBy(s, e, r, Next(s, e).reqs[r].reason)
  {
    if OfSender(e) {
      SenderStepEnds(s, e, r);
    } else if e.ContinueFail? {
      hide AfterFail;
      FailKeepsCount(s);
      FailStepEnds(s, r);
    }
  }

  lemma FailKeepsCount(s: State)
    requires !s.section.Open? && s.section.r < |s.reqs|
    ensures |AfterFail(s).reqs| == |s.reqs|
  {
  }

  /** A failing section is opened by a cause, and keeps its request and its reason. */
  lemma StepOpens(s: State, e: Event)
    requires Enabled(s, e) && !Next(s, e).section.Open?
    ensures
      var t := Next(s, e);
      || (!s.section.Open? && t.section.r == s.section.r && t.section.reason == s.section.reason)
      || Causes(s, e, t.section.r, Some(t.section.reason))
  {
  }

  lemma StepResolves(s: State, e: Event)
    requires Enabled(s, e) && Next(s, e).reader.Resolving?
    ensures
      var t := Next(s, e);
      t.reader == s.reader || Causes(s, e, t.reader.r, t.reader.verdict.Explanation())
  {
  }

  // ---- whole runs --------------------------------------------------------------------------------

  ghost predicate CausedAt(ss: seq<State>, es: seq<Event>, k: nat, r: Id, reason: Option<Reason>)
    requires |ss| == |es| + 1 && k < |es|
  {
    Causes(ss[k], es[k], r, reason)
  }

  ghost predicate WasCaused(ss: seq<State>, es: seq<Event>, i: nat, r: Id, reason: Option<Reason>)
    requires |ss| == |es| + 1 && i < |ss|
  {
    exists k: nat :: k < i && CausedAt(ss, es, k, r, reason)
  }

  /**
   In every run every outcome has a cause: success only if SMS_SENT named the request's number while it
   was in flight, a reason of the modem only if SMS_FAILED did, a lost network, a missing SIM or a
   disconnect only if it was active then, a time-out only past its deadline or because the modem was
   not ready, and so on for every reason there is.
   */
  lemma {:induction false} EveryOutcomeHasACause(ss: seq<State>, es: seq<Event>, i: nat, r: Id)
    requires IsRun(ss, es) && i < |ss|
    ensures r < |ss[i].reqs| && ss[i].reqs[r].done ==>
              WasCaused(ss, es, i, r, ss[i].reqs[r].reason) && (ss[i].reqs[r].success <==> ss[i].reqs[r].reason.None?)
    ensures !ss[i].section.Open? && ss[i].section.r == r ==> WasCaused(ss, es, i, r, Some(ss[i].section.reason))
    ensures ss[i].reader.Resolving? && ss[i].reader.r == r ==>
              WasCaused(ss, es, i, r, ss[i].reader.verdict.Explanation())
  {
    hide Inv, Next, Enabled, Causes;
    RunInv(ss, es, i);
    OutcomesAreTwoFaced(ss[i]);
    if i > 0 {
      var s, e, t := ss[i - 1], es[i - 1], ss[i];
      RunInv(ss, es, i - 1);
      EveryOutcomeHasACause(ss, es, i - 1, r);
      InvSettles(s);
      StepEvolves(s, e);
      assert forall reason | WasCaused(ss, es, i - 1, r, reason) :: WasCaused(ss, es, i, r, reason);
      assert forall reason | Causes(s, e, r, reason) :: CausedAt(ss, es, i - 1, r, reason);
      if r < |t.reqs| && t.reqs[r].done {
        if r < |s.reqs| && s.reqs[r].done {
          assert Evolves(s.reqs[r], t.reqs[r]);
        } else {
          StepEnds(s, e, r);
        }
      }
      if !t.section.Open? {
        StepOpens(s, e);
      }
      if t.reader.Resolving? {
        StepResolves(s, e);
      }
    } else {
      NothingYet(ss[0].cap, ss[0].maxWrite);
    }
  }

  lemma OutcomesAreTwoFaced(s: State)
    requires Inv(s)
    ensures forall r: Id | r < |s.reqs| && s.reqs[r].done :: s.reqs[r].success <==> s.reqs[r].reason.None?
  {
  }

  lemma NothingYet(cap: nat, maxWrite: real)
    ensures Init(cap, maxWrite).reqs == [] && Init(cap, maxWrite).section.Open? && Init(cap, maxWrite).reader.Idle?
  {
  }

  /** Success is reported only for a request that was in flight when SMS_SENT named its number. */
  lemma SuccessNeedsConfirmation(ss: seq<State>, es: seq<Event>, i: nat, r: Id) returns (k: nat)
    requires IsRun(ss, es) && i < |ss| && r < |ss[i].reqs| && ss[i].reqs[r].success
    ensures k < i && ReportsOn(ss[k], es[k], r) && es[k].verdict == Sent
  {
    RunInv(ss, es, i);
    EveryOutcomeHasACause(ss, es, i, r);
    k :| k < i && CausedAt(ss, es, k, r, None);
  }

  /** A reason of the modem is reported only for a request that was in flight when SMS_FAILED named its number. */
  lemma ModemFailureNeedsReport(ss: seq<State>, es: seq<Event>, i: nat, r: Id, text: string) returns (k: nat)
    requires IsRun(ss, es) && i < |ss| && r < |ss[i].reqs|
    requires ss[i].reqs[r].done && ss[i].reqs[r].reason == Some(ModemReason(text))
    ensures k < i && ReportsOn(ss[k], es[k], r) && es[k].verdict == Failed(text)
  {
    EveryOutcomeHasACause(ss, es, i, r);
    k :| k < i && CausedAt(ss, es, k, r, Some(ModemReason(text)));
    RunInv(ss, es, k);
    assert Enabled(ss[k], es[k]);
  }

  // ---- admission ---------------------------------------------------------------------------------

  /** A request is admitted exactly when the service accepts, the port is open, the modem ready and there is room. */
  lemma AdmittedIff(s: State, connected: bool, ready: bool)
    ensures Admit(s, connected, ready) == Admitted <==> s.accepting && connected && ready && |s.queue| < s.cap
    ensures Admit(s, connected, ready) == RejectedStopping <==> !s.accepting
    ensures Admit(s, connected, ready) == RejectedNotConnected <==> s.accepting && !connected
    ensures Admit(s, connected, ready) == RejectedNotReady <==> s.accepting && connected && !ready
  {
  }

  /** It is queued last, with its own number and text, unfinished, and due after its timeout; nothing else changes. */
  lemma AdmissionAddsOne(
    s: State, number: string, body: string, timeout: real, connected: bool, ready: bool)
    ensures
      var t := Next(s, Enqueue(number, body, timeout, connected, ready));
      if s.accepting && connected && ready && |s.queue| < s.cap then
        && t == s.(reqs := t.reqs, queue := t.queue)
        && t.queue == s.queue + [|s.reqs|] && |t.reqs| == |s.reqs| + 1 && t.reqs[..|s.reqs|] == s.reqs
        && var q := t.reqs[|s.reqs|];
           && q.number == number && q.body == body && q.admitted == s.now
           && q.deadline == s.now + (if timeout > 0.0 then timeout else 0.0) && q.timeout == q.deadline - s.now
           && !q.done && !q.writeStarted && q.completions == 0
      else t == s
  {
  }
}
