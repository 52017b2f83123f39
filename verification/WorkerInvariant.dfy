/** The inductive invariant of the serial worker, and its preservation by every event. */
module WorkerInvariant {
  import opened Prelude
  import opened WorkerModel

  function SenderHeld(s: State): Slot {
    if s.sender.Holding? then Has(s.sender.r) else Empty
  }

  /** The sender holds a request it was allowed to make active. */
  ghost predicate Accepted(s: State) {
    SenderHeld(s).Has? && !s.sender.At(Popped)
  }

  function DrainHeld(s: State): Slot {
    if s.stopper.DrainHolding? then Has(s.stopper.r) else Empty
  }

  ghost predicate Outstanding(s: State, r: Id) {
    r < |s.reqs| && !s.reqs[r].done
  }

  // ---- the parts of the invariant --------------------------------------------------------------

  /** The oldest request still in the queue, or the next id when the queue is empty. */
  function Front(s: State): int {
    |s.reqs| - |s.queue|
  }

  /** The queue holds the latest admissions in order; whatever was popped is older. */
  ghost predicate IdsOrdered(s: State) {
    && Front(s) >= 0
    && (forall i | 0 <= i < |s.queue| :: s.queue[i] == Front(s) + i)
    && (SenderHeld(s).Has? ==> SenderHeld(s).id < Front(s))
    && (DrainHeld(s).Has? ==> DrainHeld(s).id < Front(s))
    && (SenderHeld(s).Has? && DrainHeld(s).Has? ==>
          && SenderHeld(s) != DrainHeld(s)
          && (Accepted(s) ==> SenderHeld(s).id < DrainHeld(s).id))
    && (s.active.Has? ==> s.active.id < |s.reqs|)
    && (s.inFlight.Has? ==> s.inFlight.id < |s.reqs|)
    && (!s.section.Open? ==> s.section.r < |s.reqs|)
    && (s.reader.Resolving? ==> s.reader.r < |s.reqs|)
  }

  /** An admitted request without an outcome is queued, or in the hands of the sender or the drain. */
  ghost predicate Conserved(s: State) {
    forall r: Id | Outstanding(s, r) ::
      r >= Front(s) || SenderHeld(s) == Has(r) || DrainHeld(s) == Has(r)
  }

  ghost predicate SlotsAgree(s: State)
    requires IdsOrdered(s)
  {
    && (s.active.Has? && Outstanding(s, s.active.id) ==> Accepted(s) && SenderHeld(s) == s.active)
    && (s.inFlight.Has? ==>
          && Outstanding(s, s.inFlight.id)
          && s.reqs[s.inFlight.id].writeStarted
          && s.active == s.inFlight
          && (s.sender.IsWriting() || s.sender.At(Waiting)))
    && (forall r: Id | Outstanding(s, r) && s.reqs[r].writeStarted :: s.inFlight == Has(r))
    && (s.sender.IsWriting() ==> s.section.Open? && s.inFlight == SenderHeld(s))
    && (Accepted(s) && s.active != SenderHeld(s) ==> s.reqs[SenderHeld(s).id].done)
    && (s.sender.IsWriting() || s.sender.At(Waiting) ==> s.reqs[s.sender.r].writeStarted)
    && (s.sender.At(Clearing) ==> s.reqs[s.sender.r].done)
  }

  ghost predicate SectionsAgree(s: State) {
    && (!s.section.Open? ==>
          && s.active == Has(s.section.r)
          && (s.section.who == ByStopper ==> s.stopper.Drained?)
          && (s.section.who == ByReader ==> s.reader.Idle?))
    && (s.section.FailFallback? ==> s.inFlight != Has(s.section.r))
    && (s.sender.At(Failing) <==> !s.section.Open? && s.section.who == BySender)
    && (s.sender.At(Failing) ==> s.section.r == s.sender.r)
    && (!s.section.Open? ==> !s.section.reason.ClientTimeout? && !s.section.reason.ModemReason?)
  }

  ghost predicate OutcomesCounted(s: State) {
    forall r | 0 <= r < |s.reqs| ::
      && s.reqs[r].completions == (if s.reqs[r].done then 1 else 0)
      && (s.reqs[r].success ==> s.reqs[r].done)
      && (s.reqs[r].done ==> (s.reqs[r].success <==> s.reqs[r].reason.None?))
      && (s.reqs[r].done && s.reqs[r].reason == Some(ClientTimeout) ==> !s.reqs[r].writeStarted)
  }

  ghost predicate WritesOrdered(s: State) {
    && StrictlyIncreasing(s.written)
    && (forall i | 0 <= i < |s.written| :: s.written[i] < |s.reqs| && s.reqs[s.written[i]].writeStarted)
    && (s.written != [] ==> s.written[|s.written| - 1] < Front(s))
    && (s.written != [] && SenderHeld(s).Has? ==> s.written[|s.written| - 1] <= SenderHeld(s).id)
    && (s.written != [] && SenderHeld(s).Has?
        && !s.sender.IsWriting() && !s.sender.At(Waiting) && !s.sender.At(Clearing) ==>
          s.written[|s.written| - 1] < SenderHeld(s).id)
  }

  ghost predicate AdmissionAgrees(s: State) {
    && (s.accepting <==> s.stopper.Running?)
    && |s.queue| + (if DrainHeld(s).Has? then 1 else 0) <= s.cap
    && (s.stopper.Drained? || s.stopper.Stopped? ==> s.queue == [])
    && (s.stopper.Stopped? ==> s.active.Empty?)
  }

  ghost predicate Inv(s: State) {
    && IdsOrdered(s)
    && Conserved(s)
    && SlotsAgree(s)
    && SectionsAgree(s)
    && OutcomesCounted(s)
    && WritesOrdered(s)
    && AdmissionAgrees(s)
  }

  lemma InvInit(cap: nat, maxWrite: real)
    ensures Inv(Init(cap, maxWrite))
  {
  }

  /** Completing a request that is not in flight. */
  lemma OutcomeKeeps(s: State, r: Id, success: bool, reason: Option<Reason>)
    requires Inv(s) && Outstanding(s, r) && s.inFlight != Has(r)
    requires success <==> reason.None?
    requires reason == Some(ClientTimeout) ==> !s.reqs[r].writeStarted
    ensures Inv(s.(reqs := s.reqs[r := Outcome(s.reqs[r], success, reason)]))
  {
    var t := s.(reqs := s.reqs[r := Outcome(s.reqs[r], success, reason)]);
    assert forall k: Id | k < |t.reqs| :: t.reqs[k].writeStarted == s.reqs[k].writeStarted;
  }

  /** Completing the request in flight, once the write is over. */
  lemma InFlightOutcomeKeeps(s: State, r: Id, success: bool, reason: Option<Reason>)
    requires Inv(s) && s.inFlight == Has(r) && !s.sender.IsWriting()
    requires (success <==> reason.None?) && reason != Some(ClientTimeout)
    ensures Inv(CompleteInFlight(s, r, success, reason))
  {
    var t := CompleteInFlight(s, r, success, reason);
    assert forall k: Id | k < |t.reqs| :: t.reqs[k].writeStarted == s.reqs[k].writeStarted;
  }

  /** The sender moves to another phase that holds the same request and promises nothing new. */
  lemma PhaseKeeps(s: State, phase: Phase)
    requires Inv(s) && Accepted(s) && !s.sender.IsWriting() && !s.sender.At(Failing)
    requires match phase
             case Clearing => s.reqs[s.sender.r].done
             case CheckReady => s.sender.At(WaitReady)
             case WriteGate => s.sender.At(CheckReady)
             case _ => false
    ensures Inv(s.(sender := Holding(s.sender.r, phase)))
  {
  }

  /** The sender lets go of a request that has its outcome. */
  lemma LetGoKeeps(s: State)
    requires Inv(s) && s.sender.Holding? && s.reqs[s.sender.r].done && !s.sender.At(Failing)
    ensures Inv(s.(sender := LoopTop))
  {
  }

  /** The end of a failing section: the request has its outcome and the slot is cleared. */
  lemma ReleaseKeeps(s: State)
    requires Inv(s) && !s.section.Open? && s.reqs[s.section.r].done
    ensures Inv(Resume(s.(active := Empty, section := Open), s.section.who))
  {
    var t := s.(active := Empty, section := Open);
    match s.section.who
    case BySender => ReleaseBySenderKeeps(s);
    case ByReader => ReleaseByOtherKeeps(s);
    case ByStopper =>
      ReleaseByOtherKeeps(s);
      StoppedKeeps(t);
  }

  lemma ReleaseBySenderKeeps(s: State)
    requires Inv(s) && !s.section.Open? && s.reqs[s.section.r].done && s.section.who == BySender
    ensures Inv(s.(active := Empty, section := Open, sender := LoopTop))
  {
    assert s.inFlight.Empty?;
  }

  lemma ReleaseByOtherKeeps(s: State)
    requires Inv(s) && !s.section.Open? && s.reqs[s.section.r].done && s.section.who != BySender
    ensures Inv(s.(active := Empty, section := Open))
  {
    assert s.inFlight.Empty?;
  }

  lemma StoppedKeeps(s: State)
    requires Inv(s) && s.stopper.Drained? && s.active.Empty? && s.section.Open?
    ensures Inv(s.(stopper := Stopped))
  {
  }

  /** The start of a failing section. */
  lemma EnterKeeps(s: State, who: Who, reason: Reason)
    requires Inv(s) && ActiveLockFree(s) && !reason.ClientTimeout? && !reason.ModemReason?
    requires s.active.Has? && !s.reqs[s.active.id].done
    requires who == ByReader ==> s.reader.Idle?
    requires who == ByStopper ==> s.stopper.Drained?
    requires who == BySender ==> s.sender.At(CheckReady)
    ensures
      var t := s.(section := FailTry(who, s.active.id, reason));
      Inv(if who == BySender then t.(sender := Holding(s.sender.r, Failing)) else t)
  {
  }

  lemma EnqueueKeeps(s: State, number: string, body: string, timeout: real, connected: bool, ready: bool)
    requires Inv(s)
    ensures Inv(DoEnqueue(s, number, body, timeout, connected, ready))
  {
  }

  lemma CallerTimeoutKeeps(s: State, r: Id)
    requires Inv(s) && r < |s.reqs| && ActiveLockFree(s)
    ensures Inv(DoCallerTimeout(s, r))
  {
    if Outstanding(s, r) && !s.reqs[r].writeStarted {
      OutcomeKeeps(s, r, false, Some(ClientTimeout));
    }
  }

  lemma LoopKeeps(s: State)
    requires Inv(s) && s.sender.LoopTop?
    ensures Inv(DoLoop(s))
  {
  }

  lemma GetKeeps(s: State)
    requires Inv(s) && s.sender.Polling?
    ensures Inv(DoGet(s))
  {
    if s.queue == [] {
    } else {
    }
  }

  lemma AcceptKeeps(s: State)
    requires Inv(s) && s.sender.At(Popped) && (ActiveLockFree(s) || !s.accepting)
    ensures Inv(DoAccept(s))
  {
    var r := s.sender.r;
    if !s.accepting {
      if !s.reqs[r].done {
        OutcomeKeeps(s, r, false, Some(ServiceStopping));
      }
      LetGoKeeps(CompleteRequest(s, r, ServiceStopping));
    }
  }

  lemma LeaveWaitKeeps(s: State)
    requires Inv(s) && s.sender.At(WaitReady)
    ensures Inv(DoLeaveWait(s))
  {
    PhaseKeeps(s, if s.reqs[s.sender.r].done then Clearing else CheckReady);
  }

  lemma CheckReadyKeeps(s: State, ready: bool)
    requires Inv(s) && s.sender.At(CheckReady) && (ready || ActiveLockFree(s))
    ensures Inv(DoCheckReady(s, ready))
  {
    if ready {
      PhaseKeeps(s, WriteGate);
    } else if s.active != Has(s.sender.r) || s.reqs[s.sender.r].done {
      LetGoKeeps(s);
    } else {
      EnterKeeps(s, BySender, SenderTimeout);
    }
  }

  /** The write starts: the request takes the in-flight slot. */
  lemma WriteStartKeeps(s: State)
    requires Inv(s) && s.sender.At(WriteGate) && ActiveLockFree(s)
    requires s.active == Has(s.sender.r) && !s.reqs[s.sender.r].done
    ensures
      var r := s.sender.r;
      Inv(s.(inFlight := Has(r), reqs := s.reqs[r := s.reqs[r].(writeStarted := true)],
             sender := Holding(r, Writing(s.now)), written := s.written + [r]))
  {
  }

  lemma WriteBeginKeeps(s: State)
    requires Inv(s) && s.sender.At(WriteGate) && ActiveLockFree(s)
    ensures Inv(DoWriteBegin(s))
  {
    var r := s.sender.r;
    if s.active != Has(r) || s.reqs[r].done {
      PhaseKeeps(s, Clearing);
    } else if s.now >= s.reqs[r].deadline {
      OutcomeKeeps(s, r, false, Some(SenderTimeout));
      PhaseKeeps(CompleteRequest(s, r, SenderTimeout), Clearing);
    } else {
      WriteStartKeeps(s);
    }
  }

  lemma WriteEndKeeps(s: State, ok: bool)
    requires Inv(s) && s.sender.IsWriting()
    ensures Inv(DoWriteEnd(s, ok))
  {
    if ok {
    } else {
      assert SectionsAgree(DoWriteEnd(s, ok));
    }
  }

  lemma WaitEndKeeps(s: State)
    requires Inv(s) && s.sender.At(Waiting)
    ensures Inv(DoWaitEnd(s))
  {
    var r := s.sender.r;
    if s.reqs[r].done {
      PhaseKeeps(s, Clearing);
    } else {
      InFlightOutcomeKeeps(s, r, false, Some(SenderTimeout));
      PhaseKeeps(CompleteInFlight(s, r, false, Some(SenderTimeout)), Clearing);
    }
  }

  lemma ClearKeeps(s: State)
    requires Inv(s) && s.sender.At(Clearing) && ActiveLockFree(s)
    ensures Inv(DoClear(s))
  {
  }

  lemma ConfirmKeeps(s: State, number: string, verdict: Verdict)
    requires Inv(s) && s.reader.Idle? && ReaderFree(s)
    ensures Inv(DoConfirm(s, number, verdict))
  {
  }

  lemma ResolveKeeps(s: State)
    requires Inv(s) && s.reader.Resolving? && InFlightLockFree(s)
    ensures Inv(DoResolve(s))
  {
    if s.inFlight == Has(s.reader.r) {
      InFlightOutcomeKeeps(s, s.reader.r, s.reader.verdict.Sent?, s.reader.verdict.Explanation());
    }
    ReaderIdleKeeps(CompleteInFlight(s, s.reader.r, s.reader.verdict.Sent?, s.reader.verdict.Explanation()));
  }

  /** A finished request leaves the active slot. */
  lemma DropActiveKeeps(s: State)
    requires Inv(s) && ActiveLockFree(s) && s.active.Has? && s.reqs[s.active.id].done
    ensures Inv(s.(active := Empty))
  {
  }

  lemma BeginFailKeeps(s: State, who: Who, reason: Reason)
    requires Inv(s) && ActiveLockFree(s) && !reason.ClientTimeout? && !reason.ModemReason? && who != BySender
    requires who == ByReader ==> s.reader.Idle?
    requires who == ByStopper ==> s.stopper.Drained?
    ensures Inv(BeginFail(s, who, reason))
  {
    if s.active.Has? && !s.reqs[s.active.id].done {
      EnterKeeps(s, who, reason);
    } else {
      if s.active.Has? {
        DropActiveKeeps(s);
      }
      if who == ByStopper {
        StoppedKeeps(s.(active := Empty));
      }
    }
  }

  /** The inner call found the request in flight and completed it. */
  lemma FailHitKeeps(s: State)
    requires Inv(s) && s.section.FailTry? && s.inFlight == Has(s.section.r)
    ensures Inv(AfterFail(s))
  {
    InFlightOutcomeKeeps(s, s.section.r, false, Some(s.section.reason));
    ReleaseKeeps(CompleteInFlight(s, s.section.r, false, Some(s.section.reason)));
  }

  /** The inner call did not; the section goes on to complete the request directly. */
  lemma FailMissKeeps(s: State)
    requires Inv(s) && s.section.FailTry? && s.inFlight != Has(s.section.r)
    ensures Inv(AfterFail(s))
  {
  }

  /** The direct completion checks the flag, so a confirmation that slipped in between stands. */
  lemma FallbackKeeps(s: State)
    requires Inv(s) && s.section.FailFallback?
    ensures Inv(AfterFail(s))
  {
    if !s.reqs[s.section.r].done {
      OutcomeKeeps(s, s.section.r, false, Some(s.section.reason));
    }
    ReleaseKeeps(CompleteRequest(s, s.section.r, s.section.reason));
  }

  lemma AfterFailKeeps(s: State)
    requires Inv(s) && !s.section.Open?
    ensures Inv(AfterFail(s))
  {
    if s.section.FailFallback? {
      FallbackKeeps(s);
    } else if s.inFlight == Has(s.section.r) {
      FailHitKeeps(s);
    } else {
      FailMissKeeps(s);
    }
  }

  lemma CloseKeeps(s: State)
    requires Inv(s) && s.stopper.Running?
    ensures Inv(DoClose(s))
  {
  }

  lemma DrainPopKeeps(s: State)
    requires Inv(s) && s.stopper.Draining?
    ensures Inv(DoDrainPop(s))
  {
    if s.queue == [] {
    } else {
    }
  }

  lemma DrainLetGoKeeps(s: State)
    requires Inv(s) && s.stopper.DrainHolding? && s.reqs[s.stopper.r].done
    ensures Inv(s.(stopper := Draining))
  {
  }

  lemma ReaderIdleKeeps(s: State)
    requires Inv(s)
    ensures Inv(s.(reader := Idle))
  {
  }

  lemma DrainCompleteKeeps(s: State)
    requires Inv(s) && s.stopper.DrainHolding?
    ensures Inv(DoDrainComplete(s))
  {
    if !s.reqs[s.stopper.r].done {
      OutcomeKeeps(s, s.stopper.r, false, Some(ServiceStopping));
    }
    DrainLetGoKeeps(CompleteRequest(s, s.stopper.r, ServiceStopping));
  }

  lemma TickKeeps(s: State, d: real)
    requires Inv(s) && d >= 0.0
    ensures Inv(s.(now := s.now + d))
  {
  }

  /** Every event of every thread keeps the invariant. */
  lemma InvNext(s: State, e: Event)
    requires Inv(s) && Enabled(s, e)
    ensures Inv(Next(s, e))
  {
    hide Inv, DoEnqueue, DoCallerTimeout, DoLoop, DoGet, DoAccept, DoLeaveWait, DoCheckReady, DoWriteBegin, DoWriteEnd,
         DoWaitEnd, DoClear, DoConfirm, DoResolve, BeginFail, AfterFail, DoClose, DoDrainPop, DoDrainComplete;
    match e
    case Enqueue(number, body, timeout, connected, ready) => EnqueueKeeps(s, number, body, timeout, connected, ready);
    case CallerTimeout(r) => CallerTimeoutKeeps(s, r);
    case SenderLoop => LoopKeeps(s);
    case SenderGet => GetKeeps(s);
    case SenderAccept => AcceptKeeps(s);
    case SenderLeaveWait(_) => LeaveWaitKeeps(s);
    case SenderCheckReady(ready) => CheckReadyKeeps(s, ready);
    case SenderWriteBegin => WriteBeginKeeps(s);
    case SenderWriteEnd(ok) => WriteEndKeeps(s, ok);
    case SenderWaitEnd => WaitEndKeeps(s);
    case SenderClear => ClearKeeps(s);
    case ReaderConfirm(number, verdict) => ConfirmKeeps(s, number, verdict);
    case ReaderResolve => ResolveKeeps(s);
    case ReaderFail(cause) => BeginFailKeeps(s, ByReader, cause);
    case ContinueFail => AfterFailKeeps(s);
    case StopClose => CloseKeeps(s);
    case DrainPop => DrainPopKeeps(s);
    case DrainComplete => DrainCompleteKeeps(s);
    case StopFail => BeginFailKeeps(s, ByStopper, ServiceStopping);
    case Tick(d) => TickKeeps(s, d);
  }
}
