/**
 The outbound half of the GSM gateway's serial worker as a step system.

 Any number of callers, one sender thread, one reader thread and one stopping thread share a
 bounded queue, an "active" slot, an "in-flight" slot and the completion flags of the requests.
 One event is one lock-protected section of one thread, and events interleave arbitrarily.

 A section that calls another one while it holds the active lock is split at the inner lock, so
 the outer section is a state of its own (`Section`); the serial write, which holds the active and
 the in-flight lock for as long as the port takes, is a state of the sender (`Writing`).
 `connected` and `gsm_ready` are written by the reader without a lock: every read of them is an
 arbitrary boolean carried by the event.
 */
module WorkerModel {
  import opened Prelude

  type Id = nat  // requests are numbered in the order in which the queue admitted them

  datatype Reason =
    | ServiceStopping | SenderTimeout | ClientTimeout | WriteError
    | NetworkLost | SimMissing | SerialDisconnected
    | ModemReason(text: string)

  /** `completions` counts the assignments of the outcome, so that "exactly once" can be stated. */
  datatype Req = Req(
    number: string, body: string, timeout: real,
    admitted: real, deadline: real, writeStarted: bool,
    done: bool, success: bool, reason: Option<Reason>, completions: nat)

  /** Where the sender stands in the body of its loop while it holds a request. */
  datatype Phase =
    | Popped                // taken from the queue, not yet active
    | WaitReady             // active, waiting for the modem
    | CheckReady            // left the wait; the done flag was clear
    | Failing               // inside _complete_active_request
    | WriteGate             // about to call _write_active_request
    | Writing(since: real)  // holds the active and the in-flight lock
    | Waiting               // written, waiting for the confirmation
    | Clearing

  datatype SenderPc = LoopTop | Polling | Exited | Holding(r: Id, at: Phase)
  {
    predicate At(phase: Phase) {
      Holding? && at == phase
    }

    predicate IsWriting() {
      Holding? && at.Writing?
    }
  }

  /** The active slot and the in-flight slot. */
  datatype Slot = Empty | Has(id: Id)

  /** SMS_SENT, or SMS_FAILED with the text the modem gave. */
  datatype Verdict = Sent | Failed(text: string)
  {
    function Explanation(): Option<Reason> {
      if Sent? then None else Some(ModemReason(text))
    }
  }

  /** `Resolving` lies between the two in-flight sections of `_resolve_in_flight`. */
  datatype ReaderPc = Idle | Resolving(r: Id, verdict: Verdict)

  datatype StopperPc = Running | Draining | DrainHolding(r: Id) | Drained | Stopped

  datatype Who = BySender | ByReader | ByStopper

  /** Who holds the active lock to fail the active request, and how far it got. */
  datatype Section =
    | Open
    | FailTry(who: Who, r: Id, reason: Reason)
    | FailFallback(who: Who, r: Id, reason: Reason)

  datatype State = State(
    cap: nat, maxWrite: real, now: real,
    reqs: seq<Req>, queue: seq<Id>, accepting: bool,
    active: Slot, inFlight: Slot, section: Section,
    sender: SenderPc, reader: ReaderPc, stopper: StopperPc,
    written: seq<Id>)  // the commands handed to the port, in order

  datatype Event =
    | Enqueue(number: string, body: string, timeout: real, connected: bool, ready: bool)
    | CallerTimeout(id: Id)
    | SenderLoop
    | SenderGet
    | SenderAccept
    | SenderLeaveWait(ready: bool)
    | SenderCheckReady(ready: bool)
    | SenderWriteBegin
    | SenderWriteEnd(ok: bool)
    | SenderWaitEnd
    | SenderClear
    | ReaderConfirm(number: string, verdict: Verdict)
    | ReaderResolve
    | ReaderFail(cause: Reason)
    | ContinueFail
    | StopClose
    | DrainPop
    | DrainComplete
    | StopFail
    | Tick(elapsed: real)

  function Init(cap: nat, maxWrite: real): State {
    State(cap, maxWrite, 0.0, [], [], true, Empty, Empty, Open, LoopTop, Idle, Running, [])
  }

  function NonNegative(timeout: real): real {
    if timeout < 0.0 then 0.0 else timeout
  }

  // ---- sections ------------------------------------------------------------------------------

  function Outcome(q: Req, success: bool, reason: Option<Reason>): Req {
    q.(done := true, success := success, reason := reason, completions := q.completions + 1)
  }

  /** The body of `_complete_request`: it sets the outcome unless one is set. */
  function CompleteRequest(s: State, r: Id, reason: Reason): State
    requires r < |s.reqs|
  {
    if s.reqs[r].done then s
    else s.(reqs := s.reqs[r := Outcome(s.reqs[r], false, Some(reason))])
  }

  /** The body of `_complete_in_flight`: it relies on the slot alone and never looks at the flag. */
  function CompleteInFlight(s: State, r: Id, success: bool, reason: Option<Reason>): State
    requires r < |s.reqs|
  {
    if s.inFlight != Has(r) then s
    else s.(inFlight := Empty, reqs := s.reqs[r := Outcome(s.reqs[r], success, reason)])
  }

  predicate ActiveLockFree(s: State) {
    s.section.Open? && !s.sender.IsWriting()
  }

  predicate InFlightLockFree(s: State) {
    !s.sender.IsWriting()
  }

  /** The thread `who` leaves its failing section. */
  function Resume(s: State, who: Who): State {
    match who
    case BySender => s.(sender := LoopTop)
    case ByReader => s
    case ByStopper => s.(stopper := Stopped)
  }

  function BeginFail(s: State, who: Who, reason: Reason): State
    requires s.active.Has? ==> s.active.id < |s.reqs|
  {
    if s.active.Empty? then Resume(s, who)
    else if s.reqs[s.active.id].done then Resume(s.(active := Empty), who)
    else s.(section := FailTry(who, s.active.id, reason))
  }

  function AfterFail(s: State): State
    requires !s.section.Open? && s.section.r < |s.reqs|
  {
    match s.section
    case FailTry(who, r, reason) =>
      if s.inFlight == Has(r) then
        Resume(CompleteInFlight(s, r, false, Some(reason)).(active := Empty, section := Open), who)
      else
        s.(section := FailFallback(who, r, reason))
    case FailFallback(who, r, reason) =>
      Resume(CompleteRequest(s, r, reason).(active := Empty, section := Open), who)
  }

  datatype Admission = Admitted | RejectedStopping | RejectedNotConnected | RejectedNotReady | RejectedFull

  function Admit(s: State, connected: bool, ready: bool): Admission {
    if !s.accepting then RejectedStopping
    else if !connected then RejectedNotConnected
    else if !ready then RejectedNotReady
    else if |s.queue| >= s.cap then RejectedFull
    else Admitted
  }

  function DoEnqueue(s: State, number: string, body: string, timeout: real, connected: bool, ready: bool): State {
    if Admit(s, connected, ready) != Admitted then s
    else
      var t := NonNegative(timeout);
      s.(reqs := s.reqs + [Req(number, body, t, s.now, s.now + t, false, false, false, None, 0)],
         queue := s.queue + [|s.reqs|])
  }

  function DoCallerTimeout(s: State, r: Id): State
    requires r < |s.reqs|
  {
    if s.reqs[r].done || s.reqs[r].writeStarted then s
    else CompleteRequest(if s.inFlight == Has(r) then s.(inFlight := Empty) else s, r, ClientTimeout)
  }

  function DoAccept(s: State): State
    requires s.sender.At(Popped) && s.sender.r < |s.reqs|
  {
    if !s.accepting then CompleteRequest(s, s.sender.r, ServiceStopping).(sender := LoopTop)
    else s.(active := Has(s.sender.r), sender := Holding(s.sender.r, WaitReady))
  }

  function DoCheckReady(s: State, ready: bool): State
    requires s.sender.At(CheckReady) && s.sender.r < |s.reqs|
  {
    var r := s.sender.r;
    if ready then s.(sender := Holding(r, WriteGate))
    else if s.active != Has(r) || s.reqs[r].done then s.(sender := LoopTop)
    else s.(sender := Holding(r, Failing), section := FailTry(BySender, r, SenderTimeout))
  }

  function DoWriteBegin(s: State): State
    requires s.sender.At(WriteGate) && s.sender.r < |s.reqs|
  {
    var r := s.sender.r;
    if s.active != Has(r) || s.reqs[r].done then s.(sender := Holding(r, Clearing))
    else if s.now >= s.reqs[r].deadline then
      CompleteRequest(s, r, SenderTimeout).(sender := Holding(r, Clearing))
    else
      s.(inFlight := Has(r), reqs := s.reqs[r := s.reqs[r].(writeStarted := true)],
         sender := Holding(r, Writing(s.now)), written := s.written + [r])
  }

  function DoWriteEnd(s: State, ok: bool): State
    requires s.sender.IsWriting() && s.sender.r < |s.reqs|
  {
    var r := s.sender.r;
    if !ok then CompleteRequest(s.(inFlight := Empty), r, WriteError).(sender := Holding(r, Clearing))
    else
      s.(reqs := s.reqs[r := s.reqs[r].(deadline := s.now + s.reqs[r].timeout)], sender := Holding(r, Waiting))
  }

  function DoWaitEnd(s: State): State
    requires s.sender.At(Waiting) && s.sender.r < |s.reqs|
  {
    var r := s.sender.r;
    (if s.reqs[r].done then s else CompleteInFlight(s, r, false, Some(SenderTimeout))).(sender := Holding(r, Clearing))
  }

  function DoClear(s: State): State
    requires s.sender.At(Clearing)
  {
    (if s.active == Has(s.sender.r) then s.(active := Empty) else s).(sender := LoopTop)
  }

  function DoConfirm(s: State, number: string, verdict: Verdict): State
    requires s.inFlight.Has? ==> s.inFlight.id < |s.reqs|
  {
    if s.inFlight.Empty? || s.reqs[s.inFlight.id].number != number then s
    else s.(reader := Resolving(s.inFlight.id, verdict))
  }

  function DoLoop(s: State): State {
    s.(sender := if s.stopper.Running? then Polling else Exited)
  }

  function DoGet(s: State): State {
    if s.queue == [] then s.(sender := LoopTop)
    else s.(sender := Holding(s.queue[0], Popped), queue := s.queue[1..])
  }

  function DoLeaveWait(s: State): State
    requires s.sender.At(WaitReady) && s.sender.r < |s.reqs|
  {
    s.(sender := s.sender.(at := if s.reqs[s.sender.r].done then Clearing else CheckReady))
  }

  function DoResolve(s: State): State
    requires s.reader.Resolving? && s.reader.r < |s.reqs|
  {
    CompleteInFlight(s, s.reader.r, s.reader.verdict.Sent?, s.reader.verdict.Explanation()).(reader := Idle)
  }

  function DoClose(s: State): State {
    s.(accepting := false, stopper := Draining)
  }

  function DoDrainPop(s: State): State {
    if s.queue == [] then s.(stopper := Drained)
    else s.(stopper := DrainHolding(s.queue[0]), queue := s.queue[1..])
  }

  function DoDrainComplete(s: State): State
    requires s.stopper.DrainHolding? && s.stopper.r < |s.reqs|
  {
    CompleteRequest(s, s.stopper.r, ServiceStopping).(stopper := Draining)
  }

  // ---- the step relation ---------------------------------------------------------------------

  /**
   Time passes only while no thread has an expired wait it could act on: scheduling itself takes no
   time, a failing section takes no time, and a serial write takes at most `maxWrite`.
   */
  predicate MayTick(s: State, d: real) {
    && d > 0.0
    && s.section.Open?
    && (s.sender.IsWriting() ==> s.now + d <= s.sender.at.since + s.maxWrite)
    && (!s.sender.IsWriting() ==>
          forall r | 0 <= r < |s.reqs| && !s.reqs[r].done :: s.now + d <= s.reqs[r].deadline)
  }

  predicate Enabled(s: State, e: Event) {
    match e
    case Enqueue(_, _, _, _, _) => true
    case CallerTimeout(r) =>
      r < |s.reqs| && ActiveLockFree(s) && InFlightLockFree(s) && s.now >= s.reqs[r].deadline
    case SenderLoop => s.sender.LoopTop?
    case SenderGet => s.sender.Polling?
    case SenderAccept => s.sender.At(Popped) && s.sender.r < |s.reqs| && (ActiveLockFree(s) || !s.accepting)
    case SenderLeaveWait(ready) =>
      s.sender.At(WaitReady) && s.sender.r < |s.reqs|
      && (ready || s.reqs[s.sender.r].done || s.now >= s.reqs[s.sender.r].deadline)
    case SenderCheckReady(ready) => s.sender.At(CheckReady) && s.sender.r < |s.reqs| && (ready || ActiveLockFree(s))
    case SenderWriteBegin => s.sender.At(WriteGate) && s.sender.r < |s.reqs| && ActiveLockFree(s)
    case SenderWriteEnd(_) => s.sender.IsWriting() && s.sender.r < |s.reqs|
    case SenderWaitEnd =>
      s.sender.At(Waiting) && s.sender.r < |s.reqs|
      && (s.reqs[s.sender.r].done || s.now >= s.reqs[s.sender.r].deadline)
    case SenderClear => s.sender.At(Clearing) && ActiveLockFree(s)
    case ReaderConfirm(_, _) =>
      s.reader.Idle? && ReaderFree(s) && InFlightLockFree(s)
      && (s.inFlight.Has? ==> s.inFlight.id < |s.reqs|)
    case ReaderResolve => s.reader.Resolving? && s.reader.r < |s.reqs| && InFlightLockFree(s)
    case ReaderFail(cause) =>
      (cause.NetworkLost? || cause.SimMissing? || cause.SerialDisconnected?)
      && s.reader.Idle? && ActiveLockFree(s) && (s.active.Has? ==> s.active.id < |s.reqs|)
    case ContinueFail => !s.section.Open? && s.section.r < |s.reqs| && InFlightLockFree(s)
    case StopClose => s.stopper.Running?
    case DrainPop => s.stopper.Draining?
    case DrainComplete => s.stopper.DrainHolding? && s.stopper.r < |s.reqs|
    case StopFail =>
      s.stopper.Drained? && ActiveLockFree(s) && (s.active.Has? ==> s.active.id < |s.reqs|)
    case Tick(d) => MayTick(s, d)
  }

  predicate ReaderFree(s: State) {
    s.section.Open? || s.section.who != ByReader
  }

  function Next(s: State, e: Event): State
    requires Enabled(s, e)
  {
    match e
    case Enqueue(number, body, timeout, connected, ready) => DoEnqueue(s, number, body, timeout, connected, ready)
    case CallerTimeout(r) => DoCallerTimeout(s, r)
    case SenderLoop => DoLoop(s)
    case SenderGet => DoGet(s)
    case SenderAccept => DoAccept(s)
    case SenderLeaveWait(_) => DoLeaveWait(s)
    case SenderCheckReady(ready) => DoCheckReady(s, ready)
    case SenderWriteBegin => DoWriteBegin(s)
    case SenderWriteEnd(ok) => DoWriteEnd(s, ok)
    case SenderWaitEnd => DoWaitEnd(s)
    case SenderClear => DoClear(s)
    case ReaderConfirm(number, verdict) => DoConfirm(s, number, verdict)
    case ReaderResolve => DoResolve(s)
    case ReaderFail(cause) => BeginFail(s, ByReader, cause)
    case ContinueFail => AfterFail(s)
    case StopClose => DoClose(s)
    case DrainPop => DoDrainPop(s)
    case DrainComplete => DoDrainComplete(s)
    case StopFail => BeginFail(s, ByStopper, ServiceStopping)
    case Tick(d) => s.(now := s.now + d)
  }
}
