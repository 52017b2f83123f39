/** Nothing gets stuck: every thread moves forward, what it waits for can happen, and a request can succeed. */
module WorkerProgress {
  import opened Prelude
  import opened WorkerModel
  import opened WorkerInvariant
  import opened WorkerRuns

  // ---- the sender --------------------------------------------------------------------------------

  /** How many sections at most separate the sender from the top of its loop. */
  function SenderLeft(pc: SenderPc): nat {
    match pc
    case LoopTop => 0
    case Exited => 0
    case Polling => 8
    case Holding(_, at) =>
      match at
      case Popped => 7
      case WaitReady => 6
      case CheckReady => 5
      case WriteGate => 4
      case Failing => 4
      case Writing(_) => 3
      case Waiting => 2
      case Clearing => 1
  }

  function SectionLeft(section: Section): nat {
    match section
    case Open => 0
    case FailFallback(_, _, _) => 1
    case FailTry(_, _, _) => 2
  }

  /** Each of its sections brings the sender closer to the top of its loop, with that request or none. */
  lemma SenderMovesOn(s: State, e: Event)
    requires Inv(s) && Enabled(s, e) && OfSender(e) && !e.SenderLoop?
    ensures
      var t := Next(s, e);
      && SenderLeft(t.sender) < SenderLeft(s.sender)
      && (s.sender.Holding? && t.sender.Holding? ==> t.sender.r == s.sender.r)
  {
  }

  /** No other event moves it, but the end of its own failing section. */
  lemma OthersLeaveSender(s: State, e: Event)
    requires Inv(s) && Enabled(s, e) && !OfSender(e)
    ensures
      var t := Next(s, e);
      t.sender == if e.ContinueFail? && s.section.who == BySender && t.section.Open? then LoopTop else s.sender
  {
  }

  /** A failing section takes at most two sections, whoever runs it. */
  lemma FailingMovesOn(s: State)
    requires Inv(s) && Enabled(s, ContinueFail)
    ensures SectionLeft(Next(s, ContinueFail).section) < SectionLeft(s.section)
  {
  }

  /** It is waiting, with reason: the deadline of its unfinished request lies ahead. */
  ghost predicate MayWait(s: State) {
    && (s.sender.At(WaitReady) || s.sender.At(Waiting))
    && Outstanding(s, s.sender.r) && s.now < s.reqs[s.sender.r].deadline
  }

  /** Unless it waits with reason or a failing section holds the lock it needs, the sender has a step to take. */
  lemma SenderCanMove(s: State) returns (e: Event)
    requires Inv(s) && !s.sender.Exited? && !MayWait(s)
    ensures Enabled(s, e)
    ensures OfSender(e) || (e == ContinueFail && !s.section.Open?)
    ensures s.section.Open? || s.sender.At(CheckReady) ==> OfSender(e)
  {
    match s.sender
    case LoopTop => e := SenderLoop;
    case Polling => e := SenderGet;
    case Holding(r, at) =>
      match at {
        case Popped => e := if ActiveLockFree(s) then SenderAccept else ContinueFail;
        case WaitReady => e := SenderLeaveWait(false);
        case CheckReady => e := SenderCheckReady(true);
        case WriteGate => e := if ActiveLockFree(s) then SenderWriteBegin else ContinueFail;
        case Failing => e := ContinueFail;
        case Writing(_) => e := SenderWriteEnd(true);
        case Waiting => e := SenderWaitEnd;
        case Clearing => e := if ActiveLockFree(s) then SenderClear else ContinueFail;
      }
  }

  // ---- stopping ----------------------------------------------------------------------------------

  /** What is left to do for a thread that has begun to stop the worker. */
  function StopLeft(s: State): nat {
    match s.stopper
    case Running => 2 * |s.queue| + 4
    case Draining => 2 * |s.queue| + 2
    case DrainHolding(_) => 2 * |s.queue| + 3
    case Drained => 1
    case Stopped => 0
  }

  predicate OfStopper(e: Event) {
    e.StopClose? || e.DrainPop? || e.DrainComplete? || e.StopFail?
  }

  ghost predicate StopAgrees(s: State) {
    && (!s.stopper.Running? ==> !s.accepting)
    && (!s.section.Open? && s.section.who == ByStopper ==> s.stopper.Drained?)
  }

  lemma InvMeansStopAgrees(s: State)
    requires Inv(s)
    ensures StopAgrees(s)
  {
  }

  lemma StopStep(s: State, e: Event)
    requires StopAgrees(s) && Enabled(s, e) && (!s.stopper.Running? || e.StopClose?)
    ensures
      var t := Next(s, e);
      && StopLeft(t) <= StopLeft(s)
      && (OfStopper(e) ==>
            StopLeft(t) < StopLeft(s) || (e.StopFail? && t.section.FailTry? && t.section.who == ByStopper))
      && (e.ContinueFail? && s.section.who == ByStopper && t.section.Open? ==> t.stopper == Stopped)
  {
  }

  /** Once stopping has begun, nothing adds to what is left, and every step of the stopper takes from it. */
  lemma StopMovesOn(s: State, e: Event)
    requires Inv(s) && Enabled(s, e) && (!s.stopper.Running? || e.StopClose?)
    ensures
      var t := Next(s, e);
      && StopLeft(t) <= StopLeft(s)
      && (OfStopper(e) ==>
            StopLeft(t) < StopLeft(s) || (e.StopFail? && t.section.FailTry? && t.section.who == ByStopper))
      && (e.ContinueFail? && s.section.who == ByStopper && t.section.Open? ==> t.stopper == Stopped)
  {
    hide Enabled, Next;
    InvMeansStopAgrees(s);
    hide Inv;
    StopStep(s, e);
  }

  /** A stop can always go on, but for the lock it needs at the end, which is given back. */
  lemma StopCanMove(s: State) returns (e: Event)
    requires Inv(s) && !s.stopper.Stopped?
    ensures Enabled(s, e)
    ensures OfStopper(e)
            || (s.stopper.Drained? && e in {ContinueFail, SenderWriteEnd(true)} && !ActiveLockFree(s))
  {
    match s.stopper
    case Running => e := StopClose;
    case Draining => e := DrainPop;
    case DrainHolding(_) => e := DrainComplete;
    case Drained =>
      e := if ActiveLockFree(s) then StopFail else if s.section.Open? then SenderWriteEnd(true) else ContinueFail;
  }

  // ---- time --------------------------------------------------------------------------------------

  /** While no lock is held time passes up to the next deadline of an unfinished request, and no further. */
  lemma TimeReachesDeadlines(s: State, d: real)
    requires s.section.Open? && !s.sender.IsWriting() && d > 0.0
    ensures Enabled(s, Tick(d)) <==> forall r: Id | Outstanding(s, r) :: s.now + d <= s.reqs[r].deadline
  {
  }
}
