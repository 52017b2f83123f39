/**
 How long a caller of the serial worker can be kept waiting. Time passes (`Tick`) only while no
 thread has an expired wait it could act on, and a serial write takes at most `maxWrite`; no
 fairness of the locks is assumed.
 */
module WorkerTime {
  import opened WorkerModel
  import opened WorkerInvariant
  import opened WorkerRuns

  function Max(a: real, b: real): real {
    if a < b then b else a
  }

  /** Before its write a request keeps the deadline of its admission; the write renews it once. */
  ghost predicate DeadlinesSet(s: State) {
    && s.maxWrite >= 0.0
    && (forall r | 0 <= r < |s.reqs| ::
          && s.reqs[r].timeout >= 0.0
          && s.reqs[r].admitted <= s.now
          && (!s.reqs[r].writeStarted ==> s.reqs[r].deadline == s.reqs[r].admitted + s.reqs[r].timeout))
    && (forall i, j | 0 <= i < j < |s.reqs| :: s.reqs[i].admitted <= s.reqs[j].admitted)
  }

  ghost predicate WriteTimed(s: State)
    requires s.sender.Holding? ==> s.sender.r < |s.reqs|
  {
    && (s.sender.IsWriting() ==>
          && s.sender.at.since <= s.now <= s.sender.at.since + s.maxWrite
          && s.sender.at.since < s.reqs[s.sender.r].admitted + s.reqs[s.sender.r].timeout)
    && (s.sender.At(Waiting) && !s.reqs[s.sender.r].done ==>
          && s.now <= s.reqs[s.sender.r].deadline
          && s.reqs[s.sender.r].deadline
               <= s.reqs[s.sender.r].admitted + s.reqs[s.sender.r].timeout + s.maxWrite + s.reqs[s.sender.r].timeout)
  }

  /** A request that was never written waits for at most one write beyond the longest timeout. */
  ghost predicate UnwrittenBounded(s: State, longest: real) {
    forall r: Id | Outstanding(s, r) && !s.reqs[r].writeStarted ::
      s.now <= s.reqs[r].admitted + longest + s.maxWrite
  }

  ghost predicate NoLongerThan(s: State, longest: real) {
    forall r | 0 <= r < |s.reqs| :: s.reqs[r].timeout <= longest
  }

  ghost predicate Timed(s: State, longest: real) {
    && Inv(s) && DeadlinesSet(s) && WriteTimed(s) && UnwrittenBounded(s, longest)
  }

  lemma AtMostOneAdmitted(s: State, e: Event)
    requires Enabled(s, e)
    ensures |Next(s, e).reqs| <= |s.reqs| + 1
  {
  }

  lemma DeadlinesNext(s: State, e: Event)
    requires Inv(s) && Enabled(s, e) && DeadlinesSet(s)
    ensures DeadlinesSet(Next(s, e))
  {
    StepEvolves(s, e);
    AtMostOneAdmitted(s, e);
  }

  ghost predicate DeadlinesKept(s: State, t: State) {
    && t.now == s.now && t.maxWrite == s.maxWrite
    && (t.sender.IsWriting() || t.sender.At(Waiting) ==> t.sender == s.sender)
    && |s.reqs| <= |t.reqs|
    && forall r | 0 <= r < |s.reqs| :: t.reqs[r].deadline == s.reqs[r].deadline
  }

  lemma SenderKeepsDeadlines(s: State, e: Event)
    requires Enabled(s, e) && OfSender(e) && !e.SenderWriteBegin? && !e.SenderWriteEnd?
    ensures DeadlinesKept(s, Next(s, e))
  {
    match e
    case SenderAccept =>
    case SenderCheckReady(_) =>
    case SenderWaitEnd =>
    case _ =>
  }

  lemma FailingKeepsDeadlines(s: State)
    requires !s.section.Open? && s.section.r < |s.reqs|
    ensures DeadlinesKept(s, AfterFail(s))
  {
  }

  lemma OthersKeepDeadlines(s: State, e: Event)
    requires Enabled(s, e) && !OfSender(e) && !e.Tick?
    ensures DeadlinesKept(s, Next(s, e))
  {
    match e
    case ContinueFail => FailingKeepsDeadlines(s);
    case CallerTimeout(_) =>
    case Enqueue(_, _, _, _, _) =>
    case ReaderResolve =>
    case _ =>
  }

  lemma WriteBeginTimed(s: State)
    requires Inv(s) && DeadlinesSet(s) && s.sender.At(WriteGate)
    ensures WriteTimed(DoWriteBegin(s))
  {
    assert s.inFlight != Has(s.sender.r);
  }

  lemma WriteEndTimed(s: State, ok: bool)
    requires Inv(s) && DeadlinesSet(s) && WriteTimed(s) && s.sender.IsWriting()
    ensures WriteTimed(DoWriteEnd(s, ok))
  {
  }

  lemma WriteTimedKept(s: State, t: State)
    requires Settled(s) && WriteTimed(s) && DeadlinesKept(s, t) && StateEvolves(s, t)
    requires t.sender.Holding? ==> t.sender.r < |t.reqs|
    ensures WriteTimed(t)
  {
  }

  lemma OtherStepTimed(s: State, e: Event)
    requires Inv(s) && Enabled(s, e) && WriteTimed(s)
    requires !e.SenderWriteBegin? && !e.SenderWriteEnd? && !e.Tick?
    requires Next(s, e).sender.Holding? ==> Next(s, e).sender.r < |Next(s, e).reqs|
    ensures WriteTimed(Next(s, e))
  {
    if OfSender(e) {
      SenderKeepsDeadlines(s, e);
    } else {
      OthersKeepDeadlines(s, e);
    }
    StepEvolves(s, e);
    WriteTimedKept(s, Next(s, e));
  }

  lemma TickTimed(s: State, d: real)
    requires s.sender.Holding? ==> s.sender.r < |s.reqs|
    requires WriteTimed(s) && MayTick(s, d)
    ensures WriteTimed(s.(now := s.now + d))
  {
  }

  lemma WriteTimedNext(s: State, e: Event)
    requires Inv(s) && Enabled(s, e) && DeadlinesSet(s) && WriteTimed(s)
    requires Next(s, e).sender.Holding? ==> Next(s, e).sender.r < |Next(s, e).reqs|
    ensures WriteTimed(Next(s, e))
  {
    hide Inv, WriteTimed, DeadlinesSet, MayTick;
    hide DoEnqueue, DoCallerTimeout, DoLoop, DoGet, DoAccept, DoLeaveWait, DoCheckReady, DoWriteBegin, DoWriteEnd,
         DoWaitEnd, DoClear, DoConfirm, DoResolve, BeginFail, AfterFail, DoClose, DoDrainPop, DoDrainComplete;
    match e
    case SenderWriteBegin => WriteBeginTimed(s);
    case SenderWriteEnd(ok) => WriteEndTimed(s, ok);
    case Tick(d) => TickTimed(s, d);
    case _ => OtherStepTimed(s, e);
  }

  /** Time can only pass beyond the deadline of an unwritten request while another one is written. */
  lemma UnwrittenTick(s: State, d: real, longest: real)
    requires Timed(s, longest) && MayTick(s, d) && NoLongerThan(s, longest)
    ensures UnwrittenBounded(s.(now := s.now + d), longest)
  {
    forall r: Id | Outstanding(s, r) && !s.reqs[r].writeStarted
      ensures s.now + d <= s.reqs[r].admitted + longest + s.maxWrite
    {
      if s.sender.IsWriting() {
        var p := s.sender.r;
        assert p != r && p < r;
        assert s.reqs[p].admitted <= s.reqs[r].admitted && s.reqs[p].timeout <= longest;
      } else {
        assert s.now + d <= s.reqs[r].deadline;
      }
    }
  }

  lemma ClockStill(s: State, e: Event)
    requires Enabled(s, e) && !e.Tick?
    ensures Next(s, e).now == s.now
  {
    if OfSender(e) {
    } else {
      match e
      case ContinueFail => FailingKeepsDeadlines(s);
      case _ =>
    }
  }

  lemma UnwrittenNext(s: State, e: Event, longest: real)
    requires Timed(s, longest) && Enabled(s, e) && NoLongerThan(s, longest) && longest >= 0.0
    ensures UnwrittenBounded(Next(s, e), longest)
  {
    if e.Tick? {
      UnwrittenTick(s, e.elapsed, longest);
    } else {
      StepEvolves(s, e);
      ClockStill(s, e);
    }
  }

  lemma {:induction false} RunTimed(ss: seq<State>, es: seq<Event>, i: nat, longest: real)
    requires IsRun(ss, es) && i < |ss| && ss[0].maxWrite >= 0.0
    requires NoLongerThan(ss[i], longest) && longest >= 0.0
    ensures Timed(ss[i], longest)
  {
    if i == 0 {
      InvInit(ss[0].cap, ss[0].maxWrite);
    } else {
      RunInv(ss, es, i - 1);
      var s, e := ss[i - 1], es[i - 1];
      StepEvolves(s, e);
      assert forall r | 0 <= r < |s.reqs| :: s.reqs[r].timeout == ss[i].reqs[r].timeout;
      RunTimed(ss, es, i - 1, longest);
      InvNext(s, e);
      DeadlinesNext(s, e);
      WriteTimedNext(s, e);
      UnwrittenNext(s, e, longest);
    }
  }

  /**
   The time bound: in every run, a request without an outcome is at most
   `maxWrite + max(longest, 2 * timeout)` old, where `longest` is the longest timeout any caller
   asked for.
   */
  lemma WaitIsBounded(ss: seq<State>, es: seq<Event>, i: nat, r: Id, longest: real)
    requires IsRun(ss, es) && i < |ss| && ss[0].maxWrite >= 0.0
    requires NoLongerThan(ss[i], longest)
    requires r < |ss[i].reqs| && !ss[i].reqs[r].done
    ensures ss[i].now <= ss[i].reqs[r].admitted + ss[0].maxWrite + Max(longest, 2.0 * ss[i].reqs[r].timeout)
  {
    RunEvolves(ss, es, 0, i);
    assert ss[i].reqs[r].timeout >= 0.0;
    RunTimed(ss, es, i, longest);
    var s := ss[i];
    assert Outstanding(s, r);
    if s.reqs[r].writeStarted {
      assert s.inFlight == Has(r) && s.sender.r == r;
    }
  }

  /** So the request's own T + maxWrite + T holds as long as no caller asks for more than twice T. */
  lemma OwnBoundHolds(ss: seq<State>, es: seq<Event>, i: nat, r: Id, longest: real)
    requires IsRun(ss, es) && i < |ss| && ss[0].maxWrite >= 0.0
    requires NoLongerThan(ss[i], longest)
    requires r < |ss[i].reqs| && !ss[i].reqs[r].done && longest <= 2.0 * ss[i].reqs[r].timeout
    ensures WithinOwnBound(ss[i], r)
  {
    WaitIsBounded(ss, es, i, r, longest);
    RunEvolves(ss, es, 0, i);
  }

  ghost predicate WithinOwnBound(s: State, r: Id)
    requires r < |s.reqs|
  {
    s.now <= s.reqs[r].admitted + s.reqs[r].timeout + s.maxWrite + s.reqs[r].timeout
  }

  const GSM_GATEWAY_WORST_CASE_SECONDS := 60.0 + 5.0 + 60.0
  const API_TIMEOUT := 60.0
  const RELAY_TIMEOUT := 120.0
  const WRITE_TIMEOUT := 5.0

  /**
   The proxy's worst case holds for every API request even though the relay's own replies queue up
   with twice the timeout.
   */
  lemma GatewayWorstCase(ss: seq<State>, es: seq<Event>, i: nat, r: Id)
    requires IsRun(ss, es) && i < |ss| && ss[0].maxWrite == WRITE_TIMEOUT
    requires forall k | 0 <= k < |ss[i].reqs| ::
               ss[i].reqs[k].timeout == API_TIMEOUT || ss[i].reqs[k].timeout == RELAY_TIMEOUT
    requires r < |ss[i].reqs| && ss[i].reqs[r].timeout == API_TIMEOUT && !ss[i].reqs[r].done
    ensures ss[i].now <= ss[i].reqs[r].admitted + GSM_GATEWAY_WORST_CASE_SECONDS
  {
    WaitIsBounded(ss, es, i, r, RELAY_TIMEOUT);
  }

  /**
   The bound is not bought by stopping the clock: whenever a request is overdue and no write or
   failing section is under way, a thread has a step that gives it an outcome.
   */
  lemma OverdueCanFinish(s: State, r: Id) returns (e: Event)
    requires Inv(s) && Outstanding(s, r) && ActiveLockFree(s) && s.now >= s.reqs[r].deadline
    ensures e == CallerTimeout(r) || e == SenderWaitEnd
    ensures Enabled(s, e) && Next(s, e).reqs[r].done
  {
    if s.reqs[r].writeStarted {
      assert s.inFlight == Has(r) && s.sender == Holding(r, Waiting);
      e := SenderWaitEnd;
    } else {
      e := CallerTimeout(r);
    }
  }

  /** Time is never stuck for another reason: a write can end and a failing section can go on. */
  lemma HeldLocksAreReleased(s: State)
    requires Inv(s) && !ActiveLockFree(s)
    ensures s.sender.IsWriting() ==> Enabled(s, SenderWriteEnd(true)) && ActiveLockFree(Next(s, SenderWriteEnd(true)))
    ensures !s.section.Open? ==> Enabled(s, ContinueFail)
    ensures s.section.FailFallback? ==> ActiveLockFree(Next(s, ContinueFail))
  {
  }
}
