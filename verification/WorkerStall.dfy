/**
 The exact reach of the bound T + maxWrite + T: it is a request's own bound if and only if no other
 caller asks for more than twice its timeout.
 */
module WorkerStall {
  import opened Prelude
  import opened WorkerModel
  import opened WorkerRuns
  import opened WorkerTime

  /** Between two sends, with a request waiting whose deadline has not passed. */
  ghost predicate MaySend(s: State) {
    && s.sender.LoopTop? && s.stopper.Running? && s.accepting && s.section.Open? && s.reader.Idle?
    && s.active.Empty? && s.inFlight.Empty?
    && s.queue != [] && s.queue[0] < |s.reqs|
    && !s.reqs[s.queue[0]].done && s.now < s.reqs[s.queue[0]].deadline
  }

  function Started(s: State): State
    requires s.queue != [] && s.queue[0] < |s.reqs|
  {
    var r := s.queue[0];
    s.(queue := s.queue[1..], active := Has(r), inFlight := Has(r),
       reqs := s.reqs[r := s.reqs[r].(writeStarted := true)],
       sender := Holding(r, Writing(s.now)), written := s.written + [r])
  }

  function Activated(s: State): State
    requires s.queue != []
  {
    s.(sender := Holding(s.queue[0], WaitReady), queue := s.queue[1..], active := Has(s.queue[0]))
  }

  lemma TakeNext(s: State)
    requires Reachable(s) && MaySend(s)
    ensures Reachable(Activated(s))
  {
    hide Reachable;
    var t := s;
    ReachableNext(t, SenderLoop);
    t := t.(sender := Polling);
    ReachableNext(t, SenderGet);
    t := t.(sender := Holding(s.queue[0], Popped), queue := s.queue[1..]);
    ReachableNext(t, SenderAccept);
  }

  /** The sender can take it to the port before any other thread gets the active lock. */
  lemma BeginSend(s: State)
    requires Reachable(s) && MaySend(s)
    ensures Reachable(Started(s))
  {
    hide Reachable;
    TakeNext(s);
    var t := Activated(s);
    ReachableNext(t, SenderLeaveWait(true));
    t := t.(sender := Holding(s.queue[0], CheckReady));
    ReachableNext(t, SenderCheckReady(true));
    t := t.(sender := Holding(s.queue[0], WriteGate));
    ReachableNext(t, SenderWriteBegin);
  }

  /** A write for as long as the port may take. */
  lemma LongWrite(s: State)
    requires Reachable(s) && s.section.Open? && s.sender.IsWriting() && s.sender.at.since == s.now && s.maxWrite > 0.0
    ensures Reachable(s.(now := s.now + s.maxWrite))
  {
    ReachableNext(s, Tick(s.maxWrite));
  }

  ghost predicate IsWritingFree(s: State, r: Id) {
    && r < |s.reqs| && !s.reqs[r].done && s.sender.IsWriting() && s.sender.r == r
    && s.section.Open? && s.reader.Idle? && s.active == Has(r) && s.inFlight == Has(r)
  }

  function Sent(s: State, r: Id): State
    requires r < |s.reqs|
  {
    s.(reqs := s.reqs[r := Outcome(Renewed(s, r), true, None)], inFlight := Empty, active := Empty, sender := LoopTop)
  }

  function Renewed(s: State, r: Id): Req
    requires r < |s.reqs|
  {
    s.reqs[r].(deadline := s.now + s.reqs[r].timeout)
  }

  lemma ConfirmAtOnce(s: State, r: Id)
    requires Reachable(s) && IsWritingFree(s, r)
    ensures Reachable(s.(reqs := s.reqs[r := Renewed(s, r)], sender := Holding(r, Waiting),
                         reader := Resolving(r, Verdict.Sent)))
  {
    hide Reachable;
    ReachableNext(s, SenderWriteEnd(true));
    ReachableNext(s.(reqs := s.reqs[r := Renewed(s, r)], sender := Holding(r, Waiting)),
                  ReaderConfirm(s.reqs[r].number, Verdict.Sent));
  }

  /** The modem confirms at once and the sender goes on, again before any caller gets the lock. */
  lemma EndSend(s: State, r: Id)
    requires Reachable(s) && IsWritingFree(s, r)
    ensures Reachable(Sent(s, r))
  {
    hide Reachable;
    ConfirmAtOnce(s, r);
    var q := Renewed(s, r);
    var t := s.(reqs := s.reqs[r := q], sender := Holding(r, Waiting), reader := Resolving(r, Verdict.Sent));
    ReachableNext(t, ReaderResolve);
    assert s.reqs[r := q][r := Outcome(q, true, None)] == s.reqs[r := Outcome(q, true, None)];
    t := t.(reqs := s.reqs[r := Outcome(q, true, None)], inFlight := Empty, reader := Idle);
    ReachableNext(t, SenderWaitEnd);
    t := t.(sender := Holding(r, Clearing));
    ReachableNext(t, SenderClear);
  }

  /** Between two sends the oldest waiting request can be delivered at once, and nothing else changes. */
  lemma OldestCanSucceed(s: State) returns (t: State)
    requires Reachable(s) && MaySend(s)
    ensures Reachable(t)
    ensures
      var r := s.queue[0];
      && |t.reqs| == |s.reqs|
      && t == s.(queue := s.queue[1..], written := s.written + [r], reqs := s.reqs[r := t.reqs[r]])
      && t.reqs[r].success && t.reqs[r].reason.None? && t.reqs[r].completions == s.reqs[r].completions + 1
  {
    hide Reachable;
    var r := s.queue[0];
    BeginSend(s);
    EndSend(Started(s), r);
    t := Sent(Started(s), r);
    assert t.reqs == s.reqs[r := t.reqs[r]];
  }

  function Fresh(timeout: real): Req {
    Req("+63", "hello", timeout, 0.0, timeout, false, false, false, None, 0)
  }

  function ThreeWaiting(timeout: real, longest: real, maxWrite: real): State {
    Init(3, maxWrite).(reqs := [Fresh(longest), Fresh(longest), Fresh(timeout)], queue := [0, 1, 2])
  }

  lemma ThreeAdmitted(timeout: real, longest: real, maxWrite: real)
    requires 0.0 <= timeout <= longest
    ensures Reachable(ThreeWaiting(timeout, longest, maxWrite))
  {
    hide Reachable;
    var t := Init(3, maxWrite);
    ReachableInit(3, maxWrite);
    ReachableNext(t, Enqueue("+63", "hello", longest, true, true));
    assert [] + [Fresh(longest)] == [Fresh(longest)] && [] + [0] == [0];
    t := t.(reqs := [Fresh(longest)], queue := [0]);
    ReachableNext(t, Enqueue("+63", "hello", longest, true, true));
    assert [Fresh(longest)] + [Fresh(longest)] == [Fresh(longest), Fresh(longest)] && [0] + [1] == [0, 1];
    t := t.(reqs := [Fresh(longest), Fresh(longest)], queue := [0, 1]);
    ReachableNext(t, Enqueue("+63", "hello", timeout, true, true));
    assert t.reqs + [Fresh(timeout)] == [Fresh(longest), Fresh(longest), Fresh(timeout)] && t.queue + [2] == [0, 1, 2];
  }

  /**
   Two slow writes in a row: when another caller's timeout exceeds twice its own, a request can be
   unfinished beyond T + maxWrite + T, because the sender may take the lock ahead of its caller twice.
   */
  lemma StalledBeyondOwnBound(timeout: real, longest: real, maxWrite: real) returns (s: State)
    requires 0.0 <= timeout && 2.0 * timeout < maxWrite < longest
    ensures Reachable(s) && s.maxWrite == maxWrite && NoLongerThan(s, longest)
    ensures |s.reqs| == 3 && s.reqs[2].timeout == timeout && !s.reqs[2].done && !WithinOwnBound(s, 2)
  {
    hide Reachable;
    s := ThreeWaiting(timeout, longest, maxWrite);
    ThreeAdmitted(timeout, longest, maxWrite);
    BeginSend(s);
    s := Started(s);
    LongWrite(s);
    s := s.(now := s.now + s.maxWrite);
    EndSend(s, 0);
    s := Sent(s, 0);
    BeginSend(s);
    s := Started(s);
    LongWrite(s);
    s := s.(now := s.now + s.maxWrite);
  }

  ghost predicate OwnBoundHoldsFor(timeout: real, longest: real) {
    forall s, r: Id | Reachable(s) && s.maxWrite >= 0.0 && NoLongerThan(s, longest) ::
      r < |s.reqs| && !s.reqs[r].done && s.reqs[r].timeout == timeout ==> WithinOwnBound(s, r)
  }

  /** The exact condition, for all timeouts and all write times. */
  lemma OwnBoundIff(timeout: real, longest: real)
    requires 0.0 <= timeout <= longest
    ensures OwnBoundHoldsFor(timeout, longest) <==> longest <= 2.0 * timeout
  {
    if longest <= 2.0 * timeout {
      forall s, r: Id | Reachable(s) && s.maxWrite >= 0.0 && NoLongerThan(s, longest)
        ensures r < |s.reqs| && !s.reqs[r].done && s.reqs[r].timeout == timeout ==> WithinOwnBound(s, r)
      {
        var ss, es :| IsRun(ss, es) && ss[|ss| - 1] == s;
        RunEvolves(ss, es, 0, |ss| - 1);
        if r < |s.reqs| && !s.reqs[r].done && s.reqs[r].timeout == timeout {
          OwnBoundHolds(ss, es, |ss| - 1, r, longest);
        }
      }
    } else {
      var s := StalledBeyondOwnBound(timeout, longest, (2.0 * timeout + longest) / 2.0);
      assert !WithinOwnBound(s, 2);
    }
  }
}
