/**
 The serial worker in the form of the program: an object whose lock-protected sections update its
 fields. Every section may be run where its event is enabled, performs exactly that event; so every
 state that calls lead to is a state of a run, about which the guarantees of WorkerRuns and WorkerTime
 are proved.
 */
module SerialWorker {
  import opened Prelude
  import opened WorkerModel
  import opened WorkerRuns

  class Worker {
    const cap: nat
    const maxWrite: real

    var now: real                // the monotonic clock
    var requests: seq<Req>       // every admitted request, by admission number
    var sendQueue: seq<Id>
    var accepting: bool
    var activeRequest: Slot
    var inFlight: Slot
    var written: seq<Id>

    // where the threads stand between two sections
    var section: Section
    var sender: SenderPc
    var reader: ReaderPc
    var stopper: StopperPc

    ghost function View(): State
      reads this
    {
      State(cap, maxWrite, now, requests, sendQueue, accepting, activeRequest, inFlight, section,
            sender, reader, stopper, written)
    }

    constructor (cap: nat, maxWrite: real)
      ensures View() == Init(cap, maxWrite) && Reachable(View())
    {
      this.cap, this.maxWrite, now := cap, maxWrite, 0.0;
      requests, sendQueue, accepting := [], [], true;
      activeRequest, inFlight, section := Empty, Empty, Open;
      sender, reader, stopper, written := LoopTop, Idle, Running, [];
      ReachableInit(cap, maxWrite);
    }

    /** `_complete_request`: sets the outcome unless one is set. */
    method CompleteRequest(r: Id, reason: Reason) returns (completed: bool)
      requires r < |requests|
      modifies this`requests
      ensures View() == WorkerModel.CompleteRequest(old(View()), r, reason)
      ensures completed <==> !old(requests[r].done)
    {
      if requests[r].done {
        return false;
      }
      requests := requests[r := Outcome(requests[r], false, Some(reason))];
      return true;
    }

    /** `_complete_in_flight`: looks at the slot, never at the flag. */
    method CompleteInFlight(r: Id, success: bool, reason: Option<Reason>) returns (completed: bool)
      requires r < |requests|
      modifies this`requests, this`inFlight
      ensures View() == WorkerModel.CompleteInFlight(old(View()), r, success, reason)
      ensures completed <==> old(inFlight) == Has(r)
    {
      if inFlight != Has(r) {
        return false;
      }
      inFlight := Empty;
      requests := requests[r := Outcome(requests[r], success, reason)];
      return true;
    }

    /** The locked section of `send_sms`. */
    method Enqueue(number: string, body: string, timeout: real, connected: bool, ready: bool)
      returns (admission: Admission)
      requires Reachable(View()) && Enabled(View(), Event.Enqueue(number, body, timeout, connected, ready))
      modifies this`requests, this`sendQueue
      ensures admission == Admit(old(View()), connected, ready)
      ensures View() == Next(old(View()), Event.Enqueue(number, body, timeout, connected, ready)) && Reachable(View())
    {
      hide Reachable;
      ReachableNext(View(), Event.Enqueue(number, body, timeout, connected, ready));
      if !accepting {
        return RejectedStopping;
      }
      if !connected {
        return RejectedNotConnected;
      }
      if !ready {
        return RejectedNotReady;
      }
      if |sendQueue| >= cap {
        return RejectedFull;
      }
      var wait := NonNegative(timeout);
      sendQueue := sendQueue + [|requests|];
      requests := requests + [Req(number, body, wait, now, now + wait, false, false, false, None, 0)];
      return Admitted;
    }

    /** `_timeout_request`: true unless the request has been handed to the port. */
    method TimeoutRequest(r: Id) returns (finished: bool)
      requires Reachable(View()) && Enabled(View(), CallerTimeout(r))
      modifies this`requests, this`inFlight
      ensures View() == Next(old(View()), CallerTimeout(r)) && Reachable(View())
      ensures finished <==> requests[r].done
    {
      hide Reachable;
      ReachableNext(View(), CallerTimeout(r));
      if requests[r].done {
        return true;
      }
      if requests[r].writeStarted {
        return false;
      }
      if inFlight == Has(r) {
        inFlight := Empty;
      }
      var _ := CompleteRequest(r, ClientTimeout);
      return true;
    }

    /** The guard of the sender's loop. */
    method Loop()
      requires Reachable(View()) && Enabled(View(), SenderLoop)
      modifies this`sender
      ensures View() == Next(old(View()), SenderLoop) && Reachable(View())
    {
      hide Reachable;
      ReachableNext(View(), SenderLoop);
      sender := if stopper.Running? then Polling else Exited;
    }

    /** The sender takes the next request from the queue, if there is one. */
    method Get()
      requires Reachable(View()) && Enabled(View(), SenderGet)
      modifies this`sendQueue, this`sender
      ensures View() == Next(old(View()), SenderGet) && Reachable(View())
    {
      hide Reachable;
      ReachableNext(View(), SenderGet);
      if sendQueue == [] {
        sender := LoopTop;
      } else {
        sender := Holding(sendQueue[0], Popped);
        sendQueue := sendQueue[1..];
      }
    }

    /** The lifecycle section of the sender loop: refuse the request or make it active. */
    method Accept()
      requires Reachable(View()) && Enabled(View(), SenderAccept)
      modifies this`requests, this`activeRequest, this`sender
      ensures View() == Next(old(View()), SenderAccept) && Reachable(View())
    {
      hide Reachable;
      ReachableNext(View(), SenderAccept);
      var r := sender.r;
      if !accepting {
        var _ := CompleteRequest(r, ServiceStopping);
        sender := LoopTop;
      } else {
        activeRequest := Has(r);
        sender := Holding(r, WaitReady);
      }
    }

    /** The end of the sender's wait for the modem. */
    method LeaveWait(ready: bool)
      requires Reachable(View()) && Enabled(View(), SenderLeaveWait(ready))
      modifies this`sender
      ensures View() == Next(old(View()), SenderLeaveWait(ready)) && Reachable(View())
    {
      hide Reachable;
      ReachableNext(View(), SenderLeaveWait(ready));
      sender := sender.(at := if requests[sender.r].done then Clearing else Phase.CheckReady);
    }

    /** `_write_active_request` up to the call of the port. */
    method WriteBegin()
      requires Reachable(View()) && Enabled(View(), SenderWriteBegin)
      modifies this`requests, this`inFlight, this`sender, this`written
      ensures View() == Next(old(View()), SenderWriteBegin) && Reachable(View())
    {
      hide Reachable;
      ReachableNext(View(), SenderWriteBegin);
      var r := sender.r;
      if activeRequest != Has(r) || requests[r].done {
        sender := Holding(r, Clearing);
        return;
      }
      if now >= requests[r].deadline {
        var _ := CompleteRequest(r, SenderTimeout);
        sender := Holding(r, Clearing);
        return;
      }
      inFlight := Has(r);
      requests := requests[r := requests[r].(writeStarted := true)];
      written := written + [r];
      sender := Holding(r, Writing(now));
    }

    /** `_write_active_request` from the return of the port. */
    method WriteEnd(ok: bool)
      requires Reachable(View()) && Enabled(View(), SenderWriteEnd(ok))
      modifies this`requests, this`inFlight, this`sender
      ensures View() == Next(old(View()), SenderWriteEnd(ok)) && Reachable(View())
    {
      hide Reachable;
      ReachableNext(View(), SenderWriteEnd(ok));
      var r := sender.r;
      if !ok {
        inFlight := Empty;
        var _ := CompleteRequest(r, WriteError);
        sender := Holding(r, Clearing);
        return;
      }
      requests := requests[r := requests[r].(deadline := now + requests[r].timeout)];
      sender := Holding(r, Waiting);
    }

    /** The end of the sender's wait for the confirmation. */
    method WaitEnd()
      requires Reachable(View()) && Enabled(View(), SenderWaitEnd)
      modifies this`requests, this`inFlight, this`sender
      ensures View() == Next(old(View()), SenderWaitEnd) && Reachable(View())
    {
      hide Reachable;
      ReachableNext(View(), SenderWaitEnd);
      var r := sender.r;
      if !requests[r].done {
        var _ := CompleteInFlight(r, false, Some(SenderTimeout));
      }
      sender := Holding(r, Clearing);
    }

    /** `_clear_active_request` */
    method ClearActiveRequest()
      requires Reachable(View()) && Enabled(View(), SenderClear)
      modifies this`activeRequest, this`sender
      ensures View() == Next(old(View()), SenderClear) && Reachable(View())
    {
      hide Reachable;
      ReachableNext(View(), SenderClear);
      if activeRequest == Has(sender.r) {
        activeRequest := Empty;
      }
      sender := LoopTop;
    }

    /** `_complete_active_request`, entered by the sender when the modem is not ready. */
    method CheckReady(ready: bool)
      requires Reachable(View()) && Enabled(View(), SenderCheckReady(ready))
      modifies this`section, this`sender
      ensures View() == Next(old(View()), SenderCheckReady(ready)) && Reachable(View())
    {
      hide Reachable;
      ReachableNext(View(), SenderCheckReady(ready));
      var r := sender.r;
      if ready {
        sender := Holding(r, WriteGate);
      } else if activeRequest != Has(r) || requests[r].done {
        sender := LoopTop;
      } else {
        sender, section := Holding(r, Failing), FailTry(BySender, r, SenderTimeout);
      }
    }

    /** The first section of `_resolve_in_flight`. */
    method Confirm(number: string, verdict: Verdict)
      requires Reachable(View()) && Enabled(View(), ReaderConfirm(number, verdict))
      modifies this`reader
      ensures View() == Next(old(View()), ReaderConfirm(number, verdict)) && Reachable(View())
    {
      hide Reachable;
      ReachableNext(View(), ReaderConfirm(number, verdict));
      if inFlight.Empty? || requests[inFlight.id].number != number {
        return;
      }
      reader := Resolving(inFlight.id, verdict);
    }

    /** The second section of `_resolve_in_flight`. */
    method Resolve()
      requires Reachable(View()) && Enabled(View(), ReaderResolve)
      modifies this`requests, this`inFlight, this`reader
      ensures View() == Next(old(View()), ReaderResolve) && Reachable(View())
    {
      hide Reachable;
      ReachableNext(View(), ReaderResolve);
      var _ := CompleteInFlight(reader.r, reader.verdict.Sent?, reader.verdict.Explanation());
      reader := Idle;
    }

    method ResumeThread(who: Who)
      modifies this`sender, this`stopper
      ensures View() == Resume(old(View()), who)
    {
      match who
      case BySender => sender := LoopTop;
      case ByReader =>
      case ByStopper => stopper := Stopped;
    }

    /** `_fail_active_request` up to its inner call. */
    method FailActiveRequest(who: Who, reason: Reason)
      requires who == ByReader || (who == ByStopper && reason == ServiceStopping)
      requires Reachable(View()) && Enabled(View(), if who == ByReader then ReaderFail(reason) else StopFail)
      modifies this`activeRequest, this`section, this`sender, this`stopper
      ensures View() == Next(old(View()), if who == ByReader then ReaderFail(reason) else StopFail) && Reachable(View())
    {
      hide Reachable;
      ReachableNext(View(), if who == ByReader then ReaderFail(reason) else StopFail);
      if activeRequest.Empty? {
        ResumeThread(who);
      } else if requests[activeRequest.id].done {
        activeRequest := Empty;
        ResumeThread(who);
      } else {
        section := FailTry(who, activeRequest.id, reason);
      }
    }

    /** The inner calls of `_fail_active_request` and `_complete_active_request`. */
    method ContinueFailing()
      requires Reachable(View()) && Enabled(View(), ContinueFail)
      modifies this
      ensures View() == Next(old(View()), ContinueFail) && Reachable(View())
    {
      hide Reachable;
      ReachableNext(View(), ContinueFail);
      var held := section;
      if held.FailTry? {
        var completed := CompleteInFlight(held.r, false, Some(held.reason));
        if !completed {
          section := FailFallback(held.who, held.r, held.reason);
          return;
        }
      } else {
        var _ := CompleteRequest(held.r, held.reason);
      }
      activeRequest, section := Empty, Open;
      ResumeThread(held.who);
    }

    /** The lifecycle section of `stop`. */
    method Close()
      requires Reachable(View()) && Enabled(View(), StopClose)
      modifies this`accepting, this`stopper
      ensures View() == Next(old(View()), StopClose) && Reachable(View())
      ensures stopper.Draining? && !accepting
    {
      hide Reachable;
      ReachableNext(View(), StopClose);
      accepting, stopper := false, Draining;
    }

    /** One round of the drain: a queued request is popped and, if it has no outcome, refused. */
    method DrainOne()
      requires Reachable(View()) && stopper.Draining? && sendQueue != []
      modifies this`requests, this`sendQueue, this`stopper
      ensures Enabled(old(View()), DrainPop) && Enabled(Next(old(View()), DrainPop), DrainComplete)
      ensures View() == Next(Next(old(View()), DrainPop), DrainComplete) && Reachable(View())
      ensures sendQueue == old(sendQueue)[1..] && stopper.Draining? && |requests| == |old(requests)|
      ensures forall r | 0 <= r < |requests| ::
                requests[r] == if r == old(sendQueue)[0] && !old(requests[r].done)
                               then Outcome(old(requests[r]), false, Some(ServiceStopping))
                               else old(requests[r])
    {
      QueueIsAdmitted(View());
      assert sendQueue[0] in View().queue;
      hide Reachable;
      ReachableNext(View(), DrainPop);
      ReachableNext(Next(View(), DrainPop), DrainComplete);
      var r := sendQueue[0];
      stopper, sendQueue := DrainHolding(r), sendQueue[1..];
      var _ := CompleteRequest(r, ServiceStopping);
      stopper := Draining;
    }

    /**
     `_drain_queued_requests` run without interruption, as the events it consists of: whatever was
     queued and had no outcome is refused, in order, and the queue is left empty.
     */
    method DrainQueuedRequests() returns (ghost events: seq<Event>)
      requires Reachable(View()) && stopper.Draining?
      modifies this`requests, this`sendQueue, this`stopper
      ensures Path(old(View()), events, View()) && Reachable(View())
      ensures forall e | e in events :: e.DrainPop? || e.DrainComplete?
      ensures sendQueue == [] && stopper.Drained?
      ensures |requests| == |old(requests)|
      ensures forall r | 0 <= r < |requests| ::
                requests[r] == if r in old(sendQueue) && !old(requests[r].done)
                               then Outcome(old(requests[r]), false, Some(ServiceStopping))
                               else old(requests[r])
    {
      hide Reachable, Path, Next, Enabled;
      events := [];
      PathStart(View());
      ghost var before, all := requests, sendQueue;
      while sendQueue != []
        invariant Path(old(View()), events, View()) && Reachable(View())
        invariant forall e | e in events :: e.DrainPop? || e.DrainComplete?
        invariant stopper.Draining? && |requests| == |before|
        invariant |sendQueue| <= |all| && sendQueue == all[|all| - |sendQueue|..]
        invariant forall r | 0 <= r < |requests| ::
                    requests[r] == if r in all[..|all| - |sendQueue|] && !before[r].done
                                   then Outcome(before[r], false, Some(ServiceStopping))
                                   else before[r]
        decreases |sendQueue|
      {
        ghost var popped, s := |all| - |sendQueue|, View();
        assert all[..popped + 1] == all[..popped] + [sendQueue[0]];
        DrainOne();
        PathOnward(old(View()), events, s, DrainPop);
        PathOnward(old(View()), events + [DrainPop], Next(s, DrainPop), DrainComplete);
        events := events + [DrainPop] + [DrainComplete];
      }
      assert all[..|all|] == all;
      ghost var s := View();
      LastPop(s);
      ReachableNext(s, DrainPop);
      stopper := Drained;
      PathOnward(old(View()), events, s, DrainPop);
      events := events + [DrainPop];
    }

    /** The final `_fail_active_request` of `stop`, run without interruption. */
    method FailLastRequest() returns (ghost events: seq<Event>)
      requires Reachable(View()) && stopper.Drained? && ActiveLockFree(View())
      modifies this
      ensures Path(old(View()), events, View()) && Reachable(View())
      ensures stopper.Stopped?
    {
      hide Reachable, Path, Next, Enabled;
      ghost var start := View();
      PathStart(start);
      StopFailStep(start);
      FailActiveRequest(ByStopper, ServiceStopping);
      PathOnward(start, [], start, StopFail);
      events := [] + [StopFail];
      while !section.Open?
        invariant Path(start, events, View()) && Reachable(View())
        invariant if section.Open? then stopper.Stopped? else section.who == ByStopper && !sender.IsWriting()
        decreases !section.Open?, section.FailTry?
      {
        ghost var s := View();
        ContinueStep(s);
        ContinueFailing();
        PathOnward(start, events, s, ContinueFail);
        events := events + [ContinueFail];
      }
    }

    /** `stop` run without interruption: it ends stopped, with every request that was waiting finished. */
    method Stop() returns (ghost events: seq<Event>)
      requires Reachable(View()) && stopper.Running? && ActiveLockFree(View())
      modifies this
      ensures Path(old(View()), events, View()) && Reachable(View())
      ensures stopper.Stopped?
      ensures forall r | r in old(sendQueue) :: r < |requests| && requests[r].done
    {
      hide Reachable, Path, Next, Enabled, StateEvolves;
      ghost var start := View();
      QueueIsAdmitted(start);
      MayClose(start);
      PathStart(start);
      Close();
      PathOnward(start, [], start, StopClose);
      ghost var closed := View();
      events := DrainQueuedRequests();
      ghost var drained := View();
      PathJoin(start, [] + [StopClose], closed, events, drained);
      ghost var last := FailLastRequest();
      PathJoin(start, [] + [StopClose] + events, drained, last, View());
      events := [] + [StopClose] + events + last;
      ReachableInv(drained);
      PathEvolves(drained, last, View());
      DoneStays(drained, View());
    }
  }

  lemma MayClose(s: State)
    requires s.stopper.Running?
    ensures Enabled(s, StopClose)
  {
  }

  lemma DoneStays(s: State, t: State)
    requires StateEvolves(s, t)
    ensures |s.reqs| <= |t.reqs| && forall r | 0 <= r < |s.reqs| && s.reqs[r].done :: t.reqs[r].done
  {
    assert forall r | 0 <= r < |s.reqs| :: Evolves(s.reqs[r], t.reqs[r]);
  }

  lemma StopFailStep(s: State)
    requires Reachable(s) && s.stopper.Drained? && ActiveLockFree(s)
    ensures Enabled(s, StopFail)
    ensures
      var t := Next(s, StopFail);
      if t.section.Open? then t.stopper.Stopped? else t.section.who == ByStopper && !t.sender.IsWriting()
  {
    ReachableInv(s);
  }

  lemma ContinueStep(s: State)
    requires Reachable(s) && !s.section.Open? && s.section.who == ByStopper && !s.sender.IsWriting()
    ensures Enabled(s, ContinueFail)
    ensures
      var t := Next(s, ContinueFail);
      if t.section.Open? then t.stopper.Stopped?
      else t.section.who == ByStopper && !t.sender.IsWriting() && s.section.FailTry? && !t.section.FailTry?
  {
    ReachableInv(s);
  }

  lemma LastPop(s: State)
    requires s.stopper.Draining? && s.queue == []
    ensures Enabled(s, DrainPop) && Next(s, DrainPop) == s.(stopper := Drained)
  {
  }

  lemma QueueIsAdmitted(s: State)
    requires Reachable(s)
    ensures forall r | r in s.queue :: r < |s.reqs|
  {
    ReachableInv(s);
  }
}
