/** What the serial worker guarantees over whole runs, in every interleaving of its threads. */
module WorkerRuns {
  import opened Prelude
  import opened WorkerModel
  import opened WorkerInvariant

  /** `ss[i + 1]` is the state after event `es[i]`. */
  ghost predicate IsRun(ss: seq<State>, es: seq<Event>) {
    && |ss| == |es| + 1
    && ss[0] == Init(ss[0].cap, ss[0].maxWrite)
    && forall i | 0 <= i < |es| :: Enabled(ss[i], es[i]) && ss[i + 1] == Next(ss[i], es[i])
  }

  lemma {:induction false} RunInv(ss: seq<State>, es: seq<Event>, i: nat)
    requires IsRun(ss, es) && i < |ss|
    ensures Inv(ss[i])
  {
    if i == 0 {
      InvInit(ss[0].cap, ss[0].maxWrite);
    } else {
      RunInv(ss, es, i - 1);
      InvNext(ss[i - 1], es[i - 1]);
    }
  }

  // ---- one step ------------------------------------------------------------------------------

  /** A request keeps its identity, and once it has an outcome it keeps that too. */
  ghost predicate Evolves(p: Req, q: Req) {
    && q.number == p.number && q.body == p.body && q.timeout == p.timeout && q.admitted == p.admitted
    && (p.writeStarted ==> q.writeStarted)
    && (!q.writeStarted ==> q.deadline == p.deadline)
    && (p.done ==> q.done && q.success == p.success && q.reason == p.reason && q.writeStarted == p.writeStarted)
  }

  /** A request admitted between the two times. */
  ghost predicate Fresh(q: Req, from: real, to: real) {
    && from <= q.admitted <= to
    && q.timeout >= 0.0
    && (!q.writeStarted ==> q.deadline == q.admitted + q.timeout)
  }

  ghost predicate ReqsEvolve(ps: seq<Req>, qs: seq<Req>, from: real, to: real) {
    && |ps| <= |qs|
    && (forall r | 0 <= r < |ps| :: Evolves(ps[r], qs[r]))
    && (forall r | |ps| <= r < |qs| :: Fresh(qs[r], from, to))
  }

  ghost predicate StateEvolves(s: State, t: State) {
    && ReqsEvolve(s.reqs, t.reqs, s.now, t.now)
    && s.written <= t.written
    && s.now <= t.now
    && t.cap == s.cap && t.maxWrite == s.maxWrite
    && (s.stopper.Stopped? ==>
          t.stopper.Stopped? && |t.reqs| == |s.reqs| && t.written == s.written)
  }

  /** The part of the invariant that a single step needs. */
  ghost predicate Settled(s: State) {
    && (s.inFlight.Has? ==> Outstanding(s, s.inFlight.id))
    && (s.sender.Holding? ==> s.sender.r < |s.reqs|)
    && (s.sender.IsWriting() ==> s.reqs[s.sender.r].writeStarted)
    && (s.stopper.Stopped? ==> !s.accepting && s.active.Empty?)
  }

  /** Giving an outcome to a request that has none changes that request and no other. */
  lemma CompletionEvolves(s: State, r: Id, success: bool, reason: Option<Reason>)
    requires Outstanding(s, r)
    ensures ReqsEvolve(s.reqs, s.reqs[r := Outcome(s.reqs[r], success, reason)], s.now, s.now)
  {
  }

  lemma CompleteRequestEvolves(s: State, r: Id, reason: Reason)
    requires r < |s.reqs|
    ensures ReqsEvolve(s.reqs, CompleteRequest(s, r, reason).reqs, s.now, s.now)
  {
    if !s.reqs[r].done {
      CompletionEvolves(s, r, false, Some(reason));
    }
  }

  lemma ReqsStay(s: State, to: real)
    ensures ReqsEvolve(s.reqs, s.reqs, s.now, to)
  {
  }

  lemma AfterFailEvolves(s: State)
    requires Settled(s) && !s.section.Open? && s.section.r < |s.reqs|
    ensures StateEvolves(s, AfterFail(s))
  {
    hide ReqsEvolve;
    ReqsStay(s, s.now);
    if s.inFlight == Has(s.section.r) {
      CompletionEvolves(s, s.section.r, false, Some(s.section.reason));
    } else if s.section.FailFallback? {
      CompleteRequestEvolves(s, s.section.r, s.section.reason);
    } else {
    }
  }

  lemma ResolveEvolves(s: State)
    requires Settled(s) && s.reader.Resolving? && s.reader.r < |s.reqs|
    ensures StateEvolves(s, DoResolve(s))
  {
    if s.inFlight == Has(s.reader.r) {
      CompletionEvolves(s, s.reader.r, s.reader.verdict.Sent?, s.reader.verdict.Explanation());
    }
  }

  lemma WriteEvolves(s: State)
    requires Settled(s) && s.sender.At(WriteGate)
    ensures StateEvolves(s, DoWriteBegin(s))
  {
    CompleteRequestEvolves(s, s.sender.r, SenderTimeout);
  }

  predicate OfSender(e: Event) {
    match e
    case SenderLoop => true
    case SenderGet => true
    case SenderAccept => true
    case SenderLeaveWait(_) => true
    case SenderCheckReady(_) => true
    case SenderWriteBegin => true
    case SenderWriteEnd(_) => true
    case SenderWaitEnd => true
    case SenderClear => true
    case _ => false
  }

  lemma WriteEndEvolves(s: State, ok: bool)
    requires Settled(s) && s.sender.IsWriting()
    ensures ReqsEvolve(s.reqs, DoWriteEnd(s, ok).reqs, s.now, s.now)
  {
    CompleteRequestEvolves(s, s.sender.r, WriteError);
  }

  lemma SenderStepEvolves(s: State, e: Event)
    requires Settled(s) && Enabled(s, e) && OfSender(e)
    ensures StateEvolves(s, Next(s, e))
  {
    hide ReqsEvolve, DoWriteBegin;
    ReqsStay(s, s.now);
    match e
    case SenderAccept => CompleteRequestEvolves(s, s.sender.r, ServiceStopping);
    case SenderWriteBegin => WriteEvolves(s);
    case SenderWriteEnd(ok) => WriteEndEvolves(s, ok);
    case SenderWaitEnd =>
      if !s.reqs[s.sender.r].done {
        CompletionEvolves(s, s.sender.r, false, Some(SenderTimeout));
      }
    case SenderLoop =>
    case SenderGet =>
    case SenderLeaveWait(_) =>
    case SenderCheckReady(_) =>
    case SenderClear =>
  }

  lemma EnqueueEvolves(s: State, number: string, body: string, timeout: real, connected: bool, ready: bool)
    ensures ReqsEvolve(s.reqs, DoEnqueue(s, number, body, timeout, connected, ready).reqs, s.now, s.now)
  {
  }

  lemma StepEvolves(s: State, e: Event)
    requires Settled(s) && Enabled(s, e)
    ensures StateEvolves(s, Next(s, e))
  {
    hide ReqsEvolve, AfterFail, DoResolve;
    ReqsStay(s, Next(s, e).now);
    if OfSender(e) {
      SenderStepEvolves(s, e);
    } else {
      match e
      case Enqueue(number, body, timeout, connected, ready) =>
        EnqueueEvolves(s, number, body, timeout, connected, ready);
      case CallerTimeout(r) => CompleteRequestEvolves(s, r, ClientTimeout);
      case ReaderConfirm(_, _) =>
      case ReaderResolve => ResolveEvolves(s);
      case ReaderFail(_) =>
      case ContinueFail => AfterFailEvolves(s);
      case StopClose =>
      case DrainPop =>
      case DrainComplete => CompleteRequestEvolves(s, s.stopper.r, ServiceStopping);
      case StopFail =>
      case Tick(_) =>
    }
  }

  lemma EvolvesOnward(s: State, t: State, u: State)
    requires StateEvolves(s, t) && StateEvolves(t, u)
    ensures StateEvolves(s, u)
  {
  }

  lemma InvSettles(s: State)
    requires Inv(s)
    ensures Settled(s) && StateEvolves(s, s)
  {
  }

  lemma {:induction false} RunEvolves(ss: seq<State>, es: seq<Event>, i: nat, j: nat)
    requires IsRun(ss, es) && i <= j < |ss|
    ensures StateEvolves(ss[i], ss[j])
    decreases j
  {
    hide Inv, Settled, StateEvolves, Next, Enabled;
    if i < j {
      RunEvolves(ss, es, i, j - 1);
      RunInv(ss, es, j - 1);
      InvSettles(ss[j - 1]);
      StepEvolves(ss[j - 1], es[j - 1]);
      EvolvesOnward(ss[i], ss[j - 1], ss[j]);
    } else {
      RunInv(ss, es, i);
      InvSettles(ss[i]);
    }
  }

  // ---- sequences of events -------------------------------------------------------------------

  /** The events `es`, each enabled in its turn, lead from `s` to `t`. */
  ghost predicate Path(s: State, es: seq<Event>, t: State)
    decreases |es|
  {
    if es == [] then s == t
    else Enabled(s, es[0]) && Path(Next(s, es[0]), es[1..], t)
  }

  lemma PathStart(s: State)
    ensures Path(s, [], s)
  {
  }

  lemma {:induction false} PathOnward(s: State, es: seq<Event>, t: State, e: Event)
    requires Path(s, es, t) && Enabled(t, e)
    ensures Path(s, es + [e], Next(t, e))
    decreases |es|
  {
    hide Next, Enabled;
    if es == [] {
      assert [e][1..] == [];
      PathStart(Next(t, e));
    } else {
      PathOnward(Next(s, es[0]), es[1..], t, e);
      assert (es + [e])[1..] == es[1..] + [e];
    }
  }

  lemma {:induction false} PathJoin(s: State, es: seq<Event>, t: State, more: seq<Event>, u: State)
    requires Path(s, es, t) && Path(t, more, u)
    ensures Path(s, es + more, u)
    decreases |es|
  {
    hide Next, Enabled;
    if es == [] {
      assert es + more == more;
    } else {
      PathJoin(Next(s, es[0]), es[1..], t, more, u);
      assert (es + more)[1..] == es[1..] + more;
    }
  }

  ghost predicate Reachable(s: State) {
    exists ss, es :: IsRun(ss, es) && ss[|ss| - 1] == s
  }

  lemma ReachableInit(cap: nat, maxWrite: real)
    ensures Reachable(Init(cap, maxWrite))
  {
    assert IsRun([Init(cap, maxWrite)], []);
  }

  lemma ReachableNext(s: State, e: Event)
    requires Reachable(s) && Enabled(s, e)
    ensures Reachable(Next(s, e))
  {
    hide Enabled, Next;
    var ss, es :| IsRun(ss, es) && ss[|ss| - 1] == s;
    assert IsRun(ss + [Next(s, e)], es + [e]);
  }

  lemma ReachableInv(s: State)
    requires Reachable(s)
    ensures Inv(s)
  {
    hide Inv;
    var ss, es :| IsRun(ss, es) && ss[|ss| - 1] == s;
    RunInv(ss, es, |ss| - 1);
  }

  /** A path from a state of a run ends in a state of a run. */
  lemma {:induction false} PathIsARun(s: State, es: seq<Event>, t: State)
    requires Reachable(s) && Path(s, es, t)
    ensures Reachable(t)
    decreases |es|
  {
    hide Next, Enabled, Reachable;
    if es != [] {
      ReachableNext(s, es[0]);
      PathIsARun(Next(s, es[0]), es[1..], t);
    }
  }

  /** Along a path outcomes stay, and nobody gets one twice. */
  lemma {:induction false} PathEvolves(s: State, es: seq<Event>, t: State)
    requires Inv(s) && Path(s, es, t)
    ensures Inv(t) && StateEvolves(s, t)
    decreases |es|
  {
    hide Next, Enabled, Inv, StateEvolves, Settled;
    InvSettles(s);
    if es != [] {
      InvNext(s, es[0]);
      StepEvolves(s, es[0]);
      PathEvolves(Next(s, es[0]), es[1..], t);
      EvolvesOnward(s, Next(s, es[0]), t);
    }
  }

  // ---- exactly one outcome -------------------------------------------------------------------

  /**
   In every run each request is given an outcome at most once, and an outcome once given never
   changes. `_complete_in_flight` assigns without looking at the flag, so this rests on the slots.
   */
  lemma OutcomeFixedOnce(ss: seq<State>, es: seq<Event>, i: nat, j: nat, r: Id)
    requires IsRun(ss, es) && i <= j < |ss| && r < |ss[i].reqs|
    ensures r < |ss[j].reqs|
    ensures ss[j].reqs[r].completions == (if ss[j].reqs[r].done then 1 else 0)
    ensures ss[i].reqs[r].done ==>
              && ss[j].reqs[r].done
              && ss[j].reqs[r].success == ss[i].reqs[r].success
              && ss[j].reqs[r].reason == ss[i].reqs[r].reason
  {
    RunEvolves(ss, es, i, j);
    RunInv(ss, es, j);
  }

  /** A lost network, a missing SIM, a disconnect and the final stop touch the active request only. */
  lemma FailuresTouchActiveOnly(s: State, e: Event, r: Id)
    requires Inv(s) && Enabled(s, e) && r < |s.reqs|
    requires e.ReaderFail? || e.StopFail? || e.ContinueFail?
    ensures Next(s, e).reqs[r] != s.reqs[r] ==> s.active == Has(r)
  {
  }

  // ---- conservation and capacity -------------------------------------------------------------

  ghost function Unfinished(s: State): set<Id> {
    set r | 0 <= r < |s.reqs| && !s.reqs[r].done
  }

  ghost function IdsBetween(lo: Id, hi: Id): (ids: set<Id>)
    ensures forall r: Id :: r in ids <==> lo <= r < hi
    ensures |ids| == if lo <= hi then hi - lo else 0
  {
    if lo < hi then IdsBetween(lo, hi - 1) + {hi - 1} else {}
  }

  function Only(slot: Slot): set<Id> {
    if slot.Has? then {slot.id} else {}
  }

  lemma HeldOrQueued(s: State, r: Id)
    requires Inv(s) && r in Unfinished(s)
    ensures r in s.queue || SenderHeld(s) == Has(r) || DrainHeld(s) == Has(r)
    ensures r in IdsBetween(Front(s), |s.reqs|) + Only(SenderHeld(s)) + Only(DrainHeld(s))
  {
    hide SlotsAgree, SectionsAgree, OutcomesCounted, WritesOrdered, AdmissionAgrees;
    assert Outstanding(s, r);
    if r >= Front(s) {
      assert s.queue[r - Front(s)] == r;
    }
  }

  lemma UnionSize<T>(a: set<T>, b: set<T>, c: set<T>)
    ensures |a + b + c| <= |a| + |b| + |c|
  {
  }

  lemma Capacity(s: State)
    requires Inv(s)
    ensures |s.reqs| - Front(s) + |Only(SenderHeld(s))| + |Only(DrainHeld(s))| <= s.cap + 1 && Front(s) >= 0
  {
    hide Conserved, SlotsAgree, SectionsAgree, OutcomesCounted, WritesOrdered;
  }

  /**
   Conservation and capacity: in every reachable state an admitted request without an outcome is in
   the queue, or is the one the sender holds, or the one the drain holds; at most `cap + 1` exist.
   */
  lemma UnfinishedAreHeld(ss: seq<State>, es: seq<Event>, i: nat)
    requires IsRun(ss, es) && i < |ss|
    ensures forall r | r in Unfinished(ss[i]) ::
              r in ss[i].queue || SenderHeld(ss[i]) == Has(r) || DrainHeld(ss[i]) == Has(r)
    ensures |Unfinished(ss[i])| <= ss[i].cap + 1
  {
    hide Inv, Unfinished, SenderHeld, DrainHeld, Only, Next, Enabled;
    RunInv(ss, es, i);
    var s := ss[i];
    Capacity(s);
    var queued := IdsBetween(Front(s), |s.reqs|);
    forall r | r in Unfinished(s)
      ensures r in s.queue || SenderHeld(s) == Has(r) || DrainHeld(s) == Has(r)
      ensures r in queued + Only(SenderHeld(s)) + Only(DrainHeld(s))
    {
      HeldOrQueued(s, r);
    }
    SubsetSize(Unfinished(s), queued + Only(SenderHeld(s)) + Only(DrainHeld(s)));
    UnionSize(queued, Only(SenderHeld(s)), Only(DrainHeld(s)));
  }

  const MAX_SEND_QUEUE_SIZE := 20
  const GSM_GATEWAY_MAX_ADMITTED_REQUESTS := 21

  /** The proxy's connection budget covers the largest queue the worker can be built with. */
  lemma ProxyBudgetCovers(ss: seq<State>, es: seq<Event>, i: nat)
    requires IsRun(ss, es) && i < |ss| && ss[0].cap <= MAX_SEND_QUEUE_SIZE
    ensures |Unfinished(ss[i])| <= GSM_GATEWAY_MAX_ADMITTED_REQUESTS
  {
    UnfinishedAreHeld(ss, es, i);
    RunEvolves(ss, es, 0, i);
  }

  // ---- order ---------------------------------------------------------------------------------

  /**
   Commands reach the port in the order of admission, each request at most once: the log is strictly
   increasing in admission numbers in every state, and it only grows.
   */
  lemma WritesFollowAdmission(ss: seq<State>, es: seq<Event>, i: nat, j: nat)
    requires IsRun(ss, es) && i <= j < |ss|
    ensures StrictlyIncreasing(ss[j].written)
    ensures ss[i].written <= ss[j].written
    ensures forall k | 0 <= k < |ss[j].written| ::
              ss[j].written[k] < |ss[j].reqs| && ss[j].reqs[ss[j].written[k]].writeStarted
  {
    RunEvolves(ss, es, i, j);
    RunInv(ss, es, j);
  }

  /** A request its caller gave up on is never sent, not even later. */
  lemma AbandonedIsNeverSent(ss: seq<State>, es: seq<Event>, i: nat, j: nat, r: Id)
    requires IsRun(ss, es) && i <= j < |ss| && r < |ss[i].reqs|
    requires ss[i].reqs[r].done && ss[i].reqs[r].reason == Some(ClientTimeout)
    ensures r !in ss[j].written
  {
    RunEvolves(ss, es, i, j);
    RunInv(ss, es, i);
    RunInv(ss, es, j);
  }

  // ---- shutdown ------------------------------------------------------------------------------

  /**
   Once `stop` has closed admission, drained the queue and failed the active request, nothing is
   admitted and nothing is written any more, and a request still without an outcome is the one the
   sender has just popped.
   */
  lemma ShutdownIsFinal(ss: seq<State>, es: seq<Event>, i: nat, j: nat)
    requires IsRun(ss, es) && i <= j < |ss| && ss[i].stopper.Stopped?
    ensures |ss[j].reqs| == |ss[i].reqs| && ss[j].written == ss[i].written
    ensures ss[j].queue == [] && !ss[j].accepting && ss[j].active.Empty? && ss[j].inFlight.Empty?
    ensures forall r | r in Unfinished(ss[j]) :: ss[j].sender == Holding(r, Popped)
  {
    RunEvolves(ss, es, i, j);
    RunInv(ss, es, j);
    var s := ss[j];
    forall r | r in Unfinished(s)
      ensures s.sender == Holding(r, Popped)
    {
      assert Outstanding(s, r);
    }
  }

  /** ... and its very next step gives that request the outcome SERVICE_STOPPING. */
  lemma PoppedAfterStopIsRefused(s: State, r: Id)
    requires Inv(s) && !s.accepting && s.sender == Holding(r, Popped) && Outstanding(s, r)
    ensures Enabled(s, SenderAccept)
    ensures
      var q := Next(s, SenderAccept).reqs[r];
      q.done && !q.success && q.reason == Some(ServiceStopping) && !q.writeStarted
  {
    assert s.inFlight != Has(r);
  }
}
