/** Synchronous receiving (ASCS_SYNC_RECV): the handshake between the IO thread and the callers of sync_recv_msg over one
    mutex and one condition variable, with spurious wake-ups, time-outs and close.

    What happens entirely under the mutex is one step, but for the test of a wait's condition and the sleep after it:
    close changes `started` and notifies everyone without taking the mutex. */
module SyncRecv {
  import opened Bytes
  import opened Machine
  import opened Wrappers

  datatype Status = NotRequested | Requested | Responded | RespondedFailure

  /** Where a thread is: outside; inside with the mutex, about to test its condition or, having found it false, to sleep;
      asleep; or woken, respectively timed out, and without the mutex. */
  datatype Pc = Out | Testing | Dozing | Asleep | Awake | TimedOut

  /** What the IO thread waits for: that its batch, or its failure, has been noticed. */
  datatype Want = Msg | Err

  datatype Closer = Open | Flagged | Closed

  datatype Taker = Caller(t: nat) | Dispatch

  datatype Taken = Taken(batch: seq<bytes>, taker: Taker)

  /** `temp` is temp_msg_can while the IO thread offers it; `caller` is who has been admitted and has not left. */
  datatype State = State(status: Status, started: bool, closer: Closer, locked: bool,
                         callers: seq<Pc>, caller: Option<nat>, io: Pc, want: Want, stopped: bool,
                         temp: Option<seq<bytes>>, arrived: seq<seq<bytes>>, taken: seq<Taken>)

  /** `wake` names the thread that notify_one wakes: a sleeper if there is one; |callers| stands for the IO thread. */
  datatype Step =
    | Call(t: nat) | Test(t: nat, wake: nat) | Doze(t: nat) | Spurious(t: nat) | TimeOut(t: nat)
    | Relock(t: nat, wake: nat)
    | Receive(batch: seq<bytes>, wake: nat) | Fail(wake: nat) | IoTest | IoDoze | IoSpurious | IoRelock
    | Close | NotifyAll

  function Init(n: nat): State {
    State(NotRequested, true, Open, false, seq(n, i => Out), None, Out, Msg, false, None, [], [])
  }

  function Wanted(want: Want): Status { if want == Msg then Responded else RespondedFailure }

  predicate At(s: State, t: nat, pc: Pc) { t < |s.callers| && s.callers[t] == pc }

  function Goto(s: State, t: nat, pc: Pc): State
    requires t < |s.callers|
  {
    s.(callers := s.callers[t := pc])
  }

  predicate NobodyAsleep(s: State) {
    s.io != Asleep && forall i :: 0 <= i < |s.callers| ==> s.callers[i] != Asleep
  }

  predicate LegalWake(s: State, wake: nat) {
    At(s, wake, Asleep) || (wake == |s.callers| && s.io == Asleep) || NobodyAsleep(s)
  }

  function NotifyOne(s: State, wake: nat): State {
    s.(callers := if At(s, wake, Asleep) then s.callers[wake := Awake] else s.callers,
       io := if s.io == Asleep && wake == |s.callers| then Awake else s.io)
  }

  /** The end of sync_recv_msg: a response is taken, and the next caller may come. */
  function Leave(s: State, t: nat, wake: nat): State
    requires t < |s.callers|
  {
    var s1 := Goto(s, t, Out).(status := NotRequested, locked := false, caller := None);
    var s2 := if s.status == Responded && s.temp.Some?
              then s1.(taken := s.taken + [Taken(s.temp.value, Caller(t))], temp := None) else s1;
    NotifyOne(s2, wake)
  }

  function DoCaller(s: State, step: Step): State {
    match step
    case Call(t) =>
      if At(s, t, Out) && !s.locked && s.status == NotRequested
      then Goto(s, t, Testing).(status := Requested, locked := true, caller := Some(t)) else s
    case Test(t, wake) =>
      if !At(s, t, Testing) then s
      else if s.started && s.status == Requested then Goto(s, t, Dozing)
      else if LegalWake(s, wake) then Leave(s, t, wake) else s
    case Doze(t) => if At(s, t, Dozing) then Goto(s, t, Asleep).(locked := false) else s
    case Spurious(t) => if At(s, t, Asleep) then Goto(s, t, Awake) else s
    case TimeOut(t) => if At(s, t, Asleep) then Goto(s, t, TimedOut) else s
    case Relock(t, wake) =>
      if s.locked then s
      else if At(s, t, Awake) then Goto(s, t, Testing).(locked := true)
      else if At(s, t, TimedOut) && LegalWake(s, wake) then Leave(s, t, wake)
      else s
    case _ => s
  }

  /** handle_msg and handle_error, up to their wait. */
  function Offer(s: State, want: Want, wake: nat): State {
    NotifyOne(s.(status := Wanted(want), want := want, io := Testing, locked := true), wake)
  }

  /** ... and after it: a batch that is still offered is left to the caller, one that no caller took is dispatched. */
  function Withdraw(s: State): State {
    var s1 := s.(io := Out, locked := false);
    if s.want == Err || s.status == Responded then s1.(stopped := true)
    else if s.temp.None? then s1
    else s1.(taken := s.taken + [Taken(s.temp.value, Dispatch)], temp := None)
  }

  function DoIo(s: State, step: Step): State {
    match step
    case Receive(batch, wake) =>
      if s.io != Out || s.stopped || s.locked || !LegalWake(s, wake) then s
      else if s.status == Requested then Offer(s, Msg, wake).(temp := Some(batch), arrived := s.arrived + [batch])
      else s.(arrived := s.arrived + [batch], taken := s.taken + [Taken(batch, Dispatch)])
    case Fail(wake) =>
      if s.io != Out || s.stopped || s.locked || !LegalWake(s, wake) then s
      else if s.status == Requested then Offer(s, Err, wake) else s.(stopped := true)
    case IoTest =>
      if s.io != Testing then s
      else if s.started && s.status == Wanted(s.want) then s.(io := Dozing)
      else Withdraw(s)
    case IoDoze => if s.io == Dozing then s.(io := Asleep, locked := false) else s
    case IoSpurious => if s.io == Asleep then s.(io := Awake) else s
    case IoRelock => if s.io == Awake && !s.locked then s.(io := Testing, locked := true) else s
    case _ => s
  }

  function Woken(callers: seq<Pc>): (woken: seq<Pc>)
    ensures |woken| == |callers|
  {
    seq(|callers|, i requires 0 <= i < |callers| => if callers[i] == Asleep then Awake else callers[i])
  }

  function DoClose(s: State, step: Step): State {
    match step
    case Close => if s.closer == Open then s.(started := false, closer := Flagged) else s
    case NotifyAll =>
      if s.closer == Flagged
      then s.(closer := Closed, callers := Woken(s.callers), io := if s.io == Asleep then Awake else s.io) else s
    case _ => s
  }

  predicate IsCaller(step: Step) {
    step.Call? || step.Test? || step.Doze? || step.Spurious? || step.TimeOut? || step.Relock?
  }

  function Do(s: State, step: Step): State {
    if IsCaller(step) then DoCaller(s, step)
    else if step.Close? || step.NotifyAll? then DoClose(s, step)
    else DoIo(s, step)
  }

  // What every step keeps.

  predicate Holds(pc: Pc) { pc == Testing || pc == Dozing }

  /** Where the admitted caller is. */
  function Inside(s: State): Pc {
    if s.caller.Some? && s.caller.value < |s.callers| then s.callers[s.caller.value] else Out
  }

  /** Only the caller that has been admitted is inside, and the status says what it is up to; the mutex has one owner. */
  ghost predicate OneCaller(s: State) {
    && (forall i :: 0 <= i < |s.callers| ==> (s.callers[i] != Out <==> s.caller == Some(i)))
    && (s.caller.Some? ==> s.caller.value < |s.callers|)
    && (s.status == NotRequested <==> s.caller.None?)
    && (s.temp.Some? <==> s.status == Responded)
    && (s.temp.Some? && s.io == Out ==> s.stopped)
    && (s.status == RespondedFailure ==> if s.io == Out then s.stopped else s.want == Err)
    && (s.io == Out || s.io == Testing || s.io == Dozing || s.io == Asleep || s.io == Awake)
    && s.locked == (Holds(s.io) || Holds(Inside(s)))
    && !(Holds(s.io) && Holds(Inside(s)))
    && s.started == (s.closer == Open)
  }

  /** Whoever sleeps, or is about to, does so for a status that has not come. */
  ghost predicate SleepsRightly(s: State) {
    && (Inside(s) == Dozing || Inside(s) == Asleep ==> s.status == Requested)
    && (s.io == Dozing || s.io == Asleep ==> s.status == Wanted(s.want))
  }

  ghost predicate Inv(s: State) { OneCaller(s) && SleepsRightly(s) }

  function Batches(taken: seq<Taken>): (batches: seq<seq<bytes>>)
    ensures |batches| == |taken|
  {
    seq(|taken|, i requires 0 <= i < |taken| => taken[i].batch)
  }

  function Offered(s: State): seq<seq<bytes>> { if s.temp.Some? then [s.temp.value] else [] }

  /** Every batch so far has one taker, in order of arrival, but for one that is still on offer. */
  ghost predicate OneTaker(s: State) { s.arrived == Batches(s.taken) + Offered(s) }

  /** A leaving caller can only wake the IO thread. */
  lemma LeaveWakesIo(s: State, t: nat, wake: nat)
    requires OneCaller(s) && s.caller == Some(t) && LegalWake(s, wake) && s.callers[t] != Asleep
    ensures var s' := Leave(s, t, wake);
            && s'.callers == s.callers[t := Out] && s'.io == (if s.io == Asleep then Awake else s.io)
            && s'.status == NotRequested && !s'.locked && s'.caller == None && s'.want == s.want
            && s'.started == s.started && s'.closer == s.closer
            && s'.temp == (if s.status == Responded then None else s.temp) && s'.stopped == s.stopped
  {
  }

  lemma LeaveKeeps(s: State, t: nat, wake: nat)
    requires Inv(s) && s.caller == Some(t) && LegalWake(s, wake)
    requires s.callers[t] == Testing || (s.callers[t] == TimedOut && !s.locked)
    ensures Inv(Leave(s, t, wake))
  {
    LeaveWakesIo(s, t, wake);
    hide Leave, LegalWake;
  }

  lemma LeaversKeep(s: State, step: Step)
    requires (step.Test? || step.Relock?) && Inv(s)
    ensures Inv(DoCaller(s, step))
  {
    if LegalWake(s, step.wake) {
      if step.Test? && At(s, step.t, Testing) {
        LeaveKeeps(s, step.t, step.wake);
      } else if step.Relock? && !s.locked && At(s, step.t, TimedOut) {
        LeaveKeeps(s, step.t, step.wake);
      }
    }
    hide Leave, LegalWake;
  }

  lemma CallerKeeps(s: State, step: Step)
    requires IsCaller(step) && Inv(s)
    ensures Inv(DoCaller(s, step))
  {
    if step.Test? || step.Relock? {
      LeaversKeep(s, step);
      hide DoCaller, Inv;
    } else {
      hide Leave, LegalWake;
    }
  }

  lemma OfferKeeps(s: State, want: Want, wake: nat)
    requires Inv(s) && s.io == Out && !s.locked && s.status == Requested && LegalWake(s, wake)
    ensures var s' := Offer(s, want, wake);
            Inv(if want == Msg then s'.(temp := Some([])) else s')
  {
  }

  lemma WithdrawKeeps(s: State)
    requires Inv(s) && s.io == Testing
    ensures Inv(Withdraw(s))
  {
  }

  lemma OffersKeep(s: State, step: Step)
    requires (step.Receive? || step.Fail?) && Inv(s)
    ensures Inv(DoIo(s, step))
  {
    if s.io == Out && !s.locked && s.status == Requested && LegalWake(s, step.wake) {
      OfferKeeps(s, if step.Receive? then Msg else Err, step.wake);
    }
    hide LegalWake, Offer;
  }

  lemma IoKeeps(s: State, step: Step)
    requires !IsCaller(step) && !step.Close? && !step.NotifyAll? && Inv(s)
    ensures Inv(DoIo(s, step))
  {
    if step.Receive? || step.Fail? {
      OffersKeep(s, step);
      hide DoIo, Inv;
    } else {
      if step == IoTest && s.io == Testing {
        WithdrawKeeps(s);
      }
      hide LegalWake, Withdraw;
    }
  }

  lemma CloseKeeps(s: State, step: Step)
    requires Inv(s)
    ensures Inv(DoClose(s, step))
  {
  }

  lemma TakeOver(taken: seq<Taken>, batch: seq<bytes>, taker: Taker)
    ensures Batches(taken + [Taken(batch, taker)]) == Batches(taken) + [batch]
    ensures Batches(taken) + [] == Batches(taken)
    ensures Batches(taken + [Taken(batch, taker)]) + [] == Batches(taken) + [batch]
  {
  }

  lemma TakersLeave(s: State, t: nat, wake: nat)
    requires OneTaker(s) && t < |s.callers| && (s.temp.Some? ==> s.status == Responded)
    ensures OneTaker(Leave(s, t, wake))
  {
    if s.temp.Some? {
      TakeOver(s.taken, s.temp.value, Caller(t));
    }
    hide Batches;
  }

  lemma TakersCaller(s: State, step: Step)
    requires OneCaller(s) && OneTaker(s)
    ensures OneTaker(DoCaller(s, step))
  {
    if (step.Test? || step.Relock?) && step.t < |s.callers| {
      TakersLeave(s, step.t, step.wake);
    }
    hide LegalWake, Batches, Leave;
  }

  lemma TakersIo(s: State, step: Step)
    requires OneCaller(s) && OneTaker(s)
    ensures OneTaker(DoIo(s, step))
  {
    if s.temp.Some? {
      TakeOver(s.taken, s.temp.value, Dispatch);
    }
    if step.Receive? {
      TakeOver(s.taken, step.batch, Dispatch);
    }
    hide LegalWake, Batches;
  }

  lemma TakersClose(s: State, step: Step)
    requires OneTaker(s)
    ensures OneTaker(DoClose(s, step))
  {
  }

  lemma TakersStep(s: State, step: Step)
    requires OneCaller(s) && OneTaker(s)
    ensures OneTaker(Do(s, step))
  {
    if IsCaller(step) {
      TakersCaller(s, step);
    } else if !step.Close? && !step.NotifyAll? {
      TakersIo(s, step);
    } else {
      TakersClose(s, step);
    }
    hide OneTaker, DoClose, DoCaller, DoIo, OneCaller, Batches;
  }

  lemma InvStep(s: State, step: Step)
    requires Inv(s)
    ensures Inv(Do(s, step))
  {
    if IsCaller(step) {
      CallerKeeps(s, step);
    } else if step.Close? || step.NotifyAll? {
      CloseKeeps(s, step);
    } else {
      IoKeeps(s, step);
    }
    hide DoCaller, DoIo, DoClose, Inv;
  }

  lemma {:induction false} InvFrom(s: State, more: seq<Step>)
    requires Inv(s)
    ensures Inv(Run(Do, s, more))
    decreases |more|
  {
    if more != [] {
      InvFrom(s, more[..|more| - 1]);
      InvStep(Run(Do, s, more[..|more| - 1]), more[|more| - 1]);
    }
    hide Do, Inv;
  }

  lemma InvInit(n: nat)
    ensures Inv(Init(n)) && OneTaker(Init(n))
  {
  }

  lemma {:induction false} InvRun(n: nat, schedule: seq<Step>)
    ensures Inv(Run(Do, Init(n), schedule)) && OneTaker(Run(Do, Init(n), schedule))
    decreases |schedule|
  {
    InvInit(n);
    InvFrom(Init(n), schedule);
    if schedule != [] {
      InvRun(n, schedule[..|schedule| - 1]);
      TakersStep(Run(Do, Init(n), schedule[..|schedule| - 1]), schedule[|schedule| - 1]);
    }
    hide Init, Do, OneCaller, SleepsRightly, OneTaker;
  }

  /** In every run: each batch that has arrived went to exactly one taker, in order, or is on offer to the one caller that
      is inside; and no more than one caller is. */
  lemma {:induction false} EachBatchHasOneTaker(n: nat, schedule: seq<Step>)
    ensures var s := Run(Do, Init(n), schedule);
            && s.arrived == Batches(s.taken) + Offered(s)
            && (s.temp.Some? ==> Inside(s) != Out)
            && (forall i, j | 0 <= i < |s.callers| && 0 <= j < |s.callers| ::
                  s.callers[i] != Out && s.callers[j] != Out ==> i == j)
  {
    InvRun(n, schedule);
  }

  // Who takes a batch.

  /** The one batch that a step takes, if it takes one. */
  function TakenBy(s: State, s': State, step: Step): seq<Taken> {
    if s.temp.Some? && s'.temp.None? && s.caller.Some? then [Taken(s.temp.value, Caller(s.caller.value))]
    else if step.Receive? && |s'.arrived| > |s.arrived| && s.caller.None? then [Taken(step.batch, Dispatch)]
    else []
  }

  lemma LeaverTakes(s: State, t: nat, wake: nat)
    requires Inv(s) && s.caller == Some(t) && s.callers[t] != Asleep && LegalWake(s, wake)
    ensures var s' := Leave(s, t, wake);
            && s'.temp.None? && s'.arrived == s.arrived
            && s'.taken == s.taken + (if s.temp.Some? then [Taken(s.temp.value, Caller(t))] else [])
  {
    hide LegalWake;
  }

  lemma CallerTakes(s: State, step: Step)
    requires Inv(s) && IsCaller(step)
    ensures var s' := DoCaller(s, step);
            && s'.taken == s.taken + TakenBy(s, s', step) && s'.arrived == s.arrived
            && (s.temp.Some? && s'.temp.None? ==>
                  && s.caller.Some? && (step.Test? || step.Relock?) && step.t == s.caller.value
                  && s'.callers == s.callers[step.t := Out])
  {
    if (step.Test? || step.Relock?) && s.caller == Some(step.t) && LegalWake(s, step.wake) &&
       s.callers[step.t] != Asleep {
      LeaverTakes(s, step.t, step.wake);
      LeaveWakesIo(s, step.t, step.wake);
    }
    assert s.taken + [] == s.taken;
    hide Leave, LegalWake;
  }

  lemma IoTakes(s: State, step: Step)
    requires Inv(s) && !IsCaller(step) && !step.Close? && !step.NotifyAll?
    ensures var s' := DoIo(s, step);
            && s'.taken == s.taken + TakenBy(s, s', step)
            && (s.temp.Some? ==> s'.temp == s.temp)
            && (s'.arrived == s.arrived || (step.Receive? && s'.arrived == s.arrived + [step.batch]))
            && (s'.arrived != s.arrived && s.caller.Some? ==> s'.temp == Some(step.batch) && s'.status == Responded)
  {
    assert s.taken + [] == s.taken;
    hide LegalWake;
  }

  /** In every run a batch that is offered leaves with the caller that has been admitted, when that caller leaves, and with
      nobody else; a batch goes to the dispatcher when it arrives while no caller is inside; nothing else is taken, and
      what arrives while a caller is inside is offered to it. */
  lemma {:induction false} WhoTakes(n: nat, schedule: seq<Step>, step: Step)
    ensures var s, s' := Run(Do, Init(n), schedule), Run(Do, Init(n), schedule + [step]);
            && s'.taken == s.taken + (if s.temp.Some? && s'.temp.None? && s.caller.Some?
                                      then [Taken(s.temp.value, Caller(s.caller.value))]
                                      else if step.Receive? && |s'.arrived| > |s.arrived| && s.caller.None?
                                      then [Taken(step.batch, Dispatch)] else [])
            && (s.temp.Some? && s'.temp.None? ==>
                  && s.caller.Some? && (step.Test? || step.Relock?) && step.t == s.caller.value
                  && s'.callers == s.callers[step.t := Out])
            && (s'.arrived == s.arrived || (step.Receive? && s'.arrived == s.arrived + [step.batch]))
            && (s'.arrived != s.arrived && s.caller.Some? ==> s'.temp == Some(step.batch) && s'.status == Responded)
  {
    var s := Run(Do, Init(n), schedule);
    InvRun(n, schedule);
    RunOne(Do, Init(n), schedule, step);
    if IsCaller(step) {
      CallerTakes(s, step);
    } else if !step.Close? && !step.NotifyAll? {
      IoTakes(s, step);
    } else {
      assert s.taken + [] == s.taken;
    }
    hide Run, Init, DoCaller, DoIo, Inv;
  }

  /** A caller is admitted exactly when the mutex is free and nobody has been; it then waits for a response. */
  lemma {:induction false} CallIsAdmitted(n: nat, schedule: seq<Step>, t: nat)
    requires At(Run(Do, Init(n), schedule), t, Out)
    ensures var s, s' := Run(Do, Init(n), schedule), Run(Do, Init(n), schedule + [Call(t)]);
            if !s.locked && s.caller.None? then s'.caller == Some(t) && s'.status == Requested && At(s', t, Testing)
            else s' == s
  {
    InvRun(n, schedule);
    RunOne(Do, Init(n), schedule, Call(t));
    hide Run, Init;
  }

  /** A caller that finds a response, or whose time is up, leaves with what is offered: the batch after a response, nothing
      after a failure or a time-out; and the next caller may come. */
  lemma {:induction false} CallerLeaves(n: nat, schedule: seq<Step>, t: nat, wake: nat)
    requires var s := Run(Do, Init(n), schedule);
             && LegalWake(s, wake)
             && if At(s, t, Testing) then !s.started || s.status != Requested else At(s, t, TimedOut) && !s.locked
    ensures var s := Run(Do, Init(n), schedule);
            var s' := Run(Do, Init(n), schedule + [if At(s, t, Testing) then Test(t, wake) else Relock(t, wake)]);
            && At(s', t, Out) && s'.status == NotRequested && s'.caller.None? && !s'.locked
            && (s.temp.Some? <==> s.status == Responded)
            && s'.taken == s.taken + match s.temp { case Some(batch) => [Taken(batch, Caller(t))] case None => [] }
  {
    var s := Run(Do, Init(n), schedule);
    InvRun(n, schedule);
    RunOne(Do, Init(n), schedule, if At(s, t, Testing) then Test(t, wake) else Relock(t, wake));
    LeaverTakes(s, t, wake);
    LeaveWakesIo(s, t, wake);
    hide Run, Init, Leave, LegalWake;
  }

  lemma OfferSteps(s: State, t: nat, batch: seq<bytes>)
    requires Inv(s) && s.started && At(s, t, Asleep) && s.io == Out && !s.stopped
    ensures var s' := Do(Do(Do(s, Receive(batch, t)), IoTest), IoDoze);
            && Inv(s') && At(s', t, Awake) && s'.status == Responded && s'.temp == Some(batch) && !s'.locked
            && s'.taken == s.taken && s'.io == Asleep && |s'.callers| == |s.callers| && s'.caller == Some(t)
  {
    InvStep(s, Receive(batch, t));
    InvStep(Do(s, Receive(batch, t)), IoTest);
    InvStep(Do(Do(s, Receive(batch, t)), IoTest), IoDoze);
    hide Leave, Inv;
    assert Inv(s);
  }

  lemma TakeSteps(s: State, t: nat)
    requires Inv(s) && At(s, t, Awake) && s.status == Responded && s.temp.Some? && !s.locked && s.io == Asleep
    requires s.caller == Some(t)
    ensures var s' := Do(Do(s, Relock(t, 0)), Test(t, |s.callers|));
            && s'.taken == s.taken + [Taken(s.temp.value, Caller(t))] && At(s', t, Out) && s'.io == Awake
  {
    InvStep(s, Relock(t, 0));
    LeaverTakes(Do(s, Relock(t, 0)), t, |s.callers|);
    LeaveWakesIo(Do(s, Relock(t, 0)), t, |s.callers|);
    hide Leave;
  }

  /** On a started link a batch that arrives while a caller sleeps reaches that caller, and the IO thread is woken. */
  lemma {:induction false} BatchReachesCaller(n: nat, schedule: seq<Step>, t: nat, batch: seq<bytes>)
    requires var s := Run(Do, Init(n), schedule);
             s.started && At(s, t, Asleep) && s.io == Out && !s.stopped
    ensures var s := Run(Do, Init(n), schedule);
            var s' := Run(Do, s, [Receive(batch, t), IoTest, IoDoze] + [Relock(t, 0), Test(t, |s.callers|)]);
            && s'.taken == s.taken + [Taken(batch, Caller(t))] && At(s', t, Out) && s'.io == Awake
  {
    var s := Run(Do, Init(n), schedule);
    InvRun(n, schedule);
    OfferSteps(s, t, batch);
    var s3 := Do(Do(Do(s, Receive(batch, t)), IoTest), IoDoze);
    TakeSteps(s3, t);
    RunThree(Do, s, Receive(batch, t), IoTest, IoDoze);
    RunTwo(Do, s3, Relock(t, 0), Test(t, |s.callers|));
    RunJoin(Do, s, [Receive(batch, t), IoTest, IoDoze], [Relock(t, 0), Test(t, |s.callers|)]);
    hide Run, Init, Do, Inv;
  }

  /** A batch that arrives while no caller is inside is dispatched at once. */
  lemma {:induction false} ArrivalIsDispatched(n: nat, schedule: seq<Step>, batch: seq<bytes>, wake: nat)
    requires var s := Run(Do, Init(n), schedule);
             s.io == Out && !s.stopped && !s.locked && s.caller.None? && LegalWake(s, wake)
    ensures var s := Run(Do, Init(n), schedule);
            Run(Do, Init(n), schedule + [Receive(batch, wake)]) ==
            s.(arrived := s.arrived + [batch], taken := s.taken + [Taken(batch, Dispatch)])
  {
    hide Run, Init, LegalWake, Offer;
    InvRun(n, schedule);
    RunOne(Do, Init(n), schedule, Receive(batch, wake));
  }

  /** When its batch, or its failure, has been noticed, or the link is closed, the IO thread goes on to the next read; it
      stops after a failure, and when close comes before the caller has taken the batch. */
  lemma {:induction false} IoGoesOn(n: nat, schedule: seq<Step>)
    requires var s := Run(Do, Init(n), schedule);
             s.io == Testing && (!s.started || s.status != if s.want == Msg then Responded else RespondedFailure)
    ensures var s := Run(Do, Init(n), schedule);
            Run(Do, Init(n), schedule + [IoTest]) ==
            s.(io := Out, locked := false, stopped := s.stopped || s.want == Err || s.status == Responded)
  {
    hide Run, Init;
    InvRun(n, schedule);
    RunOne(Do, Init(n), schedule, IoTest);
  }

  /** Sleeping although the condition of one's wait is true. */
  ghost predicate Lost(s: State) {
    || (s.io == Asleep && (!s.started || s.status != Wanted(s.want)))
    || exists i :: 0 <= i < |s.callers| && s.callers[i] == Asleep && (!s.started || s.status != Requested)
  }

  /** Nobody ever sleeps when the status that it waits for has come; so as long as the link is started, no wake-up is
      lost. */
  lemma NoWakeupIsLost(n: nat, schedule: seq<Step>)
    ensures var s := Run(Do, Init(n), schedule);
            && (s.io == Asleep ==> s.status == Wanted(s.want))
            && (forall i :: 0 <= i < |s.callers| && s.callers[i] == Asleep ==> s.status == Requested)
            && (s.started ==> !Lost(s))
  {
    InvRun(n, schedule);
    hide Run, Init;
  }

  // Close.

  /** Whoever sleeps when close notifies everyone is woken, and nobody else is disturbed; before, and after, a sleeper may
      wake by itself, or its time may be up. */
  lemma EveryoneIsWoken(s: State, t: nat)
    requires t < |s.callers|
    ensures s.closer == Flagged ==>
              var s' := Do(s, NotifyAll);
              && s'.closer == Closed && s'.io == (if s.io == Asleep then Awake else s.io)
              && |s'.callers| == |s.callers| && s'.callers[t] == (if s.callers[t] == Asleep then Awake else s.callers[t])
    ensures s.callers[t] == Asleep ==>
              && Do(s, Spurious(t)) == s.(callers := s.callers[t := Awake])
              && Do(s, TimeOut(t)) == s.(callers := s.callers[t := TimedOut])
    ensures s.io == Asleep ==> Do(s, IoSpurious) == s.(io := Awake)
  {
  }

  /** Nobody notifies the condition variable on this thread's behalf but itself. */
  predicate Patient(more: seq<Step>, t: nat) {
    forall i :: 0 <= i < |more| ==> more[i] != Spurious(t) && more[i] != TimeOut(t)
  }

  predicate IoPatient(more: seq<Step>) { forall i :: 0 <= i < |more| ==> more[i] != IoSpurious }

  /** Some thread sleeps, and will in every continuation, unless it wakes by itself: spuriously or by its time-out. */
  ghost predicate SleepsForGood(s: State) {
    || (exists t: nat :: t < |s.callers| && CallerSleeps(s, t))
    || (forall more: seq<Step> :: IoPatient(more) ==> Run(Do, s, more).io == Asleep)
  }

  ghost predicate CallerSleeps(s: State, t: nat) {
    forall more: seq<Step> :: Patient(more, t) ==> At(Run(Do, s, more), t, Asleep)
  }

  /** The IO thread has no notification left: it has stopped, or it is inside handle_error, past its own. */
  predicate Silent(s: State) { s.stopped || (s.io != Out && s.want == Err) }

  predicate Stuck(s: State) { s.closer == Closed && Inside(s) == Asleep && Silent(s) }

  lemma StuckStep(s: State, step: Step, t: nat)
    requires Inv(s) && Stuck(s) && s.caller == Some(t) && step != Spurious(t) && step != TimeOut(t)
    ensures Stuck(Do(s, step)) && Do(s, step).caller == Some(t)
  {
    hide LegalWake, Leave, Offer;
  }

  lemma {:induction false} StuckRun(s: State, more: seq<Step>, t: nat)
    requires Inv(s) && Stuck(s) && s.caller == Some(t) && Patient(more, t)
    ensures Stuck(Run(Do, s, more)) && Run(Do, s, more).caller == Some(t)
    decreases |more|
  {
    if more != [] {
      var front := more[..|more| - 1];
      StuckRun(s, front, t);
      InvFrom(s, front);
      StuckStep(Run(Do, s, front), more[|more| - 1], t);
    }
    hide Do, Inv, Stuck;
  }

  /** A sleeping caller can be woken by close... */
  lemma CloseWakes(s: State, t: nat)
    requires At(s, t, Asleep) && s.closer != Closed
    ensures var a := Do(s, Close);
            At(if s.closer == Open then Do(a, NotifyAll) else Do(s, NotifyAll), t, Awake)
  {
  }

  /** ... by a read that fails... */
  lemma FailWakes(s: State, t: nat)
    requires At(s, t, Asleep) && s.status == Requested && s.io == Out && !s.stopped && !s.locked
    ensures At(Do(s, Fail(t)), t, Awake)
  {
  }

  /** ... which comes, unless the IO thread is silent, as soon as handle_msg is over. */
  lemma IoComesOut(s: State, t: nat)
    requires Inv(s) && s.caller == Some(t) && s.callers[t] == Asleep && s.closer == Closed && !Silent(s) && s.io != Out
    ensures var a := if s.io == Awake then Do(s, IoRelock) else s;
            var b := Do(a, IoTest);
            && a.io == Testing
            && At(b, t, Asleep) && b.status == Requested && b.io == Out && !b.stopped && !b.locked
  {
  }

  lemma ByClose(s: State, t: nat) returns (more: seq<Step>)
    requires At(s, t, Asleep) && s.closer != Closed
    ensures Patient(more, t) && At(Run(Do, s, more), t, Awake)
  {
    CloseWakes(s, t);
    if s.closer == Open {
      more := [Close, NotifyAll];
      RunTwo(Do, s, Close, NotifyAll);
    } else {
      more := [NotifyAll];
      RunTwo(Do, s, NotifyAll, NotifyAll);
    }
    hide Do, Run;
  }

  lemma ByFailure(s: State, t: nat) returns (more: seq<Step>)
    requires At(s, t, Asleep) && s.status == Requested && s.io == Out && !s.stopped && !s.locked
    ensures more == [Fail(t)] && At(Run(Do, s, more), t, Awake)
  {
    FailWakes(s, t);
    more := [Fail(t)];
    RunTwo(Do, s, Fail(t), Fail(t));
    hide Do, Run;
  }

  lemma ByFailureAfterMsg(s: State, t: nat) returns (more: seq<Step>)
    requires Inv(s) && s.caller == Some(t) && s.callers[t] == Asleep && s.closer == Closed && !Silent(s) && s.io != Out
    ensures Patient(more, t) && At(Run(Do, s, more), t, Awake)
  {
    IoComesOut(s, t);
    if s.io == Awake {
      FailWakes(Do(Do(s, IoRelock), IoTest), t);
      more := [IoRelock, IoTest, Fail(t)];
      RunThree(Do, s, IoRelock, IoTest, Fail(t));
    } else {
      FailWakes(Do(s, IoTest), t);
      more := [IoTest, Fail(t)];
      RunTwo(Do, s, IoTest, Fail(t));
    }
    hide Do, Run, Inv;
  }

  lemma CallerCanWake(s: State, t: nat)
    requires Inv(s) && s.caller == Some(t) && s.callers[t] == Asleep && !Stuck(s)
    ensures !CallerSleeps(s, t)
  {
    var more: seq<Step>;
    if s.closer != Closed {
      more := ByClose(s, t);
    } else if s.io == Out {
      more := ByFailure(s, t);
    } else {
      more := ByFailureAfterMsg(s, t);
    }
    assert Patient(more, t) && At(Run(Do, s, more), t, Awake);
    hide Do, Run;
  }

  /** When the IO thread sleeps, its caller is inside and awake, and its leaving wakes the IO thread. */
  lemma IoIsWoken(s: State, t: nat)
    requires Inv(s) && s.io == Asleep && s.caller == Some(t) && (s.callers[t] == TimedOut || s.callers[t] == Testing)
    ensures Do(s, if s.callers[t] == TimedOut then Relock(t, |s.callers|) else Test(t, |s.callers|)).io == Awake
  {
  }

  lemma IoCallerIsUp(s: State) returns (t: nat)
    requires Inv(s) && s.io == Asleep
    ensures s.caller == Some(t) && (s.callers[t] == TimedOut || s.callers[t] == Testing || s.callers[t] == Awake)
    ensures var a := Do(s, Relock(t, 0));
            s.callers[t] == Awake ==>
              && Inv(a) && a.io == Asleep && a.caller == Some(t) && a.callers[t] == Testing
              && |a.callers| == |s.callers|
  {
    t := s.caller.value;
    InvStep(s, Relock(t, 0));
  }

  lemma IoCanWake(s: State) returns (more: seq<Step>)
    requires Inv(s) && s.io == Asleep
    ensures IoPatient(more) && Run(Do, s, more).io == Awake
  {
    var t := IoCallerIsUp(s);
    var n := |s.callers|;
    if s.callers[t] == Awake {
      IoIsWoken(Do(s, Relock(t, 0)), t);
      more := [Relock(t, 0), Test(t, n)];
      RunTwo(Do, s, Relock(t, 0), Test(t, n));
    } else {
      IoIsWoken(s, t);
      more := [if s.callers[t] == TimedOut then Relock(t, n) else Test(t, n)];
      RunTwo(Do, s, more[0], more[0]);
    }
    hide Do, Run, Inv;
  }

  /** In any state that a run reaches, a thread sleeps for good exactly when it is a caller, close has notified everyone,
      and the IO thread is silent. */
  lemma SleepingForGoodIsStuck(s: State)
    requires Inv(s)
    ensures SleepsForGood(s) <==> Stuck(s)
  {
    assert Run(Do, s, []) == s;
    if Stuck(s) {
      var t := s.caller.value;
      forall more: seq<Step> | Patient(more, t) ensures At(Run(Do, s, more), t, Asleep) {
        StuckRun(s, more, t);
      }
      assert CallerSleeps(s, t);
    } else {
      forall t: nat | t < |s.callers| ensures !CallerSleeps(s, t) {
        if s.callers[t] == Asleep {
          CallerCanWake(s, t);
        } else {
          assert Patient([], t);
        }
      }
      assert IoPatient([]);
      if s.io == Asleep {
        var more := IoCanWake(s);
      }
    }
    hide Do, Silent, Run;
  }

  /** Close has notified everyone, and no caller will sleep on without the IO thread. */
  predicate Safe(s: State) {
    s.closer == Closed && !((Inside(s) == Dozing || Inside(s) == Asleep) && Silent(s))
  }

  lemma LeaveIsSafe(s: State, t: nat, wake: nat)
    requires Inv(s) && s.caller == Some(t) && LegalWake(s, wake) && s.callers[t] != Asleep && s.closer == Closed
    ensures Safe(Leave(s, t, wake))
  {
    LeaveWakesIo(s, t, wake);
    hide Leave, LegalWake;
  }

  lemma SafeStep(s: State, step: Step)
    requires Inv(s) && Safe(s)
    ensures Safe(Do(s, step))
  {
    if (step.Test? || step.Relock?) && s.caller == Some(step.t) && LegalWake(s, step.wake) &&
       s.callers[step.t] != Asleep {
      LeaveIsSafe(s, step.t, step.wake);
    }
    hide LegalWake, Leave;
  }

  lemma {:induction false} SafeRun(s: State, more: seq<Step>)
    requires Inv(s) && Safe(s)
    ensures Safe(Run(Do, s, more)) && Inv(Run(Do, s, more))
    decreases |more|
  {
    InvFrom(s, more);
    if more != [] {
      var front := more[..|more| - 1];
      SafeRun(s, front);
      SafeStep(Run(Do, s, front), more[|more| - 1]);
    }
    hide Do, Inv, Safe;
  }

  lemma NotifiedIsSafe(s: State)
    requires Inv(s) && s.closer == Flagged
    ensures Safe(Do(s, NotifyAll)) <==> !(Inside(s) == Dozing && Silent(s))
  {
  }

  lemma DozerSleeps(s: State, t: nat)
    requires Inv(s) && s.closer == Flagged && s.caller == Some(t) && s.callers[t] == Dozing && Silent(s)
    ensures Stuck(Do(Do(s, NotifyAll), Doze(t)))
  {
  }

  /** After close a thread comes to sleep for good exactly if, when close notifies everyone, a caller stands between the
      test of its condition and its sleep, and the IO thread is silent. */
  lemma {:induction false} CloseMissesTheDozing(n: nat, schedule: seq<Step>)
    requires Run(Do, Init(n), schedule).closer == Flagged
    ensures var s := Run(Do, Init(n), schedule);
            (exists more: seq<Step> :: SleepsForGood(Run(Do, Do(s, NotifyAll), more)))
            <==> Inside(s) == Dozing && Silent(s)
  {
    InvRun(n, schedule);
    var s := Run(Do, Init(n), schedule);
    var s' := Do(s, NotifyAll);
    InvStep(s, NotifyAll);
    NotifiedIsSafe(s);
    if Inside(s) == Dozing && Silent(s) {
      var t := s.caller.value;
      DozerSleeps(s, t);
      RunTwo(Do, s', Doze(t), Doze(t));
      InvStep(s', Doze(t));
      SleepingForGoodIsStuck(Do(s', Doze(t)));
      assert SleepsForGood(Run(Do, s', [Doze(t)]));
    } else {
      forall more: seq<Step> ensures !SleepsForGood(Run(Do, s', more)) {
        SafeRun(s', more);
        SleepingForGoodIsStuck(Run(Do, s', more));
      }
    }
    hide Run, Init, Do, Silent, SleepsForGood;
  }

  const BROKEN := State(NotRequested, true, Open, false, [Out], None, Out, Msg, true, None, [], [])
  const ASKING := BROKEN.(status := Requested, locked := true, caller := Some(0))

  lemma AskingSteps()
    ensures Do(Init(1), Fail(0)) == BROKEN
    ensures Do(BROKEN, Call(0)) == ASKING.(callers := [Testing])
    ensures Do(ASKING.(callers := [Testing]), Test(0, 0)) == ASKING.(callers := [Dozing])
  {
    assert [Out][0 := Testing] == [Testing] && [Testing][0 := Dozing] == [Dozing] && Init(1).callers == [Out];
    hide Leave, Offer, DoClose;
  }

  lemma ClosingSteps()
    ensures var b := ASKING.(callers := [Dozing], started := false, closer := Flagged);
            Do(ASKING.(callers := [Dozing]), Close) == b && Do(b, NotifyAll) == b.(closer := Closed)
  {
    assert Woken([Dozing]) == [Dozing];
    hide DoCaller, DoIo;
  }

  /** And that can happen: the read has failed while nobody asked, a caller tests, close sets the flag and notifies
      nobody, and the caller sleeps for good. */
  lemma ACallerIsForgotten() returns (schedule: seq<Step>)
    ensures SleepsForGood(Run(Do, Init(1), schedule))
  {
    AskingSteps();
    ClosingSteps();
    var s0, b := Init(1), ASKING.(callers := [Dozing], started := false, closer := Flagged);
    assert Run(Do, s0, []) == s0;
    schedule := Then(Do, s0, [], s0, Fail(0), BROKEN);
    schedule := Then(Do, s0, schedule, BROKEN, Call(0), ASKING.(callers := [Testing]));
    schedule := Then(Do, s0, schedule, ASKING.(callers := [Testing]), Test(0, 0), ASKING.(callers := [Dozing]));
    schedule := Then(Do, s0, schedule, ASKING.(callers := [Dozing]), Close, b);
    InvRun(1, schedule);
    DozerSleeps(b, 0);
    schedule := Then(Do, s0, schedule, b, NotifyAll, b.(closer := Closed));
    schedule := Then(Do, s0, schedule, b.(closer := Closed), Doze(0), Do(b.(closer := Closed), Doze(0)));
    InvRun(1, schedule);
    SleepingForGoodIsStuck(Run(Do, s0, schedule));
    hide Run, Init, Do, SleepsForGood, OneCaller, SleepsRightly;
  }
}
