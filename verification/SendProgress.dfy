/** Whatever waits in the send buffer can be sent: from every state that a run reaches there is a continuation, of steps
    of the engine alone, after which it is on the wire and nobody has anything to do. */
module SendProgress {
  import opened Bytes
  import opened Container
  import opened Counting
  import opened Machine
  import opened SendLog
  import opened SendPath

  /** The steps of a link that nobody uses or disturbs. */
  predicate Engine(step: Step) { step.Begin? || step.Complete? || step.Proceed? || step.CcExpire? || step.Go? }

  function ThreadRank(pc: Thread): nat {
    match pc
    case Idle => 0
    case Enqueued => 2
    case Ringing(_) => 6
    case Cleared(_) => 5
    case Resuming(_) => 4
    case ResumePost(_) => 3
    case Tail(_) => 2
    case _ => 1
  }

  function TaskRank(task: Task): nat {
    match task
    case Free => 0
    case Willing => 3
    case Holding(inStrand) => if inStrand then 12 else 2
    case CameEmpty(inStrand) => if inStrand then 11 else 1
    case Completed => 13
    case SawEmpty => 11
    case Recheck => 10
    case Resend => 9
    case _ => 1
  }

  predicate AtRest(s: State) {
    && !s.ccArmed && Weight(ThreadRank, s.threads) == 0 && s.task == Free && s.writes == 0 && s.posted == 0
  }

  /** Nearer to rest: by the congestion timer, the threads, the buffer, the write, or the tasks. */
  predicate Nearer(s': State, s: State) {
    var w, w' := Weight(ThreadRank, s.threads), Weight(ThreadRank, s'.threads);
    if s'.ccArmed != s.ccArmed then s.ccArmed
    else if w' != w then w' < w
    else if |s'.queue| != |s.queue| then |s'.queue| < |s.queue|
    else if s'.writes != s.writes then s'.writes < s.writes
    else 8 * s'.posted + TaskRank(s'.task) < 8 * s.posted + TaskRank(s.task)
  }

  /** What has been taken out and what waits, and what has been written and what is still to be: the same before and after
      the engine's steps. */
  function Outgoing(s: State): seq<Taken> { s.taken + AsWire(s.queue) }

  function Written(s: State): seq<Settled> { s.settled + AsSettled(s.sendingMsgs + s.queue, true) }

  predicate SameLoad(s': State, s: State) {
    && s'.enqueued == s.enqueued && s'.errored == s.errored && |s'.threads| == |s.threads|
    && Outgoing(s') == Outgoing(s) && Written(s') == Written(s)
  }

  lemma LeftAlone(s: State, s': State)
    requires LeavesAlone(s, s') && s'.errored == s.errored && |s'.threads| == |s.threads|
    ensures SameLoad(s', s)
  {
    hide AsWire, AsSettled;
  }

  lemma WireAppend(a: seq<bytes>, b: seq<bytes>)
    ensures AsWire(a + b) == AsWire(a) + AsWire(b)
    ensures AsSettled(a + b, true) == AsSettled(a, true) + AsSettled(b, true)
  {
  }

  lemma MoveOutLoad(s: State, n: nat)
    requires n <= |s.queue|
    ensures SameLoad(MoveOut(s, n), s)
  {
    hide AsSettled, AsWire;
    WireAppend(s.queue[..n], s.queue[n..]);
    assert s.queue == s.queue[..n] + s.queue[n..];
    Assoc(s.taken, AsWire(s.queue[..n]), AsWire(s.queue[n..]));
    Assoc(s.sendingMsgs, s.queue[..n], s.queue[n..]);
  }

  lemma CompleteLoad(c: Config, s: State)
    requires s.task == Free && s.writes > 0
    ensures SameLoad(DoStrand(c, s, Complete), s)
  {
    hide AsSettled, AsWire;
    WireAppend(s.sendingMsgs, s.queue);
    assert [] + s.queue == s.queue;
    Assoc(s.settled, AsSettled(s.sendingMsgs, true), AsSettled(s.queue, true));
  }

  lemma TaskStep(c: Config, s: State)
    requires s.task != Free && !s.task.Arming?
    ensures var s' := Do(c, s, Proceed);
            && SameLoad(s', s) && s'.ccArmed == s.ccArmed && s'.threads == s.threads
            && (if s.task.Holding? && s.queue != [] then |s'.queue| < |s.queue|
                else |s'.queue| == |s.queue| && s'.writes == s.writes
                     && 8 * s'.posted + TaskRank(s'.task) < 8 * s.posted + TaskRank(s.task))
  {
    hide AsSettled, AsWire, SameLoad, BatchLen;
    if s.task.Holding? && s.queue != [] {
      MoveOutLoad(s, BatchLen(c, s.queue));
    } else {
      LeftAlone(s, DoTask(c, s));
    }
  }

  lemma StrandStep(c: Config, s: State) returns (step: Step)
    requires s.task == Free && (s.writes > 0 || s.posted > 0)
    ensures step == Complete || step == Begin
    ensures var s' := Do(c, s, step);
            && SameLoad(s', s) && s'.ccArmed == s.ccArmed && s'.threads == s.threads && |s'.queue| == |s.queue|
            && (s'.writes < s.writes ||
                (s'.writes == s.writes && 8 * s'.posted + TaskRank(s'.task) < 8 * s.posted + TaskRank(s.task)))
  {
    hide AsSettled, AsWire, SameLoad, DoThread, DoTask, DoQueue, DoTimer;
    if s.writes > 0 {
      step := Complete;
      CompleteLoad(c, s);
    } else {
      step := Begin;
      LeftAlone(s, DoStrand(c, s, Begin));
    }
  }

  lemma ThreadStep(c: Config, s: State, t: nat)
    requires t < |s.threads| && ThreadRank(s.threads[t]) > 0
    ensures var s' := Do(c, s, Go(t));
            && SameLoad(s', s) && s'.ccArmed == s.ccArmed
            && Weight(ThreadRank, s'.threads) < Weight(ThreadRank, s.threads)
  {
    hide Weight, SameLoad;
    WeightMove(ThreadRank, s.threads, t, NextPc(c, s, s.threads[t]));
    LeftAlone(s, DoThread(c, s, t));
  }

  lemma TimerStep(c: Config, s: State)
    requires s.ccArmed && s.threads != [] && s.threads[0] == Idle
    ensures var s' := Do(c, s, CcExpire(0)); SameLoad(s', s) && !s'.ccArmed
  {
    hide SameLoad, DoThread, DoTask, DoQueue, DoStrand;
    LeftAlone(s, DoTimer(c, s, CcExpire(0)));
  }

  /** In a state that is not at rest somebody can take a step, and that step brings it nearer to rest. */
  lemma SomeStep(c: Config, s: State) returns (step: Step)
    requires !s.task.Arming? && s.threads != [] && !AtRest(s)
    ensures Engine(step) && Nearer(Do(c, s, step), s) && SameLoad(Do(c, s, step), s)
  {
    var t := WeightOfOne(ThreadRank, s.threads);
    hide Weight, Do, SameLoad;
    if Weight(ThreadRank, s.threads) > 0 {
      step := Go(t);
      ThreadStep(c, s, t);
    } else if s.ccArmed {
      step := CcExpire(0);
      TimerStep(c, s);
    } else if s.task != Free {
      step := Proceed;
      TaskStep(c, s);
    } else {
      step := StrandStep(c, s);
    }
  }

  lemma EngineKeeps(c: Config, longest: nat, s: State, step: Step)
    requires TimersSound(c) && KeepsSome(c, longest) && Inv(c, longest, s) && Engine(step)
    ensures Inv(c, longest, Do(c, s, step))
  {
    hide Do, Held, Looked, Short, KeepsSome, TimersSound;
    HeldStep(c, s, step);
    LookStep(c, longest, s, step);
    if c.shrinkAt > 0 {
      ShortStep(c, longest, s, step);
    }
  }

  lemma {:induction false} ToRest(c: Config, longest: nat, s: State) returns (more: seq<Step>)
    requires TimersSound(c) && KeepsSome(c, longest) && Inv(c, longest, s) && s.threads != []
    ensures forall i :: 0 <= i < |more| ==> Engine(more[i])
    ensures var s' := Run(Next(c), s, more); Inv(c, longest, s') && AtRest(s') && SameLoad(s', s)
    decreases Bit(s.ccArmed), Weight(ThreadRank, s.threads), |s.queue|, s.writes, 8 * s.posted + TaskRank(s.task)
  {
    more := [];
    if !AtRest(s) {
      var step := SomeStep(c, s);
      var s' := Do(c, s, step);
      EngineKeeps(c, longest, s, step);
      var rest := ToRest(c, longest, s');
      more := [step] + rest;
      RunTwo(Next(c), s, step, step);
      RunJoin(Next(c), s, [step], rest);
    }
    hide Do, Inv, AtRest, Engine, Outgoing, Written;
  }

  lemma {:induction false} ThreadsStay(c: Config, n: nat, schedule: seq<Step>)
    ensures |Run(Next(c), Init(n), schedule).threads| == n
    decreases |schedule|
  {
    hide Do;
    if schedule != [] {
      ThreadsStay(c, n, schedule[..|schedule| - 1]);
      NoThreadGoes(c, Run(Next(c), Init(n), schedule[..|schedule| - 1]), schedule[|schedule| - 1]);
    }
  }

  lemma NoThreadGoes(c: Config, s: State, step: Step)
    ensures |Do(c, s, step).threads| == |s.threads|
  {
    hide BatchLen, ShrinkLen, AsWire, AsPopped, AsDropped, AsSettled, NextPc, NextTask, NextFlag;
    if step.Go? {
      hide DoTask, DoQueue, DoTimer, DoStrand;
    } else if step.Proceed? {
      hide DoThread, DoQueue, DoTimer, DoStrand;
    } else if IsQueue(step) {
      hide DoThread, DoTask, DoTimer, DoStrand;
    } else {
      hide DoThread, DoTask, DoQueue;
    }
  }

  lemma RestIsIdle(c: Config, longest: nat, s: State)
    requires Inv(c, longest, s) && AtRest(s) && !s.errored
    ensures s.queue == [] && !s.sending && !Attended(s)
  {
    var t := WeightOfOne(ThreadRank, s.threads);
    CountZero(Looker, s.threads);
    CountZero(Ringer, s.threads);
    InvNotStranded(c, longest, s);
    hide Count, Weight, Generations, Looked;
  }

  lemma LoadAtRest(s: State)
    requires s.queue == [] && s.sendingMsgs == []
    ensures Outgoing(s) == s.taken && Written(s) == s.settled
  {
  }

  /** In every run without a fatal error, of a build that strands no message: the engine alone can bring everything that
      is in flight or waits to the wire, in order, with no error, and then rests with the flag clear. */
  lemma {:induction false} EverythingCanBeSent(c: Config, longest: nat, n: nat, schedule: seq<Step>)
    returns (more: seq<Step>)
    requires TimersSound(c) && KeepsSome(c, longest) && (c.shrinkAt > 0 ==> Within(schedule, longest)) && n > 0
    requires !Run(Next(c), Init(n), schedule).errored
    ensures forall i :: 0 <= i < |more| ==> Engine(more[i])
    ensures var s, s' := Run(Next(c), Init(n), schedule), Run(Next(c), Init(n), schedule + more);
            && s'.queue == [] && s'.sendingMsgs == [] && !s'.sending && !Attended(s') && s'.enqueued == s.enqueued
            && s'.taken == s.taken + AsWire(s.queue)
            && s'.settled == s.settled + AsSettled(s.sendingMsgs + s.queue, true)
  {
    InvRun(c, longest, n, schedule);
    ThreadsStay(c, n, schedule);
    more := ToRest(c, longest, Run(Next(c), Init(n), schedule));
    RunJoin(Next(c), Init(n), schedule, more);
    RunConserves(c, n, schedule + more);
    var s' := Run(Next(c), Init(n), schedule + more);
    RestIsIdle(c, longest, s');
    LoadAtRest(s');
    hide Run, Next, Init, Inv, Accounts, AsWire, AsSettled, Engine;
  }

  // What pops, errors and a full congestion window lead to.

  /** A pop function takes the first message, or all of them, and posts a task; popping the first of none does nothing. */
  lemma PopsPost(c: Config, s: State, t: nat)
    requires t < |s.threads| && s.threads[t] == Idle
    ensures Run(Next(c), s, [PopFirst(t), Go(t)]) ==
            if s.queue == [] then s
            else s.(queue := s.queue[1..], taken := s.taken + [Taken.Popped(s.queue[0])], posted := s.posted + 1)
    ensures Run(Next(c), s, [PopAll(t), Go(t)]) ==
            s.(queue := [], taken := s.taken + AsPopped(s.queue), posted := s.posted + 1)
  {
    hide Run, Do;
    PopFirstSteps(c, s, t);
    PopAllSteps(c, s, t);
    RunTwo(Next(c), s, PopFirst(t), Go(t));
    RunTwo(Next(c), s, PopAll(t), Go(t));
  }

  lemma PopFirstSteps(c: Config, s: State, t: nat)
    requires t < |s.threads| && s.threads[t] == Idle
    ensures Do(c, Do(c, s, PopFirst(t)), Go(t)) ==
            if s.queue == [] then s
            else s.(queue := s.queue[1..], taken := s.taken + [Taken.Popped(s.queue[0])], posted := s.posted + 1)
  {
    hide DoTask, DoTimer, DoStrand, ShrinkLen;
    assert s.threads[t := Thread.Popped][t := Idle] == s.threads && s.threads[t := Idle] == s.threads;
    assert s.queue != [] ==> AsPopped(s.queue[..1]) == [Taken.Popped(s.queue[0])];
  }

  lemma PopAllSteps(c: Config, s: State, t: nat)
    requires t < |s.threads| && s.threads[t] == Idle
    ensures Do(c, Do(c, s, PopAll(t)), Go(t)) ==
            s.(queue := [], taken := s.taken + AsPopped(s.queue), posted := s.posted + 1)
  {
    hide DoTask, DoTimer, DoStrand, ShrinkLen, AsPopped;
    assert s.threads[t := Thread.Popped][t := Idle] == s.threads;
  }

  /** A write that fails on TCP, or fatally on UDP, ends the sending with the flag clear; any other error of UDP goes on as a
      good completion does, but for what its message is settled as. */
  lemma ErrorLeads(c: Config, s: State, fatal: bool)
    requires s.task == Free && s.writes > 0
    ensures var settled := s.settled + AsSettled(s.sendingMsgs, false);
            if c.link.Tcp? || fatal
            then Run(Next(c), s, [CompleteWithError(fatal), Proceed]) ==
                 s.(writes := s.writes - 1, settled := settled, sendingMsgs := [], errored := true, sending := false)
            else Run(Next(c), s, [CompleteWithError(fatal)]) == Run(Next(c), s, [Complete]).(settled := settled)
  {
    hide Run, AsSettled, DoThread, DoQueue, DoTimer;
    RunTwo(Next(c), s, CompleteWithError(fatal), Proceed);
    RunTwo(Next(c), s, Complete, Complete);
  }

  /** The congestion check stops a sender that has the flag: its batch stays, and the congestion timer is pending. */
  lemma SuspendSteps(c: Config, s: State, t: nat)
    requires Reliable(c) && !c.splitTimers && s.task == Holding(false) && t < |s.threads| && s.threads[t] == Idle
    ensures var a := s.(task := Free, ccStarted := true, ccSeq := s.ccSeq + 1, ccArmed := true);
            && Do(c, s, Suspend) == a
            && Do(c, a, CcExpire(t)) == a.(ccArmed := false, threads := s.threads[t := Ringing(a.ccSeq)])
            && Do(c, a.(ccArmed := false, threads := s.threads[t := Ringing(a.ccSeq)]), CcContinue(t)) ==
               a.(ccSeq := a.ccSeq + 1)
  {
    hide DoThread, DoTask, DoQueue;
    assert s.threads[t := Ringing(s.ccSeq + 1)][t := Idle] == s.threads;
  }

  lemma GoesOn(c: Config, s: State, t: nat, pc: Thread)
    requires !c.splitTimers && t < |s.threads| && s.threads[t] == pc && s.queue != []
    requires pc.Ringing? || (!s.sending && (pc.Cleared? || pc.Resuming? || pc.ResumePost?)) || pc.Tail?
    ensures Do(c, s, Go(t)) ==
            match pc
            case Ringing(g) => s.(sending := false, threads := s.threads[t := Cleared(g)])
            case Cleared(g) => s.(threads := s.threads[t := Resuming(g)])
            case Resuming(g) => s.(threads := s.threads[t := ResumePost(g)])
            case ResumePost(g) => s.(threads := s.threads[t := Tail(g)], posted := s.posted + 1)
            case _ => s.(threads := s.threads[t := Idle], ccStarted := s.ccStarted && pc.gen != s.ccSeq)
  {
    hide DoTask, DoQueue, DoTimer, DoStrand;
  }

  lemma ResumeSteps(c: Config, s: State, t: nat)
    requires !c.splitTimers && t < |s.threads| && s.threads[t] == Ringing(s.ccSeq) && s.queue != []
    ensures var a := s.(sending := false, posted := s.posted + 1, threads := s.threads[t := Tail(s.ccSeq)]);
            && Do(c, Do(c, Do(c, Do(c, s, Go(t)), Go(t)), Go(t)), Go(t)) == a
            && Do(c, a, Go(t)) == a.(ccStarted := false, threads := s.threads[t := Idle])
  {
    hide Do;
    var g, a := s.ccSeq, s.(sending := false);
    GoesOn(c, s, t, Ringing(g));
    GoesOn(c, a.(threads := s.threads[t := Cleared(g)]), t, Cleared(g));
    assert s.threads[t := Cleared(g)][t := Resuming(g)] == s.threads[t := Resuming(g)];
    GoesOn(c, a.(threads := s.threads[t := Resuming(g)]), t, Resuming(g));
    assert s.threads[t := Resuming(g)][t := ResumePost(g)] == s.threads[t := ResumePost(g)];
    GoesOn(c, a.(threads := s.threads[t := ResumePost(g)]), t, ResumePost(g));
    assert s.threads[t := ResumePost(g)][t := Tail(g)] == s.threads[t := Tail(g)];
    GoesOn(c, a.(threads := s.threads[t := Tail(g)], posted := s.posted + 1), t, Tail(g));
    assert s.threads[t := Tail(g)][t := Idle] == s.threads[t := Idle];
  }

  /** Where timer operations do not overlap: a sender with a message that is suspended leaves the buffer alone and keeps the
      flag until the timer's call back; that lets the timer go on, or clears the flag and posts a task. */
  lemma SuspendedGoesOn(c: Config, s: State, t: nat)
    requires Reliable(c) && !c.splitTimers && s.task == Holding(false) && s.queue != []
    requires t < |s.threads| && s.threads[t] == Idle
    ensures var a := s.(task := Free, ccStarted := true, ccSeq := s.ccSeq + 1, ccArmed := true);
            && Run(Next(c), s, [Suspend]) == a
            && Run(Next(c), s, [Suspend, CcExpire(t), CcContinue(t)]) == a.(ccSeq := a.ccSeq + 1)
            && Run(Next(c), s, [Suspend, CcExpire(t), Go(t)] + [Go(t), Go(t), Go(t), Go(t)]) ==
               a.(ccArmed := false, ccStarted := false, sending := false, posted := s.posted + 1)
  {
    hide Run, Do;
    var a := s.(task := Free, ccStarted := true, ccSeq := s.ccSeq + 1, ccArmed := true);
    var b := a.(ccArmed := false, threads := s.threads[t := Ringing(a.ccSeq)]);
    SuspendSteps(c, s, t);
    ResumeSteps(c, b, t);
    RunTwo(Next(c), s, Suspend, CcExpire(t));
    RunThree(Next(c), s, Suspend, CcExpire(t), CcContinue(t));
    RunThree(Next(c), s, Suspend, CcExpire(t), Go(t));
    RunFour(Next(c), Do(c, b, Go(t)), Go(t), Go(t), Go(t), Go(t));
    RunJoin(Next(c), s, [Suspend, CcExpire(t), Go(t)], [Go(t), Go(t), Go(t), Go(t)]);
    assert b.threads[t := Tail(a.ccSeq)][t := Idle] == s.threads && b.threads[t := Idle] == s.threads;
  }

  /** resume_sending posts nothing for an empty buffer, or when the flag has been taken meanwhile; nor does send_handler when
      it makes sure that nothing is left behind. */
  lemma PostsUnlessTaken(c: Config, s: State, t: nat, gen: nat)
    requires t < |s.threads|
    ensures s.threads[t] == Cleared(gen) && s.queue == [] ==>
              Run(Next(c), s, [Go(t)]) == s.(threads := s.threads[t := Tail(gen)])
    ensures s.threads[t] == Resuming(gen) && s.sending ==>
              Run(Next(c), s, [Go(t)]) == s.(threads := s.threads[t := Tail(gen)])
    ensures s.task == Recheck && s.queue != [] ==>
              Run(Next(c), s, [Proceed, Proceed]) == s.(task := Free, posted := s.posted + Bit(!s.sending))
    ensures s.task == Recheck && s.queue == [] ==> Run(Next(c), s, [Proceed]) == s.(task := Free)
  {
    hide Run, DoQueue, DoTimer, DoStrand, BatchLen;
    RunTwo(Next(c), s, Go(t), Go(t));
    RunTwo(Next(c), s, Proceed, Proceed);
  }
}
