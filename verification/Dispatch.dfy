/** Dispatching without ASCS_DISPATCH_BATCH_MSG: one message at a time, refused ones again and again, in order.

    The dispatch strand runs do_dispatch_msg; the IO strand moves batches into the receive buffer and asks for a task
    unless it sees `dispatching`; completions of TIMER_DISPATCH_MSG ask for a task on any service thread. All of them
    interleave at every access to the buffer, to `dispatching` and to the timer. */
module Dispatch {
  import opened Bytes
  import opened Counting
  import opened Machine
  import opened Wrappers

  /** Where do_dispatch_msg is. */
  datatype Dis =
    | Free
    | Looking     // `dispatching` was clear; the buffer is next
    | Took        // a message has been dequeued; `dispatching` is next
    | Handling    // on_msg_handle runs
    | Arming      // it refused: start_timer has set the status but not yet the sequence number
    | Accepted    // it accepted: `dispatching` is next
    | Reposting   // ... and then another task
    | Empty       // there was no message: `dispatching` is next

  /** Where the IO strand is: it has moved a batch in and will look at `dispatching`, or has found it clear. */
  datatype Rw = RwIdle | MovedIn | MustPost

  /** Where a service thread is that runs a completion of the timer. */
  datatype Thread =
    | Idle
    | Due(gen: nat)          // the test of the status is next
    | Ringing(gen: nat)      // timer_handler will post a task
    | Tail(gen: nat)         // the call back has returned; the sequence number is next
    | Cancelling(gen: nat)   // ... and it was still the timer's; the status is next

  datatype State = State(recvBuffer: seq<bytes>, held: Option<bytes>, dispatching: bool, disPosted: nat, dis: Dis, rw: Rw,
                         threads: seq<Thread>, armed: bool, started: bool, seqNo: nat,
                         arrived: seq<bytes>, handled: seq<bytes>)

  datatype Step = Arrive(batch: seq<bytes>) | RwGo | Begin | Proceed | Answer(ok: bool) | Expire(t: nat) | Go(t: nat)

  /** `split`: the completion of the timer may overlap with the starting of it by another service thread. */
  datatype Config = Config(split: bool)

  function Init(n: nat): State {
    State([], None, false, 0, Free, RwIdle, seq(n, i => Idle), false, false, 0, [], [])
  }

  function Armed(s: State): State { s.(started := true, armed := true, seqNo := s.seqNo + 1, dis := Free) }

  function NextDis(s: State): Dis {
    match s.dis
    case Looking => if s.recvBuffer == [] then Empty else Took
    case Took => Handling
    case Handling => Handling
    case Accepted => Reposting
    case _ => Free
  }

  function DoDis(s: State): State {
    if s.dis == Arming then Armed(s)
    else if s.dis == Looking && s.recvBuffer != []
    then s.(held := Some(s.recvBuffer[0]), recvBuffer := s.recvBuffer[1..], dis := Took)
    else s.(dis := NextDis(s),
            dispatching := s.dis == Took || (s.dispatching && s.dis != Accepted && s.dis != Empty),
            disPosted := if s.dis == Reposting then s.disPosted + 1 else s.disPosted)
  }

  function DoAnswer(c: Config, s: State, ok: bool): State {
    if s.dis != Handling || s.held.None? then s
    else if ok then s.(handled := s.handled + [s.held.value], held := None, dis := Accepted)
    else if c.split then s.(started := true, dis := Arming)
    else Armed(s)
  }

  function NextPc(c: Config, s: State, pc: Thread): Thread {
    match pc
    case Due(g) => if s.started then Ringing(g) else Tail(g)
    case Ringing(g) => Tail(g)
    case Tail(g) => if g == s.seqNo && c.split then Cancelling(g) else Idle
    case _ => Idle
  }

  predicate Cancels(c: Config, s: State, pc: Thread) {
    pc.Cancelling? || (pc.Tail? && pc.gen == s.seqNo && !c.split)
  }

  function DoThread(c: Config, s: State, t: nat): State
    requires t < |s.threads|
  {
    var pc := s.threads[t];
    s.(threads := s.threads[t := NextPc(c, s, pc)],
       disPosted := if pc.Ringing? then s.disPosted + 1 else s.disPosted,
       started := s.started && !Cancels(c, s, pc))
  }

  function DoRw(s: State): State {
    match s.rw
    case RwIdle => s
    case MovedIn => s.(rw := if s.dispatching then RwIdle else MustPost)
    case MustPost => s.(rw := RwIdle, disPosted := s.disPosted + 1)
  }

  function Do(c: Config, s: State, step: Step): State {
    match step
    case Arrive(batch) =>
      if s.rw == RwIdle && batch != []
      then s.(recvBuffer := s.recvBuffer + batch, arrived := s.arrived + batch, rw := MovedIn) else s
    case RwGo => DoRw(s)
    case Begin =>
      if s.dis == Free && s.disPosted > 0
      then s.(disPosted := s.disPosted - 1, dis := if s.dispatching then Handling else Looking) else s
    case Proceed => DoDis(s)
    case Answer(ok) => DoAnswer(c, s, ok)
    case Expire(t) =>
      if s.armed && t < |s.threads| && s.threads[t] == Idle
      then s.(armed := false, threads := s.threads[t := Due(s.seqNo)]) else s
    case Go(t) => if t < |s.threads| then DoThread(c, s, t) else s
  }

  function Next(c: Config): (State, Step) -> State { (s, step) => Do(c, s, step) }

  // Exactly once and in order.

  function Held(s: State): seq<bytes> { if s.held.Some? then [s.held.value] else [] }

  /** What has arrived is what was accepted, then what is held, then what waits; and a message is held exactly from its
      dequeueing to its acceptance. */
  ghost predicate InOrder(s: State) {
    && s.arrived == s.handled + Held(s) + s.recvBuffer
    && s.dispatching == (s.dis == Handling || s.dis == Arming || s.dis == Accepted || (s.dis == Free && s.held.Some?))
    && s.held.Some? == (s.dis == Took || (s.dispatching && s.dis != Accepted))
  }

  lemma Move(a: seq<bytes>, h: seq<bytes>, q: seq<bytes>, more: seq<bytes>)
    ensures a + h + (q + more) == a + h + q + more
    ensures q != [] ==> a + [] + q == a + [q[0]] + q[1..]
    ensures a + h + q == a + h + [] + q
  {
  }

  lemma DisInOrder(s: State)
    requires InOrder(s)
    ensures InOrder(DoDis(s))
  {
    Move(s.handled, Held(s), s.recvBuffer, []);
  }

  lemma AnswerInOrder(c: Config, s: State, ok: bool)
    requires InOrder(s)
    ensures InOrder(DoAnswer(c, s, ok))
  {
    Move(s.handled, Held(s), s.recvBuffer, []);
  }

  lemma StepInOrder(c: Config, s: State, step: Step)
    requires InOrder(s)
    ensures InOrder(Do(c, s, step))
  {
    match step {
      case Proceed =>
        DisInOrder(s);
        hide InOrder, DoDis;
      case Answer(ok) =>
        AnswerInOrder(c, s, ok);
        hide InOrder, DoAnswer;
      case Arrive(batch) =>
        Move(s.handled, Held(s), s.recvBuffer, batch);
      case Go(t) =>
        if t < |s.threads| {
          GoLeavesAlone(c, s, t);
        }
        hide DoThread;
      case _ =>
    }
  }

  lemma GoLeavesAlone(c: Config, s: State, t: nat)
    requires t < |s.threads|
    ensures var s' := DoThread(c, s, t);
            && s'.arrived == s.arrived && s'.handled == s.handled && s'.held == s.held && s'.recvBuffer == s.recvBuffer
            && s'.dispatching == s.dispatching && s'.dis == s.dis
  {
  }

  /** Whatever the build and the schedule, and however often a message is refused: each is accepted once, in order. */
  lemma {:induction false} AlwaysInOrder(c: Config, n: nat, schedule: seq<Step>)
    ensures InOrder(Run(Next(c), Init(n), schedule))
    decreases |schedule|
  {
    if schedule != [] {
      AlwaysInOrder(c, n, schedule[..|schedule| - 1]);
      StepInOrder(c, Run(Next(c), Init(n), schedule[..|schedule| - 1]), schedule[|schedule| - 1]);
      hide Do, Init, InOrder;
    }
  }

  // Who posts a task.

  /** The IO strand posts a task for a batch unless it sees `dispatching`; the retry timer posts one unless it has been
      stopped. */
  lemma PostsUnless(c: Config, s: State, t: nat, gen: nat)
    requires s.rw == MovedIn && t < |s.threads| && s.threads[t] == Due(gen)
    ensures Run(Next(c), s, if s.dispatching then [RwGo] else [RwGo, RwGo]) ==
            s.(rw := RwIdle, disPosted := s.disPosted + Bit(!s.dispatching))
    ensures Run(Next(c), s, if s.started then [Go(t), Go(t)] else [Go(t)]) ==
            s.(threads := s.threads[t := Tail(gen)], disPosted := s.disPosted + Bit(s.started))
  {
    hide Run, DoDis, DoAnswer;
    RunTwo(Next(c), s, RwGo, RwGo);
    RunTwo(Next(c), s, Go(t), Go(t));
    assert s.threads[t := Ringing(gen)][t := Tail(gen)] == s.threads[t := Tail(gen)];
  }

  // What an answer does.

  lemma AcceptSteps(c: Config, s: State)
    requires InOrder(s) && s.dis == Handling
    ensures s.held.Some?
    ensures Do(c, s, Answer(true)) == s.(handled := s.handled + [s.held.value], held := None, dis := Accepted)
    ensures var a := Do(c, s, Answer(true));
            Do(c, Do(c, a, Proceed), Proceed) == a.(dispatching := false, disPosted := s.disPosted + 1, dis := Free)
  {
  }

  /** An accepted message is done with: it is the next one handled, nothing is held, `dispatching` is cleared and the next
      task is posted. */
  lemma {:induction false} AcceptedIsDone(c: Config, n: nat, schedule: seq<Step>)
    requires Run(Next(c), Init(n), schedule).dis == Handling
    ensures var s := Run(Next(c), Init(n), schedule);
            var s', s'' := Run(Next(c), s, [Answer(true)]), Run(Next(c), s, [Answer(true), Proceed, Proceed]);
            && s.held.Some? && s'.handled == s.handled + [s.held.value] && s'.held.None?
            && s''.handled == s'.handled && s''.held.None? && s''.recvBuffer == s.recvBuffer
            && !s''.dispatching && s''.disPosted == s.disPosted + 1 && s''.dis == Free
  {
    var s := Run(Next(c), Init(n), schedule);
    AlwaysInOrder(c, n, schedule);
    AcceptSteps(c, s);
    RunTwo(Next(c), s, Answer(true), Proceed);
    RunThree(Next(c), s, Answer(true), Proceed, Proceed);
    hide Run, Init, Do, InOrder;
  }

  lemma RefuseSteps(c: Config, s: State)
    requires InOrder(s) && s.dis == Handling
    ensures var s' := if c.split then Do(c, Do(c, s, Answer(false)), Proceed) else Do(c, s, Answer(false));
            s' == s.(started := true, armed := true, seqNo := s.seqNo + 1, dis := Free)
  {
  }

  /** A refused message stays held, nothing else is touched, and the retry timer is started. */
  lemma {:induction false} RefusedStaysHeld(c: Config, n: nat, schedule: seq<Step>)
    requires Run(Next(c), Init(n), schedule).dis == Handling
    ensures var s := Run(Next(c), Init(n), schedule);
            var s' := Run(Next(c), s, if c.split then [Answer(false), Proceed] else [Answer(false)]);
            && s.held.Some? && s'.held == s.held && s'.handled == s.handled && s'.recvBuffer == s.recvBuffer
            && s'.dispatching && s'.armed && s'.started && s'.dis == Free
  {
    var s := Run(Next(c), Init(n), schedule);
    AlwaysInOrder(c, n, schedule);
    RefuseSteps(c, s);
    RunTwo(Next(c), s, Answer(false), Proceed);
    hide Run, Init, Do;
  }

  /** The messages that were held when on_msg_handle returned true. */
  function AcceptedIn(c: Config, n: nat, schedule: seq<Step>): seq<bytes>
    decreases |schedule|
  {
    if schedule == [] then []
    else
      var front := schedule[..|schedule| - 1];
      var s := Run(Next(c), Init(n), front);
      if schedule[|schedule| - 1] == Answer(true) && s.dis == Handling && s.held.Some?
      then AcceptedIn(c, n, front) + [s.held.value] else AcceptedIn(c, n, front)
  }

  lemma HandledStep(c: Config, s: State, step: Step)
    ensures Do(c, s, step).handled ==
            if step == Answer(true) && s.dis == Handling && s.held.Some? then s.handled + [s.held.value] else s.handled
  {
    hide NextDis, NextPc, Cancels;
  }

  /** In every run exactly the accepted messages have been handled, each once, in the order of their acceptance. */
  lemma {:induction false} HandledIsAccepted(c: Config, n: nat, schedule: seq<Step>)
    ensures Run(Next(c), Init(n), schedule).handled == AcceptedIn(c, n, schedule)
    decreases |schedule|
  {
    if schedule != [] {
      var front := schedule[..|schedule| - 1];
      HandledIsAccepted(c, n, front);
      HandledStep(c, Run(Next(c), Init(n), front), schedule[|schedule| - 1]);
      hide Do, Init;
    }
  }

  // Nobody forgets a message.

  /** A thread that runs a generation of the timer; one that has yet to test the status for it; one that will post. */
  function Current(g: nat): Thread -> bool { (pc: Thread) => !pc.Idle? && pc.gen == g }

  function DueNow(g: nat): Thread -> bool { (pc: Thread) => pc.Due? && pc.gen == g }

  predicate Bell(pc: Thread) { pc.Ringing? }

  lemma DueIsCurrent(g: nat, threads: seq<Thread>)
    ensures Count(DueNow(g), threads) <= Count(Current(g), threads)
  {
    CountAdd(DueNow(g), pc => false, Current(g), threads);
  }

  /** Someone is bound to look: a task is queued or running, the IO strand has yet to look at `dispatching`, the retry
      timer is pending, or its completion has yet to post. */
  predicate Attended(s: State) {
    || s.disPosted > 0 || s.dis != Free || s.rw != RwIdle
    || (s.started && (s.armed || Count(DueNow(s.seqNo), s.threads) > 0)) || Count(Bell, s.threads) > 0
  }

  predicate NotStranded(s: State) {
    s.held.Some? || s.recvBuffer != [] ==> Attended(s)
  }

  /** Each generation of the timer has one completion, and none cancels a later one. */
  ghost predicate Generations(s: State) {
    && (forall i :: 0 <= i < |s.threads| ==>
          !s.threads[i].Cancelling? && (!s.threads[i].Idle? ==> s.threads[i].gen <= s.seqNo))
    && Bit(s.armed) + Count(Current(s.seqNo), s.threads) <= 1
    && (s.armed || Count(DueNow(s.seqNo), s.threads) > 0 ==> s.started)
  }

  predicate Watched(s: State) {
    && (s.dispatching && s.dis == Free ==>
          s.disPosted > 0 || s.armed || Count(DueNow(s.seqNo), s.threads) > 0 || Count(Bell, s.threads) > 0)
    && (!s.dispatching && s.recvBuffer != [] && (s.dis == Free || s.dis == Empty) ==> s.disPosted > 0 || s.rw != RwIdle)
  }

  ghost predicate Inv(s: State) { InOrder(s) && Generations(s) && Watched(s) && s.dis != Arming }

  lemma InvNotStranded(s: State)
    requires Inv(s)
    ensures NotStranded(s)
  {
    hide Count;
  }

  lemma ThreadKeeps(c: Config, s: State, t: nat)
    requires t < |s.threads| && !c.split && Generations(s) && Watched(s)
    ensures var s' := DoThread(c, s, t); Generations(s') && Watched(s')
  {
    var pc' := NextPc(c, s, s.threads[t]);
    CountMove(Current(s.seqNo), s.threads, t, pc');
    CountMove(DueNow(s.seqNo), s.threads, t, pc');
    CountMove(Bell, s.threads, t, pc');
    DueIsCurrent(s.seqNo, s.threads[t := pc']);
    hide Count;
  }

  lemma ExpireKeeps(c: Config, s: State, t: nat)
    requires Generations(s) && Watched(s)
    ensures var s' := Do(c, s, Expire(t)); Generations(s') && Watched(s')
  {
    if t < |s.threads| {
      CountMove(Current(s.seqNo), s.threads, t, Due(s.seqNo));
      CountMove(DueNow(s.seqNo), s.threads, t, Due(s.seqNo));
      CountMove(Bell, s.threads, t, Due(s.seqNo));
    }
    hide Count;
  }

  lemma AnswerKeeps(c: Config, s: State, ok: bool)
    requires !c.split && Inv(s)
    ensures var s' := DoAnswer(c, s, ok); Generations(s') && Watched(s') && s'.dis != Arming
  {
    CountZero(Current(s.seqNo + 1), s.threads);
    DueIsCurrent(s.seqNo + 1, s.threads);
    hide Count;
  }

  lemma DisKeeps(s: State)
    requires Inv(s)
    ensures var s' := DoDis(s); Generations(s') && Watched(s') && s'.dis != Arming
  {
    hide Count, Current, DueNow;
  }

  lemma StepKeeps(c: Config, s: State, step: Step)
    requires !c.split && Inv(s)
    ensures Inv(Do(c, s, step))
  {
    StepInOrder(c, s, step);
    match step {
      case Go(t) =>
        if t < |s.threads| {
          ThreadKeeps(c, s, t);
          GoLeavesAlone(c, s, t);
        }
        hide DoThread, InOrder, Generations, Watched;
      case Expire(t) =>
        ExpireKeeps(c, s, t);
        hide InOrder, Generations, Watched;
      case Answer(ok) =>
        AnswerKeeps(c, s, ok);
        hide DoAnswer, InOrder, Generations, Watched;
      case Proceed =>
        DisKeeps(s);
        hide DoDis, InOrder, Generations, Watched;
      case _ =>
        hide Count, Current, DueNow, DoThread, DoAnswer, DoDis;
    }
  }

  lemma NobodyDue(n: nat)
    ensures Count(Current(0), Init(n).threads) == 0 && Count(DueNow(0), Init(n).threads) == 0
  {
    CountZero(Current(0), Init(n).threads);
    CountZero(DueNow(0), Init(n).threads);
    hide Count;
  }

  lemma InvInit(n: nat)
    ensures Inv(Init(n))
  {
    NobodyDue(n);
    hide Count, Current, DueNow;
  }

  lemma {:induction false} RunKeeps(c: Config, n: nat, schedule: seq<Step>)
    requires !c.split
    ensures Inv(Run(Next(c), Init(n), schedule))
    decreases |schedule|
  {
    if schedule == [] {
      InvInit(n);
    } else {
      RunKeeps(c, n, schedule[..|schedule| - 1]);
      StepKeeps(c, Run(Next(c), Init(n), schedule[..|schedule| - 1]), schedule[|schedule| - 1]);
    }
    hide Do, Init, Inv;
  }

  // Everything that has arrived can be handled.

  /** The steps of the engine, and of a user who accepts. */
  predicate Accepting(step: Step) {
    step.RwGo? || step.Begin? || step.Proceed? || step.Expire? || step.Go? || step == Answer(true)
  }

  function ThreadRank(pc: Thread): nat {
    match pc
    case Idle => 0
    case Due(_) => 3
    case Ringing(_) => 2
    case _ => 1
  }

  function RwRank(rw: Rw): nat {
    match rw
    case RwIdle => 0
    case MovedIn => 2
    case MustPost => 1
  }

  function DisRank(dis: Dis): nat {
    match dis
    case Free => 0
    case Looking => 4
    case Took => 3
    case Handling => 2
    case Accepted => 8
    case Reposting => 7
    case _ => 1
  }

  /** Nobody has anything to do. */
  predicate AtRest(s: State) {
    && !s.armed && Weight(ThreadRank, s.threads) == 0 && s.rw == RwIdle && s.dis == Free && s.disPosted == 0
  }

  function Pending(s: State): nat { |s.recvBuffer| + Bit(s.held.Some?) }

  /** Nearer to rest: by the timer, the completions, the IO strand, the messages, or the dispatch strand. */
  predicate Nearer(s': State, s: State) {
    var w, w' := Weight(ThreadRank, s.threads), Weight(ThreadRank, s'.threads);
    if s'.armed != s.armed then s.armed
    else if w' != w then w' < w
    else if RwRank(s'.rw) != RwRank(s.rw) then RwRank(s'.rw) < RwRank(s.rw)
    else if Pending(s') != Pending(s) then Pending(s') < Pending(s)
    else 6 * s'.disPosted + DisRank(s'.dis) < 6 * s.disPosted + DisRank(s.dis)
  }

  /** In a state that is not at rest somebody can take a step, and that step brings it nearer to rest. */
  lemma SomeStep(c: Config, s: State) returns (step: Step)
    requires !c.split && Inv(s) && |s.threads| > 0 && !AtRest(s)
    ensures Accepting(step) && Nearer(Do(c, s, step), s) && Do(c, s, step).arrived == s.arrived
  {
    var t := WeightOfOne(ThreadRank, s.threads);
    hide Weight, InOrder, Generations, Watched;
    if Weight(ThreadRank, s.threads) > 0 {
      step := Go(t);
      WeightMove(ThreadRank, s.threads, t, NextPc(c, s, s.threads[t]));
    } else if s.armed {
      step := Expire(0);
      assert s.threads[0] == Idle;
    } else if s.rw != RwIdle {
      step := RwGo;
    } else {
      step := StrandStep(c, s);
    }
  }

  lemma StrandStep(c: Config, s: State) returns (step: Step)
    requires InOrder(s) && s.dis != Arming && (s.dis != Free || s.disPosted > 0)
    ensures step == Begin || step == Proceed || step == Answer(true)
    ensures var s' := Do(c, s, step);
            && s'.arrived == s.arrived && s'.armed == s.armed && s'.threads == s.threads && s'.rw == s.rw
            && (Pending(s') < Pending(s) ||
                (Pending(s') == Pending(s) && 6 * s'.disPosted + DisRank(s'.dis) < 6 * s.disPosted + DisRank(s.dis)))
  {
    step := if s.dis == Free then Begin else if s.dis == Handling then Answer(true) else Proceed;
  }

  lemma RestIsDone(s: State)
    requires Inv(s) && AtRest(s)
    ensures s.handled == s.arrived && s.held.None? && s.recvBuffer == []
  {
    var t := WeightOfOne(ThreadRank, s.threads);
    CountZero(Bell, s.threads);
    CountZero(DueNow(s.seqNo), s.threads);
    InvNotStranded(s);
    hide Count, Weight;
  }

  lemma {:induction false} ToRest(c: Config, s: State) returns (more: seq<Step>)
    requires !c.split && Inv(s) && |s.threads| > 0
    ensures forall i :: 0 <= i < |more| ==> Accepting(more[i])
    ensures var s' := Run(Next(c), s, more); s'.arrived == s.arrived && AtRest(s') && Inv(s')
    decreases Bit(s.armed), Weight(ThreadRank, s.threads), RwRank(s.rw), Pending(s), 6 * s.disPosted + DisRank(s.dis)
  {
    more := [];
    if !AtRest(s) {
      var step := SomeStep(c, s);
      var s' := Do(c, s, step);
      StepKeeps(c, s, step);
      ThreadsStay(c, s, step);
      var rest := ToRest(c, s');
      more := [step] + rest;
      RunTwo(Next(c), s, step, step);
      RunJoin(Next(c), s, [step], rest);
    }
    hide Do, Inv, AtRest, Accepting;
  }

  lemma ThreadsStay(c: Config, s: State, step: Step)
    ensures |Do(c, s, step).threads| == |s.threads|
  {
  }

  /** From any state that a run reaches, everything that has arrived can be handled, when the user accepts it: there is a
      continuation after which nothing is held or waits, and nobody has anything to do. */
  lemma {:induction false} EverythingCanBeHandled(c: Config, n: nat, schedule: seq<Step>) returns (more: seq<Step>)
    requires !c.split && n > 0
    ensures forall i :: 0 <= i < |more| ==> Accepting(more[i])
    ensures var s, s' := Run(Next(c), Init(n), schedule), Run(Next(c), Init(n), schedule + more);
            s'.handled == s'.arrived == s.arrived && s'.held.None? && s'.recvBuffer == [] && AtRest(s')
  {
    RunKeeps(c, n, schedule);
    HasThreads(c, n, schedule);
    more := ToRest(c, Run(Next(c), Init(n), schedule));
    RunJoin(Next(c), Init(n), schedule, more);
    RestIsDone(Run(Next(c), Init(n), schedule + more));
    hide Run, Do, Init, Inv, AtRest, Accepting;
  }

  lemma {:induction false} HasThreads(c: Config, n: nat, schedule: seq<Step>)
    ensures |Run(Next(c), Init(n), schedule).threads| == n
    decreases |schedule|
  {
    if schedule != [] {
      HasThreads(c, n, schedule[..|schedule| - 1]);
      ThreadsStay(c, Run(Next(c), Init(n), schedule[..|schedule| - 1]), schedule[|schedule| - 1]);
      hide Do;
    }
  }

  const FRESH := State([], None, false, 0, Free, RwIdle, [Idle], false, false, 0, [], [])
  const CAME := FRESH.(recvBuffer := [[]], arrived := [[]])
  const TOOK := FRESH.(arrived := [[]], held := Some([]), dis := Took)

  lemma NoStepYet(c: Config)
    ensures Run(Next(c), Init(1), []) == FRESH
  {
    assert Init(1).threads == [Idle];
  }

  /** A message arrives and a task is posted for it. */
  lemma ArrivalSteps(c: Config)
    ensures Do(c, FRESH, Arrive([[]])) == CAME.(rw := MovedIn)
    ensures Do(c, CAME.(rw := MovedIn), RwGo) == CAME.(rw := MustPost)
    ensures Do(c, CAME.(rw := MustPost), RwGo) == CAME.(disPosted := 1)
  {
    var m: bytes := [];
    assert [] + [m] == [m];
    hide DoDis, DoAnswer, DoThread;
  }

  /** The task dequeues it and hands it out. */
  lemma HandingSteps(c: Config)
    ensures Do(c, CAME.(disPosted := 1), Begin) == CAME.(dis := Looking)
    ensures Do(c, CAME.(dis := Looking), Proceed) == TOOK
    ensures Do(c, TOOK, Proceed) == TOOK.(dispatching := true, dis := Handling)
  {
    hide DoRw, DoAnswer, DoThread;
  }

  /** A message arrives, is dequeued and refused. */
  lemma RefuseFirst(c: Config) returns (q: seq<Step>)
    requires c.split
    ensures Run(Next(c), Init(1), q) == Armed(TOOK.(dispatching := true, dis := Handling))
  {
    NoStepYet(c);
    ArrivalSteps(c);
    HandingSteps(c);
    hide Run, Init, Do, FRESH, CAME, TOOK;
    var s0 := Init(1);
    q := Then(Next(c), s0, [], FRESH, Arrive([[]]), CAME.(rw := MovedIn));
    q := Then(Next(c), s0, q, CAME.(rw := MovedIn), RwGo, CAME.(rw := MustPost));
    q := Then(Next(c), s0, q, CAME.(rw := MustPost), RwGo, CAME.(disPosted := 1));
    q := Then(Next(c), s0, q, CAME.(disPosted := 1), Begin, CAME.(dis := Looking));
    q := Then(Next(c), s0, q, CAME.(dis := Looking), Proceed, TOOK);
    q := Then(Next(c), s0, q, TOOK, Proceed, TOOK.(dispatching := true, dis := Handling));
    q := RefuseHeld(c, s0, q);
  }

  lemma RefuseHeld(c: Config, s0: State, q0: seq<Step>) returns (q: seq<Step>)
    requires c.split && Run(Next(c), s0, q0) == TOOK.(dispatching := true, dis := Handling)
    ensures Run(Next(c), s0, q) == Armed(TOOK.(dispatching := true, dis := Handling))
  {
    hide Run;
    q := RefuseAgain(c, s0, q0, TOOK.(dispatching := true, dis := Handling));
  }

  lemma RefuseAgain(c: Config, s0: State, q0: seq<Step>, b: State) returns (q: seq<Step>)
    requires c.split && Run(Next(c), s0, q0) == b && b.dis == Handling && b.held.Some?
    ensures Run(Next(c), s0, q) == Armed(b)
  {
    hide Run;
    q := Then(Next(c), s0, q0, b, Answer(false), b.(started := true, dis := Arming));
    q := Then(Next(c), s0, q, b.(started := true, dis := Arming), Proceed, Armed(b));
  }

  /** The timer's completion posts a task and has compared the sequence numbers. */
  lemma RingAndPost(c: Config, s0: State, q0: seq<Step>, b: State) returns (q: seq<Step>)
    requires c.split && Run(Next(c), s0, q0) == b
    requires b.armed && b.started && b.threads == [Idle] && b.seqNo == 1 && b.disPosted == 0
    ensures Run(Next(c), s0, q) == b.(armed := false, threads := [Cancelling(1)], disPosted := 1)
  {
    hide Run, DoDis, DoAnswer, DoRw;
    assert forall pc: Thread, pc': Thread :: [pc][0 := pc'] == [pc'];
    var b1 := b.(armed := false);
    q := Then(Next(c), s0, q0, b, Expire(0), b1.(threads := [Due(1)]));
    q := Then(Next(c), s0, q, b1.(threads := [Due(1)]), Go(0), b1.(threads := [Ringing(1)]));
    q := Then(Next(c), s0, q, b1.(threads := [Ringing(1)]), Go(0), b1.(threads := [Tail(1)], disPosted := 1));
    q := Then(Next(c), s0, q, b1.(threads := [Tail(1)], disPosted := 1), Go(0),
              b1.(threads := [Cancelling(1)], disPosted := 1));
  }

  /** The completion posts a task that refuses again and starts the timer again, before the completion's tail marks the
      timer as cancelled. */
  lemma RetryIsLost(c: Config) returns (q: seq<Step>)
    requires c.split
    ensures !NotStranded(Run(Next(c), Init(1), q))
  {
    hide Run, Init, NotStranded, DoDis, DoRw;
    var s0 := Init(1);
    var b := State([], Some([]), true, 0, Free, RwIdle, [Idle], true, true, 1, [[]], []);
    q := RefuseFirst(c);
    q := RingAndPost(c, s0, q, b);
    var b1 := b.(armed := false, threads := [Cancelling(1)], disPosted := 0);
    q := Then(Next(c), s0, q, b1.(disPosted := 1), Begin, b1.(dis := Handling));
    q := RefuseAgain(c, s0, q, b1.(dis := Handling));
    var b2 := b1.(armed := true, seqNo := 2);
    assert [Cancelling(1)][0 := Idle] == [Idle];
    q := Then(Next(c), s0, q, b2, Go(0), b2.(threads := [Idle], started := false));
    Forgotten(b2.(threads := [Idle], started := false));
  }

  lemma Forgotten(s: State)
    requires s.held.Some? && s.dis == Free && s.disPosted == 0 && s.rw == RwIdle && !s.started && s.threads == [Idle]
    ensures !NotStranded(s)
  {
    CountZero(Bell, s.threads);
    hide Count;
  }

  /** A held or waiting message always has someone bound to look at it, for any number of threads and any schedule,
      exactly when the completion of the retry timer does not overlap with its being started. */
  lemma {:induction false} NoMessageIsForgotten(c: Config)
    ensures (forall n: nat, schedule: seq<Step> :: NotStranded(Run(Next(c), Init(n), schedule))) <==> !c.split
  {
    hide NotStranded;
    if c.split {
      var _ := RetryIsLost(c);
    } else {
      forall n: nat, schedule: seq<Step> ensures NotStranded(Run(Next(c), Init(n), schedule)) {
        RunKeeps(c, n, schedule);
        InvNotStranded(Run(Next(c), Init(n), schedule));
      }
    }
  }
}
