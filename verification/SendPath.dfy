/** The `sending` flag protocol of TCP, UDP and reliable UDP links, one atomic step at a time.

    Strand tasks never overlap each other; user threads and timer completions interleave with them at every
    queue operation and every access to the flag. A step that is not enabled changes nothing, so that a
    schedule is any sequence of steps whatever. */
module SendPath {
  import opened Bytes
  import opened Container
  import opened Counting
  import opened Machine

  /** A TCP batch is cut by bytes, a UDP one is a single message; only reliable UDP suspends. */
  datatype Link = Tcp(limit: nat) | Udp(reliable: bool)

  /** `shrinkAt`: send_buf_size when built with ASCS_SHRINK_SEND_BUFFER, otherwise 0. `splitTimers`: a timer's
      completion may overlap with the starting of the same timer by another service thread. */
  datatype Config = Config(link: Link, shrinkAt: nat, splitTimers: bool)

  predicate Reliable(c: Config) { c.link.Udp? && c.link.reliable }

  /** Where the task that holds the strand is. */
  datatype Task =
    | Free
    | Willing                     // do_send_msg(false) saw a message; the flag is next
    | Holding(inStrand: bool)     // it has the flag; the congestion check or the queue is next
    | CameEmpty(inStrand: bool)   // it moved nothing out; it will clear the flag
    | Completed                   // send_handler: the batch is done; do_send_msg(true) is next
    | SawEmpty                    // do_send_msg(true) saw no message; it will clear the flag
    | Recheck                     // do_send_msg(true) returned false; the queue is looked at again
    | Resend                      // ... and had a message; send_msg is next
    | Failed                      // send_handler with an error; it will clear the flag
    | Arming(inStrand: bool)      // start_timer has set the status but not yet the sequence number

  /** Where a user thread is, or a service thread that runs the completion of TIMER_CC. */
  datatype Thread =
    | Idle
    | Enqueued                    // between the enqueue and the flag check of send_msg
    | MustPost                    // it found the flag clear
    | Popped                      // it removed messages and will post a task
    | Ringing(gen: nat)           // the completion calls back; it may clear the flag
    | Cleared(gen: nat)           // resume_sending has cleared the flag; the queue is next
    | Resuming(gen: nat)          // ... and seen a message; the flag is next
    | ResumePost(gen: nat)        // ... and found the flag clear
    | Tail(gen: nat)              // the call back returned false; the sequence number is next
    | Cancelling(gen: nat)        // ... and it was still the timer's; the status is next

  datatype Taken = Wire(item: bytes) | Popped(item: bytes) | Dropped(item: bytes)

  datatype Settled = Settled(item: bytes, ok: bool)

  datatype State = State(
    queue: seq<bytes>, sending: bool, sendingMsgs: seq<bytes>,
    task: Task, posted: nat, writes: nat, threads: seq<Thread>,
    ccArmed: bool, ccStarted: bool, ccSeq: nat,
    enqueued: seq<bytes>, taken: seq<Taken>, settled: seq<Settled>, errored: bool)

  /** Go and Proceed let a thread, or the task in the strand, do its next step; where it has a choice the
      other steps name it. */
  datatype Step =
    | Enqueue(t: nat, items: seq<bytes>) | PopFirst(t: nat) | PopAll(t: nat) | Shrink(t: nat)
    | Begin | Complete | CompleteWithError(fatal: bool) | Suspend | Proceed
    | CcExpire(t: nat) | CcContinue(t: nat) | Go(t: nat)

  function Init(n: nat): State {
    State([], false, [], Free, 0, 0, seq(n, i => Idle), false, false, 0, [], [], [], false)
  }

  function BatchLen(c: Config, queue: seq<bytes>): (n: nat)
    ensures n <= |queue| && (queue != [] ==> n > 0)
  {
    Reach(queue, if c.link.Tcp? then c.link.limit else 0)
  }

  /** shrink_send_buffer: a full buffer loses its front third. */
  function ShrinkLen(c: Config, queue: seq<bytes>): (n: nat)
    ensures n <= |queue|
  {
    if c.shrinkAt == 0 || Size(queue) < c.shrinkAt || Size(queue) / 3 == 0 then 0 else Reach(queue, Size(queue) / 3)
  }

  function AsWire(items: seq<bytes>): seq<Taken> {
    seq(|items|, i requires 0 <= i < |items| => Wire(items[i]))
  }

  function AsPopped(items: seq<bytes>): seq<Taken> {
    seq(|items|, i requires 0 <= i < |items| => Taken.Popped(items[i]))
  }

  function AsDropped(items: seq<bytes>): seq<Taken> {
    seq(|items|, i requires 0 <= i < |items| => Dropped(items[i]))
  }

  function AsSettled(items: seq<bytes>, ok: bool): seq<Settled> {
    seq(|items|, i requires 0 <= i < |items| => Settled.Settled(items[i], ok))
  }

  predicate At(s: State, t: nat, pc: Thread) { t < |s.threads| && s.threads[t] == pc }

  predicate Rings(s: State, t: nat) { t < |s.threads| && s.threads[t].Ringing? }

  function Move(s: State, t: nat, pc: Thread): State
    requires t < |s.threads|
  {
    s.(threads := s.threads[t := pc])
  }

  function Take(s: State, n: nat, gone: seq<Taken>): State
    requires n <= |s.queue|
  {
    s.(queue := s.queue[n..], taken := s.taken + gone)
  }

  /** What user threads do with the queue: send_msg, the pop functions and the shrinking. */
  function DoQueue(c: Config, s: State, step: Step): State
    requires IsQueue(step)
  {
    if !At(s, step.t, Idle) then s
    else match step
      case Enqueue(t, items) =>
        Move(s, t, Enqueued).(queue := s.queue + items, enqueued := s.enqueued + items)
      case PopFirst(t) => if s.queue == [] then s else Take(Move(s, t, Thread.Popped), 1, AsPopped(s.queue[..1]))
      case PopAll(t) => Take(Move(s, t, Thread.Popped), |s.queue|, AsPopped(s.queue))
      case Shrink(_) => Take(s, ShrinkLen(c, s.queue), AsDropped(s.queue[..ShrinkLen(c, s.queue)]))
  }

  /** Where a thread inside send_msg, a pop function or the completion of TIMER_CC goes next. */
  function NextPc(c: Config, s: State, pc: Thread): Thread {
    match pc
    case Enqueued => if s.sending then Idle else MustPost
    case Ringing(g) => Cleared(g)
    case Cleared(g) => if s.queue == [] then Tail(g) else Resuming(g)
    case Resuming(g) => if s.sending then Tail(g) else ResumePost(g)
    case ResumePost(g) => Tail(g)
    case Tail(g) => if g == s.ccSeq && c.splitTimers then Cancelling(g) else Idle
    case _ => Idle
  }

  /** ... and what it does there: it posts a task, clears the flag, or marks the timer as cancelled. */
  predicate Posts(pc: Thread) { pc.MustPost? || pc.Popped? || pc.ResumePost? }

  predicate Cancels(c: Config, s: State, pc: Thread) {
    pc.Cancelling? || (pc.Tail? && pc.gen == s.ccSeq && !c.splitTimers)
  }

  function DoThread(c: Config, s: State, t: nat): State
    requires t < |s.threads|
  {
    var pc := s.threads[t];
    s.(threads := s.threads[t := NextPc(c, s, pc)],
       posted := if Posts(pc) then s.posted + 1 else s.posted,
       sending := s.sending && !pc.Ringing?,
       ccStarted := s.ccStarted && !Cancels(c, s, pc))
  }

  function Armed(s: State, inStrand: bool): State {
    s.(ccStarted := true, ccSeq := s.ccSeq + 1, ccArmed := true, task := if inStrand then Recheck else Free)
  }

  /** The batch leaves the queue and its write starts. */
  function MoveOut(s: State, n: nat): State
    requires n <= |s.queue|
  {
    s.(queue := s.queue[n..], sendingMsgs := s.sendingMsgs + s.queue[..n],
       taken := s.taken + AsWire(s.queue[..n]), writes := s.writes + 1, task := Free)
  }

  /** Where do_send_msg or send_handler goes next... */
  function NextTask(s: State): Task {
    match s.task
    case Willing => if s.sending then Free else Holding(false)
    case Holding(inStrand) => CameEmpty(inStrand)
    case CameEmpty(inStrand) => if inStrand then Recheck else Free
    case Completed => if s.queue == [] then SawEmpty else Holding(true)
    case SawEmpty => Recheck
    case Recheck => if s.queue == [] then Free else Resend
    case _ => Free
  }

  /** ... and what it does there: it exchanges the flag for a set one, clears it, or posts another task. */
  function NextFlag(s: State): bool {
    s.task.Willing? || (s.sending && !s.task.CameEmpty? && !s.task.SawEmpty? && !s.task.Failed?)
  }

  function DoTask(c: Config, s: State): State {
    if s.task.Holding? && s.queue != [] then MoveOut(s, BatchLen(c, s.queue))
    else if s.task.Arming? then Armed(s, s.task.inStrand)
    else s.(task := NextTask(s), sending := NextFlag(s),
            posted := if s.task.Resend? && !s.sending then s.posted + 1 else s.posted)
  }

  /** A task gets the strand, a write completes, or the congestion check finds too much unacknowledged. */
  function DoStrand(c: Config, s: State, step: Step): State {
    match step
    case Begin =>
      if s.task == Free && s.posted > 0
      then s.(posted := s.posted - 1, task := if s.queue == [] then Free else Willing) else s
    case Complete =>
      if s.task == Free && s.writes > 0
      then s.(writes := s.writes - 1, settled := s.settled + AsSettled(s.sendingMsgs, true), sendingMsgs := [],
              task := Completed) else s
    case CompleteWithError(fatal) =>
      if s.task == Free && s.writes > 0
      then s.(writes := s.writes - 1, settled := s.settled + AsSettled(s.sendingMsgs, false), sendingMsgs := [],
              errored := s.errored || c.link.Tcp? || fatal,
              task := if c.link.Tcp? || fatal then Failed else Completed) else s
    case Suspend =>
      if Reliable(c) && s.task.Holding? then
        if c.splitTimers then s.(ccStarted := true, task := Arming(s.task.inStrand)) else Armed(s, s.task.inStrand)
      else s
    case _ => s
  }

  /** The congestion timer's wait ends, or its call back lets it go on. */
  function DoTimer(c: Config, s: State, step: Step): State {
    match step
    case CcExpire(t) =>
      if s.ccArmed && At(s, t, Idle)
      then Move(s, t, if s.ccStarted then Ringing(s.ccSeq) else Tail(s.ccSeq)).(ccArmed := false) else s
    case CcContinue(t) =>
      if !Rings(s, t) then s
      else if s.ccStarted then Move(s, t, Idle).(ccSeq := s.ccSeq + 1, ccArmed := true)
      else Move(s, t, Tail(s.threads[t].gen))
    case _ => s
  }

  predicate IsQueue(step: Step) { step.Enqueue? || step.PopFirst? || step.PopAll? || step.Shrink? }

  predicate IsTimer(step: Step) { step.CcExpire? || step.CcContinue? }

  predicate IsStrand(step: Step) { !IsQueue(step) && !IsTimer(step) && !step.Proceed? && !step.Go? }

  function Do(c: Config, s: State, step: Step): State {
    if step.Go? then if step.t < |s.threads| then DoThread(c, s, step.t) else s
    else if step.Proceed? then DoTask(c, s)
    else if IsQueue(step) then DoQueue(c, s, step)
    else if IsTimer(step) then DoTimer(c, s, step)
    else DoStrand(c, s, step)
  }

  function Next(c: Config): (State, Step) -> State { (s, step) => Do(c, s, step) }

  /** A thread that will still look at the queue or the flag, one that will post, one that may clear the flag. */
  predicate Looker(pc: Thread) { !(pc.Idle? || pc.Tail? || pc.Cancelling?) }

  predicate Popper(pc: Thread) { pc.Popped? }

  predicate Ringer(pc: Thread) { pc.Ringing? }

  lemma CountImplies(threads: seq<Thread>)
    ensures Count(Popper, threads) + Count(Ringer, threads) <= Count(Looker, threads)
  {
    CountAdd(Popper, Ringer, Looker, threads);
  }

  // The flag has one owner.

  predicate Owns(task: Task) {
    task.Holding? || task.CameEmpty? || task.Completed? || task.SawEmpty? || task.Failed? || task.Arming?
  }

  function Owners(s: State): nat {
    s.writes + Bit(Owns(s.task)) + Bit(s.ccArmed) + Count(Ringer, s.threads)
  }

  /** The completion of the congestion timer calls back only while the timer is started. */
  predicate Rung(s: State) { s.ccArmed || Count(Ringer, s.threads) > 0 ==> s.ccStarted }

  /** The owner keeps the flag, hands it on, or clears it. */
  ghost predicate Kept(s: State, s': State) {
    && Owners(s') <= Bit(s'.sending)
    && (Owners(s) == Bit(s.sending) && Rung(s) ==> Owners(s') == Bit(s'.sending))
  }

  lemma OwnersThread(c: Config, s: State, t: nat)
    requires t < |s.threads| && Owners(s) <= Bit(s.sending)
    ensures Kept(s, DoThread(c, s, t))
  {
    CountMove(Ringer, s.threads, t, NextPc(c, s, s.threads[t]));
    hide Count;
  }

  lemma OwnersTask(c: Config, s: State)
    requires Owners(s) <= Bit(s.sending)
    ensures Kept(s, DoTask(c, s))
  {
    hide Count, AsWire, BatchLen;
  }

  lemma OwnersStrand(c: Config, s: State, step: Step)
    requires IsStrand(step) && Owners(s) <= Bit(s.sending)
    ensures Kept(s, DoStrand(c, s, step))
  {
    hide Count, AsSettled;
  }

  lemma OwnersTimer(c: Config, s: State, step: Step)
    requires IsTimer(step) && Owners(s) <= Bit(s.sending)
    ensures Kept(s, DoTimer(c, s, step))
  {
    if step.t < |s.threads| {
      CountMove(Ringer, s.threads, step.t, DoTimer(c, s, step).threads[step.t]);
    }
    hide Count;
  }

  /** A queue operation leaves the protocol alone, but for its own thread, which will now look at the flag or post. */
  ghost predicate QueueShape(s: State, s': State, t: nat) {
    && s'.task == s.task && s'.errored == s.errored && s'.sending == s.sending && s'.writes == s.writes
    && s'.posted == s.posted && s'.ccArmed == s.ccArmed && s'.ccStarted == s.ccStarted && s'.ccSeq == s.ccSeq
    && (s'.threads != s.threads ==>
          && t < |s.threads| && s.threads[t] == Idle
          && ((s'.threads == s.threads[t := Enqueued] && s.queue <= s'.queue)
              || s'.threads == s.threads[t := Thread.Popped]))
  }

  lemma QueueSteps(c: Config, s: State, step: Step)
    requires IsQueue(step)
    ensures QueueShape(s, DoQueue(c, s, step), step.t)
    ensures var s' := DoQueue(c, s, step);
            s'.threads == s.threads && (step.Shrink? ==> s.queue == [] || ShrinkLen(c, s.queue) < |s.queue|) ==>
              (s'.queue == [] <==> s.queue == [])
  {
    hide AsPopped, AsDropped, ShrinkLen;
    if At(s, step.t, Idle) {
      assert s.threads[step.t := Enqueued][step.t] != s.threads[step.t];
      assert s.threads[step.t := Thread.Popped][step.t] != s.threads[step.t];
    }
  }

  lemma OwnersQueue(c: Config, s: State, step: Step)
    requires IsQueue(step)
    ensures var s' := DoQueue(c, s, step);
            Owners(s') == Owners(s) && s'.sending == s.sending
  {
    hide Count, DoQueue, ShrinkLen;
    QueueSteps(c, s, step);
    if step.t < |s.threads| {
      CountMove(Ringer, s.threads, step.t, Enqueued);
      CountMove(Ringer, s.threads, step.t, Thread.Popped);
    }
  }

  lemma OwnersStep(c: Config, s: State, step: Step)
    requires Owners(s) <= Bit(s.sending)
    ensures Kept(s, Do(c, s, step))
  {
    if step.Go? {
      if step.t < |s.threads| {
        OwnersThread(c, s, step.t);
      }
    } else if step.Proceed? {
      OwnersTask(c, s);
    } else if IsQueue(step) {
      OwnersQueue(c, s, step);
    } else if IsTimer(step) {
      OwnersTimer(c, s, step);
    } else {
      OwnersStrand(c, s, step);
    }
    hide DoThread, DoTask, DoQueue, DoTimer, DoStrand, Owners;
  }

  /** Whatever the build and the schedule, the flag is held at most once; so at most one write is in flight. */
  lemma {:induction false} OneWriteAtMost(c: Config, n: nat, schedule: seq<Step>)
    ensures var s := Run(Next(c), Init(n), schedule);
            Owners(s) <= Bit(s.sending) && s.writes <= 1
    decreases |schedule|
  {
    if schedule == [] {
      CountZero(Ringer, Init(n).threads);
    } else {
      var front, step := schedule[..|schedule| - 1], schedule[|schedule| - 1];
      OneWriteAtMost(c, n, front);
      OwnersStep(c, Run(Next(c), Init(n), front), step);
    }
    hide Do, Count;
  }

  /** No two service threads use the congestion timer at the same time. */
  predicate TimersSound(c: Config) { !(Reliable(c) && c.splitTimers) }

  predicate IsPast(pc: Thread) {
    pc.Cleared? || pc.Resuming? || pc.ResumePost? || pc.Tail?
  }

  /** What a thread's generation may be: the one that calls back is of the timer's own, and those past
      their call back are of earlier ones whenever the timer is pending or calling back (`busy`). */
  predicate GenOf(c: Config, busy: bool, seqNo: nat, pc: Thread) {
    && !pc.Cancelling?
    && (pc.Ringing? ==> pc.gen == seqNo)
    && (IsPast(pc) ==> if busy then pc.gen < seqNo else pc.gen <= seqNo)
    && (!Reliable(c) ==> !IsPast(pc) && !pc.Ringing?)
  }

  predicate Busy(s: State) { s.ccArmed || Count(Ringer, s.threads) > 0 }

  ghost predicate Generations(c: Config, s: State) {
    && (Busy(s) ==> s.ccStarted)
    && (!Reliable(c) ==> !s.ccArmed)
    && !s.task.Arming?
    && forall i :: 0 <= i < |s.threads| ==> GenOf(c, Busy(s), s.ccSeq, s.threads[i])
  }

  ghost predicate Held(c: Config, s: State) { Owners(s) == Bit(s.sending) && Generations(c, s) }

  lemma GenThread(c: Config, s: State, t: nat)
    requires t < |s.threads| && TimersSound(c) && Held(c, s)
    ensures Generations(c, DoThread(c, s, t))
  {
    CountMove(Ringer, s.threads, t, NextPc(c, s, s.threads[t]));
    hide Count;
  }

  lemma GenTask(c: Config, s: State)
    requires Generations(c, s)
    ensures Generations(c, DoTask(c, s))
  {
    hide Count, AsWire, BatchLen;
  }

  lemma GenStrand(c: Config, s: State, step: Step)
    requires IsStrand(step) && TimersSound(c) && Held(c, s)
    ensures Generations(c, DoStrand(c, s, step))
  {
    CountZero(Ringer, s.threads);
    hide Count, AsSettled;
  }

  lemma GenTimer(c: Config, s: State, step: Step)
    requires IsTimer(step) && Held(c, s)
    ensures Generations(c, DoTimer(c, s, step))
  {
    if step.t < |s.threads| {
      var s' := DoTimer(c, s, step);
      CountMove(Ringer, s.threads, step.t, s'.threads[step.t]);
      CountZero(Ringer, s'.threads);
    }
    hide Count;
  }

  lemma GenQueue(c: Config, s: State, step: Step)
    requires IsQueue(step) && Generations(c, s)
    ensures Generations(c, DoQueue(c, s, step))
  {
    hide Count, DoQueue, ShrinkLen;
    QueueSteps(c, s, step);
    if step.t < |s.threads| {
      CountMove(Ringer, s.threads, step.t, Enqueued);
      CountMove(Ringer, s.threads, step.t, Thread.Popped);
    }
  }

  lemma HeldStep(c: Config, s: State, step: Step)
    requires TimersSound(c) && Held(c, s)
    ensures Held(c, Do(c, s, step))
  {
    OwnersStep(c, s, step);
    if step.Go? {
      if step.t < |s.threads| {
        GenThread(c, s, step.t);
      }
    } else if step.Proceed? {
      GenTask(c, s);
    } else if IsQueue(step) {
      GenQueue(c, s, step);
    } else if IsTimer(step) {
      GenTimer(c, s, step);
    } else {
      GenStrand(c, s, step);
    }
    hide DoThread, DoTask, DoQueue, DoTimer, DoStrand, Owners, GenOf;
  }

  lemma {:induction false} HeldRun(c: Config, n: nat, schedule: seq<Step>)
    requires TimersSound(c)
    ensures Held(c, Run(Next(c), Init(n), schedule))
    decreases |schedule|
  {
    if schedule == [] {
      CountZero(Ringer, Init(n).threads);
      hide Count;
    } else {
      HeldRun(c, n, schedule[..|schedule| - 1]);
      HeldStep(c, Run(Next(c), Init(n), schedule[..|schedule| - 1]), schedule[|schedule| - 1]);
      hide Held, Do, Init;
    }
  }

  /** Those who hold the flag and will pass it on or clear it: a write in flight, a running sender or completion, a
      congestion timer that is pending or calls back. */
  function Holders(s: State): nat {
    s.writes + Bit(Owns(s.task)) + Bit(s.ccArmed && s.ccStarted) + Count(Ringer, s.threads)
  }

  // Nobody forgets a message.

  /** Someone is bound to look at the send buffer: a write is in flight, a do_send_msg is queued or running, the
      congestion timer is pending, or a thread is between its queue operation and its last look. */
  predicate Attended(s: State) {
    || s.writes > 0 || s.posted > 0 || (s.ccArmed && s.ccStarted)
    || !(s.task == Free || s.task == CameEmpty(false) || s.task == Failed)
    || Count(Looker, s.threads) > 0
  }

  predicate NotStranded(s: State) {
    s.queue != [] && !s.errored ==> Attended(s)
  }

  predicate Short(items: seq<bytes>, longest: nat) { forall i :: 0 <= i < |items| ==> |items[i]| <= longest }

  /** No string is enqueued that is longer. */
  predicate Within(schedule: seq<Step>, longest: nat) {
    forall i :: 0 <= i < |schedule| && schedule[i].Enqueue? ==> Short(schedule[i].items, longest)
  }

  /** Shrinking cannot empty the buffer. It would have to take the last string, so that those before it are less than a
      third of the whole, that is, at most half of what the last one has beyond three bytes. */
  predicate KeepsSome(c: Config, longest: nat) {
    c.shrinkAt == 0 || longest < 3 || longest + (longest - 3) / 2 < c.shrinkAt
  }

  lemma ShrinkKeepsSome(c: Config, queue: seq<bytes>, longest: nat)
    requires KeepsSome(c, longest) && queue != [] && (c.shrinkAt > 0 ==> Short(queue, longest))
    ensures ShrinkLen(c, queue) < |queue|
  {
    var n := |queue| - 1;
    ReachIsShortest(queue, Size(queue) / 3);
    SizeSplit(queue, n);
    assert queue[n..] == [queue[n]];
    SizeOne(queue[n]);
    if n == 0 {
      assert queue[..n] == [] && Size([]) == 0;
    }
    hide Size, Reach;
  }

  /** A task that came for a message that was popped in the meantime is followed by the popper's own task. */
  predicate Covered(s: State) {
    (s.task == CameEmpty(false) || ((s.task == Willing || s.task == Holding(false)) && s.queue == [])) ==>
      s.posted > 0 || Count(Popper, s.threads) > 0
  }

  predicate Watched(s: State) {
    s.queue != [] && !s.sending && !s.errored ==>
      s.posted > 0 || Count(Looker, s.threads) > 0 || s.task == Willing || s.task == Recheck || s.task == Resend
  }

  predicate Looked(s: State) { Covered(s) && Watched(s) && (s.task == Failed ==> s.errored) }

  ghost predicate Inv(c: Config, longest: nat, s: State) {
    && Held(c, s) && Looked(s)
    && (c.shrinkAt > 0 ==> Short(s.queue, longest))
  }

  lemma InvNotStranded(c: Config, longest: nat, s: State)
    requires Inv(c, longest, s)
    ensures NotStranded(s)
  {
    hide Count;
    CountImplies(s.threads);
  }

  lemma LookThread(c: Config, s: State, t: nat)
    requires t < |s.threads| && Looked(s)
    requires s.threads[t].Ringing? ==> !Owns(s.task) && s.writes == 0
    ensures Looked(DoThread(c, s, t))
  {
    var pc' := NextPc(c, s, s.threads[t]);
    CountMove(Popper, s.threads, t, pc');
    CountMove(Looker, s.threads, t, pc');
    hide Count;
  }

  lemma LookTask(c: Config, s: State)
    requires Held(c, s) && Looked(s)
    ensures Looked(DoTask(c, s))
  {
    CountImplies(s.threads);
    hide Count, AsWire, BatchLen;
  }

  lemma LookStrand(c: Config, s: State, step: Step)
    requires IsStrand(step) && TimersSound(c) && Held(c, s) && Looked(s)
    ensures Looked(DoStrand(c, s, step))
  {
    CountImplies(s.threads);
    hide Count, AsSettled, GenOf;
  }

  lemma LookTimer(c: Config, s: State, step: Step)
    requires IsTimer(step) && Held(c, s) && Looked(s)
    ensures Looked(DoTimer(c, s, step))
  {
    if step.t < |s.threads| {
      var pc' := DoTimer(c, s, step).threads[step.t];
      CountMove(Ringer, s.threads, step.t, pc');
      CountMove(Popper, s.threads, step.t, pc');
      CountMove(Looker, s.threads, step.t, pc');
    }
    hide Count, GenOf;
  }

  lemma LookQueue(c: Config, s: State, step: Step)
    requires IsQueue(step) && (step.Shrink? && s.queue != [] ==> ShrinkLen(c, s.queue) < |s.queue|) && Looked(s)
    ensures Looked(DoQueue(c, s, step))
  {
    QueueSteps(c, s, step);
    if step.t < |s.threads| {
      CountMove(Looker, s.threads, step.t, Enqueued);
      CountMove(Popper, s.threads, step.t, Enqueued);
      CountMove(Looker, s.threads, step.t, Thread.Popped);
      CountMove(Popper, s.threads, step.t, Thread.Popped);
    }
    hide Count, DoQueue, ShrinkLen;
  }

  lemma ShortQueue(c: Config, longest: nat, s: State, step: Step)
    requires IsQueue(step) && Short(s.queue, longest) && (step.Enqueue? ==> Short(step.items, longest))
    ensures Short(DoQueue(c, s, step).queue, longest)
  {
    hide ShrinkLen, AsPopped, AsDropped;
  }

  /** The strings stay short, since those of a step are. */
  lemma ShortStep(c: Config, longest: nat, s: State, step: Step)
    requires Short(s.queue, longest) && (step.Enqueue? ==> Short(step.items, longest))
    ensures Short(Do(c, s, step).queue, longest)
  {
    if IsQueue(step) {
      ShortQueue(c, longest, s, step);
    }
    hide DoQueue, BatchLen, AsWire, AsSettled, NextPc, NextTask, NextFlag, Armed;
  }

  lemma LookStep(c: Config, longest: nat, s: State, step: Step)
    requires TimersSound(c) && KeepsSome(c, longest) && Inv(c, longest, s)
    ensures Looked(Do(c, s, step))
  {
    if step.Go? {
      if step.t < |s.threads| {
        CountMove(Ringer, s.threads, step.t, Idle);
        LookThread(c, s, step.t);
      }
    } else if step.Proceed? {
      LookTask(c, s);
    } else if IsQueue(step) {
      if step.Shrink? && s.queue != [] {
        ShrinkKeepsSome(c, s.queue, longest);
      }
      LookQueue(c, s, step);
    } else if IsTimer(step) {
      LookTimer(c, s, step);
    } else {
      LookStrand(c, s, step);
    }
    hide DoThread, DoTask, DoQueue, DoTimer, DoStrand, Count, Looked, Generations, ShrinkLen, KeepsSome, Short;
  }

  lemma {:induction false} InvRun(c: Config, longest: nat, n: nat, schedule: seq<Step>)
    requires TimersSound(c) && KeepsSome(c, longest) && (c.shrinkAt > 0 ==> Within(schedule, longest))
    ensures Inv(c, longest, Run(Next(c), Init(n), schedule))
    decreases |schedule|
  {
    HeldRun(c, n, schedule);
    if schedule != [] {
      var front, step := schedule[..|schedule| - 1], schedule[|schedule| - 1];
      InvRun(c, longest, n, front);
      var s := Run(Next(c), Init(n), front);
      LookStep(c, longest, s, step);
      if c.shrinkAt > 0 {
        assert schedule[|schedule| - 1] == step;
        ShortStep(c, longest, s, step);
      }
      hide Do, Init;
    }
    hide Held, Count, KeepsSome, Short;
  }

  // The failing runs.

  /** A way to a state for two threads, with no longer string than that. */
  ghost predicate Path(c: Config, longest: nat, q: seq<Step>, s: State) {
    Within(q, longest) && Run(Next(c), Init(2), q) == s
  }

  lemma Onward(c: Config, longest: nat, q0: seq<Step>, s: State, step: Step, s': State) returns (q: seq<Step>)
    requires Path(c, longest, q0, s) && Do(c, s, step) == s' && (step.Enqueue? ==> Short(step.items, longest))
    ensures Path(c, longest, q, s')
  {
    q := Then(Next(c), Init(2), q0, s, step, s');
    hide Do, Init, Run, Short;
  }

  /** Nobody is there for the message that waits. */
  predicate Dead(s: State) {
    && s.threads == [Idle, Idle] && s.task == Free && s.posted == 0 && s.writes == 0
    && s.queue != [] && !s.errored && !(s.ccArmed && s.ccStarted)
  }

  lemma DeadIsStranded(s: State)
    requires Dead(s)
    ensures !NotStranded(s) && Holders(s) == 0
  {
    CountZero(Looker, s.threads);
    CountZero(Ringer, s.threads);
    hide Count;
  }

  /** The state in which a do_send_msg has taken the flag for one producer's strings. */
  function Taking(items: seq<bytes>): State {
    State(items, true, [], Holding(false), 0, 0, [Idle, Idle], false, false, 0, items, [], [], false)
  }

  lemma AtStart(c: Config, longest: nat)
    ensures Path(c, longest, [], Taking([]).(sending := false, task := Free))
  {
    assert seq(2, i => Idle) == [Idle, Idle];
  }

  lemma Submit(c: Config, b: State, t: nat, items: seq<bytes>)
    requires t < |b.threads| && b.threads[t] == Idle && b.queue == []
    ensures Do(c, b, Enqueue(t, items)) ==
            b.(queue := items, enqueued := b.enqueued + items, threads := b.threads[t := Enqueued])
  {
    assert b.queue + items == items;
  }

  lemma FirstMessage(c: Config, longest: nat, items: seq<bytes>) returns (q: seq<Step>)
    requires Short(items, longest) && items != []
    ensures Path(c, longest, q, Taking(items))
  {
    AtStart(c, longest);
    hide Path, Short, BatchLen;
    var b := Taking([]).(sending := false, task := Free);
    Submit(c, b, 0, items);
    assert [Idle, Idle][0 := Enqueued] == [Enqueued, Idle];
    assert [] + items == items;
    var b1 := b.(queue := items, enqueued := items, threads := [Enqueued, Idle]);
    q := Onward(c, longest, [], b, Enqueue(0, items), b1);
    var b2 := b1.(threads := [MustPost, Idle]);
    q := Onward(c, longest, q, b1, Go(0), b2);
    var b3 := b1.(threads := [Idle, Idle], posted := 1);
    q := Onward(c, longest, q, b2, Go(0), b3);
    q := Onward(c, longest, q, b3, Begin, b3.(posted := 0, task := Willing));
    q := Onward(c, longest, q, b3.(posted := 0, task := Willing), Proceed, Taking(items));
  }

  /** The strings for which a shrink takes all: the last is the longest, those before it less than a third of all. */
  function Overfull(longest: nat): seq<bytes>
    requires longest >= 3
  {
    [seq((longest - 3) / 2, i => 0), seq(longest, i => 0)]
  }

  lemma ShrinkTakesAll(c: Config, longest: nat)
    requires !KeepsSome(c, longest)
    ensures ShrinkLen(c, Overfull(longest)) == 2 && Short(Overfull(longest), longest)
  {
    var w, z := seq((longest - 3) / 2, i => 0 as byte), seq(longest, i => 0 as byte);
    SizeSplit([w, z], 1);
    assert [w, z][..1] == [w] && [w, z][1..] == [z];
    SizeOne(w);
    SizeOne(z);
    hide Size;
  }

  /** A producer shrinks the buffer under a task that has come for its messages, and adds another one before that
      task clears the flag. */
  lemma ShrinkStrands(c: Config, longest: nat) returns (q: seq<Step>, s: State)
    requires !KeepsSome(c, longest)
    ensures Path(c, longest, q, s) && !NotStranded(s)
  {
    var items := Overfull(longest);
    ShrinkTakesAll(c, longest);
    q := FirstMessage(c, longest, items);
    q, s := ShrunkUnderTask(c, longest, items, q);
    DeadIsStranded(s);
    hide Path, Short, KeepsSome, Overfull, ShrinkLen;
  }

  /** The state in which the task has found the shrunk buffer empty. */
  function Emptied(items: seq<bytes>): State {
    Taking(items).(queue := [], taken := AsDropped(items), task := CameEmpty(false))
  }

  lemma ShrinkAll(c: Config, items: seq<bytes>)
    requires ShrinkLen(c, items) == |items|
    ensures Do(c, Taking(items), Shrink(1)) == Emptied(items).(task := Holding(false))
  {
    assert items[|items|..] == [] && items[..|items|] == items && [] + AsDropped(items) == AsDropped(items);
    hide ShrinkLen, AsDropped;
  }

  lemma EmptyHandedSteps(c: Config, items: seq<bytes>, m: bytes)
    ensures var b := Emptied(items).(queue := [m], enqueued := items + [m]);
            && Do(c, Emptied(items).(task := Holding(false)), Proceed) == Emptied(items)
            && Do(c, Emptied(items), Enqueue(1, [m])) == b.(threads := [Idle, Enqueued])
            && Do(c, b.(threads := [Idle, Enqueued]), Go(1)) == b
            && Do(c, b, Proceed) == b.(sending := false, task := Free)
  {
    hide BatchLen, AsDropped;
    Submit(c, Emptied(items), 1, [m]);
    assert [Idle, Idle][1 := Enqueued] == [Idle, Enqueued] && [Idle, Enqueued][1 := Idle] == [Idle, Idle];
  }

  lemma ShrunkUnderTask(c: Config, longest: nat, items: seq<bytes>, q0: seq<Step>) returns (q: seq<Step>, s: State)
    requires |items| == 2 && ShrinkLen(c, items) == 2 && Short(items, longest) && Path(c, longest, q0, Taking(items))
    ensures Path(c, longest, q, s) && Dead(s)
  {
    var m := items[1];
    assert Short([m], longest);
    hide Path, Short, Do, ShrinkLen;
    ShrinkAll(c, items);
    EmptyHandedSteps(c, items, m);
    var b := Emptied(items).(queue := [m], enqueued := items + [m]);
    q := Onward(c, longest, q0, Taking(items), Shrink(1), Emptied(items).(task := Holding(false)));
    q := Onward(c, longest, q, Emptied(items).(task := Holding(false)), Proceed, Emptied(items));
    q := Onward(c, longest, q, Emptied(items), Enqueue(1, [m]), b.(threads := [Idle, Enqueued]));
    q := Onward(c, longest, q, b.(threads := [Idle, Enqueued]), Go(1), b);
    s := b.(sending := false, task := Free);
    q := Onward(c, longest, q, b, Proceed, s);
  }

  /** The completion of the congestion timer marks the timer as cancelled after the task that it posted has
      started it again: the flag stays set, and nobody will clear it. */
  lemma TimerStrands(c: Config, longest: nat) returns (q: seq<Step>, s: State)
    requires Reliable(c) && c.splitTimers
    ensures Path(c, longest, q, s) && !NotStranded(s) && s.sending && Holders(s) == 0
  {
    var b := Taking([[]]);
    q := FirstMessage(c, longest, [[]]);
    q := Suspended(c, longest, q, b);
    q := CalledBack(c, longest, q);
    q := Resumed(c, longest, q);
    q := TakenAgain(c, longest, q);
    q := Suspended(c, longest, q, CutOff(Holding(false), true, 1, 0, Cancelling(1)));
    s := CutOff(Free, true, 2, 0, Idle).(ccStarted := false, ccArmed := true);
    q := TailCancels(c, longest, q);
    DeadIsStranded(s);
    hide Path, BatchLen, Holders, NotStranded, Do;
  }

  /** The states of that run after the first suspension. */
  function CutOff(task: Task, sending: bool, ccSeq: nat, posted: nat, pc: Thread): State {
    Taking([[]]).(task := task, sending := sending, ccStarted := true, ccSeq := ccSeq, posted := posted,
                  threads := [Idle, pc])
  }

  lemma CalledBack(c: Config, longest: nat, q0: seq<Step>) returns (q: seq<Step>)
    requires Path(c, longest, q0, CutOff(Free, true, 1, 0, Idle).(ccArmed := true))
    ensures Path(c, longest, q, CutOff(Free, true, 1, 0, Ringing(1)))
  {
    hide Path;
    q := Onward(c, longest, q0, CutOff(Free, true, 1, 0, Idle).(ccArmed := true), CcExpire(1),
                CutOff(Free, true, 1, 0, Ringing(1)));
  }

  lemma TakenAgain(c: Config, longest: nat, q0: seq<Step>) returns (q: seq<Step>)
    requires Path(c, longest, q0, CutOff(Free, false, 1, 1, Cancelling(1)))
    ensures Path(c, longest, q, CutOff(Holding(false), true, 1, 0, Cancelling(1)))
  {
    hide Path, BatchLen;
    q := Onward(c, longest, q0, CutOff(Free, false, 1, 1, Cancelling(1)), Begin,
                CutOff(Willing, false, 1, 0, Cancelling(1)));
    q := Onward(c, longest, q, CutOff(Willing, false, 1, 0, Cancelling(1)), Proceed,
                CutOff(Holding(false), true, 1, 0, Cancelling(1)));
  }

  lemma TailCancels(c: Config, longest: nat, q0: seq<Step>) returns (q: seq<Step>)
    requires Path(c, longest, q0, CutOff(Free, true, 2, 0, Cancelling(1)).(ccArmed := true))
    ensures Path(c, longest, q, CutOff(Free, true, 2, 0, Idle).(ccStarted := false, ccArmed := true))
  {
    hide Path;
    q := Onward(c, longest, q0, CutOff(Free, true, 2, 0, Cancelling(1)).(ccArmed := true), Go(1),
                CutOff(Free, true, 2, 0, Idle).(ccStarted := false, ccArmed := true));
  }

  lemma Suspended(c: Config, longest: nat, q0: seq<Step>, b: State) returns (q: seq<Step>)
    requires Reliable(c) && c.splitTimers && Path(c, longest, q0, b) && b.task == Holding(false)
    ensures Path(c, longest, q, b.(ccStarted := true, task := Free, ccSeq := b.ccSeq + 1, ccArmed := true))
  {
    hide Path, BatchLen;
    q := Onward(c, longest, q0, b, Suspend, b.(ccStarted := true, task := Arming(false)));
    q := Onward(c, longest, q, b.(ccStarted := true, task := Arming(false)), Proceed,
                b.(ccStarted := true, task := Free, ccSeq := b.ccSeq + 1, ccArmed := true));
  }

  /** resume_sending and the tail of the completion, up to the last write. */
  lemma Resumed(c: Config, longest: nat, q0: seq<Step>) returns (q: seq<Step>)
    requires c.splitTimers && Path(c, longest, q0, CutOff(Free, true, 1, 0, Ringing(1)))
    ensures Path(c, longest, q, CutOff(Free, false, 1, 1, Cancelling(1)))
  {
    hide Path;
    q := Onward(c, longest, q0, CutOff(Free, true, 1, 0, Ringing(1)), Go(1), CutOff(Free, false, 1, 0, Cleared(1)));
    q := Onward(c, longest, q, CutOff(Free, false, 1, 0, Cleared(1)), Go(1), CutOff(Free, false, 1, 0, Resuming(1)));
    q := Onward(c, longest, q, CutOff(Free, false, 1, 0, Resuming(1)), Go(1), CutOff(Free, false, 1, 0, ResumePost(1)));
    q := Onward(c, longest, q, CutOff(Free, false, 1, 0, ResumePost(1)), Go(1), CutOff(Free, false, 1, 1, Tail(1)));
    q := Onward(c, longest, q, CutOff(Free, false, 1, 1, Tail(1)), Go(1), CutOff(Free, false, 1, 1, Cancelling(1)));
  }

  // The exact conditions.

  /** The flag is set exactly while it has a holder, in every run, if and only if no two service threads use the
      congestion timer at the same time. */
  lemma SetFlagHasOneHolder(c: Config)
    ensures (forall n: nat, schedule: seq<Step> ::
               var s := Run(Next(c), Init(n), schedule); Holders(s) == Bit(s.sending)) <==> TimersSound(c)
  {
    if TimersSound(c) {
      forall n: nat, schedule: seq<Step>
        ensures var s := Run(Next(c), Init(n), schedule); Holders(s) == Bit(s.sending)
      {
        HeldRun(c, n, schedule);
        hide Run, Init, Count, Next;
      }
    } else {
      var q, s := TimerStrands(c, 0);
      assert Holders(Run(Next(c), Init(2), q)) != Bit(Run(Next(c), Init(2), q).sending);
      hide Run, Init, Count, Next, Holders;
    }
  }

  /** As long as no string is longer, no message is ever left behind in the send buffer, for any number of threads and
      any schedule, exactly if a shrink cannot empty the buffer and no two service threads use the congestion timer at
      the same time. */
  lemma NoShortMessageIsStranded(c: Config, longest: nat)
    ensures (forall n: nat, schedule: seq<Step> ::
               Within(schedule, longest) ==> NotStranded(Run(Next(c), Init(n), schedule)))
            <==> TimersSound(c) && KeepsSome(c, longest)
  {
    if TimersSound(c) && KeepsSome(c, longest) {
      forall n: nat, schedule: seq<Step> | Within(schedule, longest)
        ensures NotStranded(Run(Next(c), Init(n), schedule))
      {
        InvRun(c, longest, n, schedule);
        InvNotStranded(c, longest, Run(Next(c), Init(n), schedule));
        hide Run, Init, Next, Within, Inv, NotStranded, TimersSound, KeepsSome;
      }
    } else if !TimersSound(c) {
      var q, s := TimerStrands(c, longest);
      assert Within(q, longest) && !NotStranded(Run(Next(c), Init(2), q));
      hide Run, Init, Next, NotStranded, Within;
    } else {
      var q, s := ShrinkStrands(c, longest);
      assert Within(q, longest) && !NotStranded(Run(Next(c), Init(2), q));
      hide Run, Init, Next, NotStranded, Within;
    }
  }

  /** With strings of any length, that is: exactly in the builds that do not shrink the buffer and whose congestion
      timer no two service threads use at the same time. */
  lemma NoMessageIsStranded(c: Config)
    ensures (forall n: nat, schedule: seq<Step> :: NotStranded(Run(Next(c), Init(n), schedule)))
            <==> TimersSound(c) && c.shrinkAt == 0
  {
    if TimersSound(c) && c.shrinkAt == 0 {
      forall n: nat, schedule: seq<Step> ensures NotStranded(Run(Next(c), Init(n), schedule)) {
        InvRun(c, 0, n, schedule);
        InvNotStranded(c, 0, Run(Next(c), Init(n), schedule));
        hide Run, Init, Next, Inv, NotStranded, TimersSound;
      }
    } else if !TimersSound(c) {
      var q, s := TimerStrands(c, 0);
      assert !NotStranded(Run(Next(c), Init(2), q));
      hide Run, Init, Next, NotStranded;
    } else {
      var q, s := ShrinkStrands(c, c.shrinkAt + 3);
      assert !NotStranded(Run(Next(c), Init(2), q));
      hide Run, Init, Next, NotStranded;
    }
  }
}
