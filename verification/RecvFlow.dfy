/** Receive flow control of a TCP link: one read at a time, and none while the receive buffer is full.

    A link that is running passes a token around: a read in flight, its handler, a queued recv_msg, or the timer
    TIMER_CHECK_RECV that waits for room. Whoever takes messages out of the receive buffer may do so at any time. */
module RecvFlow {
  import opened Bytes
  import opened Container
  import opened Counting
  import opened Machine

  /** recv_buf_size, the most that one parse can deliver (ASCS_MSG_BUFFER_SIZE), and whether the completion of the
      timer may overlap with the starting of it by another service thread. */
  datatype Config = Config(cap: nat, maxBatch: nat, splitTimers: bool) {
    predicate Valid() { cap > 0 && maxBatch > 0 }
  }

  /** Where recv_handler is. */
  datatype Task =
    | Free
    | Parsed(batch: seq<bytes>)   // the batch is about to be moved into the receive buffer
    | Filled                      // check_receiving(false) is next
    | ReadNext                    // there was room: do_recv_msg is next
    | Pausing                     // there was none: set_timer is next
    | Arming                      // start_timer has set the status but not yet the sequence number

  /** Where a service thread is that runs a completion of the timer. */
  datatype Thread =
    | Idle
    | Due(gen: nat)               // the first test of the status is next
    | Checking(gen: nat)          // check_receiving(true) is next
    | Raising(gen: nat)           // there was room: recv_msg is next
    | Again(gen: nat)             // there was none: the second test of the status is next
    | Tail(gen: nat)              // the timer need not go on; the sequence number is next
    | Cancelling(gen: nat)        // ... and it was still the timer's; the status is next

  datatype State = State(recvBuffer: seq<bytes>, reading: nat, recvPosted: nat, task: Task, threads: seq<Thread>,
                         armed: bool, started: bool, seqNo: nat)

  /** Proceed and Go let recv_handler or a thread do its next step. */
  datatype Step = BeginRecv | Arrive(batch: seq<bytes>) | Proceed | Drain(k: nat) | Expire(t: nat) | Go(t: nat)

  /** A link that has been started, with what its receive buffer holds. */
  function Init(n: nat, buffered: seq<bytes>): State {
    State(buffered, 0, 1, Free, seq(n, i => Idle), false, false, 0)
  }

  predicate Room(c: Config, s: State) { Size(s.recvBuffer) < c.cap }

  function Armed(s: State): State { s.(started := true, armed := true, seqNo := s.seqNo + 1) }

  function DoTask(c: Config, s: State): State {
    match s.task
    case Free => s
    case Parsed(batch) => s.(recvBuffer := s.recvBuffer + batch, task := Filled)
    case Filled => s.(task := if Room(c, s) then ReadNext else Pausing)
    case ReadNext => s.(reading := s.reading + 1, task := Free)
    case Pausing => if c.splitTimers then s.(started := true, task := Arming) else Armed(s).(task := Free)
    case Arming => Armed(s).(task := Free)
  }

  function NextPc(c: Config, s: State, pc: Thread): Thread {
    match pc
    case Due(g) => if s.started then Checking(g) else Tail(g)
    case Checking(g) => if Room(c, s) then Raising(g) else Again(g)
    case Raising(g) => Tail(g)
    case Again(g) => if s.started then Idle else Tail(g)
    case Tail(g) => if g == s.seqNo && c.splitTimers then Cancelling(g) else Idle
    case _ => Idle
  }

  predicate Cancels(c: Config, s: State, pc: Thread) {
    pc.Cancelling? || (pc.Tail? && pc.gen == s.seqNo && !c.splitTimers)
  }

  /** The next step of a completion: its call back posts recv_msg, or the timer goes on, or it is marked as cancelled. */
  function DoThread(c: Config, s: State, t: nat): State
    requires t < |s.threads|
  {
    var pc := s.threads[t];
    var goesOn := pc.Again? && s.started;
    s.(threads := s.threads[t := NextPc(c, s, pc)],
       recvPosted := if pc.Raising? then s.recvPosted + 1 else s.recvPosted,
       armed := s.armed || goesOn,
       seqNo := if goesOn then s.seqNo + 1 else s.seqNo,
       started := s.started && !Cancels(c, s, pc))
  }

  function Do(c: Config, s: State, step: Step): State {
    match step
    case BeginRecv =>
      if s.task == Free && s.recvPosted > 0 then s.(recvPosted := s.recvPosted - 1, reading := s.reading + 1) else s
    case Arrive(batch) =>
      if s.task == Free && s.reading > 0 && Size(batch) <= c.maxBatch
      then s.(reading := s.reading - 1, task := Parsed(batch)) else s
    case Proceed => DoTask(c, s)
    case Drain(k) => if k <= |s.recvBuffer| then s.(recvBuffer := s.recvBuffer[k..]) else s
    case Expire(t) =>
      if s.armed && t < |s.threads| && s.threads[t] == Idle
      then s.(armed := false, threads := s.threads[t := Due(s.seqNo)]) else s
    case Go(t) => if t < |s.threads| then DoThread(c, s, t) else s
  }

  function Next(c: Config): (State, Step) -> State { (s, step) => Do(c, s, step) }

  /** A thread whose completion has yet to call back; one that will ask for a read. */
  predicate Ringer(pc: Thread) { pc.Due? || pc.Checking? || pc.Raising? || pc.Again? }

  predicate Raiser(pc: Thread) { pc.Raising? }

  lemma RaisersRing(threads: seq<Thread>)
    ensures Count(Raiser, threads) <= Count(Ringer, threads)
  {
    CountAdd(Raiser, pc => false, Ringer, threads);
  }

  // The token.

  function Tokens(s: State): nat {
    s.reading + s.recvPosted + Bit(s.task != Free) + Bit(s.armed) + Count(Ringer, s.threads)
  }

  /** A pending timer that is marked as cancelled will do nothing. */
  function LiveTokens(s: State): nat {
    s.reading + s.recvPosted + Bit(s.task != Free) + Bit(s.armed && s.started) + Count(Ringer, s.threads)
  }

  /** The buffer is below its limit while anyone is entitled to a read, and then one more batch may come in. */
  ghost predicate Bounded(c: Config, s: State) {
    Size(s.recvBuffer) < c.cap +
      (if s.reading > 0 || s.recvPosted > 0 || s.task.Parsed? || s.task == ReadNext || Count(Raiser, s.threads) > 0
       then 0 else c.maxBatch) &&
    (s.task.Parsed? ==> Size(s.task.batch) <= c.maxBatch)
  }

  lemma ThreadTokens(c: Config, s: State, t: nat)
    requires c.Valid() && t < |s.threads| && Tokens(s) <= 1 && Bounded(c, s)
    ensures Tokens(DoThread(c, s, t)) <= 1 && Bounded(c, DoThread(c, s, t))
  {
    CountMove(Ringer, s.threads, t, NextPc(c, s, s.threads[t]));
    CountMove(Raiser, s.threads, t, NextPc(c, s, s.threads[t]));
    RaisersRing(s.threads);
    hide Count, Size;
  }

  lemma StepTokens(c: Config, s: State, step: Step)
    requires c.Valid() && Tokens(s) <= 1 && Bounded(c, s)
    ensures Tokens(Do(c, s, step)) <= 1 && Bounded(c, Do(c, s, step))
  {
    RaisersRing(s.threads);
    match step {
      case Go(t) =>
        if t < |s.threads| {
          ThreadTokens(c, s, t);
        }
      case Expire(t) =>
        if t < |s.threads| {
          CountMove(Ringer, s.threads, t, Due(s.seqNo));
          CountMove(Raiser, s.threads, t, Due(s.seqNo));
        }
      case Drain(k) =>
        if k <= |s.recvBuffer| {
          SizeSplit(s.recvBuffer, k);
        }
      case Proceed =>
        if s.task.Parsed? {
          SizeAppend(s.recvBuffer, s.task.batch);
        }
      case _ =>
    }
    hide Count, Size, DoThread;
  }

  /** Whatever the build and the schedule: reads never overlap, and the receive buffer holds fewer bytes than its limit
      and one more parse. */
  lemma {:induction false} OneReadAndBounded(c: Config, n: nat, buffered: seq<bytes>, schedule: seq<Step>)
    requires c.Valid() && Size(buffered) < c.cap
    ensures var s := Run(Next(c), Init(n, buffered), schedule);
            && Tokens(s) <= 1 && s.reading <= 1
            && Bounded(c, s) && Size(s.recvBuffer) < c.cap + c.maxBatch
    decreases |schedule|
  {
    if schedule == [] {
      CountZero(Ringer, Init(n, buffered).threads);
      CountZero(Raiser, Init(n, buffered).threads);
      hide Count, Size;
    } else {
      OneReadAndBounded(c, n, buffered, schedule[..|schedule| - 1]);
      StepTokens(c, Run(Next(c), Init(n, buffered), schedule[..|schedule| - 1]), schedule[|schedule| - 1]);
      hide Do, Init, Count, Size;
    }
  }

  // The token is never lost.

  predicate Busy(s: State) { s.armed || Count(Ringer, s.threads) > 0 }

  /** What a thread's generation may be; `busy`: the timer is pending or its completion has not yet called back. */
  predicate GenOf(busy: bool, seqNo: nat, pc: Thread) {
    && !pc.Cancelling?
    && (Ringer(pc) ==> pc.gen == seqNo)
    && (pc.Tail? ==> if busy then pc.gen < seqNo else pc.gen <= seqNo)
  }

  ghost predicate Inv(c: Config, s: State) {
    && Tokens(s) == 1
    && s.task != Arming
    && (Busy(s) ==> s.started)
    && forall i :: 0 <= i < |s.threads| ==> GenOf(Busy(s), s.seqNo, s.threads[i])
  }

  lemma ThreadKeeps(c: Config, s: State, t: nat)
    requires t < |s.threads| && !c.splitTimers && Inv(c, s)
    ensures Inv(c, DoThread(c, s, t))
  {
    var s' := DoThread(c, s, t);
    CountMove(Ringer, s.threads, t, s'.threads[t]);
    CountZero(Ringer, s'.threads);
    hide Count, Room;
  }

  lemma StepKeeps(c: Config, s: State, step: Step)
    requires !c.splitTimers && Inv(c, s)
    ensures Inv(c, Do(c, s, step))
  {
    match step {
      case Go(t) =>
        if t < |s.threads| {
          ThreadKeeps(c, s, t);
        }
        hide DoThread, Inv;
      case Expire(t) =>
        if t < |s.threads| {
          CountMove(Ringer, s.threads, t, Due(s.seqNo));
        }
        CountZero(Ringer, s.threads);
        hide Count;
      case Proceed =>
        CountZero(Ringer, s.threads);
        hide Count, Room;
      case _ =>
        hide Count, Size;
    }
  }

  lemma {:induction false} RunKeeps(c: Config, n: nat, buffered: seq<bytes>, schedule: seq<Step>)
    requires !c.splitTimers
    ensures Inv(c, Run(Next(c), Init(n, buffered), schedule))
    decreases |schedule|
  {
    if schedule == [] {
      CountZero(Ringer, Init(n, buffered).threads);
      hide Count;
    } else {
      RunKeeps(c, n, buffered, schedule[..|schedule| - 1]);
      StepKeeps(c, Run(Next(c), Init(n, buffered), schedule[..|schedule| - 1]), schedule[|schedule| - 1]);
      hide Do, Init, Inv;
    }
  }

  // Room means reading.

  /** After a parse the batch is in the receive buffer, and if that is below its limit the next read is asked for, while
      the timer is left alone; otherwise the timer is started, and no read is asked for. */
  lemma RoomMeansRead(c: Config, s: State, batch: seq<bytes>)
    requires s.task == Parsed(batch)
    ensures var buffer := s.recvBuffer + batch;
            var s' := Run(Next(c), s, if Size(buffer) >= c.cap && c.splitTimers then [Proceed, Proceed, Proceed, Proceed]
                                      else [Proceed, Proceed, Proceed]);
            && s'.recvBuffer == buffer && s'.task == Free && s'.recvPosted == s.recvPosted && s'.threads == s.threads
            && if Size(buffer) < c.cap
               then s'.reading == s.reading + 1 && s'.armed == s.armed && s'.started == s.started && s'.seqNo == s.seqNo
               else s'.reading == s.reading && s'.armed && s'.started && s'.seqNo == s.seqNo + 1
  {
    hide Run, Size, DoThread;
    RunThree(Next(c), s, Proceed, Proceed, Proceed);
    RunFour(Next(c), s, Proceed, Proceed, Proceed, Proceed);
  }

  lemma CheckSteps(c: Config, s: State, t: nat, gen: nat)
    requires t < |s.threads| && s.threads[t] == Checking(gen)
    ensures var s' := Do(c, Do(c, s, Go(t)), Go(t));
            if Size(s.recvBuffer) < c.cap
            then s' == s.(recvPosted := s.recvPosted + 1, threads := s.threads[t := Tail(gen)])
            else if s.started
            then s' == s.(armed := true, seqNo := s.seqNo + 1, threads := s.threads[t := Idle])
            else s' == s.(threads := s.threads[t := Tail(gen)])
  {
    hide Size, DoTask;
    assert s.threads[t := Raising(gen)][t := Tail(gen)] == s.threads[t := Tail(gen)];
    assert s.threads[t := Again(gen)][t := Idle] == s.threads[t := Idle];
    assert s.threads[t := Again(gen)][t := Tail(gen)] == s.threads[t := Tail(gen)];
  }

  /** The completion of the timer asks for a read if there is room now, and then does not go on; otherwise it goes on,
      unless somebody has stopped it. */
  lemma TimerChecksRoom(c: Config, s: State, t: nat, gen: nat)
    requires t < |s.threads| && s.threads[t] == Checking(gen)
    ensures var s' := Run(Next(c), s, [Go(t), Go(t)]);
            if Size(s.recvBuffer) < c.cap
            then s' == s.(recvPosted := s.recvPosted + 1, threads := s.threads[t := Tail(gen)])
            else if s.started
            then s' == s.(armed := true, seqNo := s.seqNo + 1, threads := s.threads[t := Idle])
            else s' == s.(threads := s.threads[t := Tail(gen)])
  {
    hide Run, Size, Do;
    CheckSteps(c, s, t, gen);
    RunTwo(Next(c), s, Go(t), Go(t));
  }

  // Receiving can always go on.

  /** The engine's steps, without a read that ends, and the user's taking messages out. */
  predicate Onward(step: Step) { step.BeginRecv? || step.Proceed? || step.Drain? || step.Expire? || step.Go? }

  function TaskRank(task: Task): nat {
    match task
    case Free => 0
    case ReadNext => 1
    case Pausing => 2
    case Filled => 3
    case Parsed(_) => 4
    case Arming => 1
  }

  function ThreadRank(pc: Thread): nat {
    match pc
    case Idle => 0
    case Due(_) => 5
    case Checking(_) => 4
    case Raising(_) => 2
    case Again(_) => 7
    case _ => 1
  }

  function TimerRank(s: State): nat { Weight(ThreadRank, s.threads) + 6 * Bit(s.armed) }

  /** Nearer to a read: by the handler, the timer, the buffer, or the posted task. */
  predicate Nearer(s': State, s: State) {
    if TaskRank(s'.task) != TaskRank(s.task) then TaskRank(s'.task) < TaskRank(s.task)
    else if TimerRank(s') != TimerRank(s) then TimerRank(s') < TimerRank(s)
    else if |s'.recvBuffer| != |s.recvBuffer| then |s'.recvBuffer| < |s.recvBuffer|
    else s'.recvPosted < s.recvPosted
  }

  lemma GoNearer(c: Config, s: State, t: nat)
    requires c.Valid() && !c.splitTimers && t < |s.threads| && ThreadRank(s.threads[t]) > 0 && Room(c, s)
    requires s.armed ==> !Ringer(s.threads[t])
    ensures var s' := Do(c, s, Go(t));
            TimerRank(s') < TimerRank(s) && s'.task == s.task && s'.reading == s.reading
  {
    hide Weight, Size;
    WeightMove(ThreadRank, s.threads, t, NextPc(c, s, s.threads[t]));
  }

  /** As long as no read is in flight somebody can take a step, and that brings it nearer. */
  lemma SomeStep(c: Config, s: State) returns (step: Step)
    requires c.Valid() && !c.splitTimers && Inv(c, s) && s.threads != [] && s.reading == 0
    ensures Onward(step) && (Do(c, s, step).reading == 1 || Nearer(Do(c, s, step), s))
  {
    var t := WeightOfOne(ThreadRank, s.threads);
    CountZero(Ringer, s.threads);
    assert Size([]) == 0;
    hide Weight, Count, Size;
    if s.recvBuffer != [] {
      step := Drain(|s.recvBuffer|);
    } else if s.task != Free {
      step := Proceed;
    } else if Weight(ThreadRank, s.threads) > 0 {
      step := Go(t);
      GoNearer(c, s, t);
    } else if s.armed {
      step := Expire(0);
      WeightMove(ThreadRank, s.threads, 0, Due(s.seqNo));
    } else {
      step := BeginRecv;
    }
  }

  lemma ThreadsStay(c: Config, s: State, step: Step)
    ensures |Do(c, s, step).threads| == |s.threads|
  {
  }

  lemma {:induction false} HasThreads(c: Config, n: nat, buffered: seq<bytes>, schedule: seq<Step>)
    ensures |Run(Next(c), Init(n, buffered), schedule).threads| == n
    decreases |schedule|
  {
    hide Do;
    if schedule != [] {
      HasThreads(c, n, buffered, schedule[..|schedule| - 1]);
      ThreadsStay(c, Run(Next(c), Init(n, buffered), schedule[..|schedule| - 1]), schedule[|schedule| - 1]);
    }
  }

  lemma {:induction false} ToRead(c: Config, s: State) returns (more: seq<Step>)
    requires c.Valid() && !c.splitTimers && Inv(c, s) && s.threads != []
    ensures (forall i :: 0 <= i < |more| ==> Onward(more[i])) && Run(Next(c), s, more).reading == 1
    decreases TaskRank(s.task), TimerRank(s), |s.recvBuffer|, s.recvPosted
  {
    hide Do, Onward, TimerRank;
    more := [];
    if s.reading == 0 {
      var step := SomeStep(c, s);
      StepKeeps(c, s, step);
      ThreadsStay(c, s, step);
      more := [step];
      RunTwo(Next(c), s, step, step);
      if Do(c, s, step).reading == 0 {
        var rest := ToRead(c, Do(c, s, step));
        more := [step] + rest;
        RunJoin(Next(c), s, [step], rest);
      }
    }
  }

  /** From every state that a run reaches, receiving can go on: when the user takes the messages out, the engine asks for
      the next read. */
  lemma {:induction false} ReceivingCanGoOn(c: Config, n: nat, buffered: seq<bytes>, schedule: seq<Step>)
    returns (more: seq<Step>)
    requires c.Valid() && !c.splitTimers && n > 0
    ensures forall i :: 0 <= i < |more| ==> Onward(more[i])
    ensures Run(Next(c), Init(n, buffered), schedule + more).reading == 1
  {
    hide Run, Do, Init, Inv, Onward;
    RunKeeps(c, n, buffered, schedule);
    HasThreads(c, n, buffered, schedule);
    more := ToRead(c, Run(Next(c), Init(n, buffered), schedule));
    RunJoin(Next(c), Init(n, buffered), schedule, more);
  }

  // The run that loses it.

  /** The states of that run. */
  function Link(buffer: seq<bytes>, recvPosted: nat, task: Task, pc: Thread, armed: bool, started: bool, seqNo: nat)
    : State
  {
    State(buffer, 0, recvPosted, task, [pc], armed, started, seqNo)
  }

  lemma ReadSteps(c: Config, buffer: seq<bytes>, pc: Thread, started: bool, seqNo: nat)
    requires c.Valid()
    ensures var b := Link(buffer, 0, Free, pc, false, started, seqNo);
            && Do(c, b.(recvPosted := 1), BeginRecv) == b.(reading := 1)
            && Do(c, b.(reading := 1), Arrive([[0]])) == b.(task := Parsed([[0]]))
            && Do(c, b.(task := Parsed([[0]])), Proceed) == b.(task := Filled, recvBuffer := buffer + [[0]])
  {
    SizeOne([0]);
    hide Size, DoThread;
  }

  lemma PauseSteps(c: Config, full: seq<bytes>, pc: Thread, started: bool, seqNo: nat)
    requires c.splitTimers && Size(full) >= c.cap
    ensures var b := Link(full, 0, Free, pc, false, started, seqNo);
            && Do(c, b.(task := Filled), Proceed) == b.(task := Pausing)
            && Do(c, b.(task := Pausing), Proceed) == b.(task := Arming, started := true)
            && Do(c, b.(task := Arming, started := true), Proceed) == Link(full, 0, Free, pc, true, true, seqNo + 1)
  {
    hide Size, DoThread;
  }

  /** From a message away from the limit: the next one fills the buffer and the timer is started. */
  lemma FillUp(c: Config, s0: State, q0: seq<Step>, buffer: seq<bytes>, pc: Thread, started: bool, seqNo: nat)
    returns (q: seq<Step>)
    requires c.Valid() && c.splitTimers && Size(buffer) == c.cap - 1
    requires Run(Next(c), s0, q0) == Link(buffer, 1, Free, pc, false, started, seqNo)
    ensures Run(Next(c), s0, q) == Link(buffer + [[0]], 0, Free, pc, true, true, seqNo + 1)
  {
    SizeOne([0]);
    SizeAppend(buffer, [[0]]);
    ReadSteps(c, buffer, pc, started, seqNo);
    PauseSteps(c, buffer + [[0]], pc, started, seqNo);
    hide Run, Size, Do;
    var b := Link(buffer, 0, Free, pc, false, started, seqNo);
    var b' := Link(buffer + [[0]], 0, Free, pc, false, started, seqNo);
    q := Then(Next(c), s0, q0, b.(recvPosted := 1), BeginRecv, b.(reading := 1));
    q := Then(Next(c), s0, q, b.(reading := 1), Arrive([[0]]), b.(task := Parsed([[0]])));
    q := Then(Next(c), s0, q, b.(task := Parsed([[0]])), Proceed, b'.(task := Filled));
    q := Then(Next(c), s0, q, b'.(task := Filled), Proceed, b'.(task := Pausing));
    q := Then(Next(c), s0, q, b'.(task := Pausing), Proceed, b'.(task := Arming, started := true));
    q := Then(Next(c), s0, q, b'.(task := Arming, started := true), Proceed,
              Link(buffer + [[0]], 0, Free, pc, true, true, seqNo + 1));
  }

  lemma RingSteps(c: Config, full: seq<bytes>)
    requires c.Valid() && c.splitTimers && full != [] && Size(full[1..]) < c.cap
    ensures var a, b := Link(full, 0, Free, Idle, false, true, 1), Link(full[1..], 0, Free, Idle, false, true, 1);
            && Do(c, a.(armed := true), Expire(0)) == a.(threads := [Due(1)])
            && Do(c, a.(threads := [Due(1)]), Go(0)) == a.(threads := [Checking(1)])
            && Do(c, a.(threads := [Checking(1)]), Drain(1)) == b.(threads := [Checking(1)])
            && Do(c, b.(threads := [Checking(1)]), Go(0)) == b.(threads := [Raising(1)])
            && Do(c, b.(threads := [Raising(1)]), Go(0)) == b.(threads := [Tail(1)], recvPosted := 1)
            && Do(c, b.(threads := [Tail(1)], recvPosted := 1), Go(0)) == b.(threads := [Cancelling(1)], recvPosted := 1)
  {
    hide Size, DoTask;
  }

  /** The timer rings, finds room, and asks for a read; its tail has compared the sequence numbers and is about to
      write the status. */
  lemma RingOnce(c: Config, s0: State, q0: seq<Step>, full: seq<bytes>) returns (q: seq<Step>)
    requires c.Valid() && c.splitTimers && full != [] && Size(full[1..]) < c.cap
    requires Run(Next(c), s0, q0) == Link(full, 0, Free, Idle, true, true, 1)
    ensures Run(Next(c), s0, q) == Link(full[1..], 1, Free, Cancelling(1), false, true, 1)
  {
    RingSteps(c, full);
    hide Run, Size, Do;
    var a, b := Link(full, 0, Free, Idle, false, true, 1), Link(full[1..], 0, Free, Idle, false, true, 1);
    q := Then(Next(c), s0, q0, a.(armed := true), Expire(0), a.(threads := [Due(1)]));
    q := Then(Next(c), s0, q, a.(threads := [Due(1)]), Go(0), a.(threads := [Checking(1)]));
    q := Then(Next(c), s0, q, a.(threads := [Checking(1)]), Drain(1), b.(threads := [Checking(1)]));
    q := Then(Next(c), s0, q, b.(threads := [Checking(1)]), Go(0), b.(threads := [Raising(1)]));
    q := Then(Next(c), s0, q, b.(threads := [Raising(1)]), Go(0), b.(threads := [Tail(1)], recvPosted := 1));
    q := Then(Next(c), s0, q, b.(threads := [Tail(1)], recvPosted := 1), Go(0),
              b.(threads := [Cancelling(1)], recvPosted := 1));
  }

  lemma CancelLate(c: Config, s0: State, q0: seq<Step>, full: seq<bytes>) returns (q: seq<Step>)
    requires Run(Next(c), s0, q0) == Link(full, 0, Free, Cancelling(1), true, true, 2)
    ensures Run(Next(c), s0, q) == Link(full, 0, Free, Idle, true, false, 2)
  {
    hide Run;
    assert [Cancelling(1)][0 := Idle] == [Idle];
    q := Then(Next(c), s0, q0, Link(full, 0, Free, Cancelling(1), true, true, 2), Go(0),
              Link(full, 0, Free, Idle, true, false, 2));
  }

  lemma NearlyFull(c: Config) returns (b: seq<bytes>)
    requires c.Valid()
    ensures Size(b) == c.cap - 1 && Size((b + [[0]])[1..]) == c.cap - 1
  {
    var z: bytes := [0];
    SizeOne(z);
    if c.cap == 1 {
      b := [];
      assert ([] + [z])[1..] == [];
    } else {
      var w: bytes := seq(c.cap - 2, i => 0);
      b := [z] + [w];
      SizeOne(w);
      SizeAppend([z], [w]);
      SizeAppend([w], [z]);
      assert ([z] + [w] + [z])[1..] == [w] + [z];
    }
  }

  lemma TokenIsLost(c: Config) returns (buffered: seq<bytes>, q: seq<Step>)
    requires c.Valid() && c.splitTimers
    ensures Size(buffered) < c.cap && LiveTokens(Run(Next(c), Init(1, buffered), q)) == 0
  {
    buffered := NearlyFull(c);
    var s0, full := Init(1, buffered), buffered + [[0]];
    assert s0 == Link(buffered, 1, Free, Idle, false, false, 0) && Run(Next(c), s0, []) == s0;
    q := FillUp(c, s0, [], buffered, Idle, false, 0);
    q := RingOnce(c, s0, q, full);
    q := FillUp(c, s0, q, full[1..], Cancelling(1), true, 1);
    q := CancelLate(c, s0, q, full[1..] + [[0]]);
    CountZero(Ringer, [Idle]);
    hide Run, Size, Count, Next, Init;
  }

  /** On a running link there is exactly one token at any time, for any number of threads and any schedule, exactly when
      the completion of the timer does not overlap with its being started. */
  lemma ExactlyOneToken(c: Config)
    requires c.Valid()
    ensures (forall n: nat, buffered: seq<bytes>, schedule: seq<Step> :: Size(buffered) < c.cap ==>
               LiveTokens(Run(Next(c), Init(n, buffered), schedule)) == 1) <==> !c.splitTimers
  {
    if c.splitTimers {
      var buffered, q := TokenIsLost(c);
      var lost := LiveTokens(Run(Next(c), Init(1, buffered), q));
    } else {
      forall n: nat, buffered: seq<bytes>, schedule: seq<Step> | Size(buffered) < c.cap
        ensures LiveTokens(Run(Next(c), Init(n, buffered), schedule)) == 1
      {
        RunKeeps(c, n, buffered, schedule);
        hide Run, Init, Count, Size;
      }
    }
  }
}
