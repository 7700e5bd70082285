/** Service threads that leave at run time (ASCS_DECREASE_THREAD_AT_RUNTIME): each access to the two atomic counters is
    a step of its own. */
module ServicePump {
  import opened Counting
  import opened Machine

  /** Where a service thread is in its loop. */
  datatype Thread =
    | Unborn      // it has yet to count itself
    | Looking     // del_thread_num is next
    | Claiming    // it was positive: it will be decremented
    | Claimed     // ... and was not negative after it: real_thread_num will be decremented
    | Repaying    // ... and was not positive after it: it will be incremented again
    | GivingBack  // del_thread_num was negative after it: it will be incremented again
    | Running     // run_one
    | Stopping    // run_one had nothing to do: real_thread_num will be decremented
    | Left        // it has left because it was asked to
    | Stopped     // it has left because the io_context stopped

  /** `requests`, `exits` and `wasted` count what was asked for, the threads that left for it, and the requests that the
      last thread used up without leaving. */
  datatype State = State(threads: seq<Thread>, delNum: int, realNum: int, requests: nat, exits: nat, wasted: nat)

  datatype Step = Request(k: nat) | Go(t: nat) | RunOne(t: nat, more: bool)

  function Init(n: nat): State { State(seq(n, i => Unborn), 0, 0, 0, 0, 0) }

  function NextPc(s: State, pc: Thread): Thread {
    match pc
    case Unborn => Looking
    case Looking => if s.delNum > 0 then Claiming else Running
    case Claiming => if s.delNum - 1 >= 0 then Claimed else GivingBack
    case Claimed => if s.realNum - 1 > 0 then Left else Repaying
    case Repaying => Running
    case GivingBack => Running
    case Stopping => Stopped
    case _ => pc
  }

  function DoThread(s: State, t: nat): State
    requires t < |s.threads|
  {
    var pc := s.threads[t];
    s.(threads := s.threads[t := NextPc(s, pc)],
       delNum := if pc.Claiming? then s.delNum - 1 else if pc.GivingBack? then s.delNum + 1 else s.delNum,
       realNum := if pc.Unborn? || pc.Repaying? then s.realNum + 1
               else if pc.Claimed? || pc.Stopping? then s.realNum - 1 else s.realNum,
       exits := if pc.Claimed? && s.realNum - 1 > 0 then s.exits + 1 else s.exits,
       wasted := if pc.Claimed? && s.realNum - 1 <= 0 then s.wasted + 1 else s.wasted)
  }

  function Do(s: State, step: Step): State {
    match step
    case Request(k) => s.(delNum := s.delNum + k, requests := s.requests + k)
    case Go(t) => if t < |s.threads| then DoThread(s, t) else s
    case RunOne(t, more) =>
      if t < |s.threads| && s.threads[t] == Running
      then s.(threads := s.threads[t := if more then Looking else Stopping]) else s
  }

  predicate Counted(pc: Thread) {
    pc.Looking? || pc.Claiming? || pc.Claimed? || pc.GivingBack? || pc.Running? || pc.Stopping?
  }

  predicate Repays(pc: Thread) { pc.Repaying? }

  predicate Claims(pc: Thread) { pc.Claimed? }

  predicate GivesBack(pc: Thread) { pc.GivingBack? }

  predicate Gone(pc: Thread) { pc.Left? }

  /** real_thread_num is the running threads but for those between its decrement and its re-increment; every request is
      still to be claimed, or has been claimed, given back, followed by an exit, or wasted. */
  ghost predicate Accounts(s: State) {
    && s.realNum == Count(Counted, s.threads)
    && s.exits == Count(Gone, s.threads)
    && s.requests == s.delNum + Count(Claims, s.threads) + Count(GivesBack, s.threads) + s.exits + s.wasted
    && s.delNum + Count(GivesBack, s.threads) >= 0
  }

  lemma StepAccounts(s: State, step: Step)
    requires Accounts(s)
    ensures Accounts(Do(s, step))
  {
    hide Count;
    if !step.Request? && step.t < |s.threads| {
      var pc' := Do(s, step).threads[step.t];
      CountMove(Counted, s.threads, step.t, pc');
      CountMove(Gone, s.threads, step.t, pc');
      CountMove(Claims, s.threads, step.t, pc');
      CountMove(GivesBack, s.threads, step.t, pc');
    }
  }

  /** The books balance in every run: so the threads that leave by deletion never exceed the requests. */
  lemma {:induction false} AlwaysBalanced(n: nat, schedule: seq<Step>)
    ensures var s := Run(Do, Init(n), schedule);
            && s.realNum == Count(Counted, s.threads)
            && Count(Gone, s.threads) == s.exits <= s.requests
            && Accounts(s)
    decreases |schedule|
  {
    if schedule == [] {
      CountZero(Counted, Init(n).threads);
      CountZero(Gone, Init(n).threads);
      CountZero(Claims, Init(n).threads);
      CountZero(GivesBack, Init(n).threads);
      hide Count;
    } else {
      AlwaysBalanced(n, schedule[..|schedule| - 1]);
      StepAccounts(Run(Do, Init(n), schedule[..|schedule| - 1]), schedule[|schedule| - 1]);
      hide Do, Init, Count;
    }
  }

  /** A thread that leaves by deletion leaves a counted one behind. */
  lemma AnExitLeavesOne(n: nat, schedule: seq<Step>, step: Step)
    requires var s := Run(Do, Init(n), schedule); Do(s, step).exits > s.exits
    ensures var s' := Do(Run(Do, Init(n), schedule), step); s'.realNum == Count(Counted, s'.threads) > 0
  {
    AlwaysBalanced(n, schedule);
    StepAccounts(Run(Do, Init(n), schedule), step);
    hide Count, Run, Init;
  }

  lemma LookSteps(s: State, t: nat)
    requires t < |s.threads| && s.threads[t] == Looking && s.delNum > 0
    ensures Do(s, Go(t)) == s.(threads := s.threads[t := Claiming])
    ensures var s' := Do(Do(Do(s, Go(t)), Go(t)), Go(t));
            if s.realNum > 1
            then s' == s.(threads := s.threads[t := Left], delNum := s.delNum - 1, realNum := s.realNum - 1,
                          exits := s.exits + 1)
            else s' == s.(threads := s.threads[t := Repaying], delNum := s.delNum - 1, realNum := s.realNum - 1,
                          wasted := s.wasted + 1)
  {
    var next := if s.realNum > 1 then Left else Repaying;
    assert s.threads[t := Claiming][t := Claimed][t := next] == s.threads[t := next];
  }

  lemma RepaySteps(s: State, t: nat)
    requires t < |s.threads| && s.threads[t] == Repaying
    ensures Do(s, Go(t)) == s.(threads := s.threads[t := Running], realNum := s.realNum + 1)
  {
  }

  /** A thread that looks while a request is outstanding claims it; it leaves, if it is not the last one that is counted,
      and otherwise it goes on, counted as before, and the request is spent. */
  lemma ARequestIsHonoured(n: nat, schedule: seq<Step>, t: nat)
    requires var s := Run(Do, Init(n), schedule); t < |s.threads| && s.threads[t] == Looking && s.delNum > 0
    ensures var s := Run(Do, Init(n), schedule);
            var s3, s4 := Run(Do, s, [Go(t), Go(t), Go(t)]), Run(Do, s, [Go(t), Go(t), Go(t), Go(t)]);
            && s3.delNum == s.delNum - 1
            && if Count(Counted, s.threads) > 1
               then && s3.threads == s.threads[t := Left] && s3.exits == s.exits + 1
                    && Count(Counted, s3.threads) == Count(Counted, s.threads) - 1
               else s4.threads == s.threads[t := Running] && s4.exits == s.exits && s4.realNum == s.realNum
  {
    var s := Run(Do, Init(n), schedule);
    AlwaysBalanced(n, schedule);
    LookSteps(s, t);
    CountMove(Counted, s.threads, t, Left);
    RunThree(Do, s, Go(t), Go(t), Go(t));
    RunFour(Do, s, Go(t), Go(t), Go(t), Go(t));
    if s.realNum <= 1 {
      RepaySteps(Do(Do(Do(s, Go(t)), Go(t)), Go(t)), t);
      assert s.threads[t := Repaying][t := Running] == s.threads[t := Running];
    }
    hide Run, Do, Init, Count;
  }

  /** A thread that looks while none is outstanding goes on to run, and nothing is counted. */
  lemma NoRequestNoExit(s: State, t: nat)
    requires t < |s.threads| && s.threads[t] == Looking && s.delNum <= 0
    ensures Do(s, Go(t)) == s.(threads := s.threads[t := Running])
  {
  }

  /** Requests add up; a thread is counted when it begins, looks again after every handler, and is not counted any more
      when the io_context has stopped. */
  lemma RequestsAddUp(s: State, k: nat)
    ensures Do(s, Request(k)) == s.(delNum := s.delNum + k, requests := s.requests + k)
  {
  }

  lemma ThreadRuns(s: State, t: nat)
    requires t < |s.threads|
    ensures s.threads[t] == Unborn ==>
              Run(Do, s, [Go(t)]) == s.(threads := s.threads[t := Looking], realNum := s.realNum + 1)
    ensures s.threads[t] == Running ==> Run(Do, s, [Step.RunOne(t, true)]) == s.(threads := s.threads[t := Looking])
    ensures s.threads[t] == Running ==>
              Run(Do, s, [Step.RunOne(t, false), Go(t)])
              == s.(threads := s.threads[t := Stopped], realNum := s.realNum - 1)
  {
    hide Run;
    RunTwo(Do, s, Go(t), Go(t));
    RunTwo(Do, s, Step.RunOne(t, true), Go(t));
    RunTwo(Do, s, Step.RunOne(t, false), Go(t));
    assert s.threads[t := Stopping][t := Stopped] == s.threads[t := Stopped];
  }

  /** As long as the io_context does not run out of work, a service never loses its last thread. */
  lemma {:induction false} TheLastThreadStays(n: nat, schedule: seq<Step>)
    requires forall step <- schedule :: !(step.RunOne? && !step.more)
    ensures var s := Run(Do, Init(n), schedule);
            && (forall i :: 0 <= i < |s.threads| ==> s.threads[i] != Stopping && s.threads[i] != Stopped)
            && (s.threads == seq(n, i => Unborn) || Count(Counted, s.threads) + Count(Repays, s.threads) > 0)
    decreases |schedule|
  {
    if schedule != [] {
      TheLastThreadStays(n, schedule[..|schedule| - 1]);
      var s, step := Run(Do, Init(n), schedule[..|schedule| - 1]), schedule[|schedule| - 1];
      AlwaysBalanced(n, schedule[..|schedule| - 1]);
      OneStays(s, step);
      hide Count, Do, Init;
    }
  }

  lemma OneStays(s: State, step: Step)
    requires Accounts(s) && !(step.RunOne? && !step.more)
    requires forall i :: 0 <= i < |s.threads| ==> s.threads[i] != Stopping && s.threads[i] != Stopped
    ensures var s' := Do(s, step);
            && (forall i :: 0 <= i < |s'.threads| ==> s'.threads[i] != Stopping && s'.threads[i] != Stopped)
            && (s'.threads == s.threads || Count(Counted, s'.threads) + Count(Repays, s'.threads) > 0)
  {
    StepAccounts(s, step);
    if !step.Request? && step.t < |s.threads| {
      var pc' := Do(s, step).threads[step.t];
      CountMove(Counted, s.threads, step.t, pc');
      CountMove(Repays, s.threads, step.t, pc');
      if pc' == s.threads[step.t] {
        assert s.threads[step.t := pc'] == s.threads;
      }
    }
    hide Count;
  }
}
