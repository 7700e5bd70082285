/** One timer of a timer object: started, stopped and restarted, also inside its own call back, with completions that
    arrive late. Operations on one timer do not overlap, as the original demands of its users. */
module Timer {
  import opened Bytes
  import opened Machine
  import opened Wrappers

  datatype Status = Created | Started | Canceled

  /** A wait that has been asked for: the sequence number that its completion has captured, and which start it was. */
  datatype Wait = Wait(prev: byte, gen: nat)

  /** A completion that has been queued, by a time-out or with an error by a cancellation. */
  datatype Done = Done(prev: byte, ec: bool)

  /** `waits` are pending in Asio, `queued` are completions by the start that they belong to, and `running` is the one
      whose call back runs. */
  datatype State = State(status: Status, seqNo: byte, gen: nat, waits: seq<Wait>, queued: map<nat, Done>,
                         running: Option<Wait>)

  /** Begin lets a queued completion run up to its call back, End is the call back's return. */
  datatype Step = Start | Stop | Expire | Begin(gen: nat) | End(goOn: bool)

  function Init(): State { State(Created, 255, 0, [], map[], None) }

  /** Cancelling the timer queues its pending waits with an error. */
  function Aborted(waits: seq<Wait>, queued: map<nat, Done>): map<nat, Done> {
    if waits == [] then queued else Aborted(waits[1..], queued[waits[0].gen := Done(waits[0].prev, true)])
  }

  function DoStart(s: State): State {
    var n: byte := (s.seqNo + 1) % 256;
    s.(status := Started, seqNo := n, gen := s.gen + 1, queued := Aborted(s.waits, s.queued),
       waits := [Wait(n, s.gen + 1)])
  }

  function DoStop(s: State): State {
    if s.status == Started then s.(status := Canceled, queued := Aborted(s.waits, s.queued), waits := []) else s
  }

  /** The end of a completion: a timer that has not been started since is marked as cancelled. */
  function DoTail(s: State, prev: byte): State { if prev == s.seqNo then s.(status := Canceled) else s }

  function Do(s: State, step: Step): State {
    match step
    case Start => DoStart(s)
    case Stop => DoStop(s)
    case Expire =>
      if s.waits == [] then s
      else s.(waits := s.waits[1..], queued := s.queued[s.waits[0].gen := Done(s.waits[0].prev, false)])
    case Begin(g) =>
      if g !in s.queued || s.running.Some? then s
      else
        var (d, s1) := (s.queued[g], s.(queued := s.queued - {g}));
        if s.status == Started && !d.ec then s1.(running := Some(Wait(d.prev, g))) else DoTail(s1, d.prev)
    case End(goOn) =>
      if s.running.None? then s
      else
        var s1 := s.(running := None);
        if goOn && s.status == Started then DoStart(s1) else DoTail(s1, s.running.value.prev)
  }

  /** The sequence number that the n-th start gives out. */
  function SeqOf(gen: nat): byte { (gen + 255) % 256 }

  /** The latest start is still pending, queued or running. */
  predicate Alive(s: State) {
    || (s.waits != [] && s.waits[0].gen == s.gen)
    || s.gen in s.queued
    || (s.running.Some? && s.running.value.gen == s.gen)
  }

  /** The sequence numbers are those of the starts, modulo 256. */
  ghost predicate Numbered(s: State) {
    && s.seqNo == SeqOf(s.gen)
    && |s.waits| <= 1
    && (s.waits != [] ==>
          && s.waits[0] == Wait(s.seqNo, s.gen) && s.gen > 0 && s.gen !in s.queued
          && (s.running.Some? ==> s.running.value.gen < s.gen))
    && (forall g <- s.queued :: 0 < g <= s.gen && s.queued[g].prev == SeqOf(g))
    && (s.running.Some? ==> 0 < s.running.value.gen <= s.gen && s.running.value.prev == SeqOf(s.running.value.gen))
  }

  ghost predicate Inv(s: State) { Numbered(s) && (s.status == Started ==> Alive(s) && s.gen > 0) }

  lemma AbortOne(s: State)
    requires |s.waits| <= 1
    ensures Aborted(s.waits, s.queued) ==
            if s.waits == [] then s.queued else s.queued[s.waits[0].gen := Done(s.waits[0].prev, true)]
  {
    if s.waits != [] {
      assert s.waits[1..] == [];
    }
  }

  lemma StartKeeps(s: State)
    requires Numbered(s)
    ensures Inv(DoStart(s))
  {
    AbortOne(s);
    hide Aborted;
  }

  lemma InvStep(s: State, step: Step)
    requires Inv(s)
    ensures Inv(Do(s, step))
  {
    StartKeeps(s);
    StartKeeps(s.(running := None));
    AbortOne(s);
    hide Aborted, DoStart;
  }

  lemma {:induction false} InvRun(schedule: seq<Step>)
    ensures Inv(Run(Do, Init(), schedule))
    decreases |schedule|
  {
    if schedule != [] {
      InvRun(schedule[..|schedule| - 1]);
      InvStep(Run(Do, Init(), schedule[..|schedule| - 1]), schedule[|schedule| - 1]);
      hide Do, Init, Inv;
    }
  }

  /** In every run at most one wait is pending, it is the latest start's, and a timer that says it is started has its
      latest start still pending, queued or running. */
  lemma StartedIsAlive(schedule: seq<Step>)
    ensures var s := Run(Do, Init(), schedule);
            && |s.waits| <= 1 && (forall w <- s.waits :: w.gen == s.gen)
            && (s.status == Started ==> Alive(s))
  {
    InvRun(schedule);
  }

  // What each operation leads to, in any reachable state.

  /** The completion of an aborted wait, which has an error. */
  ghost predicate AbortedIn(s: State, w: Wait) { w.gen in s.queued && s.queued[w.gen] == Done(w.prev, true) }

  /** Starting gives out the next sequence number and has one wait pending; one that was pending is aborted. */
  lemma StartRestarts(schedule: seq<Step>)
    ensures var s, s' := Run(Do, Init(), schedule), Run(Do, Init(), schedule + [Start]);
            && s'.status == Started && s'.gen == s.gen + 1 && s'.running == s.running
            && s'.seqNo == (s.seqNo + 1) % 256 && s'.waits == [Wait(s'.seqNo, s'.gen)]
            && (forall w <- s.waits :: AbortedIn(s', w))
            && (forall g <- s.queued :: g in s'.queued && s'.queued[g] == s.queued[g])
  {
    InvRun(schedule);
    RunOne(Do, Init(), schedule, Start);
    AbortOne(Run(Do, Init(), schedule));
    hide Aborted, Run, Init;
  }

  /** A call back that returns true starts the timer again if nobody has stopped it meanwhile: the next sequence number,
      one wait pending. Otherwise no wait is added, and the timer is cancelled unless it has been started since. */
  lemma CallBackReturns(schedule: seq<Step>, goOn: bool)
    requires Run(Do, Init(), schedule).running.Some?
    ensures var s, s' := Run(Do, Init(), schedule), Run(Do, Init(), schedule + [End(goOn)]);
            && s'.running.None?
            && (goOn && s.status == Started ==>
                  && s'.status == Started && s'.gen == s.gen + 1 && s'.seqNo == (s.seqNo + 1) % 256
                  && s'.waits == [Wait(s'.seqNo, s'.gen)] && forall w <- s.waits :: AbortedIn(s', w))
            && (!goOn || s.status != Started ==>
                  && s'.gen == s.gen && s'.seqNo == s.seqNo && s'.waits == s.waits && s'.queued == s.queued
                  && s'.status == if (s.gen - s.running.value.gen) % 256 == 0 then Canceled else s.status)
  {
    hide Aborted, Run, Init, SeqOf;
    var s := Run(Do, Init(), schedule);
    InvRun(schedule);
    RunOne(Do, Init(), schedule, End(goOn));
    AbortOne(s.(running := None));
    TailCancels(s, s.running.value.gen);
  }

  /** The starts whose waits have timed out. */
  function Expired(schedule: seq<Step>): set<nat>
    decreases |schedule|
  {
    if schedule == [] then {}
    else
      var front := schedule[..|schedule| - 1];
      var s := Run(Do, Init(), front);
      Expired(front) + if schedule[|schedule| - 1] == Expire && s.waits != [] then {s.waits[0].gen} else {}
  }

  /** A completion without an error is one that has timed out. */
  ghost predicate Told(s: State, expired: set<nat>) {
    && (forall g <- s.queued :: s.queued[g].ec <==> g !in expired)
    && (forall g <- expired :: g <= s.gen)
    && (s.waits != [] ==> s.waits[0].gen !in expired)
  }

  lemma ToldStep(s: State, step: Step, expired: set<nat>)
    requires Inv(s) && Told(s, expired)
    ensures Told(Do(s, step), expired + if step == Expire && s.waits != [] then {s.waits[0].gen} else {})
  {
    AbortOne(s);
    AbortOne(s.(running := None));
    hide Aborted, SeqOf;
  }

  lemma {:induction false} ToldRun(schedule: seq<Step>)
    ensures Told(Run(Do, Init(), schedule), Expired(schedule))
    decreases |schedule|
  {
    if schedule != [] {
      var front := schedule[..|schedule| - 1];
      ToldRun(front);
      InvRun(front);
      ToldStep(Run(Do, Init(), front), schedule[|schedule| - 1], Expired(front));
      hide Do, Init, Inv, Told;
    }
  }

  /** A completion calls back exactly if its wait has timed out, and not been aborted, and the timer is started; whether it
      does or not, it is gone, and nothing is started. */
  lemma CompletionCallsBack(schedule: seq<Step>, g: nat)
    requires var s := Run(Do, Init(), schedule); g in s.queued && s.running.None?
    ensures var s, s' := Run(Do, Init(), schedule), Run(Do, Init(), schedule + [Begin(g)]);
            && (s'.running.Some? <==> s.status == Started && g in Expired(schedule))
            && (s'.running.Some? ==> s'.running.value.gen == g && s'.status == Started)
            && s'.queued == s.queued - {g} && s'.waits == s.waits && s'.gen == s.gen
  {
    ToldRun(schedule);
    RunOne(Do, Init(), schedule, Begin(g));
    hide Run, Init, Expired;
  }

  /** A timer that has been stopped: it is not started, and no call back begins. */
  ghost predicate Off(s: State, running: Option<Wait>) {
    s.status != Started && (s.running == running || s.running.None?)
  }

  lemma OffStep(s: State, step: Step, running: Option<Wait>)
    requires Off(s, running) && step != Start
    ensures Off(Do(s, step), running)
  {
    hide Aborted;
  }

  lemma {:induction false} OffRun(s: State, more: seq<Step>, running: Option<Wait>)
    requires Off(s, running) && forall i :: 0 <= i < |more| ==> more[i] != Start
    ensures Off(Run(Do, s, more), running)
    decreases |more|
  {
    if more != [] {
      OffRun(s, more[..|more| - 1], running);
      OffStep(Run(Do, s, more[..|more| - 1]), more[|more| - 1], running);
    }
    hide Do, Off;
  }

  /** Stopping a started timer aborts its wait and invalidates every completion that is queued already: until the next
      start no call back begins, whatever happens. */
  lemma {:induction false} StopsForGood(schedule: seq<Step>, more: seq<Step>)
    requires Run(Do, Init(), schedule).status == Started
    requires forall i :: 0 <= i < |more| ==> more[i] != Start
    ensures var s, s' := Run(Do, Init(), schedule), Run(Do, Init(), schedule + [Stop]);
            && s'.status == Canceled && s'.waits == [] && s'.running == s.running
            && (forall w <- s.waits :: AbortedIn(s', w))
            && Off(Run(Do, s', more), s.running)
  {
    var s := Run(Do, Init(), schedule);
    InvRun(schedule);
    RunOne(Do, Init(), schedule, Stop);
    AbortOne(s);
    OffRun(Do(s, Stop), more, s.running);
    hide Aborted, Run, Init;
  }

  /** The tail of a completion marks the timer as cancelled exactly when a multiple of 256 starts lie in between. */
  lemma TailCancels(s: State, gen: nat)
    requires Inv(s) && gen <= s.gen
    ensures DoTail(s, SeqOf(gen)) == if (s.gen - gen) % 256 == 0 then s.(status := Canceled) else s
  {
    Modulo(gen, s.gen);
  }

  lemma Modulo(a: nat, b: nat)
    requires a <= b
    ensures (a + 255) % 256 == (b + 255) % 256 <==> (b - a) % 256 == 0
  {
    var m, n := (a + 255) / 256, (b + 255) / 256;
    assert a + 255 == 256 * m + (a + 255) % 256 && b + 255 == 256 * n + (b + 255) % 256;
  }

  /** No completion has waited, or run, during n starts. */
  predicate Young(s: State, n: nat) {
    && (forall g <- s.queued :: s.gen - g < n)
    && (s.running.Some? ==> s.gen - s.running.value.gen < n)
  }

  /** Nor has any before a step of the run. */
  ghost predicate YoungRun(schedule: seq<Step>, n: nat) {
    forall k :: 0 <= k < |schedule| ==> Young(Run(Do, Init(), schedule[..k]), n)
  }

  /** A pending timer says that it is started. */
  predicate Honest(s: State) { s.waits != [] ==> s.status == Started }

  lemma YoungStep(s: State, step: Step)
    requires Inv(s) && Young(s, 256) && Honest(s)
    ensures Honest(Do(s, step))
  {
    if step.Begin? && step.gen in s.queued {
      TailCancels(s, step.gen);
    } else if step.End? && s.running.Some? {
      TailCancels(s, s.running.value.gen);
    }
    AbortOne(s);
    hide Aborted, SeqOf;
  }

  lemma {:induction false} YoungRunIsHonest(schedule: seq<Step>, n: nat)
    requires YoungRun(schedule, n) && n <= 256
    ensures Honest(Run(Do, Init(), schedule))
    decreases |schedule|
  {
    if schedule != [] {
      var front := schedule[..|schedule| - 1];
      forall k | 0 <= k < |front| ensures Young(Run(Do, Init(), front[..k]), n) {
        assert front[..k] == schedule[..k];
      }
      YoungRunIsHonest(front, n);
      InvRun(front);
      YoungStep(Run(Do, Init(), front), schedule[|schedule| - 1]);
      hide Do, Init, Inv;
    }
  }

  function Starts(n: nat): (steps: seq<Step>)
    ensures |steps| == n
  {
    seq(n, i => Start)
  }

  /** The first start's completion is queued without an error, and the timer has been started since. */
  ghost predicate FirstIsQueued(s: State) {
    && 1 in s.queued && s.queued[1] == Done(0, false)
    && s.status == Started && s.running.None? && s.seqNo == SeqOf(s.gen) && s.gen >= 1
    && |s.waits| <= 1 && forall w <- s.waits :: w.gen > 1
  }

  lemma StartOnce(s: State)
    requires FirstIsQueued(s)
    ensures var s' := Do(s, Start); FirstIsQueued(s') && s'.gen == s.gen + 1 && s'.waits != []
  {
    AbortOne(s);
    hide Aborted;
  }

  lemma {:induction false} RunStarts(s0: State, schedule: seq<Step>, n: nat)
    requires FirstIsQueued(Run(Do, s0, schedule))
    ensures var s, s' := Run(Do, s0, schedule), Run(Do, s0, schedule + Starts(n));
            FirstIsQueued(s') && s'.gen == s.gen + n && (n > 0 ==> s'.waits != [])
  {
    hide FirstIsQueued, Do, Run;
    if n == 0 {
      assert schedule + Starts(0) == schedule;
    } else {
      RunStarts(s0, schedule, n - 1);
      assert Starts(n) == Starts(n - 1) + [Start];
      Assoc(schedule, Starts(n - 1), [Start]);
      RunOne(Do, s0, schedule + Starts(n - 1), Start);
      StartOnce(Run(Do, s0, schedule + Starts(n - 1)));
    }
    hide Starts;
  }

  /** With exactly 256 it does happen: a completion queued before them finds its own number again and cancels. */
  lemma Wraps() returns (schedule: seq<Step>)
    ensures var s := Run(Do, Init(), schedule); s.waits != [] && s.status == Canceled && s.gen == 257
  {
    var q := [Start, Expire];
    RunTwo(Do, Init(), Start, Expire);
    assert Run(Do, Init(), q) == State(Started, 0, 1, [], map[1 := Done(0, false)], None) by {
      assert DoStart(Init()) == State(Started, 0, 1, [Wait(0, 1)], map[], None);
    }
    hide Init, Run;
    RunStarts(Init(), q, 256);
    var q1 := q + Starts(256);
    var s1 := Run(Do, Init(), q1);
    CallsAndCancels(s1);
    schedule := Then(Do, Init(), q1, s1, Begin(1), Do(s1, Begin(1)));
    schedule := Then(Do, Init(), schedule, Do(s1, Begin(1)), End(false), Do(Do(s1, Begin(1)), End(false)));
    hide Do, Starts, FirstIsQueued;
  }

  lemma CallsAndCancels(s: State)
    requires FirstIsQueued(s) && s.gen == 257 && s.waits != []
    ensures var s' := Do(Do(s, Begin(1)), End(false)); s'.waits != [] && s'.status == Canceled && s'.gen == 257
  {
  }

  lemma {:induction false} GenGrows(schedule: seq<Step>, k: nat)
    requires k <= |schedule|
    ensures Run(Do, Init(), schedule[..k]).gen <= Run(Do, Init(), schedule).gen
    decreases |schedule|
  {
    if k == |schedule| {
      assert schedule[..k] == schedule;
    } else {
      var front := schedule[..|schedule| - 1];
      GenGrows(front, k);
      assert front[..k] == schedule[..k];
    }
    hide Init, Aborted;
  }

  /** A bound on how late completions may be is safe, in that a restarted timer is never cancelled by an earlier
      completion while its wait is pending, exactly up to the 256 starts that the sequence number can tell apart. */
  lemma RestartIsNeverCancelled(n: nat)
    ensures (forall schedule: seq<Step> :: YoungRun(schedule, n) ==> Honest(Run(Do, Init(), schedule))) <==> n <= 256
  {
    if n <= 256 {
      forall schedule: seq<Step> | YoungRun(schedule, n) ensures Honest(Run(Do, Init(), schedule)) {
        YoungRunIsHonest(schedule, n);
      }
    } else {
      var q := Wraps();
      forall k | 0 <= k < |q| ensures Young(Run(Do, Init(), q[..k]), n) {
        InvRun(q[..k]);
        GenGrows(q, k);
        hide Run, Init, SeqOf, Alive;
      }
      assert YoungRun(q, n);
    }
    hide Run, Init, Do;
  }

  /** The timer_info and the functions of `timer`, statement by statement; the lambda given to async_wait is cut at its
      call back, which may use the timer itself. */
  class TimerInfo {
    var seqNo: byte
    var status: Status
    var hasCallBack: bool
    /** What Asio holds for this timer, and how many waits it has been asked for. */
    var waits: seq<Wait>
    var queued: map<nat, Done>
    var gen: nat
    var running: Option<Wait>

    ghost function View(): State
      reads this
    {
      State(status, seqNo, gen, waits, queued, running)
    }

    constructor ()
      ensures View() == Init() && !hasCallBack
    {
      seqNo, status, hasCallBack, waits, queued, gen, running := 255, Created, false, [], map[], 0, None;
    }

    /** What Asio does on a cancellation, and on a time-out. */
    method Cancel()
      requires |waits| <= 1
      modifies this`waits, this`queued
      ensures waits == [] && queued == old(Aborted(waits, queued))
    {
      AbortOne(View());
      if waits != [] {
        queued := queued[waits[0].gen := Done(waits[0].prev, true)];
        waits := [];
      }
    }

    method TimeOut()
      requires Inv(View())
      modifies this`waits, this`queued
      ensures View() == Do(old(View()), Expire)
    {
      if waits != [] {
        queued := queued[waits[0].gen := Done(waits[0].prev, false)];
        waits := waits[1..];
      }
    }

    method StartTimer() returns (ok: bool)
      requires |waits| <= 1
      modifies this`seqNo, this`status, this`waits, this`queued, this`gen
      ensures ok == hasCallBack
      ensures View() == if ok then Do(old(View()), Start) else old(View())
      ensures ok ==> status == Started && gen == old(gen) + 1 && waits == [Wait((old(seqNo) + 1) % 256, gen)]
    {
      if !hasCallBack {
        return false;
      }
      status := Started;
      Cancel();
      seqNo := (seqNo + 1) % 256;
      gen := gen + 1;
      waits := [Wait(seqNo, gen)];
      ok := true;
    }

    method StopTimer()
      requires Inv(View())
      modifies this`status, this`waits, this`queued
      ensures View() == Do(old(View()), Stop)
      ensures old(status) == Started ==> status == Canceled && waits == []
    {
      if status == Started {
        status := Canceled;
        Cancel();
      }
    }

    /** A completion up to its call back, which is called if the result says so. */
    method OnCompletion(g: nat) returns (calls: bool)
      requires Inv(View()) && g in queued && running.None?
      modifies this`status, this`queued, this`running
      ensures View() == Do(old(View()), Begin(g)) && calls == running.Some?
      ensures calls <==> old(status) == Started && !old(queued[g].ec)
    {
      var d := queued[g];
      queued := queued - {g};
      calls := status == Started && !d.ec;
      if calls {
        running := Some(Wait(d.prev, g));
      } else if d.prev == seqNo {
        status := Canceled;
      }
    }

    /** ... and from its return on. */
    method OnReturn(goOn: bool)
      requires Inv(View()) && running.Some? && hasCallBack
      modifies this`seqNo, this`status, this`waits, this`queued, this`gen, this`running
      ensures View() == Do(old(View()), End(goOn))
      ensures if goOn && old(status) == Started
              then status == Started && gen == old(gen) + 1 && waits == [Wait((old(seqNo) + 1) % 256, gen)]
              else gen == old(gen) && waits == old(waits) && status in {old(status), Canceled}
    {
      var prev := running.value.prev;
      AbortOne(View());
      running := None;
      if goOn && status == Started {
        var _ := StartTimer();
      } else if prev == seqNo {
        status := Canceled;
      }
    }
  }
}
