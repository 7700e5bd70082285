/** Starting and closing a socket (ASCS_DELAY_CLOSE 0, the io_context running): the closing timer waits until its own
    handler is the last one outstanding, and only then calls on_close.

    Handlers are counted as tracked_executor does, by the holders of `aci`. Threads start and close the socket, and
    ask for more handlers, at any time; close is one step, since it holds start_atomic throughout. */
module CloseLifecycle {
  import opened Counting
  import opened Machine

  /** `splitStart`: another thread may come between the guard of start and its taking of start_atomic. `strayPosts`:
      threads other than handlers post to a socket that is not started, as the pop functions do, and as send_msg may do
      when the socket is closed between its test of is_ready and its posting. `linkHolds`: a link that is started always
      has a handler outstanding, such as its read. */
  datatype Config = Config(splitStart: bool, strayPosts: bool, linkHolds: bool)

  /** TIMER_DELAY_CLOSE: not started; pending; its handler about to count the others; or inside on_close. */
  datatype Closer = NoTimer | Pending | Checking | OnClose

  /** `others`: outstanding handlers but the closing timer's; `finishing`: closing handlers that are past on_close;
      `guarded`: threads that have passed the guard of start. */
  datatype State = State(started: bool, obsolete: bool, closer: Closer, others: nat, finishing: nat, guarded: nat,
                         closes: nat, onCloses: nat)

  datatype Step =
    | Start | StartLocked | Post | Done(spawned: nat) | Close | Fire | Check | EndOnClose | Finish | Reset

  function Init(): State { State(false, false, NoTimer, 0, 0, 0, 0, 0) }

  /** The holders of aci besides the socket itself. */
  function Holders(s: State): nat { s.others + s.finishing + Bit(s.closer != NoTimer) }

  /** What the socket's obsoleted() reports. */
  predicate Obsoleted(s: State) { s.obsolete && Holders(s) == 0 }

  predicate Guard(s: State) { !s.started && s.closer == NoTimer }

  /** do_start asks for a read. */
  function Started(s: State): State { s.(started := true, others := s.others + 1) }

  /** A handler ends, having asked for others. */
  function Ended(c: Config, s: State, spawned: nat): State {
    if s.others == 0 || (c.linkHolds && s.started && s.others - 1 + spawned == 0) then s
    else s.(others := s.others - 1 + spawned)
  }

  function Do(c: Config, s: State, step: Step): State {
    match step
    case Start =>
      if !Guard(s) then s else if c.splitStart then s.(guarded := s.guarded + 1) else Started(s)
    case StartLocked =>
      if s.guarded == 0 then s
      else if s.started then s.(guarded := s.guarded - 1)
      else Started(s).(guarded := s.guarded - 1)
    case Post => if s.started || c.strayPosts then s.(others := s.others + 1) else s
    case Done(spawned) => Ended(c, s, spawned)
    case Close =>
      // a closing timer that is pending already would be started anew, its aborted handler being one more
      if s.started
      then s.(started := false, closes := s.closes + 1, closer := Pending, others := s.others + Bit(s.closer != NoTimer))
      else s
    case Fire => if s.closer == Pending then s.(closer := Checking) else s
    case Check =>
      if s.closer != Checking then s
      else if Holders(s) > 1 then s.(closer := Pending)
      else s.(closer := OnClose, onCloses := s.onCloses + 1)
    case EndOnClose => if s.closer == OnClose then s.(closer := NoTimer, finishing := s.finishing + 1) else s
    case Finish => if s.finishing > 0 then s.(finishing := s.finishing - 1, obsolete := true) else s
    case Reset => if Obsoleted(s) then s.(obsolete := false) else s
  }

  function Next(c: Config): (State, Step) -> State { (s, step) => Do(c, s, step) }

  /** A close that has not led to on_close yet. */
  function Owed(s: State): nat { Bit(s.closer == Pending || s.closer == Checking) }

  /** What holds in every build. */
  ghost predicate Basic(c: Config, s: State) {
    s.onCloses + Owed(s) <= s.closes && (c.linkHolds && s.started ==> s.others > 0)
  }

  /** What holds with an atomic start. */
  ghost predicate Inv(c: Config, s: State) {
    && s.closes == s.onCloses + Owed(s)
    && s.guarded == 0
    && (s.closer != NoTimer ==> !s.started)
    && (s.closer == OnClose && !c.strayPosts ==> s.others == 0 && s.finishing == 0)
  }

  lemma BasicStep(c: Config, s: State, step: Step)
    requires Basic(c, s)
    ensures Basic(c, Do(c, s, step))
  {
    hide Holders, Guard;
  }

  lemma {:induction false} BasicRun(c: Config, schedule: seq<Step>)
    ensures Basic(c, Run(Next(c), Init(), schedule))
    decreases |schedule|
  {
    if schedule != [] {
      BasicRun(c, schedule[..|schedule| - 1]);
      BasicStep(c, Run(Next(c), Init(), schedule[..|schedule| - 1]), schedule[|schedule| - 1]);
      hide Do, Basic, Init;
    }
  }

  /** Whatever the build and the run, a close never leads to more than one on_close. */
  lemma {:induction false} NeverMoreThanOne(c: Config, schedule: seq<Step>)
    ensures var s := Run(Next(c), Init(), schedule); s.onCloses + Owed(s) <= s.closes
  {
    BasicRun(c, schedule);
    hide Run, Owed;
  }

  lemma InvStep(c: Config, s: State, step: Step)
    requires !c.splitStart && Inv(c, s)
    ensures Inv(c, Do(c, s, step))
  {
  }

  lemma {:induction false} InvRun(c: Config, schedule: seq<Step>)
    requires !c.splitStart
    ensures Inv(c, Run(Next(c), Init(), schedule))
    decreases |schedule|
  {
    if schedule != [] {
      InvRun(c, schedule[..|schedule| - 1]);
      InvStep(c, Run(Next(c), Init(), schedule[..|schedule| - 1]), schedule[|schedule| - 1]);
      hide Do, Inv, Init;
    }
  }

  /** With an atomic start, every successful close leads to exactly one on_close, and its timer is pending or about to
      call it until it has. */
  lemma {:induction false} EachCloseEndsOnce(c: Config, schedule: seq<Step>)
    requires !c.splitStart
    ensures var s := Run(Next(c), Init(), schedule); s.closes == s.onCloses + Owed(s)
  {
    InvRun(c, schedule);
    hide Run, Owed;
  }

  /** Handlers that end, and the closing timer. */
  predicate Winding(step: Step) { step == Done(0) || step == Finish || step == Fire || step == Check }

  /** Where a close is owed somebody can take a step, which leads to on_close or brings it nearer: fewer handlers, or the
      timer's next step. */
  lemma WindStep(c: Config, s: State) returns (step: Step)
    requires !s.started && Owed(s) == 1
    ensures var s' := Do(c, s, step);
            && Winding(step) && !s'.started && s'.closes == s.closes
            && if s'.closer == OnClose then s'.onCloses == s.onCloses + 1
               else && Owed(s') == 1 && s'.onCloses == s.onCloses
                    && (s'.others + s'.finishing < s.others + s.finishing ||
                        (s'.others + s'.finishing == s.others + s.finishing
                          && s.closer == Pending && s'.closer == Checking))
  {
    step := if s.others > 0 then Done(0)
            else if s.finishing > 0 then Finish
            else if s.closer == Pending then Fire else Check;
  }

  lemma {:induction false} WindDown(c: Config, s: State) returns (more: seq<Step>)
    requires !s.started && Owed(s) == 1
    ensures forall i :: 0 <= i < |more| ==> Winding(more[i])
    ensures var s' := Run(Next(c), s, more);
            s'.closer == OnClose && s'.onCloses == s.onCloses + 1 && s'.closes == s.closes
    decreases s.others + s.finishing, Bit(s.closer == Pending)
  {
    hide Do, Winding;
    var step := WindStep(c, s);
    more := [step];
    RunTwo(Next(c), s, step, step);
    if Do(c, s, step).closer != OnClose {
      var rest := WindDown(c, Do(c, s, step));
      more := [step] + rest;
      RunJoin(Next(c), s, [step], rest);
    }
  }

  /** With an atomic start, a close that is owed its on_close can get it: as handlers end, the closing timer calls it. */
  lemma {:induction false} OnCloseCanCome(c: Config, schedule: seq<Step>) returns (more: seq<Step>)
    requires !c.splitStart && Owed(Run(Next(c), Init(), schedule)) == 1
    ensures forall i :: 0 <= i < |more| ==> Winding(more[i])
    ensures var s, s' := Run(Next(c), Init(), schedule), Run(Next(c), Init(), schedule + more);
            s'.closer == OnClose && s'.onCloses == s.onCloses + 1 && s'.onCloses == s'.closes
  {
    hide Run, Winding, Do, Init;
    InvRun(c, schedule);
    more := WindDown(c, Run(Next(c), Init(), schedule));
    RunJoin(Next(c), Init(), schedule, more);
  }

  /** A started socket that is closed is not started, and a close is owed; closing it again changes nothing. */
  lemma CloseStops(c: Config, s: State)
    ensures var s' := Do(c, s, Close);
            if s.started then !s'.started && s'.closes == s.closes + 1 && s'.closer == Pending else s' == s
  {
  }

  /** With an atomic start, a socket that is neither started nor closing is started, with a handler outstanding. */
  lemma StartStarts(c: Config, s: State)
    requires !c.splitStart
    ensures var s' := Do(c, s, Start);
            if !s.started && s.closer == NoTimer then s' == s.(started := true, others := s.others + 1) else s' == s
  {
  }

  /** A started socket can ask for handlers at any time, a handler can end and ask for others, unless a started link would
      be left without one that holds it. */
  lemma HandlersComeAndGo(c: Config, s: State, spawned: nat)
    ensures s.started ==> Do(c, s, Post) == s.(others := s.others + 1)
    ensures s.others > 0 && (!s.started || s.others - 1 + spawned > 0) ==>
              Do(c, s, Done(spawned)) == s.(others := s.others - 1 + spawned)
  {
  }

  /** Only an obsolete socket can be reset for reuse, and then it is as good as new. */
  lemma ResetRenews(c: Config, s: State)
    ensures Do(c, s, Reset) ==
            if s.obsolete && s.others == 0 && s.finishing == 0 && s.closer == NoTimer then s.(obsolete := false) else s
  {
  }

  // The failing runs.

  /** A socket that has been closed, `closes` times, when all that its closing timer waits for has ended. */
  function Closing(closer: Closer, closes: nat, onCloses: nat): State {
    State(false, false, closer, 0, 0, 0, closes, onCloses)
  }

  lemma GuardSteps(c: Config)
    requires c.splitStart
    ensures var b, b1 := Init(), Started(Init()).(guarded := 1);
            && Do(c, b, Start) == b.(guarded := 1) && Do(c, b.(guarded := 1), Start) == b.(guarded := 2)
            && Do(c, b.(guarded := 2), StartLocked) == b1
            && Do(c, b1, Close) == Closing(Pending, 1, 0).(guarded := 1, others := 1)
            && Do(c, Closing(Pending, 1, 0).(guarded := 1, others := 1), Done(0)) == Closing(Pending, 1, 0).(guarded := 1)
  {
  }

  /** Two threads pass the guard; one of them starts the socket, and it is closed again. */
  lemma CloseUnderGuard(c: Config) returns (q: seq<Step>)
    requires c.splitStart
    ensures Run(Next(c), Init(), q) == Closing(Pending, 1, 0).(guarded := 1)
  {
    GuardSteps(c);
    var s0, b1 := Init(), Started(Init()).(guarded := 1);
    assert Run(Next(c), s0, []) == s0;
    hide Run, Do, Closing;
    q := Then(Next(c), s0, [], s0, Start, s0.(guarded := 1));
    q := Then(Next(c), s0, q, s0.(guarded := 1), Start, s0.(guarded := 2));
    q := Then(Next(c), s0, q, s0.(guarded := 2), StartLocked, b1);
    q := Then(Next(c), s0, q, b1, Close, Closing(Pending, 1, 0).(guarded := 1, others := 1));
    q := Then(Next(c), s0, q, Closing(Pending, 1, 0).(guarded := 1, others := 1), Done(0),
              Closing(Pending, 1, 0).(guarded := 1));
  }

  lemma TwiceSteps(c: Config)
    ensures var b, b1 := Closing(Pending, 1, 0).(guarded := 1), Closing(Pending, 2, 0);
            && Do(c, b, StartLocked) == Started(b).(guarded := 0)
            && Do(c, Started(b).(guarded := 0), Close) == b1.(others := 2)
            && Do(c, b1.(others := 2), Done(0)) == b1.(others := 1)
            && Do(c, b1.(others := 1), Done(0)) == b1
  {
  }

  /** The other thread starts it under the closing timer, and it is closed again. */
  lemma CloseTwice(c: Config) returns (q: seq<Step>)
    requires c.splitStart
    ensures Run(Next(c), Init(), q) == Closing(Pending, 2, 0)
  {
    q := CloseUnderGuard(c);
    TwiceSteps(c);
    hide Run, Do, Started, Closing;
    var b, b1 := Closing(Pending, 1, 0).(guarded := 1), Closing(Pending, 2, 0);
    q := Then(Next(c), Init(), q, b, StartLocked, Started(b).(guarded := 0));
    q := Then(Next(c), Init(), q, Started(b).(guarded := 0), Close, b1.(others := 2));
    q := Then(Next(c), Init(), q, b1.(others := 2), Done(0), b1.(others := 1));
    q := Then(Next(c), Init(), q, b1.(others := 1), Done(0), b1);
  }

  lemma AloneSteps(c: Config)
    requires !c.splitStart
    ensures Do(c, Init(), Start) == Started(Init())
    ensures Do(c, Started(Init()), Close) == Closing(Pending, 1, 0).(others := 1)
    ensures Do(c, Closing(Pending, 1, 0).(others := 1), Done(0)) == Closing(Pending, 1, 0)
  {
  }

  lemma CloseAlone(c: Config) returns (q: seq<Step>)
    requires !c.splitStart
    ensures Run(Next(c), Init(), q) == Closing(Pending, 1, 0)
  {
    AloneSteps(c);
    RunThree(Next(c), Init(), Start, Close, Done(0));
    q := [Start, Close, Done(0)];
    hide Run, Do, Closing;
  }

  lemma ToOnClose(c: Config, q0: seq<Step>, b: State) returns (q: seq<Step>)
    requires Run(Next(c), Init(), q0) == b && b.closer == Pending && b.others == 0 && b.finishing == 0
    ensures Run(Next(c), Init(), q) == b.(closer := OnClose, onCloses := b.onCloses + 1)
  {
    hide Run, Init;
    q := Then(Next(c), Init(), q0, b, Fire, b.(closer := Checking));
    q := Then(Next(c), Init(), q, b.(closer := Checking), Check, b.(closer := OnClose, onCloses := b.onCloses + 1));
  }

  lemma EndSteps(c: Config, closes: nat)
    ensures Closing(Pending, closes, 0).(closer := OnClose, onCloses := 1) == Closing(OnClose, closes, 1)
    ensures Do(c, Closing(OnClose, closes, 1), EndOnClose) == Closing(NoTimer, closes, 1).(finishing := 1)
    ensures Do(c, Closing(NoTimer, closes, 1).(finishing := 1), Finish) == Closing(NoTimer, closes, 1).(obsolete := true)
  {
  }

  lemma ToObsolete(c: Config, q0: seq<Step>, closes: nat) returns (q: seq<Step>)
    requires Run(Next(c), Init(), q0) == Closing(Pending, closes, 0)
    ensures Run(Next(c), Init(), q) == Closing(NoTimer, closes, 1).(obsolete := true)
  {
    EndSteps(c, closes);
    q := ToOnClose(c, q0, Closing(Pending, closes, 0));
    hide Run, Init, Do;
    var b := Closing(NoTimer, closes, 1);
    q := Then(Next(c), Init(), q, Closing(OnClose, closes, 1), EndOnClose, b.(finishing := 1));
    q := Then(Next(c), Init(), q, b.(finishing := 1), Finish, b.(obsolete := true));
  }

  /** A client that has been closed is started again, and its read ends without another one. */
  lemma StartedAgain(c: Config) returns (q: seq<Step>)
    requires !c.splitStart && !c.linkHolds
    ensures var s := Run(Next(c), Init(), q); Obsoleted(s) && s.started
  {
    q := CloseAlone(c);
    q := ToObsolete(c, q, 1);
    hide Run, Init;
    var b := Closing(NoTimer, 1, 1).(obsolete := true);
    q := Then(Next(c), Init(), q, b, Start, Started(b));
    q := Then(Next(c), Init(), q, Started(b), Done(0), Started(b).(others := 0));
  }

  // The exact conditions.

  /** No start succeeds while a close is under way, in any run, exactly when start is atomic. */
  lemma NoStartDuringClose(c: Config)
    ensures (forall schedule: seq<Step> :: var s := Run(Next(c), Init(), schedule); s.closer != NoTimer ==> !s.started)
            <==> !c.splitStart
  {
    hide Run, Init;
    if c.splitStart {
      var q := CloseUnderGuard(c);
      var b := Closing(Pending, 1, 0).(guarded := 1);
      q := Then(Next(c), Init(), q, b, StartLocked, Started(b).(guarded := 0));
    } else {
      forall schedule: seq<Step>
        ensures var s := Run(Next(c), Init(), schedule); s.closer != NoTimer ==> !s.started
      {
        InvRun(c, schedule);
      }
    }
  }

  /** on_close runs as the only outstanding handler, in any run, exactly when start is atomic and nobody posts to a socket
      that is not started. */
  lemma OnCloseIsAlone(c: Config)
    ensures (forall schedule: seq<Step> ::
               var s := Run(Next(c), Init(), schedule); s.closer == OnClose ==> Holders(s) == 1)
            <==> !c.splitStart && !c.strayPosts
  {
    hide Run, Init;
    if c.splitStart {
      var q := CloseUnderGuard(c);
      var b := Closing(OnClose, 1, 1).(guarded := 1);
      q := ToOnClose(c, q, Closing(Pending, 1, 0).(guarded := 1));
      q := Then(Next(c), Init(), q, b, StartLocked, Started(b).(guarded := 0));
      assert Holders(Started(b).(guarded := 0)) == 2;
    } else if c.strayPosts {
      var q := CloseAlone(c);
      var b := Closing(OnClose, 1, 1);
      q := ToOnClose(c, q, Closing(Pending, 1, 0));
      q := Then(Next(c), Init(), q, b, Post, b.(others := 1));
      assert Holders(b.(others := 1)) == 2;
    } else {
      forall schedule: seq<Step>
        ensures var s := Run(Next(c), Init(), schedule); s.closer == OnClose ==> Holders(s) == 1
      {
        InvRun(c, schedule);
      }
    }
  }

  /** A socket that reports that it is obsolete is not started, and each of its closes has had its on_close, in any run,
      exactly when start is atomic and a started link always has a handler outstanding. */
  lemma ObsoleteIsOver(c: Config)
    ensures (forall schedule: seq<Step> ::
               var s := Run(Next(c), Init(), schedule); Obsoleted(s) ==> !s.started && s.closes == s.onCloses)
            <==> !c.splitStart && c.linkHolds
  {
    if c.splitStart {
      var q := CloseTwice(c);
      q := ToObsolete(c, q, 2);
      hide Run, Init, Do;
    } else if !c.linkHolds {
      var q := StartedAgain(c);
      hide Run, Init, Do;
    } else {
      forall schedule: seq<Step>
        ensures var s := Run(Next(c), Init(), schedule); Obsoleted(s) ==> !s.started && s.closes == s.onCloses
      {
        BasicRun(c, schedule);
        InvRun(c, schedule);
        hide Run, Init, Do;
      }
    }
  }
}
