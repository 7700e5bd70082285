/** Producers, packer, send path, byte stream and unpacker together: every accepted message is delivered
    exactly once and in order. */
module EndToEnd {
  import opened Bytes
  import opened Container
  import Counting
  import opened Framing
  import opened Packing
  import opened Machine
  import opened Reading
  import SendPath
  import SendLog
  import SendProgress
  import DefaultUnpacker
  import FlexibleUnpacker
  import NonCopyUnpacker

  /** A producer submits a message in any of its forms, when send_buf_size is `limit`, or the engine takes a step. */
  datatype Event = Submit(t: nat, form: Form, canOverflow: bool, limit: nat) | Engine(step: SendPath.Step)

  /** A link and what the packer and the send buffer have accepted, by producer. */
  datatype Link = Link(s: SendPath.State, accepted: seq<(nat, Form)>)

  /** The engine's own steps; nobody pops messages and no write fails. */
  predicate Plain(step: SendPath.Step) {
    step.Begin? || step.Complete? || step.Proceed? || step.Go? || step.Suspend? || step.CcExpire? || step.CcContinue?
  }

  /** The producer is outside send_msg, there is room in the send buffer or it may overflow, and the message fits. */
  predicate Accepts(p: Params, l: Link, e: Event)
    requires e.Submit?
  {
    SendPath.At(l.s, e.t, SendPath.Idle) && (e.canOverflow || Size(l.s.queue) < e.limit) && Fits(p, e.form)
  }

  function Happen(p: Params, c: SendPath.Config, l: Link, e: Event): Link {
    match e
    case Submit(t, form, _, _) =>
      if Accepts(p, l, e)
      then Link(SendPath.Do(c, l.s, SendPath.Enqueue(t, Items(p, form))), l.accepted + [(t, form)]) else l
    case Engine(step) => if Plain(step) then l.(s := SendPath.Do(c, l.s, step)) else l
  }

  function Play(p: Params, c: SendPath.Config, n: nat, events: seq<Event>): Link
    decreases |events|
  {
    if events == [] then Link(SendPath.Init(n), [])
    else Happen(p, c, Play(p, c, n, events[..|events| - 1]), events[|events| - 1])
  }

  function Forms(accepted: seq<(nat, Form)>): (forms: seq<Form>)
    ensures |forms| == |accepted|
  {
    seq(|accepted|, i requires 0 <= i < |accepted| => accepted[i].1)
  }

  function AllItems(p: Params, forms: seq<Form>): seq<seq<bytes>> {
    seq(|forms|, i requires 0 <= i < |forms| => Items(p, forms[i]))
  }

  /** What has been given to the socket so far. */
  function Handed(l: Link): bytes {
    Flatten(SendLog.SettledItems(l.s.settled) + l.s.sendingMsgs)
  }

  /** The accepted messages are what the send buffer was given, and they fit. */
  ghost predicate Logged(p: Params, l: Link) {
    AllFit(p, Forms(l.accepted)) && l.s.enqueued == Flatten(AllItems(p, Forms(l.accepted)))
  }

  lemma OneMore(p: Params, accepted: seq<(nat, Form)>, t: nat, form: Form)
    ensures Forms(accepted + [(t, form)]) == Forms(accepted) + [form]
    ensures Flatten(AllItems(p, Forms(accepted) + [form])) == Flatten(AllItems(p, Forms(accepted))) + Items(p, form)
  {
    var forms := Forms(accepted);
    assert Forms(accepted + [(t, form)]) == forms + [form];
    assert AllItems(p, forms + [form]) == AllItems(p, forms) + [Items(p, form)];
    FlattenAppend(AllItems(p, forms), [Items(p, form)]);
    FlattenOne(Items(p, form));
  }

  lemma EngineLogsNothing(c: SendPath.Config, s: SendPath.State, step: SendPath.Step)
    requires Plain(step)
    ensures SendPath.Do(c, s, step).enqueued == s.enqueued
  {
    hide SendPath.BatchLen, SendPath.AsWire, SendPath.AsSettled;
  }

  lemma {:induction false} PlayLogs(p: Params, c: SendPath.Config, n: nat, events: seq<Event>)
    ensures Logged(p, Play(p, c, n, events))
    decreases |events|
  {
    if events == [] {
      assert AllItems(p, Forms([])) == [];
    } else {
      PlayLogs(p, c, n, events[..|events| - 1]);
      var l, e := Play(p, c, n, events[..|events| - 1]), events[|events| - 1];
      match e {
        case Submit(t, form, _, _) =>
          OneMore(p, l.accepted, t, form);
        case Engine(step) =>
          if Plain(step) {
            EngineLogsNothing(c, l.s, step);
            hide SendPath.Do;
          }
      }
    }
    hide AllItems, Forms, Items, Flatten, Fits;
  }

  /** What an event does to the send path is one step of it, or none. */
  lemma EventIsStep(p: Params, c: SendPath.Config, n: nat, l: Link, e: Event, schedule: seq<SendPath.Step>)
    returns (longer: seq<SendPath.Step>)
    requires SendLog.Undisturbed(c, schedule) && l.s == Run(SendPath.Next(c), SendPath.Init(n), schedule)
    ensures SendLog.Undisturbed(c, longer)
    ensures Happen(p, c, l, e).s == Run(SendPath.Next(c), SendPath.Init(n), longer)
  {
    longer := schedule;
    if e.Submit? {
      if Accepts(p, l, e) {
        RunOne(SendPath.Next(c), SendPath.Init(n), schedule, SendPath.Enqueue(e.t, Items(p, e.form)));
        longer := schedule + [SendPath.Enqueue(e.t, Items(p, e.form))];
      }
    } else if Plain(e.step) {
      RunOne(SendPath.Next(c), SendPath.Init(n), schedule, e.step);
      longer := schedule + [e.step];
    }
    hide SendPath.Do, SendPath.Init, Run, Items, Accepts;
  }

  /** A play is a run of the send path that nothing disturbs. */
  lemma {:induction false} PlayIsRun(p: Params, c: SendPath.Config, n: nat, events: seq<Event>)
    returns (schedule: seq<SendPath.Step>)
    requires c.shrinkAt == 0
    ensures SendLog.Undisturbed(c, schedule)
    ensures Play(p, c, n, events).s == Run(SendPath.Next(c), SendPath.Init(n), schedule)
    decreases |events|
  {
    if events == [] {
      schedule := [];
    } else {
      schedule := PlayIsRun(p, c, n, events[..|events| - 1]);
      schedule := EventIsStep(p, c, n, Play(p, c, n, events[..|events| - 1]), events[|events| - 1], schedule);
    }
    hide Happen, SendPath.Init, SendLog.Undisturbed;
  }

  // What is accepted.

  lemma {:induction false} ThreadsStay(p: Params, c: SendPath.Config, n: nat, events: seq<Event>)
    ensures |Play(p, c, n, events).s.threads| == n
    decreases |events|
  {
    hide SendPath.Do, Items, Accepts;
    if events != [] {
      var l, e := Play(p, c, n, events[..|events| - 1]), events[|events| - 1];
      ThreadsStay(p, c, n, events[..|events| - 1]);
      SendProgress.NoThreadGoes(c, l.s, if e.Submit? then SendPath.Enqueue(e.t, Items(p, e.form)) else e.step);
    }
  }

  lemma EnqueueDoes(c: SendPath.Config, s: SendPath.State, t: nat, items: seq<bytes>)
    requires t < |s.threads| && s.threads[t] == SendPath.Idle
    ensures var s' := SendPath.Do(c, s, SendPath.Enqueue(t, items));
            s'.queue == s.queue + items && s'.threads == s.threads[t := SendPath.Enqueued]
  {
  }

  lemma OneEventMore(p: Params, c: SendPath.Config, n: nat, events: seq<Event>, e: Event)
    ensures Play(p, c, n, events + [e]) == Happen(p, c, Play(p, c, n, events), e)
  {
    assert (events + [e])[..|events|] == events;
    hide Happen;
  }

  /** A message is accepted exactly if its producer is outside send_msg, it fits the message buffer with its head (and the
      buffer form is not empty, and its length in the head's range), and the send buffer is below its limit or may
      overflow; then its strings go to the end of the buffer, whatever waits there, and otherwise nothing changes. */
  lemma {:induction false} SubmissionIsAccepted(p: Params, c: SendPath.Config, n: nat, events: seq<Event>, t: nat,
                                                form: Form, canOverflow: bool, limit: nat)
    ensures var l, l' := Play(p, c, n, events), Play(p, c, n, events + [Submit(t, form, canOverflow, limit)]);
            var len := p.headLen + |Body(form)|;
            && |l.s.threads| == n
            && if && t < n && l.s.threads[t] == SendPath.Idle
                  && len <= p.bufSize && (form.Buffers? ==> p.headLen < len < HeadRange(p.headLen))
                  && (canOverflow || |Flatten(l.s.queue)| < limit)
               then && l'.accepted == l.accepted + [(t, form)]
                    && l'.s.queue == l.s.queue + Items(p, form)
                    && l'.s.threads == l.s.threads[t := SendPath.Enqueued]
               else l' == l
  {
    hide Play, SendPath.Do, Items, Body;
    var l := Play(p, c, n, events);
    ThreadsStay(p, c, n, events);
    OneEventMore(p, c, n, events, Submit(t, form, canOverflow, limit));
    if Accepts(p, l, Submit(t, form, canOverflow, limit)) {
      EnqueueDoes(c, l.s, t, Items(p, form));
    }
  }

  /** The engine accepts nothing; its steps are those of the send path. */
  lemma {:induction false} EngineAcceptsNothing(p: Params, c: SendPath.Config, n: nat, events: seq<Event>,
                                                step: SendPath.Step)
    ensures var l, l' := Play(p, c, n, events), Play(p, c, n, events + [Engine(step)]);
            && l'.accepted == l.accepted
            && (SendProgress.Engine(step) ==> l'.s == SendPath.Do(c, l.s, step))
  {
    hide Play, SendPath.Do;
    OneEventMore(p, c, n, events, Engine(step));
  }

  /** The submissions that are to be accepted, by what the producers and the send buffer are at the time. */
  function Submissions(p: Params, c: SendPath.Config, n: nat, events: seq<Event>): seq<(nat, Form)>
    decreases |events|
  {
    if events == [] then []
    else
      var front, e := events[..|events| - 1], events[|events| - 1];
      var s, before := Play(p, c, n, front).s, Submissions(p, c, n, front);
      if && e.Submit? && e.t < |s.threads| && s.threads[e.t] == SendPath.Idle
         && p.headLen + |Body(e.form)| <= p.bufSize
         && (e.form.Buffers? ==> p.headLen < p.headLen + |Body(e.form)| < HeadRange(p.headLen))
         && (e.canOverflow || |Flatten(s.queue)| < e.limit)
      then before + [(e.t, e.form)] else before
  }

  /** They are what has been accepted. */
  lemma {:induction false} AcceptedAreSubmissions(p: Params, c: SendPath.Config, n: nat, events: seq<Event>)
    ensures Play(p, c, n, events).accepted == Submissions(p, c, n, events)
    decreases |events|
  {
    hide SendPath.Do, Items, Body, Play;
    if events == [] {
      PlayNothing(p, c, n);
    } else {
      var front, e := events[..|events| - 1], events[|events| - 1];
      AcceptedAreSubmissions(p, c, n, front);
      OneEventMore(p, c, n, front, e);
      assert front + [e] == events;
    }
  }

  lemma PlayNothing(p: Params, c: SendPath.Config, n: nat)
    ensures Play(p, c, n, []).accepted == []
  {
  }

  lemma OneByOne(p: Params, forms: seq<Form>)
    requires forms != []
    ensures AllItems(p, forms) == [Items(p, forms[0])] + AllItems(p, forms[1..])
    ensures Frames(p, forms) == [FrameOf(p, Body(forms[0]))] + Frames(p, forms[1..])
  {
    hide Items, FrameOf;
  }

  /** All items together, and all frames together, are the same bytes. */
  lemma {:induction false} ItemsAreFrames(p: Params, forms: seq<Form>)
    ensures Flatten(Flatten(AllItems(p, forms))) == Flatten(Frames(p, forms))
  {
    if forms == [] {
      assert AllItems(p, forms) == [] && Frames(p, forms) == [];
      assert Flatten<bytes>([]) == [] && Flatten<byte>([]) == [];
    } else {
      hide Flatten, Items, Frames, AllItems, FrameOf;
      ItemsAreFrames(p, forms[1..]);
      ItemsAreOneFrame(p, forms[0]);
      OneByOne(p, forms);
      FlattenCons(Items(p, forms[0]), AllItems(p, forms[1..]));
      FlattenCons(FrameOf(p, Body(forms[0])), Frames(p, forms[1..]));
      FlattenAppend(Items(p, forms[0]), Flatten(AllItems(p, forms[1..])));
    }
  }

  /** What is on the wire is the beginning of the accepted messages' frames; and it is all of them when the engine
      has come to rest. */
  lemma {:induction false} HandedIsFrames(p: Params, c: SendPath.Config, n: nat, events: seq<Event>)
    requires c.link.Tcp? && c.shrinkAt == 0
    ensures var l := Play(p, c, n, events);
            && Handed(l) <= Flatten(Frames(p, Forms(l.accepted)))
            && (!SendPath.Attended(l.s) ==> Handed(l) == Flatten(Frames(p, Forms(l.accepted))))
  {
    var l := Play(p, c, n, events);
    var schedule := PlayIsRun(p, c, n, events);
    SendLog.NothingIsLost(c, n, schedule);
    SendLog.RunConserves(c, n, schedule);
    SendPath.NoMessageIsStranded(c);
    PlayLogs(p, c, n, events);
    ItemsAreFrames(p, Forms(l.accepted));
    var out := SendLog.SettledItems(l.s.settled) + l.s.sendingMsgs;
    FlattenAppend(out, l.s.queue);
    assert l.s.queue == [] ==> out + l.s.queue == out;
    hide Run, SendPath.Init, Counting.Count, SendLog.SettledItems, SendLog.Accounts;
    hide Flatten, AllItems, Frames, Play;
  }

  /** Any part of what was handed to the socket, read in any chunks: the unpacker delivers, once and in order, the
      non-empty messages among the first k accepted, and rejects nothing. */
  lemma {:induction false} DeliveredInOrder(p: Params, c: SendPath.Config, n: nat, events: seq<Event>, got: bytes)
    returns (k: nat)
    requires p.Valid() && p.bufSize < HeadRange(p.headLen) && c.link.Tcp? && c.shrinkAt == 0
    requires got <= Handed(Play(p, c, n, events))
    ensures var l, r := Play(p, c, n, events), ScanStream(p, got);
            && k <= |l.accepted| && !r.bad
            && Deliver(p, true, r.frames) == Payload(Forms(l.accepted[..k]))
            && (!SendPath.Attended(l.s) && got == Handed(l) ==> k == |l.accepted|)
  {
    var l := Play(p, c, n, events);
    var forms := Forms(l.accepted);
    var frames := Frames(p, forms);
    HandedIsFrames(p, c, n, events);
    PlayLogs(p, c, n, events);
    FormsFit(p, forms);
    var tail;
    k, tail := CutFrames(p, frames, got);
    assert frames[..k] == Frames(p, forms[..k]);
    assert Forms(l.accepted[..k]) == forms[..k];
    PackedStreamScans(p, forms[..k], tail);
    hide Flatten, Frames, Fits, Play, ScanStream, Deliver, Payload, Forms;
  }

  lemma FormsFit(p: Params, forms: seq<Form>)
    requires p.Valid() && p.bufSize < HeadRange(p.headLen) && AllFit(p, forms)
    ensures forall f <- Frames(p, forms) :: IsFrame(p, f)
  {
    forall f <- Frames(p, forms) ensures IsFrame(p, f) {
      var i :| 0 <= i < |forms| && Frames(p, forms)[i] == f;
      assert Fits(p, forms[i]);
      FrameOfIsFrame(p, Body(forms[i]));
    }
  }

  lemma {:induction false} PayloadOfFirst(forms: seq<Form>, k: nat)
    requires k <= |forms|
    ensures Payload(forms[..k]) <= Payload(forms)
  {
    if k > 0 {
      PayloadOfFirst(forms[1..], k - 1);
      assert forms[..k][1..] == forms[1..][..k - 1];
    }
  }

  /** The peer runs any of the three length-prefixed unpackers. */
  datatype Peer = Default | Flexible | NonCopy

  method Receive(peer: Peer, p: Params, c: SendPath.Config, n: nat, ghost events: seq<Event>, got: bytes, env: Env)
    returns (msgs: seq<bytes>, rejected: bool)
    requires p.Valid() && p.bufSize < HeadRange(p.headLen) && c.link.Tcp? && c.shrinkAt == 0
    requires got <= Handed(Play(p, c, n, events))
    ensures var l := Play(p, c, n, events);
            && !rejected && msgs <= Payload(Forms(l.accepted))
            && (!SendPath.Attended(l.s) && got == Handed(l) ==> msgs == Payload(Forms(l.accepted)))
    ensures var l, submitted := Play(p, c, n, events), Payload(Forms(Submissions(p, c, n, events)));
            msgs <= submitted && (!SendPath.Attended(l.s) && got == Handed(l) ==> msgs == submitted)
  {
    AcceptedAreSubmissions(p, c, n, events);
    hide Submissions;
    ghost var k := DeliveredInOrder(p, c, n, events, got);
    ghost var accepted := Play(p, c, n, events).accepted;
    PayloadOfFirst(Forms(accepted), k);
    assert Forms(accepted[..k]) == Forms(accepted)[..k];
    assert k == |accepted| ==> accepted[..k] == accepted;
    hide Play, Payload, Forms, Handed, ScanStream, Deliver, SendPath.Attended;
    match peer {
      case Default => msgs, rejected := DefaultUnpacker.ReceiveAll(p, true, got, env);
      case Flexible => msgs, rejected := FlexibleUnpacker.ReceiveAll(p, true, got, env);
      case NonCopy => msgs, rejected := NonCopyUnpacker.ReceiveAll(p, got, env);
    }
  }

  // All of them can arrive.

  function Engines(steps: seq<SendPath.Step>): seq<Event> {
    seq(|steps|, i requires 0 <= i < |steps| => Engine(steps[i]))
  }

  lemma {:induction false} EnginePlays(p: Params, c: SendPath.Config, n: nat, events: seq<Event>,
                                       steps: seq<SendPath.Step>)
    requires forall i :: 0 <= i < |steps| ==> SendProgress.Engine(steps[i])
    ensures var l, l' := Play(p, c, n, events), Play(p, c, n, events + Engines(steps));
            l'.accepted == l.accepted && l'.s == Run(SendPath.Next(c), l.s, steps)
    decreases |steps|
  {
    hide Play, SendPath.Do;
    if steps == [] {
      assert events + Engines(steps) == events;
    } else {
      var front, step := steps[..|steps| - 1], steps[|steps| - 1];
      EnginePlays(p, c, n, events, front);
      EngineAcceptsNothing(p, c, n, events + Engines(front), step);
      assert Engines(steps) == Engines(front) + [Engine(step)];
      assert events + (Engines(front) + [Engine(step)]) == events + Engines(front) + [Engine(step)];
    }
  }

  /** From every state of every play the engine alone can hand over the frames of all messages accepted so far, and then
      rests; so a peer that reads them all has all of these messages. */
  lemma {:induction false} EveryMessageCanArrive(p: Params, c: SendPath.Config, n: nat, events: seq<Event>)
    returns (more: seq<Event>)
    requires c.link.Tcp? && c.shrinkAt == 0 && n > 0
    ensures forall i :: 0 <= i < |more| ==> more[i].Engine?
    ensures var l, l' := Play(p, c, n, events), Play(p, c, n, events + more);
            && l'.accepted == l.accepted && !SendPath.Attended(l'.s)
            && Handed(l') == Flatten(Frames(p, Forms(l.accepted)))
  {
    hide Play, SendLog.Undisturbed, Handed, Flatten, Frames, Forms;
    var schedule := PlayIsRun(p, c, n, events);
    SendLog.NothingIsLost(c, n, schedule);
    var steps := SendProgress.EverythingCanBeSent(c, 0, n, schedule);
    RunJoin(SendPath.Next(c), SendPath.Init(n), schedule, steps);
    EnginePlays(p, c, n, events, steps);
    more := Engines(steps);
    HandedIsFrames(p, c, n, events + more);
  }

  /** The messages of one producer among those accepted. */
  function Of(t: nat, accepted: seq<(nat, Form)>): seq<Form>
    decreases |accepted|
  {
    if accepted == [] then []
    else
      var last, front := accepted[|accepted| - 1], Of(t, accepted[..|accepted| - 1]);
      if last.0 == t then front + [last.1] else front
  }

  lemma OfOneMore(t: nat, accepted: seq<(nat, Form)>, who: nat, form: Form)
    ensures Of(t, accepted + [(who, form)]) == if who == t then Of(t, accepted) + [form] else Of(t, accepted)
  {
    assert (accepted + [(who, form)])[..|accepted|] == accepted;
  }

  lemma {:induction false} OfPrefix(t: nat, accepted: seq<(nat, Form)>, k: nat)
    requires k <= |accepted|
    ensures Of(t, accepted[..k]) <= Of(t, accepted)
    decreases |accepted| - k
  {
    if k == |accepted| {
      assert accepted[..k] == accepted;
    } else {
      OfPrefix(t, accepted, k + 1);
      assert accepted[..k + 1] == accepted[..k] + [(accepted[k].0, accepted[k].1)];
      OfOneMore(t, accepted[..k], accepted[k].0, accepted[k].1);
    }
    hide Of;
  }

  /** What one producer submits, accepted or not. */
  function SubmittedBy(t: nat, events: seq<Event>): seq<Form>
    decreases |events|
  {
    if events == [] then []
    else
      var e, front := events[|events| - 1], SubmittedBy(t, events[..|events| - 1]);
      if e.Submit? && e.t == t then front + [e.form] else front
  }

  predicate IsSubsequence(a: seq<Form>, b: seq<Form>)
    decreases |b|
  {
    a == [] || (b != [] &&
      var b' := b[..|b| - 1];
      IsSubsequence(a, b') || (a[|a| - 1] == b[|b| - 1] && IsSubsequence(a[..|a| - 1], b')))
  }

  lemma SubsequenceGrows(a: seq<Form>, b: seq<Form>, x: Form)
    requires IsSubsequence(a, b)
    ensures IsSubsequence(a, b + [x]) && IsSubsequence(a + [x], b + [x])
  {
    assert (b + [x])[..|b|] == b && (a + [x])[..|a|] == a;
  }

  /** Each producer's messages are accepted in the order in which it submits them; so the first k accepted hold its
      first accepted ones, in that order. */
  lemma {:induction false} EachInItsOwnOrder(p: Params, c: SendPath.Config, n: nat, events: seq<Event>, t: nat, k: nat)
    requires k <= |Play(p, c, n, events).accepted|
    ensures var accepted := Play(p, c, n, events).accepted;
            IsSubsequence(Of(t, accepted), SubmittedBy(t, events)) && Of(t, accepted[..k]) <= Of(t, accepted)
    decreases |events|
  {
    OfPrefix(t, Play(p, c, n, events).accepted, k);
    if events != [] {
      var front, e := events[..|events| - 1], events[|events| - 1];
      EachInItsOwnOrder(p, c, n, front, t, 0);
      var before := Play(p, c, n, front).accepted;
      if e.Submit? {
        OfOneMore(t, before, e.t, e.form);
        SubsequenceGrows(Of(t, before), SubmittedBy(t, front), e.form);
      }
    }
    hide IsSubsequence, Items, Fits, SendPath.Do, Of;
  }
}
