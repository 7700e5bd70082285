/** What the send path does with the messages: none lost, none sent twice, none out of order. */
module SendLog {
  import opened Bytes
  import opened Container
  import opened Machine
  import opened SendPath

  /** The strings of a list of entries. */
  function Strings<T>(item: T -> bytes, list: seq<T>): (items: seq<bytes>)
    ensures |items| == |list|
  {
    seq(|list|, i requires 0 <= i < |list| => item(list[i]))
  }

  function ItemsOf(taken: seq<Taken>): seq<bytes> { Strings((x: Taken) => x.item, taken) }

  function SettledItems(settled: seq<Settled>): seq<bytes> { Strings((x: Settled) => x.item, settled) }

  /** Those of the messages taken out of the buffer that were given to the socket. */
  function Wires(taken: seq<Taken>): seq<bytes> {
    if taken == [] then []
    else (if taken[0].Wire? then [taken[0].item] else []) + Wires(taken[1..])
  }

  lemma {:induction false} WiresAppend(a: seq<Taken>, b: seq<Taken>)
    ensures Wires(a + b) == Wires(a) + Wires(b)
  {
    if a == [] {
      assert a + b == b;
    } else {
      WiresAppend(a[1..], b);
      assert a + b == [a[0]] + (a[1..] + b);
      assert (a + b)[1..] == a[1..] + b;
    }
  }

  lemma ItemsAppend(a: seq<Taken>, b: seq<Taken>)
    ensures ItemsOf(a + b) == ItemsOf(a) + ItemsOf(b)
  {
  }

  lemma {:induction false} WiresOfAll(taken: seq<Taken>)
    requires forall x <- taken :: x.Wire?
    ensures Wires(taken) == ItemsOf(taken)
  {
    if taken != [] {
      WiresOfAll(taken[1..]);
      assert ItemsOf(taken) == [taken[0].item] + ItemsOf(taken[1..]);
    }
  }

  lemma {:induction false} WiresOfNone(taken: seq<Taken>)
    requires forall x <- taken :: !x.Wire?
    ensures Wires(taken) == []
  {
    if taken != [] {
      WiresOfNone(taken[1..]);
    }
  }

  lemma WiresOfWire(items: seq<bytes>)
    ensures Wires(AsWire(items)) == items && ItemsOf(AsWire(items)) == items
  {
    WiresOfAll(AsWire(items));
    hide Wires;
  }

  ghost predicate Accounts(enqueued: seq<bytes>, taken: seq<Taken>, queue: seq<bytes>, settled: seq<bytes>,
                           sendingMsgs: seq<bytes>) {
    enqueued == ItemsOf(taken) + queue && Wires(taken) == settled + sendingMsgs
  }

  /** Every message ever enqueued is, in order, among those taken out or still in the buffer; and those given to
      the socket are, in order, those settled and those in the write in flight. */
  ghost predicate Conserved(s: State) {
    && Accounts(s.enqueued, s.taken, s.queue, SettledItems(s.settled), s.sendingMsgs)
    && (s.writes == 0 ==> s.sendingMsgs == [])
  }

  /** A message taken out of the buffer moves from one account to the next. */
  lemma TakeOut(enqueued: seq<bytes>, taken: seq<Taken>, queue: seq<bytes>, settled: seq<bytes>,
                sendingMsgs: seq<bytes>, n: nat, more: seq<Taken>)
    requires Accounts(enqueued, taken, queue, settled, sendingMsgs)
    requires n <= |queue| && ItemsOf(more) == queue[..n]
    ensures Accounts(enqueued, taken + more, queue[n..], settled, sendingMsgs + Wires(more))
  {
    WiresAppend(taken, more);
    ItemsAppend(taken, more);
    hide Wires, ItemsOf;
    assert queue == queue[..n] + queue[n..];
    Assoc(ItemsOf(taken), queue[..n], queue[n..]);
    Assoc(settled, sendingMsgs, Wires(more));
  }

  lemma TakeOff(s: State, n: nat, more: seq<Taken>)
    requires Accounts(s.enqueued, s.taken, s.queue, SettledItems(s.settled), s.sendingMsgs)
    requires n <= |s.queue| && ItemsOf(more) == s.queue[..n] && forall x <- more :: !x.Wire?
    ensures Accounts(s.enqueued, s.taken + more, s.queue[n..], SettledItems(s.settled), s.sendingMsgs)
  {
    TakeOut(s.enqueued, s.taken, s.queue, SettledItems(s.settled), s.sendingMsgs, n, more);
    WiresOfNone(more);
    hide Accounts;
    assert s.sendingMsgs + [] == s.sendingMsgs;
  }

  lemma QueueConserves(c: Config, s: State, step: Step)
    requires IsQueue(step) && Conserved(s)
    ensures Conserved(DoQueue(c, s, step))
  {
    if At(s, step.t, Idle) {
      match step {
        case Enqueue(_, items) =>
          assert s.enqueued + items == ItemsOf(s.taken) + (s.queue + items);
        case PopFirst(_) =>
          if s.queue != [] {
            TakeOff(s, 1, AsPopped(s.queue[..1]));
          }
        case PopAll(_) =>
          TakeOff(s, |s.queue|, AsPopped(s.queue));
        case Shrink(_) =>
          var n := ShrinkLen(c, s.queue);
          TakeOff(s, n, AsDropped(s.queue[..n]));
          hide Accounts;
      }
    }
    hide Wires, ShrinkLen, ItemsOf, SettledItems;
  }

  lemma MoveOutConserves(s: State, n: nat)
    requires Conserved(s) && n <= |s.queue|
    ensures Conserved(MoveOut(s, n))
  {
    WiresOfWire(s.queue[..n]);
    TakeOut(s.enqueued, s.taken, s.queue, SettledItems(s.settled), s.sendingMsgs, n, AsWire(s.queue[..n]));
    hide Accounts, AsWire, SettledItems, Wires, ItemsOf;
  }

  predicate LeavesAlone(s: State, s': State) {
    && s'.enqueued == s.enqueued && s'.taken == s.taken && s'.queue == s.queue && s'.settled == s.settled
    && s'.sendingMsgs == s.sendingMsgs && s'.writes == s.writes
  }

  lemma TaskLeavesAlone(c: Config, s: State)
    requires !(s.task.Holding? && s.queue != [])
    ensures LeavesAlone(s, DoTask(c, s))
  {
    hide BatchLen, MoveOut;
  }

  lemma TaskConserves(c: Config, s: State)
    requires Conserved(s)
    ensures Conserved(DoTask(c, s))
  {
    if s.task.Holding? && s.queue != [] {
      MoveOutConserves(s, BatchLen(c, s.queue));
      hide Conserved, BatchLen, MoveOut;
    } else {
      TaskLeavesAlone(c, s);
      hide DoTask, Accounts, SettledItems;
    }
  }

  lemma StrandConserves(c: Config, s: State, step: Step)
    requires IsStrand(step) && Conserved(s)
    ensures Conserved(DoStrand(c, s, step))
  {
    forall ok ensures SettledItems(s.settled + AsSettled(s.sendingMsgs, ok)) == SettledItems(s.settled) + s.sendingMsgs {}
    hide Wires, SettledItems, AsSettled, ItemsOf;
  }

  lemma TimerConserves(c: Config, s: State, step: Step)
    requires IsTimer(step) && Conserved(s)
    ensures Conserved(DoTimer(c, s, step))
  {
    hide Wires, SettledItems, ItemsOf;
  }

  lemma StepConserves(c: Config, s: State, step: Step)
    requires Conserved(s)
    ensures Conserved(Do(c, s, step))
  {
    if step.Go? {
      hide Wires, SettledItems, ItemsOf;
    } else if step.Proceed? {
      TaskConserves(c, s);
      hide Conserved, DoTask;
    } else if IsQueue(step) {
      QueueConserves(c, s, step);
      hide Conserved, DoQueue;
    } else if IsTimer(step) {
      TimerConserves(c, s, step);
      hide Conserved, DoTimer;
    } else {
      StrandConserves(c, s, step);
      hide Conserved, DoStrand;
    }
  }

  /** Conservation over every run of every build: nothing is lost, sent twice or reordered. */
  lemma {:induction false} RunConserves(c: Config, n: nat, schedule: seq<Step>)
    ensures Conserved(Run(Next(c), Init(n), schedule))
    decreases |schedule|
  {
    if schedule != [] {
      RunConserves(c, n, schedule[..|schedule| - 1]);
      StepConserves(c, Run(Next(c), Init(n), schedule[..|schedule| - 1]), schedule[|schedule| - 1]);
      hide Conserved, Do, Init;
    }
  }

  /** A run in which nobody pops messages and no write fails. */
  predicate Undisturbed(c: Config, schedule: seq<Step>) {
    c.shrinkAt == 0 && forall step <- schedule :: !step.PopFirst? && !step.PopAll? && !step.CompleteWithError?
  }

  ghost predicate AllOnWire(s: State) {
    !s.errored && (forall x <- s.taken :: x.Wire?) && (forall x <- s.settled :: x.ok)
  }

  lemma StepOnWire(c: Config, s: State, step: Step)
    requires c.shrinkAt == 0 && !step.PopFirst? && !step.PopAll? && !step.CompleteWithError?
    requires AllOnWire(s)
    ensures AllOnWire(Do(c, s, step))
  {
    hide BatchLen;
  }

  /** Without disturbance, what was enqueued is what was written, what is being written and what waits. */
  lemma {:induction false} NothingIsLost(c: Config, n: nat, schedule: seq<Step>)
    requires Undisturbed(c, schedule)
    ensures var s := Run(Next(c), Init(n), schedule);
            && s.enqueued == SettledItems(s.settled) + s.sendingMsgs + s.queue
            && AllOnWire(s)
    decreases |schedule|
  {
    var s := Run(Next(c), Init(n), schedule);
    RunConserves(c, n, schedule);
    if schedule != [] {
      NothingIsLost(c, n, schedule[..|schedule| - 1]);
      StepOnWire(c, Run(Next(c), Init(n), schedule[..|schedule| - 1]), schedule[|schedule| - 1]);
    }
    WiresOfAll(s.taken);
    hide Do, Init, Wires, SettledItems, ItemsOf;
  }

  /** The write in flight is one message, or the shortest part of the buffer that reaches the limit. */
  ghost predicate ShortestBatch(c: Config, s: State) {
    s.writes > 0 ==>
      && s.sendingMsgs != []
      && (c.link.Udp? ==> |s.sendingMsgs| == 1)
      && (c.link.Tcp? ==> forall k :: 1 <= k < |s.sendingMsgs| ==> Size(s.sendingMsgs[..k]) < c.link.limit)
  }

  lemma BatchIsShortest(c: Config, queue: seq<bytes>)
    requires queue != []
    ensures var n := BatchLen(c, queue);
            && (c.link.Udp? ==> n == 1)
            && (c.link.Tcp? ==> forall k :: 1 <= k < n ==> Size(queue[..n][..k]) < c.link.limit)
            && (c.link.Tcp? && n < |queue| ==> Size(queue[..n]) >= c.link.limit)
  {
    var n := BatchLen(c, queue);
    if c.link.Tcp? {
      ReachIsShortest(queue, c.link.limit);
      forall k | 1 <= k < n ensures Size(queue[..n][..k]) < c.link.limit {
        assert queue[..n][..k] == queue[..k];
      }
    }
  }

  lemma BatchStays(c: Config, s: State, step: Step)
    requires !(step.Proceed? && s.task.Holding? && s.queue != []) && s.writes <= 1
    ensures var s' := Do(c, s, step);
            s'.writes == 0 || (s'.writes == s.writes && s'.sendingMsgs == s.sendingMsgs)
  {
    hide BatchLen, ShrinkLen, AsSettled, AsPopped, AsDropped, NextPc;
    if step.Proceed? {
      TaskLeavesAlone(c, s);
      hide DoTask;
    }
  }

  lemma BatchStarts(c: Config, s: State)
    requires s.task.Holding? && s.queue != [] && s.sendingMsgs == []
    ensures ShortestBatch(c, DoTask(c, s))
  {
    BatchIsShortest(c, s.queue);
    var n := BatchLen(c, s.queue);
    assert [] + s.queue[..n] == s.queue[..n];
    hide BatchLen, Size, AsWire;
  }

  lemma StepBatches(c: Config, s: State, step: Step)
    requires ShortestBatch(c, s) && Conserved(s) && Owners(s) <= 1
    ensures ShortestBatch(c, Do(c, s, step))
  {
    if step.Proceed? && s.task.Holding? && s.queue != [] {
      BatchStarts(c, s);
      hide ShortestBatch, DoTask, Accounts;
    } else {
      BatchStays(c, s, step);
      hide Do, Accounts, Size;
    }
  }

  lemma {:induction false} EveryBatchIsShortest(c: Config, n: nat, schedule: seq<Step>)
    ensures ShortestBatch(c, Run(Next(c), Init(n), schedule))
    decreases |schedule|
  {
    if schedule != [] {
      var front := schedule[..|schedule| - 1];
      EveryBatchIsShortest(c, n, front);
      RunConserves(c, n, front);
      OneWriteAtMost(c, n, front);
      StepBatches(c, Run(Next(c), Init(n), front), schedule[|schedule| - 1]);
      hide Conserved, ShortestBatch, Do, Init;
    }
  }
}
