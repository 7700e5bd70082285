/** The TCP socket's sending functions as they are written, one statement after the other. Each is proved to be a
    path of the send path's state machine, namely the one on which no other thread gets in between. */
module TcpSocket {
  import opened Bytes
  import opened Container
  import opened Counting
  import opened Machine
  import opened Packing
  import opened SendPath

  /** do_send_msg(true), from the completed write to the next one or to the clear flag. */
  lemma FromCompleted(c: Config, s: State)
    requires s.task == Completed && s.sending
    ensures Do(c, Do(c, Do(c, s, Proceed), Proceed), Proceed) ==
            if s.queue == [] then s.(task := Free, sending := false) else MoveOut(s, BatchLen(c, s.queue))
  {
    hide BatchLen;
    if s.queue == [] {
      assert Do(c, s, Proceed) == s.(task := SawEmpty);
      assert Do(c, s.(task := SawEmpty), Proceed) == s.(task := Recheck, sending := false);
    } else {
      assert Do(c, s, Proceed) == s.(task := Holding(true));
      assert Do(c, s.(task := Holding(true)), Proceed) == MoveOut(s, BatchLen(c, s.queue));
    }
  }

  lemma CompleteStep(c: Config, s: State)
    requires s.task == Free && s.writes == 1
    ensures Do(c, s, Complete) ==
            s.(writes := 0, settled := s.settled + AsSettled(s.sendingMsgs, true), sendingMsgs := [], task := Completed)
  {
    hide AsSettled, DoThread, DoTask, DoQueue, DoTimer;
  }

  /** What a completed write leads to when no other thread gets in between. */
  lemma CompletePath(c: Config, s: State)
    requires c.link.Tcp? && s.task == Free && s.writes == 1 && s.sending
    ensures var s1 := s.(writes := 0, settled := s.settled + AsSettled(s.sendingMsgs, true), sendingMsgs := []);
            Run(Next(c), s, [Complete, Proceed, Proceed, Proceed]) ==
            if s.queue == [] then s1.(sending := false) else MoveOut(s1, BatchLen(c, s.queue))
  {
    hide Run, Do, AsSettled, BatchLen;
    RunFour(Next(c), s, Complete, Proceed, Proceed, Proceed);
    CompleteStep(c, s);
    FromCompleted(c, s.(writes := 0, settled := s.settled + AsSettled(s.sendingMsgs, true), sendingMsgs := [],
                        task := Completed));
  }

  lemma ErrorPath(c: Config, s: State)
    requires c.link.Tcp? && s.task == Free && s.writes == 1
    ensures Run(Next(c), s, [CompleteWithError(true), Proceed]) ==
            s.(writes := 0, settled := s.settled + AsSettled(s.sendingMsgs, false), sendingMsgs := [],
               errored := true, sending := false)
  {
    hide Run, AsSettled, BatchLen;
    RunTwo(Next(c), s, CompleteWithError(true), Proceed);
  }

  /** What a posted task leads to. */
  lemma TaskPath(c: Config, s: State)
    requires s.task == Free && s.posted > 0
    ensures var s1 := s.(posted := s.posted - 1);
            Run(Next(c), s, [Begin, Proceed, Proceed]) ==
            if s.queue == [] || s.sending then s1 else MoveOut(s1, BatchLen(c, s.queue)).(sending := true)
  {
    hide Run, BatchLen;
    RunThree(Next(c), s, Begin, Proceed, Proceed);
    var s1 := s.(posted := s.posted - 1);
    if s.queue == [] {
      assert Do(c, s, Begin) == s1;
    } else {
      assert Do(c, s, Begin) == s1.(task := Willing);
      assert Do(c, s1.(task := Willing), Proceed) ==
             if s.sending then s1 else s1.(task := Holding(false), sending := true);
    }
  }

  lemma SubmitSteps(c: Config, s: State, items: seq<bytes>)
    requires s.threads == [Idle]
    ensures var s1 := s.(queue := s.queue + items, enqueued := s.enqueued + items);
            && Do(c, s, Enqueue(0, items)) == s1.(threads := [Enqueued])
            && Do(c, s1.(threads := [Enqueued]), Go(0)) == s1.(threads := [if s.sending then Idle else MustPost])
  {
    hide DoTask, DoTimer, DoStrand, BatchLen;
    assert [Idle][0 := Enqueued] == [Enqueued];
    assert forall pc: Thread :: [Enqueued][0 := pc] == [pc];
  }

  lemma PostStep(c: Config, s: State)
    requires s.threads == [Idle] || s.threads == [MustPost]
    ensures Do(c, s, Go(0)) == s.(threads := [Idle], posted := s.posted + Bit(s.threads == [MustPost]))
  {
    hide DoTask, DoTimer, DoStrand, DoQueue;
    assert [Idle][0 := Idle] == [Idle] && [MustPost][0 := Idle] == [Idle];
  }

  /** What enqueueing and send_msg lead to. */
  lemma SubmitPath(c: Config, s: State, items: seq<bytes>)
    requires s.threads == [Idle]
    ensures Run(Next(c), s, [Enqueue(0, items), Go(0), Go(0)]) ==
            s.(queue := s.queue + items, enqueued := s.enqueued + items, posted := s.posted + Bit(!s.sending))
  {
    hide Run, Do;
    RunThree(Next(c), s, Enqueue(0, items), Go(0), Go(0));
    SubmitSteps(c, s, items);
    PostStep(c, s.(queue := s.queue + items, enqueued := s.enqueued + items,
                   threads := [if s.sending then Idle else MustPost]));
  }

  class Socket {
    const limit: nat
    const npos: nat
    var sendBuffer: Queue
    var sending: bool
    var sendingMsgs: seq<bytes>
    /** What Asio has been asked for: tasks posted to the strand and writes in flight. */
    var posted: nat
    var writes: nat
    ghost var enqueued: seq<bytes>
    ghost var taken: seq<Taken>
    ghost var settled: seq<Settled>
    ghost var errored: bool

    ghost predicate Valid()
      reads this, sendBuffer
    {
      sendBuffer.Valid() && limit < npos
    }

    /** The build: TCP, and the buffer is not shrunk. */
    ghost function Build(): Config {
      Config(Tcp(limit), 0, false)
    }

    /** The machine's state when no strand task is running and one user thread is outside the socket. */
    ghost function View(): State
      reads this, sendBuffer
    {
      State(sendBuffer.items, sending, sendingMsgs, Free, posted, writes, [Idle], false, false, 0,
            enqueued, taken, settled, errored)
    }

    constructor (limit: nat, npos: nat)
      requires limit < npos
      ensures Valid() && fresh(sendBuffer) && this.limit == limit && View() == Init(1)
    {
      this.limit, this.npos := limit, npos;
      sendBuffer := new Queue();
      sending, sendingMsgs, posted, writes := false, [], 0, 0;
      enqueued, taken, settled, errored := [], [], [], false;
      new;
      assert seq(1, i => Idle) == [Idle];
    }

    /** test_and_set_sending: the flag's former value. */
    method TestAndSetSending() returns (was: bool)
      modifies this`sending
      ensures was == old(sending) && sending
    {
      was := sending;
      sending := true;
    }

    method ClearSending()
      modifies this`sending
      ensures !sending
    {
      sending := false;
    }

    /** send_msg: asks for a task unless the flag is set. */
    method SendMsg()
      modifies this`posted
      ensures posted == old(posted) + (if sending then 0 else 1)
    {
      if !sending {
        posted := posted + 1;
      }
    }

    /** do_send_msg: takes a batch if there is a message and the flag is its own or free. */
    method DoSendMsg(inStrand: bool) returns (going: bool)
      requires Valid()
      modifies this`sending, this`sendingMsgs, this`writes, this`taken, sendBuffer
      ensures Valid() && going == (old(sendBuffer.items) != [])
      ensures var s := old(View());
              View() == if s.queue == [] then s.(sending := s.sending && !inStrand)
                        else if s.sending && !inStrand then s
                        else MoveOut(s, BatchLen(Build(), s.queue)).(sending := s.sending || !inStrand)
    {
      going := false;
      if sendBuffer.items == [] {
        if inStrand {
          ClearSending();
        }
        return;
      }
      if !inStrand {
        var was := TestAndSetSending();
        if was {
          return true;
        }
      }
      ghost var batch := sendBuffer.items[..Reach(sendBuffer.items, limit)];
      sendingMsgs := sendBuffer.MoveItemsOutBySize(limit, sendingMsgs, npos);
      taken := taken + AsWire(batch);
      // only another thread that pops messages can have made the batch empty
      going := sendingMsgs != [];
      writes := writes + Bit(going);
      sending := sending && going;
    }

    /** A posted task runs. */
    method RunTask()
      requires Valid() && posted > 0
      modifies this, sendBuffer
      ensures Valid() && View() == Run(Next(Build()), old(View()), [Begin, Proceed, Proceed])
    {
      TaskPath(Build(), View());
      hide Run, BatchLen, MoveOut, Do;
      posted := posted - 1;
      var _ := DoSendMsg(false);
    }

    /** send_handler. */
    method SendHandler(ec: bool)
      requires Valid() && writes == 1 && sending
      modifies this, sendBuffer
      ensures Valid()
      ensures View() == Run(Next(Build()), old(View()),
                            if ec then [CompleteWithError(true), Proceed] else [Complete, Proceed, Proceed, Proceed])
    {
      ghost var s := View();
      hide Run, AsSettled, BatchLen, Do;
      if ec {
        ErrorPath(Build(), s);
      } else {
        CompletePath(Build(), s);
      }
      writes := writes - 1;
      settled := settled + AsSettled(sendingMsgs, !ec);
      sendingMsgs := [];
      if ec {
        errored := true;
        ClearSending();
      } else {
        var going := DoSendMsg(true);
        // only another thread that sends a message can have filled the buffer again
        posted := posted + Bit(!going && sendBuffer.items != [] && !sending);
      }
    }

    /** do_direct_send_msg of packed messages, by the user thread. */
    method DoDirectSendMsg(items: seq<bytes>)
      requires Valid()
      modifies this, sendBuffer
      ensures Valid() && View() == Run(Next(Build()), old(View()), [Enqueue(0, items), Go(0), Go(0)])
    {
      SubmitPath(Build(), View(), items);
      hide Run, Do;
      var size := SizeInByte(items);
      sendBuffer.MoveItemsIn(items, size);
      enqueued := enqueued + items;
      SendMsg();
    }
  }
}
