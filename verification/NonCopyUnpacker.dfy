/** The non-copy unpacker: reads exactly a head, then exactly a body, into buffers of their size. */
module NonCopyUnpacker {
  import opened Bytes
  import opened Framing
  import opened Reading

  class Unpacker {
    const p: Params
    var head: bytes
    var rawBuff: bytes
    var step: int

    ghost predicate Valid()
      reads this
    {
      && p.Valid() && |head| == p.headLen
      && (step == 0 || step == 1) && (step == 0 <==> rawBuff == [])
      && (step == 1 ==> Head(p, head) == p.headLen + |rawBuff| <= p.bufSize)
    }

    /** The size of the buffer on offer. */
    function Want(): nat
      reads this
    {
      if rawBuff == [] then |head| else |rawBuff|
    }

    /** The bytes of the frame at hand when n have been read. */
    ghost function Data(n: nat): bytes
      reads this
      requires n <= Want()
    {
      if rawBuff == [] then head[..n] else head + rawBuff[..n]
    }

    constructor (p: Params)
      requires p.Valid()
      ensures Valid() && Data(0) == [] && this.p == p
    {
      this.p := p;
      head := seq(p.headLen, i => 0);
      rawBuff := [];
      step := 0;
    }

    method Reset()
      requires Valid()
      modifies this
      ensures Valid() && Data(0) == []
    {
      rawBuff := [];
      step := 0;
    }

    /** Never stops a read: it is the offered buffer that is exactly as long as what is wanted. */
    method CompletionCondition(ec: bool, n: nat) returns (r: nat)
      requires Valid()
      ensures r == if ec then 0 else Want()
    {
      r := 0;
      if !ec {
        if step == 0 {
          r := p.headLen;
        } else if step == 1 {
          r := |rawBuff|;
        } else {
          assert false;
        }
      }
    }

    /** boost::asio::async_read into the head or the body. */
    method AsyncRead(stream: bytes, at: nat, env: Env, turn: nat) returns (n: nat, turn': nat, starved: bool)
      requires Valid() && at <= |stream|
      modifies this`head, this`rawBuff
      ensures Valid() && n <= Want() && at + n <= |stream|
      ensures Data(n) == old(Data(0)) + stream[at..at + n]
      ensures if starved then at + n == |stream| && n < Want() else n == Want()
    {
      hide Data;
      ghost var kept := Data(0);
      n, turn' := 0, turn;
      assert stream[at..at] == [] && kept + [] == kept;
      var size := Want();
      var max := CompletionCondition(false, 0);
      while max > 0 && n < size && at + n < |stream|
        invariant Valid() && size == Want() && n <= size && at + n <= |stream| && max == size
        invariant Data(n) == kept + stream[at..at + n]
        decreases size - n
      {
        var k := env.Take(turn', Min(Min(max, size - n), |stream| - (at + n)));
        CopyIn(n, stream[at + n..at + n + k]);
        ReadOn(kept, stream, at, n, k);
        n, turn' := n + k, turn' + 1;
        if n < size || env.asksWhenFull {
          max := CompletionCondition(false, n);
        }
      }
      starved := n < size;
    }

    method CopyIn(n: nat, chunk: bytes)
      requires Valid() && n + |chunk| <= Want()
      modifies this`head, this`rawBuff
      ensures Valid() && Want() == old(Want())
      ensures Data(n + |chunk|) == old(Data(n)) + chunk
    {
      if rawBuff == [] {
        head := head[..n] + chunk + head[n + |chunk|..];
      } else {
        rawBuff := rawBuff[..n] + chunk + rawBuff[n + |chunk|..];
      }
    }

    /** Turns a head into the buffer for its body, or a body into a message. A head below its own size
        wraps around and is rejected as too large. */
    method ParseMsg(n: nat) returns (ok: bool, msgs: seq<bytes>)
      requires Valid() && n <= Want()
      modifies this
      ensures var r := ScanStream(p, old(Data(n)));
              && msgs == Deliver(p, true, r.frames)
              && ok == (old(n == Want()) && !r.bad)
              && (ok ==> Valid() && Data(0) == r.rest)
    {
      if step == 0 {
        ok := ParseHead(n);
        msgs := [];
      } else {
        ok, msgs := ParseBody(n);
      }
    }

    method ParseHead(n: nat) returns (ok: bool)
      requires Valid() && step == 0 && n <= Want()
      modifies this
      ensures var r := ScanStream(p, old(Data(n)));
              && Deliver(p, true, r.frames) == []
              && ok == (n == p.headLen && !r.bad)
              && (ok ==> Valid() && Data(0) == r.rest)
    {
      hide ScanStream;
      ghost var data := Data(n);
      var _, _ := ScanFront(p, data);
      if n != p.headLen {
        return false;
      }
      assert data == head && head[..p.headLen] == head && data + [] == data;
      HeadBelowNpos(p, head);
      WrapDown(DecodeHead(head), p.headLen, p.npos);
      var bodyLen := (DecodeHead(head) - p.headLen) % (p.npos + 1);
      if bodyLen > p.bufSize - p.headLen {
        return false;
      } else if bodyLen > 0 {
        rawBuff := ArbitraryBytes(bodyLen);
        step := 1;
      } else {
        ScanFrame(p, data, []);
        var _, _ := ScanFront(p, []);
        DeliverOne(p, true, data);
      }
      ok := true;
    }

    method ParseBody(n: nat) returns (ok: bool, msgs: seq<bytes>)
      requires Valid() && step == 1 && n <= Want()
      modifies this
      ensures var r := ScanStream(p, old(Data(n)));
              && !r.bad && ok == (n == old(|rawBuff|))
              && msgs == Deliver(p, true, r.frames)
              && (ok ==> Valid() && Data(0) == r.rest)
    {
      ghost var data := Data(n);
      assert data[..p.headLen] == head;
      if n != |rawBuff| {
        return false, [];
      }
      assert data == head + rawBuff && data[..|data|] == data && data + [] == data;
      ScanFrame(p, data, []);
      DeliverOne(p, true, data);
      assert data[p.headLen..] == rawBuff;
      msgs := [rawBuff];
      rawBuff := [];
      step := 0;
      ok := true;
    }

    /** do_recv_msg and recv_handler: one asynchronous read, then the parse of what it brought. */
    method ReceiveOnce(stream: bytes, at: nat, env: Env, turn: nat)
      returns (n: nat, turn': nat, starved: bool, ok: bool, msgs: seq<bytes>)
      requires Valid() && at <= |stream|
      modifies this
      ensures at + n <= |stream|
      ensures var r := ScanStream(p, old(Data(0)) + stream[at..at + n]);
              && msgs == Deliver(p, true, r.frames)
              && (starved ==> at + n == |stream| && !r.bad && ok)
              && (!starved ==> n > 0 && ok == !r.bad && (ok ==> Valid() && Data(0) == r.rest))
    {
      n, turn', starved := AsyncRead(stream, at, env, turn);
      ok, msgs := true, [];
      if starved {
        PartIsIncomplete(n);
      } else {
        ok, msgs := ParseMsg(n);
      }
    }

    lemma PartIsIncomplete(n: nat)
      requires Valid() && n < Want()
      ensures ScanStream(p, Data(n)) == Scan([], Data(n), false)
    {
      if step == 1 {
        assert Data(n)[..p.headLen] == head;
      }
    }
  }

  /** A subtraction in size_t. */
  lemma WrapDown(v: nat, d: nat, npos: nat)
    requires v <= npos && d <= npos
    ensures (v - d) % (npos + 1) == if v >= d then v - d else npos + 1 + v - d
  {
  }

  /** A link's whole reception, up to the first rejection or until the stream has no more bytes. */
  method ReceiveAll(p: Params, stream: bytes, env: Env) returns (msgs: seq<bytes>, rejected: bool)
    requires p.Valid()
    ensures msgs == Deliver(p, true, ScanStream(p, stream).frames)
    ensures rejected == ScanStream(p, stream).bad
  {
    hide CaughtUp, ScanStream, Deliver, Head;
    var u := new Unpacker(p);
    var at, turn, starved := 0, 0, false;
    msgs, rejected := [], false;
    assert stream[..0] == [];
    NothingReceived(p, true);
    while !starved && !rejected
      invariant u.p == p && fresh(u) && at <= |stream|
      invariant !rejected && !starved ==> u.Valid() && CaughtUp(p, true, stream[..at], u.Data(0), msgs)
      invariant rejected || starved ==>
          msgs == Deliver(p, true, ScanStream(p, stream).frames) && rejected == ScanStream(p, stream).bad
      decreases |stream| - at, !starved
    {
      ghost var kept := u.Data(0);
      var n, ok, more;
      n, turn, starved, ok, more := u.ReceiveOnce(stream, at, env, turn);
      ReadMore(p, true, stream, at, n, kept, msgs, more, starved, ok);
      msgs, at, rejected := msgs + more, at + n, !ok;
    }
  }
}
