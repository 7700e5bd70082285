/** The flexible unpacker: a fixed buffer of 4000 bytes, and for a longer frame a buffer of its own. */
module FlexibleUnpacker {
  import opened Bytes
  import opened Framing
  import opened Reading

  const RAW_SIZE: nat := 4000

  class Unpacker {
    const p: Params
    var stripped: bool
    const rawBuff: array<byte>
    var bigMsg: bytes
    var curMsgLen: nat
    var remainLen: nat
    /** The head that extend_buffer dropped; only the specification needs it. */
    ghost var bigHead: bytes

    ghost predicate Valid()
      reads this, rawBuff
    {
      p.Valid() && rawBuff.Length == RAW_SIZE && remainLen <= Space()
    }

    function Space(): nat
      reads this
    {
      if bigMsg == [] then RAW_SIZE else |bigMsg|
    }

    /** The bytes of the stream at hand when n have been read behind those kept. */
    ghost function Data(n: nat): bytes
      reads this, rawBuff
      requires Valid() && remainLen + n <= Space()
    {
      if bigMsg == [] then rawBuff[..remainLen + n] else bigHead + bigMsg[..remainLen + n]
    }

    /** A long frame is being collected, in a buffer that it fills exactly. */
    ghost predicate Collecting(data: bytes)
      reads this
      requires p.Valid()
    {
      && bigMsg != [] && curMsgLen == |bigMsg|
      && |bigHead| == (if stripped then p.headLen else 0)
      && RAW_SIZE < |bigHead| + |bigMsg| <= p.bufSize
      && p.headLen <= |data| <= |bigHead| + |bigMsg|
      && Head(p, data) == |bigHead| + |bigMsg|
    }

    /** The head at hand announces a frame that the fixed buffer cannot hold. */
    ghost predicate Big(data: bytes)
      requires p.Valid()
    {
      |data| >= p.headLen && RAW_SIZE < Head(p, data) <= p.bufSize
    }

    ghost predicate Knows(data: bytes)
      reads this
      requires p.Valid()
    {
      if bigMsg == [] then HeadKnown(p, data, curMsgLen) && |data| <= RAW_SIZE else Collecting(data)
    }

    /** Between two reads: no frame waits, nothing is bad, and the buffer has room. */
    ghost predicate Settled()
      reads this, rawBuff
      requires Valid()
    {
      && Incomplete(p, Data(0)) && Knows(Data(0)) && remainLen < Space()
      && (bigMsg == [] ==> HeadSettled(p, Data(0), curMsgLen) && !Big(Data(0)))
    }

    constructor (p: Params, stripped: bool)
      requires p.Valid()
      ensures Valid() && Settled() && Data(0) == [] && this.p == p && this.stripped == stripped
      ensures fresh(rawBuff)
    {
      this.p := p;
      this.stripped := stripped;
      rawBuff := new byte[RAW_SIZE];
      bigMsg, bigHead := [], [];
      curMsgLen := p.npos;
      remainLen := 0;
    }

    method Reset()
      requires Valid()
      modifies this
      ensures Valid() && Settled() && Data(0) == [] && stripped == old(stripped)
    {
      bigMsg := [];
      curMsgLen := p.npos;
      remainLen := 0;
    }

    /** Stops the read exactly when the bytes at hand hold a frame or a bad head, or when they call
        for a larger buffer. */
    method CompletionCondition(ec: bool, n: nat) returns (r: nat)
      requires Valid() && remainLen + n <= Space() && Knows(Data(n))
      requires bigMsg == [] && curMsgLen != p.npos ==> LegalLength(p, curMsgLen) && !Big(Data(n))
      modifies this`curMsgLen
      ensures r == 0 <==> ec || !Incomplete(p, Data(n)) || (bigMsg == [] && Big(Data(n)))
      ensures r != 0 ==> r == Space() && (bigMsg == [] ==> HeadSettled(p, Data(n), curMsgLen))
      ensures Knows(Data(n))
    {
      if ec {
        return 0;
      }
      var dataLen := remainLen + n;
      if curMsgLen == p.npos && dataLen >= p.headLen {
        assert Data(n)[0..] == Data(n);
        curMsgLen := ReadHead(p, rawBuff, 0, dataLen);
        if curMsgLen > p.bufSize || curMsgLen < p.headLen || curMsgLen > RAW_SIZE {
          return 0;
        }
      }
      r := if dataLen >= curMsgLen then 0 else Space();
    }

    method PrepareNextRecv() returns (at: nat, size: nat)
      requires Valid() && Settled()
      ensures at == remainLen && at + size == Space() && size > 0
    {
      at, size := remainLen, Space() - remainLen;
    }

    /** The bytes at hand are those kept before the read and the n bytes read since. */
    ghost predicate Filling(kept: bytes, stream: bytes, at: nat, n: nat)
      reads this, rawBuff
    {
      Valid() && remainLen + n <= Space() && at + n <= |stream| && Data(n) == kept + stream[at..at + n]
    }

    /** A read in progress, and what the completion condition last said about it. */
    ghost predicate Underway(kept: bytes, stream: bytes, at: nat, n: nat, max: nat)
      reads this, rawBuff
    {
      Filling(kept, stream, at, n) && Knows(Data(n)) &&
      (if max == 0 then !Incomplete(p, Data(n)) || (bigMsg == [] && Big(Data(n)))
       else
         && max == Space() && remainLen + n < Space() && Incomplete(p, Data(n))
         && (bigMsg == [] ==> HeadSettled(p, Data(n), curMsgLen) && !Big(Data(n))))
    }

    /** boost::asio::async_read into whichever buffer is in use: it goes on until the completion condition stops it,
        or waits for bytes that do not come (max > 0). */
    method AsyncRead(stream: bytes, at: nat, env: Env, turn: nat) returns (n: nat, turn': nat, max: nat)
      requires Valid() && Settled() && at <= |stream|
      modifies rawBuff, this`bigMsg, this`curMsgLen
      ensures Underway(old(Data(0)), stream, at, n, max)
      ensures if max > 0 then at + n == |stream| else n > 0
    {
      hide Underway;
      ghost var kept := Data(0);
      n, turn' := 0, turn;
      var start, size;
      start, size, max := BeginRead(stream, at);
      while max > 0 && at + n < |stream|
        invariant Underway(kept, stream, at, n, max) && at + n <= |stream| && n <= size
        invariant start == remainLen && start + size == Space() && (n > 0 || max > 0)
        decreases size - n, max
      {
        var k;
        k, max := ReadAndAsk(stream, at, n, size, max, env, turn', kept);
        n, turn' := n + k, turn' + 1;
      }
    }

    /** Before the first partial read the completion condition never stops: the read asks for at least one byte. */
    method BeginRead(stream: bytes, at: nat) returns (start: nat, size: nat, max: nat)
      requires Valid() && Settled() && at <= |stream|
      modifies this`curMsgLen
      ensures start == remainLen && start + size == Space() && size > 0 && max > 0
      ensures Underway(old(Data(0)), stream, at, 0, max)
    {
      start, size := PrepareNextRecv();
      max := CompletionCondition(false, 0);
    }

    /** One turn of async_read: a partial read, then the completion condition. */
    method ReadAndAsk(stream: bytes, at: nat, n: nat, size: nat, max: nat, env: Env, turn: nat, ghost kept: bytes)
      returns (k: nat, max': nat)
      requires Underway(kept, stream, at, n, max) && remainLen + size == Space()
      requires max > 0 && at + n < |stream|
      modifies rawBuff, this`bigMsg, this`curMsgLen
      ensures k > 0 && at + n + k <= |stream| && n + k <= size
      ensures Underway(kept, stream, at, n + k, max')
      ensures Space() == old(Space())
    {
      hide Knows, Incomplete, Big, HeadSettled;
      k := PartialRead(stream, at, n, Min(max, size - n), env, turn, kept);
      max' := 0;
      if n + k < size || env.asksWhenFull {
        max' := CompletionCondition(false, n + k);
      }
    }

    /** One partial read. A full buffer holds a frame, a bad head or the head of a long frame. */
    method PartialRead(stream: bytes, at: nat, n: nat, max: nat, env: Env, turn: nat, ghost kept: bytes)
      returns (k: nat)
      requires Underway(kept, stream, at, n, Space()) && remainLen + n + max <= Space()
      requires max > 0 && at + n < |stream|
      modifies rawBuff, this`bigMsg
      ensures 1 <= k <= max && Space() == old(Space()) && |bigMsg| == old(|bigMsg|)
      ensures Filling(kept, stream, at, n + k) && Knows(Data(n + k))
      ensures bigMsg == [] && curMsgLen != p.npos ==> LegalLength(p, curMsgLen) && !Big(Data(n + k))
      ensures remainLen + n + k == Space() ==>
                !Incomplete(p, Data(n + k)) || (bigMsg == [] && Big(Data(n + k)))
    {
      hide Knows, Incomplete, Big, HeadSettled;
      k := env.Take(turn, Min(max, |stream| - (at + n)));
      ghost var data := Data(n);
      var chunk := stream[at + n..at + n + k];
      StillKnows(data, chunk);
      CopyIn(n, chunk, data + chunk);
      ReadOn(kept, stream, at, n, k);
    }

    /** More bytes do not change what the head says; as many as the buffer holds complete the frame or show
        that it is too long for the buffer. */
    lemma StillKnows(data: bytes, chunk: bytes)
      requires Valid() && Knows(data) && Incomplete(p, data)
      requires bigMsg == [] ==> HeadSettled(p, data, curMsgLen) && !Big(data)
      requires |data + chunk| <= Space() + (if bigMsg == [] then 0 else |bigHead|)
      ensures Knows(data + chunk)
      ensures bigMsg == [] && curMsgLen != p.npos ==> LegalLength(p, curMsgLen) && !Big(data + chunk)
      ensures |data + chunk| == Space() + (if bigMsg == [] then 0 else |bigHead|) ==>
                !Incomplete(p, data + chunk) || (bigMsg == [] && Big(data + chunk))
    {
      if |data| >= p.headLen {
        assert (data + chunk)[..p.headLen] == data[..p.headLen];
      }
    }

    method CopyIn(n: nat, chunk: bytes, ghost all: bytes)
      requires Valid() && remainLen + n + |chunk| <= Space()
      modifies rawBuff, this`bigMsg
      ensures |bigMsg| == old(|bigMsg|) && Space() == old(Space())
      ensures Valid() && Data(n + |chunk|) == old(Data(n)) + chunk
      ensures Knows(all) == old(Knows(all))
    {
      hide Incomplete, Big, HeadSettled;
      var to := remainLen + n;
      if bigMsg == [] {
        forall i | 0 <= i < |chunk| {
          rawBuff[to + i] := chunk[i];
        }
      } else {
        bigMsg := bigMsg[..to] + chunk + bigMsg[to + |chunk|..];
      }
    }

    /** extend_buffer: the frame that the head announces gets a buffer of its own, with or without its head. */
    method ExtendBuffer()
      requires Valid() && bigMsg == [] && HeadSettled(p, Data(0), curMsgLen) && Big(Data(0))
      modifies this`bigMsg, this`curMsgLen, this`remainLen, this`bigHead
      ensures Valid() && Data(0) == old(Data(0)) && Collecting(Data(0)) && remainLen < Space()
    {
      var step := 0;
      ghost var data := Data(0);
      if stripped {
        curMsgLen := curMsgLen - p.headLen;
        remainLen := remainLen - p.headLen;
        step := p.headLen;
      }
      bigHead := data[..step];
      var filler := ArbitraryBytes(curMsgLen);
      bigMsg := rawBuff[step..step + remainLen] + filler[remainLen..];
      assert bigMsg[..remainLen] == rawBuff[step..step + remainLen] == data[step..];
      assert data == data[..step] + data[step..];
    }

    /** Hands out the frames at hand and keeps the bytes behind them, moving to a larger buffer when
        these begin a long frame. */
    method ParseMsg(n: nat) returns (ok: bool, msgs: seq<bytes>)
      requires Valid() && remainLen + n <= Space() && Knows(Data(n))
      modifies this, rawBuff
      ensures stripped == old(stripped)
      ensures var all := old(Data(n));
              var r := ScanStream(p, all);
              && msgs == Deliver(p, stripped, r.frames)
              && ok == (!r.bad && (r.frames != [] || old(bigMsg == [] && Big(all))))
              && (ok ==> Valid() && Data(0) == r.rest && Settled())
    {
      remainLen := remainLen + n;
      if bigMsg != [] {
        ok, msgs := ParseBig();
      } else {
        ok, msgs := ParseRaw();
      }
    }

    method ParseBig() returns (ok: bool, msgs: seq<bytes>)
      requires Valid() && bigMsg != [] && Collecting(Data(0))
      modifies this
      ensures stripped == old(stripped)
      ensures var r := ScanStream(p, old(Data(0)));
              && !r.bad && ok == (r.frames != []) && msgs == Deliver(p, stripped, r.frames)
              && (ok ==> Valid() && Settled() && Data(0) == r.rest)
    {
      ghost var data := Data(0);
      var _, _ := ScanFront(p, data);
      if remainLen != |bigMsg| {
        assert Incomplete(p, data);
        return false, [];
      }
      assert data == bigHead + bigMsg && data[..|data|] == data && data + [] == data;
      ScanFrame(p, data, []);
      DeliverOne(p, stripped, data);
      msgs := [bigMsg];
      assert if stripped then data[p.headLen..] == bigMsg else data == bigMsg;
      Reset();
      ok := true;
    }

    method ParseRaw() returns (ok: bool, msgs: seq<bytes>)
      requires Valid() && bigMsg == [] && HeadKnown(p, Data(0), curMsgLen)
      modifies this, rawBuff
      ensures stripped == old(stripped)
      ensures var all := old(Data(0));
              var r := ScanStream(p, all);
              && msgs == Deliver(p, stripped, r.frames)
              && ok == (!r.bad && (r.frames != [] || Big(all)))
              && (ok ==> Valid() && Data(0) == r.rest && Settled())
    {
      hide ScanStream, DecodeHead, Collecting;
      ghost var data := Data(0);
      var _, _ := ScanFront(p, data);
      if curMsgLen == p.npos && remainLen >= p.headLen {
        assert data[0..] == data;
        curMsgLen := ReadHead(p, rawBuff, 0, remainLen);
      }
      if curMsgLen <= p.bufSize && curMsgLen > RAW_SIZE {
        ExtendBuffer();
        return true, [];
      }
      ok, msgs := ParseFrames();
      if ok && curMsgLen != p.npos && curMsgLen > RAW_SIZE {
        ExtendBuffer();
      }
    }

    method ParseFrames() returns (ok: bool, msgs: seq<bytes>)
      requires Valid() && bigMsg == [] && HeadKnown(p, Data(0), curMsgLen)
      modifies this, rawBuff
      ensures stripped == old(stripped) && bigMsg == [] && Valid()
      ensures var r := ScanStream(p, old(Data(0)));
              && msgs == Deliver(p, stripped, r.frames)
              && ok == (r.frames != [] && !r.bad)
              && (ok ==> Data(0) == r.rest && Incomplete(p, r.rest) && HeadSettled(p, r.rest, curMsgLen))
      ensures ok ==> remainLen < RAW_SIZE
    {
      ghost var data := Data(0);
      ghost var r := ScanStream(p, data);
      var pos, next;
      ok, pos, next, curMsgLen := FindFrames(p, rawBuff, curMsgLen, remainLen);
      remainLen := remainLen - next;
      msgs := HandOut(p, stripped, rawBuff, pos, data, r.frames);
      if remainLen > 0 && pos != [] {
        MoveDown(rawBuff, next, remainLen);
      }
      assert Data(0) == r.rest;
      RestIsShorter(p, data);
    }

    /** do_recv_msg and recv_handler: one asynchronous read, then the parse of what it brought. */
    method ReceiveOnce(stream: bytes, at: nat, env: Env, turn: nat)
      returns (n: nat, turn': nat, starved: bool, ok: bool, msgs: seq<bytes>)
      requires Valid() && Settled() && at <= |stream|
      modifies this, rawBuff
      ensures at + n <= |stream| && stripped == old(stripped)
      ensures var r := ScanStream(p, old(Data(0)) + stream[at..at + n]);
              && msgs == Deliver(p, stripped, r.frames)
              && (starved ==> at + n == |stream| && !r.bad && ok)
              && (!starved ==> n > 0 && ok == !r.bad && (ok ==> Valid() && Data(0) == r.rest && Settled()))
    {
      hide Incomplete, ScanStream, Collecting, HeadKnown, Big, HeadSettled;
      var max;
      n, turn', max := AsyncRead(stream, at, env, turn);
      starved := max > 0;
      var _, _ := ScanFront(p, Data(n));
      ok, msgs := true, [];
      if !starved {
        ok, msgs := ParseMsg(n);
      }
    }
  }

  /** A link's whole reception, up to the first rejection or until the stream has no more bytes. */
  method ReceiveAll(p: Params, stripped: bool, stream: bytes, env: Env) returns (msgs: seq<bytes>, rejected: bool)
    requires p.Valid()
    ensures msgs == Deliver(p, stripped, ScanStream(p, stream).frames)
    ensures rejected == ScanStream(p, stream).bad
  {
    var u := new Unpacker(p, stripped);
    var at, turn, starved := 0, 0, false;
    msgs, rejected := [], false;
    assert stream[..0] == [];
    NothingReceived(p, stripped);
    hide CaughtUp, ScanStream, Deliver, Head;
    while !starved && !rejected
      invariant fresh(u.rawBuff) && u.p == p && u.stripped == stripped
      invariant at <= |stream|
      invariant !rejected && !starved ==>
          u.Valid() && u.Settled() && CaughtUp(p, stripped, stream[..at], u.Data(0), msgs)
      invariant rejected || starved ==>
          msgs == Deliver(p, stripped, ScanStream(p, stream).frames) && rejected == ScanStream(p, stream).bad
      decreases |stream| - at, !starved
    {
      ghost var kept := u.Data(0);
      var n, ok, more;
      n, turn, starved, ok, more := u.ReceiveOnce(stream, at, env, turn);
      ReadMore(p, stripped, stream, at, n, kept, msgs, more, starved, ok);
      msgs, at, rejected := msgs + more, at + n, !ok;
    }
  }
}
