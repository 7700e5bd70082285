/** The default unpacker: one buffer as large as the longest frame, read as much as possible. */
module DefaultUnpacker {
  import opened Bytes
  import opened Framing
  import opened Reading

  class Unpacker {
    const p: Params
    var stripped: bool
    const rawBuff: array<byte>
    var curMsgLen: nat
    var remainLen: nat

    ghost predicate Valid()
      reads this, rawBuff
    {
      p.Valid() && rawBuff.Length == p.bufSize && remainLen <= p.bufSize
    }

    /** The bytes received and not yet consumed. */
    ghost function Data(): bytes
      reads this, rawBuff
      requires Valid()
    {
      rawBuff[..remainLen]
    }

    /** Between two reads: no frame waits, nothing is bad, and the buffer has room. */
    ghost predicate Settled()
      reads this, rawBuff
      requires Valid()
    {
      Incomplete(p, Data()) && HeadSettled(p, Data(), curMsgLen) && remainLen < p.bufSize
    }

    constructor (p: Params, stripped: bool)
      requires p.Valid()
      ensures Valid() && Settled() && Data() == [] && this.p == p && this.stripped == stripped
      ensures fresh(rawBuff)
    {
      this.p := p;
      this.stripped := stripped;
      rawBuff := new byte[p.bufSize];
      curMsgLen := p.npos;
      remainLen := 0;
    }

    method Reset()
      requires Valid()
      modifies this
      ensures Valid() && Settled() && Data() == [] && stripped == old(stripped)
    {
      curMsgLen := p.npos;
      remainLen := 0;
    }

    /** Stops the read exactly when the bytes at hand hold a frame or a bad head. */
    method CompletionCondition(ec: bool, n: nat) returns (r: nat)
      requires Valid() && remainLen + n <= p.bufSize
      requires HeadKnown(p, rawBuff[..remainLen + n], curMsgLen)
      requires curMsgLen != p.npos ==> LegalLength(p, curMsgLen)
      modifies this`curMsgLen
      ensures r == 0 <==> ec || !Incomplete(p, rawBuff[..remainLen + n])
      ensures r != 0 ==> r == p.bufSize
      ensures HeadKnown(p, rawBuff[..remainLen + n], curMsgLen)
      ensures r != 0 ==> HeadSettled(p, rawBuff[..remainLen + n], curMsgLen)
    {
      if ec {
        return 0;
      }
      var dataLen := remainLen + n;
      if curMsgLen == p.npos && dataLen >= p.headLen {
        assert rawBuff[..dataLen][0..] == rawBuff[..dataLen];
        curMsgLen := ReadHead(p, rawBuff, 0, dataLen);
        if curMsgLen > p.bufSize || curMsgLen < p.headLen {
          return 0;
        }
      }
      r := if dataLen >= curMsgLen then 0 else p.bufSize;
    }

    /** prepare_next_recv: the free part of the buffer, as its first index and its length. */
    method PrepareNextRecv() returns (at: nat, size: nat)
      requires Valid() && Settled()
      ensures at == remainLen && at + size == p.bufSize && size > 0
    {
      at, size := remainLen, p.bufSize - remainLen;
    }

    /** boost::asio::async_read into the buffer: it goes on until the completion condition stops it,
        or waits for bytes that do not come (max > 0). */
    method AsyncRead(stream: bytes, at: nat, env: Env, turn: nat) returns (n: nat, turn': nat, max: nat)
      requires Valid() && Settled() && at <= |stream|
      modifies rawBuff, this`curMsgLen
      ensures Underway(old(Data()), stream, at, n, max)
      ensures if max > 0 then at + n == |stream| else n > 0
    {
      hide Underway;
      ghost var kept := Data();
      n, turn' := 0, turn;
      var start, size;
      start, size, max := BeginRead(stream, at);
      while max > 0 && at + n < |stream|
        invariant Underway(kept, stream, at, n, max) && at + n <= |stream| && n <= size
        invariant start == remainLen && start + size == p.bufSize && (n > 0 || max > 0)
        decreases size - n, max
      {
        var k;
        k, max := ReadAndAsk(stream, at, n, size, max, env, turn', kept);
        n, turn' := n + k, turn' + 1;
      }
    }

    /** Before the first partial read the completion condition never stops: the read asks for at least one byte. */
    method BeginRead(stream: bytes, at: nat) returns (start: nat, size: nat, max: nat)
      requires Valid() && Settled() && at <= |stream|
      modifies this`curMsgLen
      ensures start == remainLen && start + size == p.bufSize && size > 0 && max > 0
      ensures Underway(old(Data()), stream, at, 0, max)
    {
      start, size := PrepareNextRecv();
      max := CompletionCondition(false, 0);
    }

    /** One turn of async_read: a partial read, then the completion condition. */
    method ReadAndAsk(stream: bytes, at: nat, n: nat, size: nat, max: nat, env: Env, turn: nat, ghost kept: bytes)
      returns (k: nat, max': nat)
      requires Underway(kept, stream, at, n, max) && remainLen + size == p.bufSize
      requires max > 0 && at + n < |stream|
      modifies rawBuff, this`curMsgLen
      ensures k > 0 && at + n + k <= |stream| && n + k <= size
      ensures Underway(kept, stream, at, n + k, max')
    {
      assert curMsgLen != p.npos ==> LegalLength(p, curMsgLen);
      hide HeadKnown, Incomplete, HeadSettled;
      k := PartialRead(stream, at, n, Min(max, size - n), env, turn, kept);
      max' := Ask(n + k, n + k < size || env.asksWhenFull, kept + stream[at..at + (n + k)]);
    }

    /** The completion condition after a partial read; a full buffer may be its own answer. */
    method Ask(n: nat, asks: bool, ghost data: bytes) returns (max: nat)
      requires Valid() && remainLen + n <= p.bufSize && rawBuff[..remainLen + n] == data
      requires HeadKnown(p, data, curMsgLen) && (curMsgLen != p.npos ==> LegalLength(p, curMsgLen))
      requires |data| == p.bufSize ==> !Incomplete(p, data)
      requires asks || |data| == p.bufSize
      modifies this`curMsgLen
      ensures Answered(data, curMsgLen, max)
    {
      hide HeadKnown, Incomplete, HeadSettled;
      max := 0;
      if asks {
        max := CompletionCondition(false, n);
      }
    }

    /** What the completion condition's answer says: whether the bytes hold a frame or a bad head. */
    ghost predicate Answered(data: bytes, cur: nat, max: nat) {
      && HeadKnown(p, data, cur)
      && (if max == 0 then !Incomplete(p, data)
          else max == p.bufSize && Incomplete(p, data) && HeadSettled(p, data, cur) && |data| < p.bufSize)
    }

    /** A read in progress: the bytes read so far are in the buffer, and the completion condition has answered. */
    ghost predicate Underway(kept: bytes, stream: bytes, at: nat, n: nat, max: nat)
      reads this, rawBuff
    {
      Filling(kept, stream, at, n) && Answered(rawBuff[..remainLen + n], curMsgLen, max)
    }

    /** The buffer holds what it held before the read and the n bytes read since. */
    ghost predicate Filling(kept: bytes, stream: bytes, at: nat, n: nat)
      reads this, rawBuff
    {
      Valid() && remainLen + n <= p.bufSize && at + n <= |stream| &&
      rawBuff[..remainLen + n] == kept + stream[at..at + n]
    }

    /** One partial read: the bytes land behind those already there. A full buffer always holds
        a frame or a bad head. */
    method PartialRead(stream: bytes, at: nat, n: nat, max: nat, env: Env, turn: nat, ghost kept: bytes)
      returns (k: nat)
      requires Filling(kept, stream, at, n) && remainLen + n + max <= p.bufSize
      requires max > 0 && at + n < |stream|
      requires HeadSettled(p, rawBuff[..remainLen + n], curMsgLen)
      modifies rawBuff
      ensures 1 <= k <= max && Filling(kept, stream, at, n + k)
      ensures HeadKnown(p, rawBuff[..remainLen + (n + k)], curMsgLen)
      ensures remainLen + (n + k) == p.bufSize ==> !Incomplete(p, rawBuff[..remainLen + (n + k)])
    {
      k := env.Take(turn, Min(max, |stream| - (at + n)));
      ghost var data := rawBuff[..remainLen + n];
      var chunk := stream[at + n..at + n + k];
      CopyIn(remainLen + n, chunk);
      HeadGrows(p, data, chunk, curMsgLen);
      ReadOn(kept, stream, at, n, k);
    }

    method CopyIn(to: nat, chunk: bytes)
      requires to + |chunk| <= rawBuff.Length
      modifies rawBuff
      ensures rawBuff[..to + |chunk|] == old(rawBuff[..to]) + chunk
    {
      forall i | 0 <= i < |chunk| {
        rawBuff[to + i] := chunk[i];
      }
    }

    /** Hands out every frame at hand except heartbeats and keeps the bytes behind them. It fails when
        there is no frame, or when what follows the last one can never be one. */
    method ParseMsg(n: nat) returns (ok: bool, msgs: seq<bytes>)
      requires Valid() && remainLen + n <= p.bufSize
      requires HeadKnown(p, rawBuff[..remainLen + n], curMsgLen)
      modifies this`curMsgLen, this`remainLen, rawBuff
      ensures Valid()
      ensures var r := ScanStream(p, old(rawBuff[..remainLen + n]));
              && msgs == Deliver(p, stripped, r.frames)
              && ok == (r.frames != [] && !r.bad)
              && Data() == r.rest
              && (ok ==> Settled())
      ensures |Flatten(msgs)| <= old(remainLen) + n
    {
      remainLen := remainLen + n;
      ghost var data := rawBuff[..remainLen];
      ghost var frames := ScanStream(p, data).frames;
      var pos, next;
      ok, pos, next, curMsgLen := FindFrames(p, rawBuff, curMsgLen, remainLen);
      remainLen := remainLen - next;
      msgs := HandOut(p, stripped, rawBuff, pos, data, frames);
      if remainLen > 0 && pos != [] {
        MoveDown(rawBuff, next, remainLen);
      }
      RestIsShorter(p, data);
      DeliverSize(p, stripped, frames);
    }

    /** do_recv_msg and recv_handler: one asynchronous read, then the parse of what it brought. */
    method ReceiveOnce(stream: bytes, at: nat, env: Env, turn: nat)
      returns (n: nat, turn': nat, starved: bool, ok: bool, msgs: seq<bytes>)
      requires Valid() && Settled() && at <= |stream|
      modifies this`curMsgLen, this`remainLen, rawBuff
      ensures Valid() && at + n <= |stream|
      ensures var r := ScanStream(p, old(Data()) + stream[at..at + n]);
              && msgs == Deliver(p, stripped, r.frames)
              && (starved ==> at + n == |stream| && !r.bad && ok)
              && (!starved ==> n > 0 && Data() == r.rest && ok == !r.bad && (ok ==> Settled()))
    {
      var max;
      n, turn', max := AsyncRead(stream, at, env, turn);
      starved := max > 0;
      var _, _ := ScanFront(p, rawBuff[..remainLen + n]);
      ok, msgs := true, [];
      if !starved {
        ok, msgs := ParseMsg(n);
      }
    }
  }

  /** A link's whole reception, up to the first rejection or until the stream has no more bytes:
      whatever the chunking, it delivers what the stream means. */
  method ReceiveAll(p: Params, stripped: bool, stream: bytes, env: Env) returns (msgs: seq<bytes>, rejected: bool)
    requires p.Valid()
    ensures msgs == Deliver(p, stripped, ScanStream(p, stream).frames)
    ensures rejected == ScanStream(p, stream).bad
  {
    hide CaughtUp, ScanStream, Deliver, HeadSettled, Head;
    var u := new Unpacker(p, stripped);
    var at, turn, starved := 0, 0, false;
    msgs, rejected := [], false;
    assert stream[..0] == [];
    NothingReceived(p, stripped);
    while !starved && !rejected
      invariant fresh(u.rawBuff) && u.p == p && u.stripped == stripped && u.Valid()
      invariant at <= |stream|
      invariant !rejected && !starved ==> u.Settled() && CaughtUp(p, stripped, stream[..at], u.Data(), msgs)
      invariant rejected || starved ==>
          msgs == Deliver(p, stripped, ScanStream(p, stream).frames) && rejected == ScanStream(p, stream).bad
      decreases |stream| - at, !starved
    {
      ghost var kept := u.Data();
      var n, ok, more;
      n, turn, starved, ok, more := u.ReceiveOnce(stream, at, env, turn);
      ReadMore(p, stripped, stream, at, n, kept, msgs, more, starved, ok);
      msgs, at, rejected := msgs + more, at + n, !ok;
    }
  }
}
