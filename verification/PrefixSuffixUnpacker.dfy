/** The prefix/suffix unpacker: it searches for the suffix in one buffer, read as much as possible. */
module PrefixSuffixUnpacker {
  import opened Bytes
  import opened Framing
  import opened Packing
  import opened PrefixSuffix
  import opened Reading
  import opened Wrappers

  /** cur_msg_len: not available, 0 once the prefix has been seen, or the length of the message in front. */
  predicate Known(m: Marks, data: bytes, cur: nat) {
    || cur == m.npos
    || (cur == 0 && |m.prefix| <= |data| && data[..|m.prefix|] == m.prefix)
    || (cur > 0 && Peek(m, data) == Message(cur))
  }

  lemma NotYetKnown(m: Marks, data: bytes)
    ensures Known(m, data, m.npos)
  {
  }

  lemma KnownStays(m: Marks, data: bytes, chunk: bytes, cur: nat)
    requires m.Valid() && Known(m, data, cur)
    ensures Known(m, data + chunk, cur)
  {
    if cur > 0 && cur != m.npos {
      PeekStays(m, data, chunk);
    } else if cur == 0 {
      assert (data + chunk)[..|m.prefix|] == data[..|m.prefix|];
    }
    hide Peek;
  }

  /** What peek_msg finds once the prefix is known not to be wrong. */
  lemma PeekPrefixed(m: Marks, data: bytes)
    requires m.Valid() && |data| <= m.bufSize && (|data| >= |m.prefix| ==> data[..|m.prefix|] == m.prefix)
    ensures Peek(m, data) ==
            if |data| <= m.MinLen() then More
            else match Find(data, m.suffix, |m.prefix|)
              case Some(end) => Message(end + |m.suffix|)
              case None => if |data| == m.bufSize then Bad else More
    ensures Peek(m, data).Message? ==> m.MinLen() <= Peek(m, data).len < m.npos
  {
    PeekBounds(m, data);
  }

  class Unpacker {
    const m: Marks
    var stripped: bool
    const rawBuff: array<byte>
    var curMsgLen: nat
    var remainLen: nat

    ghost predicate Valid()
      reads this, rawBuff
    {
      m.Valid() && rawBuff.Length == m.bufSize && remainLen <= m.bufSize
    }

    /** The bytes received and not yet consumed. */
    ghost function Data(): bytes
      reads this, rawBuff
      requires Valid()
    {
      rawBuff[..remainLen]
    }

    /** Between two reads: no message waits, and the buffer has room. */
    ghost predicate Settled()
      reads this, rawBuff
      requires Valid()
    {
      !Peek(m, Data()).Message? && Known(m, Data(), curMsgLen) && remainLen < m.bufSize
    }

    constructor (m: Marks, stripped: bool)
      requires m.Valid()
      ensures Valid() && Settled() && Data() == [] && this.m == m && this.stripped == stripped
      ensures fresh(rawBuff)
    {
      this.m := m;
      this.stripped := stripped;
      rawBuff := new byte[m.bufSize];
      curMsgLen := m.npos;
      remainLen := 0;
    }

    method Reset()
      requires Valid()
      modifies this
      ensures Valid() && Settled() && Data() == [] && stripped == old(stripped)
    {
      curMsgLen := m.npos;
      remainLen := 0;
    }

    lemma SlicesAgree(at: nat, dataLen: nat, i: nat)
      requires at + dataLen <= rawBuff.Length && i + |m.suffix| <= dataLen
      ensures rawBuff[at + i..at + i + |m.suffix|] == rawBuff[..at + dataLen][at..][i..i + |m.suffix|]
    {
      var data := rawBuff[..at + dataLen][at..];
      var a, b := rawBuff[at + i..at + i + |m.suffix|], data[i..i + |m.suffix|];
      assert forall j :: 0 <= j < |a| ==> a[j] == data[i + j] == b[j];
    }

    /** memmem from an offset on in the dataLen bytes of the buffer that begin at `at`. */
    method Memmem(at: nat, dataLen: nat, from: nat) returns (end: Option<nat>)
      requires m.Valid() && from <= dataLen && at + dataLen <= rawBuff.Length
      ensures end == Find(rawBuff[..at + dataLen][at..], m.suffix, from)
    {
      ghost var data := rawBuff[..at + dataLen][at..];
      end := None;
      if from + |m.suffix| <= dataLen {
        var i := from;
        while i + |m.suffix| <= dataLen
          invariant from <= i && Find(data, m.suffix, from) == Find(data, m.suffix, i)
        {
          SlicesAgree(at, dataLen, i);
          if rawBuff[at + i..at + i + |m.suffix|] == m.suffix {
            return Some(i);
          }
          i := i + 1;
        }
      }
    }

    /** peek_msg of dataLen bytes in the buffer from `at` on: 0 stops the reading. */
    method PeekMsg(dataLen: nat, at: nat) returns (r: nat)
      requires m.Valid() && rawBuff.Length == m.bufSize && at + dataLen <= m.bufSize
      requires Known(m, rawBuff[..at + dataLen][at..], curMsgLen)
      modifies this`curMsgLen
      ensures var data := rawBuff[..at + dataLen][at..];
              && Known(m, data, curMsgLen)
              && r == (if Peek(m, data) == More then m.bufSize else 0)
              && (Peek(m, data).Message? <==> curMsgLen != m.npos && curMsgLen != 0)
              && (Peek(m, data).Message? ==> Peek(m, data) == Message(curMsgLen))
    {
      ghost var data := rawBuff[..at + dataLen][at..];
      PeekBounds(m, data);
      if curMsgLen == m.npos {
        if dataLen >= |m.prefix| {
          assert rawBuff[at..at + |m.prefix|] == data[..|m.prefix|];
          if rawBuff[at..at + |m.prefix|] != m.prefix {
            return 0;
          }
          curMsgLen := 0;
        }
      } else if curMsgLen != 0 {
        return 0;
      }
      r := SearchSuffix(dataLen, at);
    }

    /** The second half of peek_msg: the prefix is in front, or still incomplete. */
    method SearchSuffix(dataLen: nat, at: nat) returns (r: nat)
      requires m.Valid() && rawBuff.Length == m.bufSize && at + dataLen <= m.bufSize
      requires var data := rawBuff[..at + dataLen][at..];
               if dataLen >= |m.prefix| then curMsgLen == 0 && data[..|m.prefix|] == m.prefix else curMsgLen == m.npos
      modifies this`curMsgLen
      ensures var data := rawBuff[..at + dataLen][at..];
              && Known(m, data, curMsgLen)
              && r == (if Peek(m, data) == More then m.bufSize else 0)
              && (Peek(m, data).Message? <==> curMsgLen != m.npos && curMsgLen != 0)
              && (Peek(m, data).Message? ==> Peek(m, data) == Message(curMsgLen))
    {
      ghost var data := rawBuff[..at + dataLen][at..];
      PeekPrefixed(m, data);
      hide Find, Peek;
      r := m.bufSize;
      if dataLen > m.MinLen() {
        var end := Memmem(at, dataLen, |m.prefix|);
        if end.Some? {
          curMsgLen := end.value + |m.suffix|;
          return 0;
        } else if dataLen >= m.bufSize {
          return 0;
        }
      }
    }

    /** Stops the read exactly when the bytes at hand hold a message or can never hold one. */
    method CompletionCondition(ec: bool, n: nat) returns (r: nat)
      requires Valid() && remainLen + n <= m.bufSize
      requires Known(m, rawBuff[..remainLen + n], curMsgLen)
      modifies this`curMsgLen
      ensures Known(m, rawBuff[..remainLen + n], curMsgLen)
      ensures r == if ec || Peek(m, rawBuff[..remainLen + n]) != More then 0 else m.bufSize
    {
      if ec {
        return 0;
      }
      assert rawBuff[..0 + (remainLen + n)][0..] == rawBuff[..remainLen + n];
      r := PeekMsg(remainLen + n, 0);
    }

    /** prepare_next_recv: the free part of the buffer, as its first index and its length. */
    method PrepareNextRecv() returns (at: nat, size: nat)
      requires Valid() && Settled()
      ensures at == remainLen && at + size == m.bufSize && size > 0
    {
      at, size := remainLen, m.bufSize - remainLen;
    }

    /** A read in progress: the buffer holds what it held before and the n bytes read since, and the completion
        condition's last answer says whether they hold a message or never will. */
    ghost predicate Underway(kept: bytes, stream: bytes, at: nat, n: nat, max: nat)
      reads this, rawBuff
    {
      Valid() && remainLen + n <= m.bufSize && at + n <= |stream| &&
      var data := rawBuff[..remainLen + n];
      && data == kept + stream[at..at + n]
      && Known(m, data, curMsgLen)
      && max == (if Peek(m, data) == More then m.bufSize else 0)
      && (max > 0 ==> |data| < m.bufSize)
    }

    /** boost::asio::async_read into the buffer: it goes on until the completion condition stops it,
        or waits for bytes that do not come (max > 0). */
    method AsyncRead(stream: bytes, at: nat, env: Env, turn: nat) returns (n: nat, turn': nat, max: nat)
      requires Valid() && Settled() && at <= |stream|
      modifies rawBuff, this`curMsgLen
      ensures Underway(old(Data()), stream, at, n, max)
      ensures max > 0 ==> at + n == |stream|
      ensures if old(Peek(m, Data())) == Bad then n == 0 && max == 0 else n > 0 || max > 0
    {
      hide Underway, Peek;
      ghost var kept := Data();
      n, turn' := 0, turn;
      var start, size;
      start, size, max := BeginRead(stream, at);
      while max > 0 && at + n < |stream|
        invariant Underway(kept, stream, at, n, max) && at + n <= |stream| && n <= size
        invariant start == remainLen && start + size == m.bufSize
        invariant if Peek(m, kept) == Bad then n == 0 && max == 0 else n > 0 || max > 0
        decreases size - n, max
      {
        var k;
        k, max := ReadAndAsk(stream, at, n, size, max, env, turn', kept);
        n, turn' := n + k, turn' + 1;
      }
    }

    /** Before the first partial read the completion condition is asked about what was left over. */
    method BeginRead(stream: bytes, at: nat) returns (start: nat, size: nat, max: nat)
      requires Valid() && Settled() && at <= |stream|
      modifies this`curMsgLen
      ensures start == remainLen && start + size == m.bufSize && size > 0
      ensures max == if old(Peek(m, Data())) == More then m.bufSize else 0
      ensures Underway(old(Data()), stream, at, 0, max)
    {
      hide Peek;
      assert stream[at..at] == [] && Data() + [] == Data();
      start, size := PrepareNextRecv();
      max := CompletionCondition(false, 0);
    }

    /** One turn of async_read: a partial read, then the completion condition. */
    method ReadAndAsk(stream: bytes, at: nat, n: nat, size: nat, max: nat, env: Env, turn: nat, ghost kept: bytes)
      returns (k: nat, max': nat)
      requires Underway(kept, stream, at, n, max) && remainLen + size == m.bufSize
      requires max > 0 && at + n < |stream|
      modifies rawBuff, this`curMsgLen
      ensures k > 0 && at + n + k <= |stream| && n + k <= size
      ensures Underway(kept, stream, at, n + k, max')
    {
      hide Peek;
      k := PartialRead(stream, at, n, Min(max, size - n), env, turn, kept);
      PeekBounds(m, rawBuff[..remainLen + (n + k)]);
      max' := 0;
      if n + k < size || env.asksWhenFull {
        max' := CompletionCondition(false, n + k);
      }
    }

    /** One partial read: the bytes land behind those already there. */
    method PartialRead(stream: bytes, at: nat, n: nat, max: nat, env: Env, turn: nat, ghost kept: bytes)
      returns (k: nat)
      requires Valid() && remainLen + n + max <= m.bufSize && 0 < max && at + n < |stream|
      requires rawBuff[..remainLen + n] == kept + stream[at..at + n] && Known(m, rawBuff[..remainLen + n], curMsgLen)
      modifies rawBuff
      ensures 1 <= k <= max && at + n + k <= |stream|
      ensures rawBuff[..remainLen + (n + k)] == kept + stream[at..at + n + k]
      ensures Known(m, rawBuff[..remainLen + (n + k)], curMsgLen)
    {
      hide Peek;
      k := env.Take(turn, Min(max, |stream| - (at + n)));
      var chunk := stream[at + n..at + n + k];
      KnownStays(m, rawBuff[..remainLen + n], chunk, curMsgLen);
      ReadOn(kept, stream, at, n, k);
      ghost var front := rawBuff[..remainLen + n];
      forall i | 0 <= i < |chunk| {
        rawBuff[remainLen + n + i] := chunk[i];
      }
      assert rawBuff[..remainLen + (n + k)] == front + chunk;
    }

    /** Hands out every message at hand except heartbeats and keeps the bytes behind them; it fails when there is none. */
    method ParseMsg(n: nat) returns (ok: bool, msgs: seq<bytes>)
      requires Valid() && remainLen + n <= m.bufSize
      requires Known(m, rawBuff[..remainLen + n], curMsgLen)
      modifies this`curMsgLen, this`remainLen, rawBuff
      ensures Valid() && Known(m, Data(), curMsgLen)
      ensures var r := ScanMarks(m, old(rawBuff[..remainLen + n]));
              && msgs == DeliverMarks(m, stripped, r.frames)
              && ok == (r.frames != [])
              && Data() == r.rest
    {
      hide ScanMarks, Peek, DeliverMarks, Known, Found;
      remainLen := remainLen + n;
      ghost var data := rawBuff[..remainLen];
      var next;
      next, msgs := TakeMsgs(data);
      ok := next != 0;
      if ok && remainLen > 0 {
        MoveDown(rawBuff, next, remainLen);
      }
      assert Data() == data[next..];
    }

    /** The loop of parse_msg. */
    method TakeMsgs(ghost data: bytes) returns (next: nat, msgs: seq<bytes>)
      requires Valid() && data == rawBuff[..remainLen] && Known(m, data, curMsgLen)
      modifies this`curMsgLen, this`remainLen
      ensures next + remainLen == |data|
      ensures var r := ScanMarks(m, data);
              && msgs == DeliverMarks(m, stripped, r.frames)
              && (next == 0 <==> r.frames == [])
              && data[next..] == r.rest
              && Known(m, data[next..], curMsgLen)
    {
      hide ScanMarks, Peek, DeliverMarks, Known, Found;
      ghost var found: seq<bytes> := [];
      next, msgs := 0, [];
      DeliverNothing(m, stripped);
      assert data[0..] == data;
      FoundNothing(data);
      var r := PeekMsg(remainLen, next);
      while r == 0 && curMsgLen != m.npos && curMsgLen != 0
        invariant Taking(data, found, next, msgs, r)
        decreases remainLen
      {
        next, msgs, r, found := TakeOne(data, found, next, msgs);
      }
      FoundAll(data, found, next);
    }

    /** Between two turns of the loop: what has been found, and what the last peek said about what follows. */
    ghost predicate Taking(data: bytes, found: seq<bytes>, next: nat, msgs: seq<bytes>, r: nat)
      reads this, rawBuff
    {
      && m.Valid() && rawBuff.Length == m.bufSize && next + remainLen == |data| <= m.bufSize && data == rawBuff[..|data|]
      && Found(data, found, next) && (next == 0 <==> found == [])
      && msgs == DeliverMarks(m, stripped, found)
      && Known(m, data[next..], curMsgLen)
      && r == (if Peek(m, data[next..]) == More then m.bufSize else 0)
      && (Peek(m, data[next..]).Message? <==> curMsgLen != m.npos && curMsgLen != 0)
      && (Peek(m, data[next..]).Message? ==> Peek(m, data[next..]) == Message(curMsgLen))
    }

    /** A message is copied out, but not a heartbeat. */
    method HandOutOne(next: nat, len: nat, msgs: seq<bytes>) returns (msgs': seq<bytes>)
      requires m.MinLen() <= len && next + len <= rawBuff.Length
      ensures msgs' == msgs + DeliverMarks(m, stripped, [rawBuff[next..next + len]])
    {
      hide DeliverMarks;
      DeliverFrame(m, stripped, rawBuff[next..next + len]);
      msgs' := msgs;
      if len > m.MinLen() {
        var msg := CopyOut(next, len);
        msgs' := msgs + [msg];
      }
    }

    method TakeOne(ghost data: bytes, ghost found: seq<bytes>, next: nat, msgs: seq<bytes>)
      returns (next': nat, msgs': seq<bytes>, r: nat, ghost found': seq<bytes>)
      requires Taking(data, found, next, msgs, 0) && curMsgLen != m.npos && curMsgLen != 0
      modifies this`curMsgLen, this`remainLen
      ensures Taking(data, found', next', msgs', r) && remainLen < old(remainLen)
    {
      hide ScanMarks, Peek, DeliverMarks, Known, Found;
      FoundMessage(data, found, next, curMsgLen);
      ghost var f := data[next..next + curMsgLen];
      DeliverMarksAppend(m, stripped, found, [f]);
      assert rawBuff[next..next + curMsgLen] == f;
      msgs' := HandOutOne(next, curMsgLen, msgs);
      found' := found + [f];
      remainLen := remainLen - curMsgLen;
      next' := next + curMsgLen;
      curMsgLen := m.npos;
      NotYetKnown(m, data[next'..]);
      r := PeekMsg(remainLen, next');
    }

    /** do_recv_msg and recv_handler: one asynchronous read, then the parse of what it brought. A read that ends without
        a byte, like a parse without a message, is the end of the reception. */
    method ReceiveOnce(stream: bytes, at: nat, env: Env, turn: nat)
      returns (n: nat, turn': nat, starved: bool, ok: bool, msgs: seq<bytes>, ghost rest: bytes)
      requires Valid() && Settled() && at <= |stream|
      modifies this`curMsgLen, this`remainLen, rawBuff
      ensures Valid() && at + n <= |stream|
      ensures Received(m, stripped, old(Data()), stream[at..at + n], msgs, rest)
      ensures if starved then at + n == |stream| && ok && Peek(m, rest) == More
              else Data() == rest && (if ok then n > 0 && Settled() else Peek(m, rest) == Bad)
    {
      hide ScanMarks, Peek, DeliverMarks;
      ghost var kept := Data();
      var max;
      n, turn', max := AsyncRead(stream, at, env, turn);
      ghost var data := rawBuff[..remainLen + n];
      starved, ok, msgs, rest := max > 0, true, [], data;
      DeliverNothing(m, stripped);
      MarksDecompose(m, data);
      if starved {
        ScanNoMessage(m, data);
      } else if n == 0 {
        ok := false;
        assert data == kept;
      } else {
        ok, msgs := ParseMsg(n);
        rest := Data();
        PeekBounds(m, rest);
        if !ok {
          FlattenNone();
          assert data == [] + rest == rest;
        }
      }
    }

    method CopyOut(at: nat, len: nat) returns (msg: bytes)
      requires m.MinLen() <= len && at + len <= rawBuff.Length
      ensures var f := rawBuff[at..at + len]; msg == if stripped then f[|m.prefix|..|f| - |m.suffix|] else f
    {
      var f := rawBuff[at..at + len];
      if stripped {
        msg := rawBuff[at + |m.prefix|..at + len - |m.suffix|];
        assert forall j :: 0 <= j < |msg| ==> msg[j] == f[|m.prefix| + j];
      } else {
        msg := f;
      }
    }

    ghost predicate Found(data: bytes, found: seq<bytes>, next: nat)
      requires m.Valid()
    {
      next <= |data| &&
      var t := ScanMarks(m, data[next..]);
      ScanMarks(m, data) == Scan(found + t.frames, t.rest, t.bad)
    }

    lemma FoundNothing(data: bytes)
      requires m.Valid()
      ensures Found(data, [], 0)
    {
      assert data[0..] == data && [] + ScanMarks(m, data).frames == ScanMarks(m, data).frames;
    }

    lemma FoundAll(data: bytes, found: seq<bytes>, next: nat)
      requires m.Valid() && Found(data, found, next) && !Peek(m, data[next..]).Message?
      ensures ScanMarks(m, data) == Scan(found, data[next..], Peek(m, data[next..]) == Bad)
    {
      ScanNoMessage(m, data[next..]);
      assert found + [] == found;
      hide ScanMarks, Peek;
    }

    lemma FoundMessage(data: bytes, found: seq<bytes>, next: nat, len: nat)
      requires m.Valid() && Found(data, found, next) && Peek(m, data[next..]) == Message(len)
      ensures 0 < len && next + len <= |data| && m.MinLen() <= len
      ensures Found(data, found + [data[next..next + len]], next + len)
    {
      ScanMessage(m, data[next..], len);
      PeekBounds(m, data[next..]);
      hide ScanMarks, Peek;
      assert data[next..][..len] == data[next..next + len] && data[next..][len..] == data[next + len..];
      Assoc(found, [data[next..next + len]], ScanMarks(m, data[next + len..]).frames);
    }
  }

  /** An unpacker has caught up with the bytes received: it keeps what they leave over and has delivered what they
      hold. */
  ghost predicate UpToDate(m: Marks, stripped: bool, received: bytes, kept: bytes, msgs: seq<bytes>)
    requires m.Valid()
  {
    var r := ScanMarks(m, received);
    r.rest == kept && msgs == DeliverMarks(m, stripped, r.frames) && r.bad == (Peek(m, kept) == Bad)
  }

  /** What one read does: nothing more once the front can never be a message. */
  ghost predicate Received(m: Marks, stripped: bool, kept: bytes, chunk: bytes, more: seq<bytes>, rest: bytes)
    requires m.Valid()
  {
    if Peek(m, kept) == Bad then chunk == [] && more == [] && rest == kept
    else var r := ScanMarks(m, kept + chunk); more == DeliverMarks(m, stripped, r.frames) && rest == r.rest
  }

  lemma BringUpToDate(m: Marks, stripped: bool, stream: bytes, at: nat, n: nat, kept: bytes, msgs: seq<bytes>,
                      more: seq<bytes>, rest: bytes)
    requires m.Valid() && at + n <= |stream| && UpToDate(m, stripped, stream[..at], kept, msgs)
    requires Received(m, stripped, kept, stream[at..at + n], more, rest)
    ensures UpToDate(m, stripped, stream[..at + n], rest, msgs + more)
  {
    hide ScanMarks, Peek, DeliverMarks;
    assert stream[..at] + stream[at..at + n] == stream[..at + n];
    if Peek(m, kept) == Bad {
      assert msgs + more == msgs && stream[..at] == stream[..at + n];
    } else {
      MarksExtend(m, stream[..at], stream[at..at + n]);
      DeliverMarksAppend(m, stripped, ScanMarks(m, stream[..at]).frames, ScanMarks(m, kept + stream[at..at + n]).frames);
      MarksDecompose(m, stream[..at + n]);
    }
  }

  /** The rest of a stream that has gone bad changes nothing. */
  lemma BadForGood(m: Marks, stripped: bool, stream: bytes, at: nat, kept: bytes, msgs: seq<bytes>)
    requires m.Valid() && at <= |stream| && UpToDate(m, stripped, stream[..at], kept, msgs)
    requires Peek(m, kept) == Bad || at == |stream|
    ensures var r := ScanMarks(m, stream);
            msgs == DeliverMarks(m, stripped, r.frames) && r.bad == (Peek(m, kept) == Bad)
  {
    hide Peek, DeliverMarks;
    if at == |stream| {
      assert stream[..at] == stream;
    } else {
      MarksExtend(m, stream[..at], stream[at..]);
      assert stream[..at] + stream[at..] == stream;
    }
  }

  datatype Outcome = Reading | Starved | Stuck

  /** The reception so far: all bytes read are accounted for, and why it has ended if it has. */
  ghost predicate Going(u: Unpacker, stream: bytes, at: nat, left: bytes, msgs: seq<bytes>, so: Outcome)
    reads u, u.rawBuff
  {
    u.Valid() && at <= |stream| && UpToDate(u.m, u.stripped, stream[..at], left, msgs) &&
    match so
    case Reading => u.Settled() && u.Data() == left
    case Starved => at == |stream| && Peek(u.m, left) == More
    case Stuck => Peek(u.m, left) == Bad
  }

  method ReceiveMore(u: Unpacker, stream: bytes, at: nat, env: Env, turn: nat, ghost left: bytes, msgs: seq<bytes>)
    returns (at': nat, turn': nat, ghost left': bytes, msgs': seq<bytes>, so: Outcome)
    requires Going(u, stream, at, left, msgs, Reading)
    modifies u`curMsgLen, u`remainLen, u.rawBuff
    ensures Going(u, stream, at', left', msgs', so) && at <= at' && (so == Reading ==> at < at')
  {
    hide UpToDate, Received, ScanMarks, DeliverMarks, Peek, Known;
    var n, starved, ok, more;
    n, turn', starved, ok, more, left' := u.ReceiveOnce(stream, at, env, turn);
    BringUpToDate(u.m, u.stripped, stream, at, n, left, msgs, more, left');
    at', msgs', so := at + n, msgs + more, if starved then Starved else if ok then Reading else Stuck;
  }

  /** A link's whole reception, until the stream has no more bytes or a read ends without a message or without a byte:
      whatever the chunking, it delivers what the stream means. */
  method ReceiveAll(m: Marks, stripped: bool, stream: bytes, env: Env) returns (msgs: seq<bytes>, stuck: bool)
    requires m.Valid()
    ensures msgs == DeliverMarks(m, stripped, ScanMarks(m, stream).frames)
    ensures stuck == ScanMarks(m, stream).bad
  {
    hide UpToDate, ScanMarks, DeliverMarks, Peek;
    var u := new Unpacker(m, stripped);
    var at, turn, so := 0, 0, Reading;
    msgs := [];
    assert stream[..0] == [];
    NothingReceived(m, stripped);
    ghost var left: bytes := [];
    while so == Reading
      invariant fresh(u) && fresh(u.rawBuff) && u.m == m && u.stripped == stripped
      invariant Going(u, stream, at, left, msgs, so)
      decreases |stream| - at, so == Reading
    {
      at, turn, left, msgs, so := ReceiveMore(u, stream, at, env, turn, left, msgs);
    }
    BadForGood(m, stripped, stream, at, left, msgs);
    stuck := so == Stuck;
  }

  lemma NothingReceived(m: Marks, stripped: bool)
    requires m.Valid()
    ensures UpToDate(m, stripped, [], [], [])
  {
  }

  lemma DeliverNothing(m: Marks, stripped: bool)
    ensures DeliverMarks(m, stripped, []) == []
  {
  }

  lemma DeliverFrame(m: Marks, stripped: bool, f: bytes)
    requires m.MinLen() <= |f|
    ensures DeliverMarks(m, stripped, [f]) ==
            if |f| == m.MinLen() then [] else [if stripped then f[|m.prefix|..|f| - |m.suffix|] else f]
  {
    assert DeliverMarks(m, stripped, [f][1..]) == [];
  }

  /** Packed messages whose bodies are clean, read in any chunks: the first of them arrive in order, and all of them once
      the whole stream has. */
  method ReceiveMarked(m: Marks, ghost forms: seq<Form>, got: bytes, env: Env) returns (msgs: seq<bytes>, stuck: bool)
    requires m.Valid() && AllClean(m, forms) && got <= MarkedStream(m, forms)
    ensures !stuck && msgs <= Payload(forms)
    ensures got == MarkedStream(m, forms) ==> msgs == Payload(forms)
  {
    CutStreamScans(m, forms, got);
    MarkedStreamScans(m, forms);
    hide ScanMarks, DeliverMarks, MarkedStream, Payload, AllClean;
    msgs, stuck := ReceiveAll(m, true, got, env);
  }
}
