/** What the unpackers share: how bytes arrive, and the loop that finds frames in a buffer. */
module Reading {
  import opened Bytes
  import opened Framing

  /** An environment of boost::asio::async_read. The i-th partial read returns `cuts(i)` bytes if it
      may, and otherwise as many as it may. Some versions of Asio ask the completion condition once
      more when the offered buffer has just been filled (`asksWhenFull`). */
  datatype Env = Env(cuts: nat -> nat, asksWhenFull: bool) {
    function Take(i: nat, avail: nat): (k: nat)
      requires avail > 0
      ensures 1 <= k <= avail
    {
      if 1 <= cuts(i) <= avail then cuts(i) else avail
    }
  }

  function Min(a: nat, b: nat): nat { if a < b then a else b }

  /** cur_msg_len is not available, or is what the buffered head says. */
  ghost predicate HeadKnown(p: Params, data: bytes, cur: nat) {
    cur == p.npos || (|data| >= p.headLen && cur == Head(p, data))
  }

  /** cur_msg_len between two reads: available as soon as there is a whole head. */
  ghost predicate HeadSettled(p: Params, data: bytes, cur: nat) {
    cur == if |data| < p.headLen then p.npos else Head(p, data)
  }

  lemma ReadOn(kept: bytes, stream: bytes, at: nat, n: nat, k: nat)
    requires at + n + k <= |stream|
    ensures kept + stream[at..at + n] + stream[at + n..at + n + k] == kept + stream[at..at + n + k]
  {
    assert stream[at..at + n] + stream[at + n..at + n + k] == stream[at..at + n + k];
  }

  lemma HeadGrows(p: Params, data: bytes, chunk: bytes, cur: nat)
    requires HeadSettled(p, data, cur)
    ensures HeadKnown(p, data + chunk, cur)
  {
    if |data| >= p.headLen {
      assert (data + chunk)[..p.headLen] == data[..p.headLen];
    }
  }

  /** The (offset, length) pairs point at the given parts of the data. */
  ghost predicate Locates(data: bytes, pos: seq<(nat, nat)>, parts: seq<bytes>) {
    |pos| == |parts| &&
    forall i :: 0 <= i < |pos| ==>
      pos[i].0 + pos[i].1 <= |data| && data[pos[i].0..pos[i].0 + pos[i].1] == parts[i]
  }

  /** The data scans as the frames found so far, which `pos` locates one behind the other up to `at`,
      and whatever the bytes from `at` on scan as. */
  ghost predicate Progress(p: Params, data: bytes, pos: seq<(nat, nat)>, found: seq<bytes>, at: nat)
    requires p.Valid()
  {
    at <= |data| && Locates(data, pos, found) &&
    at == End(pos) && (pos != [] ==> at > 0) &&
    var t := ScanStream(p, data[at..]);
    ScanStream(p, data) == Scan(found + t.frames, t.rest, t.bad)
  }

  function End(pos: seq<(nat, nat)>): nat {
    if pos == [] then 0 else pos[|pos| - 1].0 + pos[|pos| - 1].1
  }

  lemma FoundFrame(p: Params, data: bytes, pos: seq<(nat, nat)>, found: seq<bytes>, at: nat, n: nat)
    requires p.Valid() && Progress(p, data, pos, found, at)
    requires at + p.headLen <= |data| && n == Head(p, data[at..]) && LegalLength(p, n) && at + n <= |data|
    ensures Progress(p, data, pos + [(at, n)], found + [data[at..at + n]], at + n)
  {
    hide ScanStream, DecodeHead;
    var s := data[at..];
    var f, t := s[..n], s[n..];
    assert f == data[at..at + n] && t == data[at + n..];
    assert f[..p.headLen] == s[..p.headLen] && s == f + t;
    ScanFrame(p, f, t);
    assert found + ([f] + ScanStream(p, t).frames) == found + [f] + ScanStream(p, t).frames;
  }

  lemma FoundNoMore(p: Params, data: bytes, pos: seq<(nat, nat)>, found: seq<bytes>, at: nat)
    requires p.Valid() && Progress(p, data, pos, found, at)
    requires Incomplete(p, data[at..]) || BadHead(p, data[at..])
    ensures ScanStream(p, data) == Scan(found, data[at..], BadHead(p, data[at..]))
  {
    var _, _ := ScanFront(p, data[at..]);
  }

  /** memcpy of a head out of the buffer, and ntohs or ntohl. */
  method ReadHead(p: Params, raw: array<byte>, at: nat, end: nat) returns (n: nat)
    requires p.Valid() && at + p.headLen <= end <= raw.Length
    ensures n == Head(p, raw[..end][at..])
    ensures p.headLen == 2 ==> n < p.npos
  {
    ghost var s := raw[..end][at..];
    assert raw[at..at + p.headLen] == s[..p.headLen];
    HeadBelowNpos(p, s);
    n := DecodeHead(raw[at..at + p.headLen]);
  }

  /** The loop of unpacker and flexible_unpacker over the messages stuck together in a buffer.
      On success or not it has found exactly the frames the buffer holds; it succeeds when there
      is at least one and what follows them is not a bad head. */
  method FindFrames(p: Params, raw: array<byte>, cur: nat, remain: nat)
    returns (ok: bool, pos: seq<(nat, nat)>, next: nat, cur': nat)
    requires p.Valid() && remain <= raw.Length
    requires HeadKnown(p, raw[..remain], cur)
    ensures next <= remain
    ensures var r := ScanStream(p, raw[..remain]);
            && Locates(raw[..remain], pos, r.frames)
            && raw[..remain][next..] == r.rest
            && ok == (r.frames != [] && !r.bad)
            && (!r.bad ==> HeadSettled(p, r.rest, cur'))
    ensures next == End(pos)
  {
    hide ScanStream;
    ghost var data := raw[..remain];
    ghost var found: seq<bytes> := [];
    var left := remain;
    ok, pos, next, cur' := true, [], 0, cur;
    assert data[0..] == data;
    while ok
      invariant left == remain - next && next <= remain
      invariant Progress(p, data, pos, found, next)
      invariant HeadKnown(p, data[next..], cur')
      invariant !ok ==> BadHead(p, data[next..])
      decreases left, cur' == p.npos, ok
    {
      if cur' != p.npos {
        if cur' > p.bufSize || cur' < p.headLen {
          ok := false;
        } else if left >= cur' {
          FoundFrame(p, data, pos, found, next, cur');
          found, pos := found + [data[next..next + cur']], pos + [(next, cur')];
          left := left - cur';
          next := next + cur';
          cur' := p.npos;
        } else {
          break;
        }
      } else if left >= p.headLen {
        cur' := ReadHead(p, raw, next, remain);
        if p.headLen == 4 && cur' == p.npos {
          ok := false;
        }
      } else {
        break;
      }
    }
    FoundNoMore(p, data, pos, found, next);
    if next == 0 {
      ok := false;
    }
  }

  /** The loop over the frames found: copies of all but the heartbeats. */
  method HandOut(p: Params, stripped: bool, raw: array<byte>, pos: seq<(nat, nat)>,
                 ghost data: bytes, ghost frames: seq<bytes>) returns (msgs: seq<bytes>)
    requires p.Valid() && |data| <= raw.Length && data == raw[..|data|]
    requires Locates(data, pos, frames)
    ensures msgs == Deliver(p, stripped, frames)
  {
    msgs := [];
    assert frames[..0] == [] && Deliver(p, stripped, []) == [];
    hide Deliver;
    for i := 0 to |pos|
      invariant msgs == Deliver(p, stripped, frames[..i])
    {
      DeliverAppend(p, stripped, frames[..i], [frames[i]]);
      DeliverOne(p, stripped, frames[i]);
      assert frames[..i + 1] == frames[..i] + [frames[i]];
      var (at, len) := pos[i];
      assert data[at..at + len] == frames[i];
      assert raw[at..at + len] == raw[..|data|][at..at + len];
      if len > p.headLen {
        if stripped {
          assert raw[at + p.headLen..at + len] == frames[i][p.headLen..];
          msgs := msgs + [raw[at + p.headLen..at + len]];
        } else {
          msgs := msgs + [raw[at..at + len]];
        }
      }
    }
    assert frames[..|pos|] == frames;
  }

  /** memmove of the bytes left behind to the front of the buffer. */
  method MoveDown(raw: array<byte>, from: nat, len: nat)
    requires from + len <= raw.Length
    modifies raw
    ensures raw[..len] == old(raw[from..from + len])
  {
    forall i | 0 <= i < len {
      raw[i] := raw[from + i];
    }
  }

  /** What is left behind a frame leaves room in the buffer. */
  lemma RestIsShorter(p: Params, data: bytes)
    requires p.Valid()
    ensures var r := ScanStream(p, data);
            && |Flatten(r.frames)| + |r.rest| == |data|
            && (!r.bad ==> Incomplete(p, r.rest))
            && (r.frames != [] ==> |r.rest| < |data|)
  {
    ScanDecomposes(p, data);
    var r := ScanStream(p, data);
    if r.frames != [] {
      assert IsFrame(p, r.frames[0]);
    }
  }

  /** A resized buffer: its contents are whatever the memory held. */
  method ArbitraryBytes(len: nat) returns (b: bytes)
    ensures |b| == len
  {
    ghost var zeros: bytes := seq(len, i => 0);
    assert |zeros| == len;
    b :| |b| == len;
  }

  /** A two-byte head can never be mistaken for "not available". */
  lemma HeadBelowNpos(p: Params, s: bytes)
    requires p.Valid() && |s| >= p.headLen
    ensures Head(p, s) <= p.npos
    ensures p.headLen == 2 ==> Head(p, s) < p.npos
  {
  }

  /** Bytes are never lost between reads: the stream so far scans as what was delivered plus what is kept. */
  lemma Absorb(p: Params, stream: bytes, at: nat, n: nat, kept: bytes)
    requires p.Valid() && at + n <= |stream|
    requires !ScanStream(p, stream[..at]).bad && ScanStream(p, stream[..at]).rest == kept
    ensures var x, z := ScanStream(p, stream[..at]), ScanStream(p, kept + stream[at..at + n]);
            ScanStream(p, stream[..at + n]) == Scan(x.frames + z.frames, z.rest, z.bad)
  {
    assert stream[..at + n] == stream[..at] + stream[at..at + n];
    ScanExtend(p, stream[..at], stream[at..at + n]);
  }

  /** An unpacker has caught up with the first `at` bytes of the stream: it keeps what they leave over
      and has delivered what they hold. */
  ghost predicate CaughtUp(p: Params, stripped: bool, received: bytes, kept: bytes, msgs: seq<bytes>)
    requires p.Valid()
  {
    var r := ScanStream(p, received);
    !r.bad && r.rest == kept && msgs == Deliver(p, stripped, r.frames)
  }

  lemma NothingReceived(p: Params, stripped: bool)
    requires p.Valid()
    ensures CaughtUp(p, stripped, [], [], [])
  {
  }

  /** What n more bytes mean to an unpacker that has caught up. */
  lemma CatchUp(p: Params, stripped: bool, stream: bytes, at: nat, n: nat, kept: bytes, msgs: seq<bytes>)
    requires p.Valid() && at + n <= |stream| && CaughtUp(p, stripped, stream[..at], kept, msgs)
    ensures var z, all := ScanStream(p, kept + stream[at..at + n]), ScanStream(p, stream[..at + n]);
            && all.bad == z.bad && all.rest == z.rest
            && Deliver(p, stripped, all.frames) == msgs + Deliver(p, stripped, z.frames)
            && (!z.bad ==> CaughtUp(p, stripped, stream[..at + n], z.rest, msgs + Deliver(p, stripped, z.frames)))
    ensures ScanStream(p, stream[..at + n]).bad ==>
              ScanStream(p, stream).bad && ScanStream(p, stream).frames == ScanStream(p, stream[..at + n]).frames
    ensures at + n == |stream| ==> stream[..at + n] == stream
  {
    Absorb(p, stream, at, n, kept);
    DeliverAppend(p, stripped, ScanStream(p, stream[..at]).frames, ScanStream(p, kept + stream[at..at + n]).frames);
    if ScanStream(p, stream[..at + n]).bad {
      BadForGood(p, stream, at + n);
    }
  }

  /** One read and parse more: the unpacker has caught up again, or it is at the end of what the stream means. */
  lemma ReadMore(p: Params, stripped: bool, stream: bytes, at: nat, n: nat, kept: bytes, msgs: seq<bytes>,
                 more: seq<bytes>, starved: bool, ok: bool)
    requires p.Valid() && at + n <= |stream| && CaughtUp(p, stripped, stream[..at], kept, msgs)
    requires var r := ScanStream(p, kept + stream[at..at + n]);
             && more == Deliver(p, stripped, r.frames) && ok == !r.bad
             && (starved ==> at + n == |stream| && ok)
    ensures !starved && ok ==>
              CaughtUp(p, stripped, stream[..at + n], ScanStream(p, kept + stream[at..at + n]).rest, msgs + more)
    ensures starved || !ok ==>
              msgs + more == Deliver(p, stripped, ScanStream(p, stream).frames) && ScanStream(p, stream).bad == !ok
  {
    hide ScanStream, Deliver, CaughtUp;
    CatchUp(p, stripped, stream, at, n, kept, msgs);
  }

  /** A stream that has gone bad stays bad, at the same frame. */
  lemma BadForGood(p: Params, stream: bytes, at: nat)
    requires p.Valid() && at <= |stream| && ScanStream(p, stream[..at]).bad
    ensures ScanStream(p, stream).bad && ScanStream(p, stream).frames == ScanStream(p, stream[..at]).frames
  {
    assert stream == stream[..at] + stream[at..];
    ScanExtend(p, stream[..at], stream[at..]);
  }
}
