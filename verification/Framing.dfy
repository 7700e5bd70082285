/** The length-prefixed wire format, as a meaning that no unpacker's buffering enters:
    which frames a byte stream holds, what is left over, and whether it has gone bad. */
module Framing {
  import opened Bytes

  /** ASCS_HEAD_LEN, ASCS_MSG_BUFFER_SIZE and (size_t) -1 of a build. */
  datatype Params = Params(headLen: HeadLen, bufSize: nat, npos: nat) {
    predicate Valid() {
      && IsSizeMax(npos)
      && headLen <= bufSize < npos
    }
  }

  predicate LegalLength(p: Params, n: nat) {
    p.headLen <= n <= p.bufSize
  }

  /** A complete frame: a legal length in its own head. */
  predicate IsFrame(p: Params, f: bytes) {
    p.headLen <= |f| <= p.bufSize && DecodeHead(f[..p.headLen]) == |f|
  }

  function Head(p: Params, s: bytes): (n: nat)
    requires |s| >= p.headLen
  {
    DecodeHead(s[..p.headLen])
  }

  /** What a byte stream means: its whole frames, the bytes after them, and whether those
      bytes begin with a head that no frame can have. */
  datatype Scan = Scan(frames: seq<bytes>, rest: bytes, bad: bool)

  function ScanStream(p: Params, s: bytes): (r: Scan)
    requires p.Valid()
    decreases |s|
  {
    if |s| < p.headLen then Scan([], s, false)
    else if !LegalLength(p, Head(p, s)) then Scan([], s, true)
    else if |s| < Head(p, s) then Scan([], s, false)
    else
      var t := ScanStream(p, s[Head(p, s)..]);
      Scan([s[..Head(p, s)]] + t.frames, t.rest, t.bad)
  }

  /** Nothing can be delivered from s yet, and nothing rejected. */
  predicate Incomplete(p: Params, s: bytes)
  {
    |s| < p.headLen || (LegalLength(p, Head(p, s)) && |s| < Head(p, s))
  }

  predicate BadHead(p: Params, s: bytes) {
    |s| >= p.headLen && !LegalLength(p, Head(p, s))
  }

  /** A frame at the front is scanned off, whatever follows it. */
  lemma ScanFrame(p: Params, f: bytes, s: bytes)
    requires p.Valid() && IsFrame(p, f)
    ensures var t := ScanStream(p, s);
            ScanStream(p, f + s) == Scan([f] + t.frames, t.rest, t.bad)
  {
    assert (f + s)[..p.headLen] == f[..p.headLen];
    assert Head(p, f + s) == |f|;
    assert (f + s)[|f|..] == s && (f + s)[..|f|] == f;
  }

  /** The front of a stream is a frame, not yet a frame, or never one. */
  lemma ScanFront(p: Params, s: bytes) returns (f: bytes, t: bytes)
    requires p.Valid()
    ensures BadHead(p, s) ==> ScanStream(p, s) == Scan([], s, true)
    ensures Incomplete(p, s) ==> ScanStream(p, s) == Scan([], s, false)
    ensures !BadHead(p, s) && !Incomplete(p, s) ==>
              IsFrame(p, f) && s == f + t && |t| < |s| && ScanStream(p, s).frames != []
  {
    f, t := [], [];
    if !BadHead(p, s) && !Incomplete(p, s) {
      f, t := s[..Head(p, s)], s[Head(p, s)..];
      assert f[..p.headLen] == s[..p.headLen];
    }
  }

  /** The frames and the rest are a decomposition of the stream... */
  lemma {:induction false} ScanDecomposes(p: Params, s: bytes)
    requires p.Valid()
    ensures var r := ScanStream(p, s);
            && s == Flatten(r.frames) + r.rest
            && (forall f <- r.frames :: IsFrame(p, f))
            && (if r.bad then BadHead(p, r.rest) else Incomplete(p, r.rest))
    decreases |s|
  {
    assert Flatten<byte>([]) == [];
    hide ScanStream, Flatten, BadHead, Incomplete, IsFrame;
    var f, t := ScanFront(p, s);
    if !BadHead(p, s) && !Incomplete(p, s) {
      ScanFrame(p, f, t);
      ScanDecomposes(p, t);
      var q := ScanStream(p, t);
      FlattenCons(f, q.frames);
      Assoc(f, Flatten(q.frames), q.rest);
    }
  }

  /** ... and the only one: any list of frames followed by bytes that hold no frame is what the scan finds. */
  lemma {:induction false} ScanUnique(p: Params, frames: seq<bytes>, rest: bytes)
    requires p.Valid()
    requires forall f <- frames :: IsFrame(p, f)
    requires Incomplete(p, rest) || BadHead(p, rest)
    ensures ScanStream(p, Flatten(frames) + rest) == Scan(frames, rest, BadHead(p, rest))
  {
    assert Flatten<byte>([]) == [];
    hide ScanStream, Flatten, BadHead, Incomplete, IsFrame;
    if frames == [] {
      assert Flatten(frames) + rest == rest;
      var _, _ := ScanFront(p, rest);
      OneFate(p, rest);
    } else {
      var f, t := frames[0], Flatten(frames[1..]) + rest;
      assert frames == [f] + frames[1..];
      FlattenCons(f, frames[1..]);
      assert Flatten(frames) + rest == f + t;
      ScanUnique(p, frames[1..], rest);
      ScanFrame(p, f, t);
    }
  }

  lemma OneFate(p: Params, s: bytes)
    ensures !(BadHead(p, s) && Incomplete(p, s))
  {
  }

  /** Scanning may stop anywhere and go on from what was left: this is what makes chunking irrelevant. */
  lemma ScanExtend(p: Params, a: bytes, b: bytes)
    requires p.Valid()
    ensures var x, y := ScanStream(p, a), ScanStream(p, a + b);
            if x.bad then y.bad && y.frames == x.frames
            else var z := ScanStream(p, x.rest + b); y == Scan(x.frames + z.frames, z.rest, z.bad)
  {
    var x := ScanStream(p, a);
    ScanDecomposes(p, a);
    if x.bad {
      BadHeadStays(p, x.rest, b);
      Regroup(a, b, Flatten(x.frames), x.rest, [], x.rest + b);
      ScanUnique(p, x.frames, x.rest + b);
    } else {
      var z := ScanStream(p, x.rest + b);
      ScanDecomposes(p, x.rest + b);
      FlattenAppend(x.frames, z.frames);
      Regroup(a, b, Flatten(x.frames), x.rest, Flatten(z.frames), z.rest);
      ScanUnique(p, x.frames + z.frames, z.rest);
    }
  }

  lemma BadHeadStays(p: Params, a: bytes, b: bytes)
    requires BadHead(p, a)
    ensures BadHead(p, a + b)
  {
    assert (a + b)[..p.headLen] == a[..p.headLen];
  }

  lemma Regroup(a: bytes, b: bytes, f: bytes, r: bytes, g: bytes, q: bytes)
    requires a == f + r && r + b == g + q
    ensures a + b == f + g + q
    ensures g == [] ==> a + b == f + q
  {
    assert a + b == f + (r + b);
  }

  /** What is handed to the user: frames that are only a head (heartbeats) are dropped, and
      the head goes when the unpacker strips. */
  function Deliver(p: Params, stripped: bool, frames: seq<bytes>): (msgs: seq<bytes>)
  {
    if frames == [] then []
    else if |frames[0]| <= p.headLen then Deliver(p, stripped, frames[1..])
    else [if stripped then frames[0][p.headLen..] else frames[0]] + Deliver(p, stripped, frames[1..])
  }

  lemma {:induction false} DeliverAppend(p: Params, stripped: bool, a: seq<bytes>, b: seq<bytes>)
    ensures Deliver(p, stripped, a + b) == Deliver(p, stripped, a) + Deliver(p, stripped, b)
  {
    if a == [] {
      assert a + b == b;
    } else {
      assert (a + b)[1..] == a[1..] + b;
      DeliverAppend(p, stripped, a[1..], b);
    }
  }

  lemma DeliverOne(p: Params, stripped: bool, f: bytes)
    ensures Deliver(p, stripped, [f]) ==
            if |f| <= p.headLen then [] else [if stripped then f[p.headLen..] else f]
  {
    assert [f][1..] == [];
    assert Deliver(p, stripped, [f][1..]) == [];
  }

  /** Delivering never hands out more bytes than the frames have. */
  lemma {:induction false} DeliverSize(p: Params, stripped: bool, frames: seq<bytes>)
    ensures |Flatten(Deliver(p, stripped, frames))| <= |Flatten(frames)|
  {
    if frames != [] {
      DeliverSize(p, stripped, frames[1..]);
      var d := Deliver(p, stripped, frames);
      if |frames[0]| > p.headLen {
        assert d[1..] == Deliver(p, stripped, frames[1..]);
      }
    }
  }
}
