/** The length-prefixed packer: every form of a message becomes one frame, as one string or as several. */
module Packing {
  import opened Bytes
  import opened Framing
  import opened Wrappers

  /** What a caller may hand to send_msg: buffers (a null pointer is None), one message, two, or a list. */
  datatype Form =
    | Buffers(bufs: seq<Option<bytes>>)
    | One(msg: bytes)
    | Two(msg1: bytes, msg2: bytes)
    | Many(msgs: seq<bytes>)

  function Present(bufs: seq<Option<bytes>>): seq<bytes> {
    if bufs == [] then []
    else (if bufs[0].Some? then [bufs[0].value] else []) + Present(bufs[1..])
  }

  lemma {:induction false} PresentAppend(a: seq<Option<bytes>>, b: seq<Option<bytes>>)
    ensures Present(a + b) == Present(a) + Present(b)
  {
    if a == [] {
      assert a + b == b;
    } else {
      assert (a + b)[1..] == a[1..] + b;
      PresentAppend(a[1..], b);
    }
  }

  lemma BodyGrows(bufs: seq<Option<bytes>>, i: nat)
    requires i < |bufs|
    ensures Flatten(Present(bufs[..i + 1])) ==
            Flatten(Present(bufs[..i])) + (if bufs[i].Some? then bufs[i].value else [])
    ensures |Flatten(Present(bufs[..i + 1]))| <= |Flatten(Present(bufs))|
  {
    var last := bufs[i..i + 1];
    assert bufs[..i + 1] == bufs[..i] + last;
    PresentAppend(bufs[..i], last);
    assert Present(last) == if bufs[i].Some? then [bufs[i].value] else [] by {
      assert last[1..] == [];
    }
    FlattenAppend(Present(bufs[..i]), Present(last));
    if bufs[i].Some? {
      FlattenOne(bufs[i].value);
    }
    assert bufs == bufs[..i + 1] + bufs[i + 1..];
    PresentAppend(bufs[..i + 1], bufs[i + 1..]);
    FlattenAppend(Present(bufs[..i + 1]), Present(bufs[i + 1..]));
  }

  function Body(form: Form): bytes {
    match form
    case Buffers(bufs) => Flatten(Present(bufs))
    case One(msg) => msg
    case Two(msg1, msg2) => msg1 + msg2
    case Many(msgs) => Flatten(msgs)
  }

  function FrameOf(p: Params, body: bytes): (f: bytes)
  {
    EncodeHead(p.headLen + |body|, p.headLen) + body
  }

  /** The frame carries its own length exactly when that length is in the head type's range. */
  lemma {:induction false} FrameOfIsFrame(p: Params, body: bytes)
    requires p.Valid() && |body| <= p.bufSize - p.headLen
    ensures IsFrame(p, FrameOf(p, body)) <==> p.headLen + |body| < HeadRange(p.headLen)
  {
    var f := FrameOf(p, body);
    assert f[..p.headLen] == EncodeHead(|f|, p.headLen);
    HeadRoundTrip(|f|, p.headLen);
  }

  /** The forms that reach the send queue. The buffer form also checks the head's range and drops an
      empty body; the other forms turn an empty body into a heartbeat. */
  predicate Fits(p: Params, form: Form) {
    |Body(form)| <= p.bufSize - p.headLen &&
    (form.Buffers? ==> |Body(form)| > 0 && p.headLen + |Body(form)| < HeadRange(p.headLen))
  }

  /** The strings that the queue receives for a form that fits. */
  function Items(p: Params, form: Form): (items: seq<bytes>) {
    var head := EncodeHead(p.headLen + |Body(form)|, p.headLen);
    match form
    case Buffers(_) => [FrameOf(p, Body(form))]
    case One(msg) => [head, msg]
    case Two(msg1, msg2) => [head, msg1, msg2]
    case Many(msgs) => [head] + msgs
  }

  /** However it was handed over, a message is one frame on the wire. */
  lemma ItemsAreOneFrame(p: Params, form: Form)
    ensures Flatten(Items(p, form)) == FrameOf(p, Body(form))
  {
    var items := Items(p, form);
    var head := EncodeHead(p.headLen + |Body(form)|, p.headLen);
    match form {
      case Buffers(_) => assert items[1..] == [];
      case One(msg) => assert items[1..] == [msg] && [msg][1..] == [] && Flatten([msg]) == msg;
      case Two(msg1, msg2) =>
        assert items[1..] == [msg1, msg2] && [msg1, msg2][1..] == [msg2] && [msg2][1..] == [];
        assert Flatten([msg2]) == msg2;
        assert Flatten([msg1, msg2]) == msg1 + msg2;
      case Many(msgs) => assert items[1..] == msgs;
    }
  }

  lemma OnWire(p: Params, out: seq<bytes>, form: Form)
    ensures Flatten(out + Items(p, form)) == Flatten(out) + FrameOf(p, Body(form))
  {
    FlattenAppend(out, Items(p, form));
    ItemsAreOneFrame(p, form);
  }

  /** The messages of several forms, in order, with the empty ones (heartbeats) left out. */
  function Payload(forms: seq<Form>): (msgs: seq<bytes>) {
    if forms == [] then []
    else (if Body(forms[0]) == [] then [] else [Body(forms[0])]) + Payload(forms[1..])
  }

  /** Each form adds its body, unless that is empty. */
  lemma {:induction false} PayloadOneMore(forms: seq<Form>, form: Form)
    ensures Payload(forms + [form]) == Payload(forms) + (if |Body(form)| > 0 then [Body(form)] else [])
  {
    hide Body;
    if forms == [] {
      assert [form][1..] == [] && forms + [form] == [form];
    } else {
      PayloadOneMore(forms[1..], form);
      assert (forms + [form])[1..] == forms[1..] + [form];
    }
  }

  /** The same messages as an unpacker hands them out that does not strip: each with its head. */
  function WithHeads(p: Params, msgs: seq<bytes>): (framed: seq<bytes>)
    ensures |framed| == |msgs|
    ensures forall i :: 0 <= i < |msgs| ==> framed[i] == EncodeHead(p.headLen + |msgs[i]|, p.headLen) + msgs[i]
  {
    seq(|msgs|, i requires 0 <= i < |msgs| => FrameOf(p, msgs[i]))
  }

  function Frames(p: Params, forms: seq<Form>): (frames: seq<bytes>)
    ensures |frames| == |forms|
    ensures forall i :: 0 <= i < |forms| ==> frames[i] == FrameOf(p, Body(forms[i]))
  {
    seq(|forms|, i requires 0 <= i < |forms| => FrameOf(p, Body(forms[i])))
  }

  predicate AllFit(p: Params, forms: seq<Form>) {
    forall form <- forms :: Fits(p, form)
  }

  /** Round trip: scanning whole frames, cut inside the next one or not, gives back exactly the
      non-empty bodies, in order. */
  lemma PackedStreamScans(p: Params, forms: seq<Form>, tail: bytes)
    requires p.Valid() && p.bufSize < HeadRange(p.headLen)
    requires AllFit(p, forms) && Incomplete(p, tail)
    ensures var r := ScanStream(p, Flatten(Frames(p, forms)) + tail);
            && !r.bad && r.rest == tail
            && Deliver(p, true, r.frames) == Payload(forms)
            && Deliver(p, false, r.frames) == WithHeads(p, Payload(forms))
  {
    var frames := Frames(p, forms);
    forall f <- frames ensures IsFrame(p, f) {
      var i :| 0 <= i < |frames| && frames[i] == f;
      assert Fits(p, forms[i]);
      FrameOfIsFrame(p, Body(forms[i]));
    }
    ScanUnique(p, frames, tail);
    var _, _ := ScanFront(p, tail);
    DeliverFrames(p, forms);
    DeliverWholeFrames(p, forms);
  }

  lemma {:induction false} DeliverFrames(p: Params, forms: seq<Form>)
    ensures Deliver(p, true, Frames(p, forms)) == Payload(forms)
  {
    if forms != [] {
      DeliverFrames(p, forms[1..]);
      var frames := Frames(p, forms);
      assert frames[1..] == Frames(p, forms[1..]);
      assert frames[0][p.headLen..] == Body(forms[0]);
    }
  }

  lemma WithHeadsAppend(p: Params, a: seq<bytes>, b: seq<bytes>)
    ensures WithHeads(p, a + b) == WithHeads(p, a) + WithHeads(p, b)
    ensures WithHeads(p, []) == []
  {
    hide FrameOf;
  }

  lemma {:induction false} DeliverWholeFrames(p: Params, forms: seq<Form>)
    ensures Deliver(p, false, Frames(p, forms)) == WithHeads(p, Payload(forms))
  {
    hide Body, EncodeHead, WithHeads;
    if forms == [] {
      WithHeadsAppend(p, [], []);
    } else {
      var body := Body(forms[0]);
      DeliverWholeFrames(p, forms[1..]);
      assert Frames(p, forms)[1..] == Frames(p, forms[1..]);
      WithHeadsAppend(p, if body == [] then [] else [body], Payload(forms[1..]));
      WithHeadsOne(p, body);
    }
  }

  lemma WithHeadsOne(p: Params, body: bytes)
    ensures WithHeads(p, [body]) == [FrameOf(p, body)]
  {
  }

  /** Cutting whole frames anywhere leaves whole frames and the beginning of at most one more. */
  lemma {:induction false} CutFrames(p: Params, frames: seq<bytes>, s: bytes) returns (n: nat, tail: bytes)
    requires p.Valid()
    requires forall f <- frames :: IsFrame(p, f)
    requires s <= Flatten(frames)
    ensures n <= |frames| && s == Flatten(frames[..n]) + tail && Incomplete(p, tail)
    ensures s == Flatten(frames) ==> n == |frames|
  {
    if frames == [] {
      n, tail := 0, [];
      assert s == [];
    } else if |s| < |frames[0]| {
      n, tail := 0, s;
      assert IsFrame(p, frames[0]);
      assert s <= frames[0] && frames[..0] == [];
      if |s| >= p.headLen {
        assert s[..p.headLen] == frames[0][..p.headLen];
      }
    } else {
      var f := frames[0];
      assert s == f + s[|f|..] && s[|f|..] <= Flatten(frames[1..]);
      n, tail := CutFrames(p, frames[1..], s[|f|..]);
      assert frames[..n + 1][1..] == frames[1..][..n];
      assert Flatten(frames[..n + 1]) == f + Flatten(frames[1..][..n]);
      n := n + 1;
    }
  }

  function Sum(bufs: seq<Option<bytes>>): (n: nat) {
    |Flatten(Present(bufs))|
  }

  lemma SumGrows(bufs: seq<Option<bytes>>, i: nat)
    requires i < |bufs|
    ensures Sum(bufs[..i + 1]) == Sum(bufs[..i]) + (if bufs[i].Some? then |bufs[i].value| else 0) <= Sum(bufs)
  {
    BodyGrows(bufs, i);
  }

  /** A sum taken in size_t is below its first term or over the limit exactly when the true sum is over the limit. */
  lemma WrapDetected(total: nat, len: nat, limit: nat, npos: nat)
    requires total <= limit < npos && len <= npos
    ensures var sum := (total + len) % (npos + 1);
            if total + len <= limit then sum == total + len else sum < total || limit < sum
  {
    if total + len > npos {
      assert (total + len) % (npos + 1) == total + len - (npos + 1);
    }
  }

  /** msg_size_check: sums the lengths with wrap-around, and still never lets a sum past the limit through; npos
      stands for a message that is too long. */
  method MsgSizeCheck(limit: nat, npos: nat, preLen: nat, bufs: Option<seq<Option<bytes>>>) returns (total: nat)
    requires preLen <= limit < npos
    requires bufs.Some? ==> forall b <- bufs.value :: b.Some? ==> |b.value| <= npos
    ensures total == if bufs.Some? && preLen + Sum(bufs.value) <= limit
                     then preLen + Sum(bufs.value) else npos
  {
    if bufs.None? {
      return npos;
    }
    var s := bufs.value;
    total := preLen;
    var lastTotal := total;
    assert s[..0] == [];
    for i := 0 to |s|
      invariant total == lastTotal == preLen + Sum(s[..i]) <= limit
    {
      SumGrows(s, i);
      if s[i].Some? {
        WrapDetected(total, |s[i].value|, limit, npos);
        total := (total + |s[i].value|) % (npos + 1);
        if lastTotal > total || total > limit {
          return npos;
        }
        lastTotal := total;
      }
    }
    assert s[..|s|] == s;
  }

  method AppendAll(front: bytes, bufs: seq<Option<bytes>>) returns (msg: bytes)
    ensures msg == front + Flatten(Present(bufs))
  {
    msg := front;
    assert bufs[..0] == [];
    for i := 0 to |bufs|
      invariant msg == front + Flatten(Present(bufs[..i]))
    {
      BodyGrows(bufs, i);
      if bufs[i].Some? {
        msg := msg + bufs[i].value;
      }
    }
    assert bufs[..|bufs|] == bufs;
  }

  /** The packer's methods. */
  class Packer {
    const p: Params
    var heartbeat: bytes

    ghost predicate Valid() reads this {
      p.Valid() && heartbeat == FrameOf(p, [])
    }

    constructor (p: Params)
      requires p.Valid()
      ensures Valid() && this.p == p
    {
      this.p := p;
      this.heartbeat := EncodeHead(p.headLen, p.headLen);
    }

    /** The buffer form. With native set the body goes out as it is. */
    method PackBuffers(bufs: Option<seq<Option<bytes>>>, native: bool) returns (msg: bytes)
      requires Valid()
      requires bufs.Some? ==> forall b <- bufs.value :: b.Some? ==> |b.value| <= p.npos
      ensures bufs.None? ==> msg == []
      ensures bufs.Some? && native ==> msg == if Sum(bufs.value) <= p.bufSize then Body(Buffers(bufs.value)) else []
      ensures bufs.Some? && !native ==>
                var form := Buffers(bufs.value);
                if Fits(p, form) then Items(p, form) == [msg] else msg == []
      ensures bufs.Some? && !native ==>
                var n := p.headLen + Sum(bufs.value);
                && (msg != [] <==> p.headLen < n <= p.bufSize && n < HeadRange(p.headLen))
                && (msg != [] ==> msg == EncodeHead(n, p.headLen) + Flatten(Present(bufs.value)))
    {
      msg := [];
      var preLen := if native then 0 else p.headLen;
      var total := MsgSizeCheck(p.bufSize, p.npos, preLen, bufs);
      if total != p.npos && total > preLen {
        if !native {
          msg := EncodeHead(total, p.headLen);
          HeadRoundTrip(total, p.headLen);
          if DecodeHead(msg) != total {
            return [];
          }
        }
        msg := AppendAll(msg, bufs.value);
      }
    }

    /** The forms that add their strings to a container; in release builds the head is cut to its type. */
    method PackOne(msg: bytes, out: seq<bytes>) returns (ok: bool, out': seq<bytes>)
      requires p.Valid()
      ensures ok == Fits(p, One(msg))
      ensures out' == if ok then out + Items(p, One(msg)) else out
      ensures ok <==> p.headLen + |msg| <= p.bufSize
      ensures ok ==> Flatten(out') == Flatten(out) + (EncodeHead(p.headLen + |msg|, p.headLen) + msg)
    {
      OnWire(p, out, One(msg));
      if |msg| > p.bufSize - p.headLen {
        return false, out;
      }
      out' := out + [EncodeHead(p.headLen + |msg|, p.headLen)];
      out' := out' + [msg];
      ok := true;
    }

    method PackTwo(msg1: bytes, msg2: bytes, out: seq<bytes>) returns (ok: bool, out': seq<bytes>)
      requires p.Valid()
      ensures ok == Fits(p, Two(msg1, msg2))
      ensures out' == if ok then out + Items(p, Two(msg1, msg2)) else out
      ensures ok <==> p.headLen + |msg1| + |msg2| <= p.bufSize
      ensures ok ==>
                Flatten(out') == Flatten(out) + (EncodeHead(p.headLen + |msg1| + |msg2|, p.headLen) + (msg1 + msg2))
    {
      OnWire(p, out, Two(msg1, msg2));
      var len := |msg1| + |msg2|;
      if len > p.bufSize - p.headLen {
        return false, out;
      }
      out' := out + [EncodeHead(p.headLen + len, p.headLen)];
      out' := out' + [msg1];
      out' := out' + [msg2];
      ok := true;
    }

    method PackMany(src: seq<bytes>, out: seq<bytes>) returns (ok: bool, src': seq<bytes>, out': seq<bytes>)
      requires p.Valid()
      ensures ok == Fits(p, Many(src))
      ensures out' == if ok then out + Items(p, Many(src)) else out
      ensures src' == if ok then [] else src
      ensures ok <==> p.headLen + |Flatten(src)| <= p.bufSize
      ensures ok ==>
                Flatten(out') == Flatten(out) + (EncodeHead(p.headLen + |Flatten(src)|, p.headLen) + Flatten(src))
    {
      OnWire(p, out, Many(src));
      var len := SizeInByte(src);
      if len > p.bufSize - p.headLen {
        return false, src, out;
      }
      out' := out + [EncodeHead(p.headLen + len, p.headLen)] + src;
      src' := [];
      ok := true;
    }
  }

  method SizeInByte(can: seq<bytes>) returns (size: nat)
    ensures size == |Flatten(can)|
  {
    size := 0;
    for i := 0 to |can|
      invariant size == |Flatten(can[..i])|
    {
      FlattenNext(can, i);
      size := size + |can[i]|;
    }
    assert can[..|can|] == can;
  }
}
