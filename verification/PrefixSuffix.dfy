/** The format [prefix] + body + suffix: what a byte stream means in it, its packer, and the round trip. */
module PrefixSuffix {
  import opened Bytes
  import opened Framing
  import opened Packing
  import opened Wrappers

  /** The prefix and the suffix of a link, ASCS_MSG_BUFFER_SIZE and (size_t) -1. */
  datatype Marks = Marks(prefix: bytes, suffix: bytes, bufSize: nat, npos: nat) {
    predicate Valid() {
      suffix != [] && MinLen() < bufSize < npos
    }

    function MinLen(): nat { |prefix| + |suffix| }
  }

  /** Where sub first occurs in s at or after `from`. */
  function Find(s: bytes, sub: bytes, from: nat): (at: Option<nat>)
    decreases |s| - from
  {
    if from + |sub| > |s| then None
    else if s[from..from + |sub|] == sub then Some(from)
    else Find(s, sub, from + 1)
  }

  predicate OccursAt(s: bytes, sub: bytes, at: nat) {
    at + |sub| <= |s| && s[at..at + |sub|] == sub
  }

  lemma {:induction false} FindFinds(s: bytes, sub: bytes, from: nat)
    ensures match Find(s, sub, from)
            case None => forall i :: from <= i ==> !OccursAt(s, sub, i)
            case Some(at) => from <= at && OccursAt(s, sub, at) && forall i :: from <= i < at ==> !OccursAt(s, sub, i)
    decreases |s| - from
  {
    if from + |sub| <= |s| && s[from..from + |sub|] != sub {
      FindFinds(s, sub, from + 1);
    }
  }

  /** An occurrence found in a part is found in the whole, when the search starts in that part. */
  lemma {:induction false} FindInside(front: bytes, mid: bytes, tail: bytes, sub: bytes, from: nat)
    requires Find(mid, sub, from).Some?
    ensures Find(front + mid + tail, sub, |front| + from) == Some(|front| + Find(mid, sub, from).value)
    decreases |mid| - from
  {
    var w := front + mid + tail;
    assert w[|front| + from..|front| + from + |sub|] == mid[from..from + |sub|];
    if mid[from..from + |sub|] != sub {
      FindInside(front, mid, tail, sub, from + 1);
    }
  }

  /** What the front of a stream is: not yet a message, never one, or one of a length. */
  datatype Front = More | Bad | Message(len: nat)

  /** The part of a stream that a buffer can hold. */
  function Window(m: Marks, s: bytes): (w: bytes) {
    if |s| <= m.bufSize then s else s[..m.bufSize]
  }

  function Peek(m: Marks, s: bytes): (f: Front) {
    if |s| >= |m.prefix| && s[..|m.prefix|] != m.prefix then Bad
    else if |s| <= m.MinLen() then More
    else match Find(Window(m, s), m.suffix, |m.prefix|)
      case Some(at) => Message(at + |m.suffix|)
      case None => if |s| >= m.bufSize then Bad else More
  }

  lemma PeekBounds(m: Marks, s: bytes)
    requires m.Valid()
    ensures Peek(m, s).Message? ==> m.MinLen() <= Peek(m, s).len <= |s| && Peek(m, s).len <= m.bufSize
    ensures Peek(m, s) == More ==> |s| < m.bufSize
  {
    FindFinds(Window(m, s), m.suffix, |m.prefix|);
    hide Find;
  }

  /** More bytes change nothing about a front that has been told. */
  lemma PeekStays(m: Marks, a: bytes, b: bytes)
    requires m.Valid() && Peek(m, a) != More
    ensures Peek(m, a + b) == Peek(m, a)
  {
    hide Find;
    var v, w := Window(m, a), Window(m, a + b);
    if |a| >= |m.prefix| {
      assert (a + b)[..|m.prefix|] == a[..|m.prefix|];
    }
    if |a| > m.MinLen() {
      assert |a| >= m.bufSize ==> v == w;
      if Find(v, m.suffix, |m.prefix|).Some? {
        assert w == [] + v + w[|v|..];
        FindInside([], v, w[|v|..], m.suffix, |m.prefix|);
      }
    }
  }

  /** The messages of a stream with their prefix and suffix, the bytes left over, and whether no message can ever
      begin there. A heartbeat at the very end is left over. */
  function ScanMarks(m: Marks, s: bytes): (r: Scan)
    requires m.Valid()
    decreases |s|
  {
    match Peek(m, s)
    case More => Scan([], s, false)
    case Bad => Scan([], s, true)
    case Message(n) =>
      PeekBounds(m, s);
      var t := ScanMarks(m, s[n..]);
      Scan([s[..n]] + t.frames, t.rest, t.bad)
  }

  /** A message at the front is scanned off. */
  lemma ScanMessage(m: Marks, s: bytes, n: nat)
    requires m.Valid() && Peek(m, s) == Message(n)
    ensures n <= |s| && n > 0
    ensures var t := ScanMarks(m, s[n..]); ScanMarks(m, s) == Scan([s[..n]] + t.frames, t.rest, t.bad)
  {
    PeekBounds(m, s);
    hide Peek;
  }

  lemma ScanNoMessage(m: Marks, s: bytes)
    requires m.Valid() && !Peek(m, s).Message?
    ensures ScanMarks(m, s) == Scan([], s, Peek(m, s) == Bad)
  {
    hide Peek;
  }

  /** Scanning may stop anywhere and go on from what was left. */
  lemma {:induction false} MarksExtend(m: Marks, a: bytes, b: bytes)
    requires m.Valid()
    ensures var x, y := ScanMarks(m, a), ScanMarks(m, a + b);
            if x.bad then y == Scan(x.frames, x.rest + b, true)
            else var z := ScanMarks(m, x.rest + b); y == Scan(x.frames + z.frames, z.rest, z.bad)
    decreases |a|
  {
    hide Peek, ScanMarks;
    if Peek(m, a) == More {
      ScanNoMessage(m, a);
      var z := ScanMarks(m, a + b);
      assert [] + z.frames == z.frames;
    } else {
      PeekStays(m, a, b);
      if Peek(m, a) == Bad {
        ScanNoMessage(m, a);
        ScanNoMessage(m, a + b);
      } else {
        var n := Peek(m, a).len;
        ScanMessage(m, a, n);
        ScanMessage(m, a + b, n);
        MarksExtend(m, a[n..], b);
        assert (a + b)[n..] == a[n..] + b && (a + b)[..n] == a[..n];
        var t := ScanMarks(m, a[n..]);
        var z := ScanMarks(m, t.rest + b);
        Assoc([a[..n]], t.frames, z.frames);
      }
    }
  }

  /** A message on the wire: prefix, body and suffix within the buffer's size, the suffix nowhere earlier behind the
      prefix. */
  ghost predicate IsMarked(m: Marks, f: bytes) {
    && m.MinLen() <= |f| <= m.bufSize
    && f[..|m.prefix|] == m.prefix
    && OccursAt(f, m.suffix, |f| - |m.suffix|)
    && forall i :: |m.prefix| <= i < |f| - |m.suffix| ==> !OccursAt(f, m.suffix, i)
  }

  lemma OccursInFront(s: bytes, k: nat, sub: bytes)
    requires k <= |s|
    ensures forall i: nat :: i + |sub| <= k ==> (OccursAt(s[..k], sub, i) <==> OccursAt(s, sub, i))
  {
    forall i: nat | i + |sub| <= k ensures OccursAt(s[..k], sub, i) <==> OccursAt(s, sub, i) {
      assert s[..k][i..i + |sub|] == s[i..i + |sub|];
    }
  }

  /** What the search for the suffix behind the prefix says of the stream. */
  lemma FoundAt(m: Marks, s: bytes)
    ensures match Find(Window(m, s), m.suffix, |m.prefix|)
            case None =>
              forall i: nat :: |m.prefix| <= i && i + |m.suffix| <= |Window(m, s)| ==> !OccursAt(s, m.suffix, i)
            case Some(at) =>
              && |m.prefix| <= at && at + |m.suffix| <= |Window(m, s)| && OccursAt(s, m.suffix, at)
              && forall i: nat :: |m.prefix| <= i < at ==> !OccursAt(s, m.suffix, i)
  {
    FindFinds(Window(m, s), m.suffix, |m.prefix|);
    OccursInFront(s, |Window(m, s)|, m.suffix);
    assert Window(m, s) == s[..|Window(m, s)|];
    hide Find, OccursAt;
  }

  lemma MarkedFront(m: Marks, s: bytes, n: nat)
    requires n <= |s|
    ensures IsMarked(m, s[..n]) <==>
            && m.MinLen() <= n <= m.bufSize && s[..|m.prefix|] == m.prefix && OccursAt(s, m.suffix, n - |m.suffix|)
            && forall i: nat :: |m.prefix| <= i < n - |m.suffix| ==> !OccursAt(s, m.suffix, i)
  {
    OccursInFront(s, n, m.suffix);
    if m.MinLen() <= n {
      assert s[..n][..|m.prefix|] == s[..|m.prefix|];
    }
    hide OccursAt;
  }

  /** Such a message is what the front of a stream is, and nothing else is; only a heartbeat waits for another byte. */
  lemma PeekIsExact(m: Marks, s: bytes, n: nat)
    requires m.Valid()
    ensures Peek(m, s) == Message(n) <==> |s| > m.MinLen() && n <= |s| && IsMarked(m, s[..n])
  {
    FoundAt(m, s);
    if n <= |s| {
      MarkedFront(m, s, n);
    }
    hide Find, OccursAt, IsMarked;
  }

  /** A front is bad exactly when the prefix is missing, or the suffix from a full buffer. */
  lemma BadIsExact(m: Marks, s: bytes)
    requires m.Valid()
    ensures Peek(m, s) == Bad <==>
            || (|s| >= |m.prefix| && s[..|m.prefix|] != m.prefix)
            || (|s| >= m.bufSize &&
                forall i: nat :: |m.prefix| <= i && i + |m.suffix| <= m.bufSize ==> !OccursAt(s, m.suffix, i))
  {
    FoundAt(m, s);
    hide Find, OccursAt;
  }

  /** What is left over is the end of the stream, and what was found the rest of it. */
  lemma {:induction false} MarksDecompose(m: Marks, s: bytes)
    requires m.Valid()
    ensures var r := ScanMarks(m, s);
            && s == Flatten(r.frames) + r.rest
            && Peek(m, r.rest) == (if r.bad then Bad else More)
            && (r.frames != [] ==> |r.rest| < |s|)
            && (forall i :: 0 <= i < |r.frames| ==> IsMarked(m, r.frames[i]))
    decreases |s|
  {
    hide Peek, Flatten, ScanMarks, IsMarked;
    if Peek(m, s).Message? {
      var n := Peek(m, s).len;
      PeekIsExact(m, s, n);
      ScanMessage(m, s, n);
      MarksDecompose(m, s[n..]);
      var t := ScanMarks(m, s[n..]);
      FlattenCons(s[..n], t.frames);
      Assoc(s[..n], Flatten(t.frames), t.rest);
      assert s == s[..n] + s[n..];
    } else {
      ScanNoMessage(m, s);
      assert Flatten<byte>([]) == [] by { FlattenNone(); }
    }
  }

  /** ... and there is no other such decomposition. */
  lemma {:induction false} MarksUnique(m: Marks, frames: seq<bytes>, rest: bytes)
    requires m.Valid() && !Peek(m, rest).Message?
    requires forall i :: 0 <= i < |frames| ==> IsMarked(m, frames[i])
    requires frames != [] && rest == [] ==> |frames[|frames| - 1]| > m.MinLen()
    ensures ScanMarks(m, Flatten(frames) + rest) == Scan(frames, rest, Peek(m, rest) == Bad)
  {
    hide Peek, ScanMarks, Flatten, IsMarked;
    if frames == [] {
      FlattenNone();
      assert [] + rest == rest;
      ScanNoMessage(m, rest);
    } else {
      var f, t := frames[0], Flatten(frames[1..]) + rest;
      assert frames == [f] + frames[1..];
      FlattenCons(f, frames[1..]);
      Assoc(f, Flatten(frames[1..]), rest);
      assert (f + t)[..|f|] == f && (f + t)[|f|..] == t;
      assert |f + t| > m.MinLen() by {
        if |frames| > 1 {
          assert frames[1..] == [frames[1]] + frames[2..];
          FlattenCons(frames[1], frames[2..]);
          assert IsMarked(m, frames[1]);
        }
        MarkedLength(m, frames);
      }
      PeekIsExact(m, f + t, |f|);
      MarksUnique(m, frames[1..], rest);
      ScanMessage(m, f + t, |f|);
    }
  }

  lemma MarkedLength(m: Marks, frames: seq<bytes>)
    requires m.Valid() && forall i :: 0 <= i < |frames| ==> IsMarked(m, frames[i])
    ensures forall i :: 0 <= i < |frames| ==> |frames[i]| >= m.MinLen() > 0
  {
  }

  /** What is handed to the user: heartbeats are dropped, and the marks go when the unpacker strips. */
  function DeliverMarks(m: Marks, stripped: bool, frames: seq<bytes>): (msgs: seq<bytes>) {
    if frames == [] then []
    else (if |frames[0]| <= m.MinLen() then []
          else [if stripped then frames[0][|m.prefix|..|frames[0]| - |m.suffix|] else frames[0]])
         + DeliverMarks(m, stripped, frames[1..])
  }

  lemma {:induction false} DeliverMarksAppend(m: Marks, stripped: bool, a: seq<bytes>, b: seq<bytes>)
    ensures DeliverMarks(m, stripped, a + b) == DeliverMarks(m, stripped, a) + DeliverMarks(m, stripped, b)
  {
    if a == [] {
      assert a + b == b;
    } else {
      assert (a + b)[1..] == a[1..] + b;
      DeliverMarksAppend(m, stripped, a[1..], b);
    }
  }

  /** The same messages with their marks. */
  function WithMarks(m: Marks, msgs: seq<bytes>): (marked: seq<bytes>)
    ensures |marked| == |msgs| && forall i :: 0 <= i < |msgs| ==> marked[i] == m.prefix + msgs[i] + m.suffix
  {
    seq(|msgs|, i requires 0 <= i < |msgs| => m.prefix + msgs[i] + m.suffix)
  }

  /** An unpacker that does not strip hands out the same messages with their marks. */
  lemma {:induction false} DeliverBoth(m: Marks, frames: seq<bytes>)
    requires forall i :: 0 <= i < |frames| ==> IsMarked(m, frames[i])
    ensures DeliverMarks(m, false, frames) == WithMarks(m, DeliverMarks(m, true, frames))
  {
    if frames != [] {
      DeliverBoth(m, frames[1..]);
      BothOfOne(m, frames[0]);
      hide IsMarked;
    }
  }

  lemma BothOfOne(m: Marks, f: bytes)
    requires IsMarked(m, f)
    ensures f == m.prefix + f[|m.prefix|..|f| - |m.suffix|] + m.suffix
  {
    assert f == f[..|m.prefix|] + f[|m.prefix|..|f| - |m.suffix|] + f[|f| - |m.suffix|..];
  }

  // The packer.

  function Marked(m: Marks, body: bytes): (f: bytes) { m.prefix + body + m.suffix }

  /** The forms that reach the send queue: the buffer form drops an empty body, the others send a heartbeat. */
  predicate FitsMarks(m: Marks, form: Form) {
    m.MinLen() + |Body(form)| <= m.bufSize && (form.Buffers? ==> Body(form) != [])
  }

  function Mark(mark: bytes): seq<bytes> { if mark == [] then [] else [mark] }

  /** The strings that the queue receives for a form that fits. */
  function MarkedItems(m: Marks, form: Form): (items: seq<bytes>) {
    match form
    case Buffers(_) => [Marked(m, Body(form))]
    case One(msg) => Mark(m.prefix) + [msg] + Mark(m.suffix)
    case Two(msg1, msg2) => Mark(m.prefix) + [msg1, msg2] + Mark(m.suffix)
    case Many(msgs) => Mark(m.prefix) + msgs + Mark(m.suffix)
  }

  /** However it was handed over, a message is one marked body on the wire. */
  lemma MarkedItemsAreOne(m: Marks, form: Form)
    ensures Flatten(MarkedItems(m, form)) == Marked(m, Body(form))
  {
    FlattenOne(m.prefix);
    FlattenOne(m.suffix);
    FlattenOne(Marked(m, Body(form)));
    var parts: seq<bytes> := match form
      case Buffers(_) => []
      case One(msg) => [msg]
      case Two(msg1, msg2) => [msg1, msg2]
      case Many(msgs) => msgs;
    if form.One? {
      FlattenOne(form.msg);
    } else if form.Two? {
      FlattenOne(form.msg2);
      assert [form.msg1, form.msg2] == [form.msg1] + [form.msg2];
      FlattenCons(form.msg1, [form.msg2]);
    }
    FlattenAppend(Mark(m.prefix), parts);
    FlattenAppend(Mark(m.prefix) + parts, Mark(m.suffix));
    assert Flatten(Mark(m.prefix)) == m.prefix && Flatten(Mark(m.suffix)) == m.suffix;
    hide Flatten;
  }

  lemma MarkedOnWire(m: Marks, out: seq<bytes>, form: Form)
    ensures Flatten(out + MarkedItems(m, form)) == Flatten(out) + Marked(m, Body(form))
  {
    FlattenAppend(out, MarkedItems(m, form));
    MarkedItemsAreOne(m, form);
  }

  /** The suffix first occurs in body + suffix at the body's end. */
  predicate Clean(m: Marks, body: bytes) {
    Find(body + m.suffix, m.suffix, 0) == Some(|body|)
  }

  /** A clean body of a legal length is found again, whatever follows it; only a heartbeat waits for what follows. */
  lemma PeekMarked(m: Marks, body: bytes, tail: bytes)
    requires m.Valid() && Clean(m, body) && m.MinLen() + |body| <= m.bufSize
    ensures Peek(m, Marked(m, body) + tail) == if body == [] && tail == [] then More else Message(|Marked(m, body)|)
  {
    var s := Marked(m, body) + tail;
    var w := Window(m, s);
    assert s[..|m.prefix|] == m.prefix;
    assert w == m.prefix + (body + m.suffix) + w[|Marked(m, body)|..];
    FindInside(m.prefix, body + m.suffix, w[|Marked(m, body)|..], m.suffix, 0);
    hide Find;
  }

  predicate AllClean(m: Marks, forms: seq<Form>) {
    forall form <- forms :: FitsMarks(m, form) && Clean(m, Body(form))
  }

  function MarkedStream(m: Marks, forms: seq<Form>): bytes {
    if forms == [] then [] else Marked(m, Body(forms[0])) + MarkedStream(m, forms[1..])
  }

  /** Round trip: exactly the non-empty bodies come back, in order. */
  lemma {:induction false} MarkedStreamScans(m: Marks, forms: seq<Form>)
    requires m.Valid() && AllClean(m, forms)
    ensures var r := ScanMarks(m, MarkedStream(m, forms));
            && !r.bad
            && DeliverMarks(m, true, r.frames) == Payload(forms)
            && (r.rest == [] || (forms != [] && Body(forms[|forms| - 1]) == [] && r.rest == Marked(m, [])))
  {
    if forms == [] {
      ScanNoMessage(m, []);
    } else {
      var body, tail := Body(forms[0]), MarkedStream(m, forms[1..]);
      var f := Marked(m, body);
      assert FitsMarks(m, forms[0]);
      PeekMarked(m, body, tail);
      MarkedStreamScans(m, forms[1..]);
      StreamIsEmpty(m, forms[1..]);
      hide ScanMarks, Peek, Clean, Find, DeliverMarks;
      var t := ScanMarks(m, tail);
      assert (f + tail)[..|f|] == f && (f + tail)[|f|..] == tail;
      if body == [] && tail == [] {
        assert f + tail == f;
        ScanNoMessage(m, f);
      } else {
        ScanMessage(m, f + tail, |f|);
        DeliverMarksAppend(m, true, [f], t.frames);
      }
      DeliverOne(m, body);
    }
  }

  lemma DeliverOne(m: Marks, body: bytes)
    ensures DeliverMarks(m, true, [Marked(m, body)]) == if body == [] then [] else [body]
    ensures DeliverMarks(m, true, []) == []
  {
    var f := Marked(m, body);
    assert DeliverMarks(m, true, [f][1..]) == [];
    assert f[|m.prefix|..|f| - |m.suffix|] == body;
  }

  lemma StreamIsEmpty(m: Marks, forms: seq<Form>)
    requires m.Valid()
    ensures MarkedStream(m, forms) == [] <==> forms == []
  {
  }

  /** Cut anywhere, the stream still yields the first of these messages, and nothing is rejected. */
  lemma {:induction false} CutStreamScans(m: Marks, forms: seq<Form>, got: bytes)
    requires m.Valid() && AllClean(m, forms) && got <= MarkedStream(m, forms)
    ensures var r := ScanMarks(m, got);
            !r.bad && DeliverMarks(m, true, r.frames) <= Payload(forms)
  {
    var whole := MarkedStream(m, forms);
    var late := whole[|got|..];
    assert got + late == whole;
    MarkedStreamScans(m, forms);
    MarksExtend(m, got, late);
    var r := ScanMarks(m, got);
    if !r.bad {
      DeliverMarksAppend(m, true, r.frames, ScanMarks(m, r.rest + late).frames);
    }
    hide ScanMarks, DeliverMarks, MarkedStream, Payload, Clean;
  }

  /** The packer's methods. */
  class Packer {
    const m: Marks

    constructor (m: Marks)
      requires m.Valid()
      ensures this.m == m
    {
      this.m := m;
    }

    method PackHeartbeat() returns (msg: bytes)
      ensures msg == Marked(m, [])
    {
      msg := m.prefix + m.suffix;
      assert m.prefix + [] == m.prefix;
    }

    method PackBuffers(bufs: Option<seq<Option<bytes>>>, native: bool) returns (msg: bytes)
      requires m.Valid()
      requires bufs.Some? ==> forall b <- bufs.value :: b.Some? ==> |b.value| <= m.npos
      ensures bufs.None? ==> msg == []
      ensures bufs.Some? && native ==> msg == if Sum(bufs.value) <= m.bufSize then Body(Buffers(bufs.value)) else []
      ensures bufs.Some? && !native ==>
                var form := Buffers(bufs.value);
                if FitsMarks(m, form) then MarkedItems(m, form) == [msg] else msg == []
      ensures bufs.Some? && !native ==>
                && (msg != [] <==> 0 < Sum(bufs.value) && |m.prefix| + Sum(bufs.value) + |m.suffix| <= m.bufSize)
                && (msg != [] ==> msg == m.prefix + Flatten(Present(bufs.value)) + m.suffix)
    {
      msg := [];
      var preLen := if native then 0 else m.MinLen();
      var total := MsgSizeCheck(m.bufSize, m.npos, preLen, bufs);
      if total != m.npos && total > preLen {
        if !native {
          msg := msg + m.prefix;
        }
        msg := AppendAll(msg, bufs.value);
        if !native {
          msg := msg + m.suffix;
        }
        assert [] + m.prefix == m.prefix && [] + Body(Buffers(bufs.value)) == Body(Buffers(bufs.value));
      }
    }

    method PackOne(msg: bytes, out: seq<bytes>) returns (ok: bool, out': seq<bytes>)
      ensures ok == FitsMarks(m, One(msg))
      ensures out' == if ok then out + MarkedItems(m, One(msg)) else out
      ensures ok <==> |m.prefix| + |msg| + |m.suffix| <= m.bufSize
      ensures ok ==> Flatten(out') == Flatten(out) + (m.prefix + msg + m.suffix)
    {
      MarkedOnWire(m, out, One(msg));
      ok, out' := false, out;
      if |m.prefix| + |msg| + |m.suffix| <= m.bufSize {
        Wrapped(out, [msg]);
        hide Open, Close, Mark;
        out' := Close(Open(out) + [msg]);
        ok := true;
      }
    }

    method PackTwo(msg1: bytes, msg2: bytes, out: seq<bytes>) returns (ok: bool, out': seq<bytes>)
      ensures ok == FitsMarks(m, Two(msg1, msg2))
      ensures out' == if ok then out + MarkedItems(m, Two(msg1, msg2)) else out
      ensures ok <==> |m.prefix| + |msg1| + |msg2| + |m.suffix| <= m.bufSize
      ensures ok ==> Flatten(out') == Flatten(out) + (m.prefix + (msg1 + msg2) + m.suffix)
    {
      MarkedOnWire(m, out, Two(msg1, msg2));
      ok, out' := false, out;
      if |m.prefix| + |msg1| + |msg2| + |m.suffix| <= m.bufSize {
        Wrapped(out, [msg1, msg2]);
        assert Open(out) + [msg1] + [msg2] == Open(out) + [msg1, msg2];
        hide Open, Close, Mark;
        out' := Close(Open(out) + [msg1] + [msg2]);
        ok := true;
      }
    }

    method PackMany(src: seq<bytes>, out: seq<bytes>) returns (ok: bool, src': seq<bytes>, out': seq<bytes>)
      ensures ok == FitsMarks(m, Many(src))
      ensures out' == if ok then out + MarkedItems(m, Many(src)) else out
      ensures src' == if ok then [] else src
      ensures ok <==> |m.prefix| + |Flatten(src)| + |m.suffix| <= m.bufSize
      ensures ok ==> Flatten(out') == Flatten(out) + (m.prefix + Flatten(src) + m.suffix)
    {
      MarkedOnWire(m, out, Many(src));
      ok, src', out' := false, src, out;
      var len := SizeInByte(src);
      if |m.prefix| + |m.suffix| + len <= m.bufSize {
        Wrapped(out, src);
        hide Open, Close, Mark;
        out', src' := Close(Open(out) + src), [];
        ok := true;
      }
    }

    function Open(out: seq<bytes>): seq<bytes> { if m.prefix != [] then out + [m.prefix] else out }

    function Close(out: seq<bytes>): seq<bytes> { if m.suffix != [] then out + [m.suffix] else out }

    lemma Wrapped(out: seq<bytes>, items: seq<bytes>)
      ensures Close(Open(out) + items) == out + (Mark(m.prefix) + items + Mark(m.suffix))
    {
    }
  }
}
