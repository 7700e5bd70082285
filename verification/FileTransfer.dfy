/** The file example: one file is got or put over several links at once, each link moving its own segment in chunks. */
module FileTransfer {
  import opened Bytes
  import opened Counting

  /** default_max_transfer_size of Asio. */
  const MAX_CHUNK := 65536

  function Min(a: nat, b: nat): nat { if a < b then a else b }

  // How a file is split.

  function Offset(length: nat, links: nat, index: nat): nat
    requires index < links
  {
    length / links * index
  }

  /** The last link also takes what the division leaves over. */
  function Share(length: nat, links: nat, index: nat): nat
    requires index < links
  {
    SharesFit(length, links, index);
    if index == links - 1 then length - Offset(length, links, index) else length / links
  }

  lemma SharesFit(length: nat, links: nat, index: nat)
    requires index < links
    ensures Offset(length, links, index) <= Offset(length, links, index) + length / links <= length
    ensures Offset(length, links, index) + length / links == length / links * (index + 1)
  {
    var q := length / links;
    assert q * links <= length;
    assert q * (index + 1) == q * index + q;
    assert q * (index + 1) <= q * links by {
      assert q * links == q * (index + 1) + q * (links - index - 1);
    }
  }

  /** The segments tile the file: each begins where the one before it ends, the first at the front, the last at the
      end. */
  lemma SharesTile(length: nat, links: nat, index: nat)
    requires index < links
    ensures Offset(length, links, 0) == 0
    ensures Offset(length, links, index) + Share(length, links, index) <= length
    ensures Offset(length, links, index) + Share(length, links, index) ==
            if index + 1 < links then Offset(length, links, index + 1) else length
  {
    SharesFit(length, links, index);
  }

  datatype Segment = Segment(from: nat, len: nat) {
    function End(): nat { from + len }
  }

  /** One behind the other, from the front of a file to its end. */
  predicate Tile(segs: seq<Segment>, length: nat) {
    && segs != [] && segs[0].from == 0 && segs[|segs| - 1].End() == length
    && forall i :: 0 < i < |segs| ==> segs[i].from == segs[i - 1].End()
  }

  function Split(length: nat, links: nat): (segs: seq<Segment>)
    ensures |segs| == links
  {
    seq(links, i requires 0 <= i < links => Segment(Offset(length, links, i), Share(length, links, i)))
  }

  /** For every length and every number of links, the segments tile the file. */
  lemma SplitTiles(length: nat, links: nat)
    requires links > 0
    ensures Tile(Split(length, links), length)
  {
    SharesTile(length, links, 0);
    forall i | 0 <= i < links
      ensures Split(length, links)[i].End() == if i + 1 < links then Offset(length, links, i + 1) else length
    {
      SharesTile(length, links, i);
    }
    hide Offset, Share;
    var segs := Split(length, links);
    forall i | 0 < i < links ensures segs[i].from == segs[i - 1].End() {
      assert segs[i - 1].End() == Offset(length, links, i);
    }
  }

  /** The shares are as even as whole bytes allow for all links but the last, which gets less than `links` bytes more. */
  lemma SharesAreEven(length: nat, links: nat, i: nat)
    requires i < links
    ensures var seg := Split(length, links)[i];
            && seg.from == i * (length / links)
            && (i < links - 1 ==> seg.len == length / links)
            && length / links <= seg.len < length / links + links
  {
    var q := length / links;
    SharesFit(length, links, i);
    assert q * i == i * q;
    if i == links - 1 {
      assert length == q * links + length % links && q * links == q * i + q;
    }
  }

  lemma {:induction false} SegmentsGrow(segs: seq<Segment>, length: nat, a: nat, b: nat)
    requires Tile(segs, length) && a < b < |segs|
    ensures segs[a].End() <= segs[b].from
    decreases b
  {
    if a + 1 < b {
      SegmentsGrow(segs, length, a, b - 1);
    }
  }

  lemma SegmentFits(segs: seq<Segment>, length: nat, a: nat)
    requires Tile(segs, length) && a < |segs|
    ensures segs[a].End() <= length
  {
    if a < |segs| - 1 {
      SegmentsGrow(segs, length, a, |segs| - 1);
    }
  }

  // Files.

  /** fwrite at a position; a gap is filled with zeros. */
  function WriteAt(data: bytes, pos: nat, more: bytes): (written: bytes) {
    var front := if pos <= |data| then data[..pos] else data + Zeros(pos - |data|);
    front + more + (if pos + |more| <= |data| then data[pos + |more|..] else [])
  }

  function Zeros(n: nat): (zeros: bytes)
    ensures |zeros| == n
  {
    seq(n, i => 0)
  }

  /** What a file holds after a write, byte by byte. */
  ghost predicate Written(data: bytes, pos: nat, more: bytes, w: bytes) {
    && |w| == (if pos + |more| <= |data| then |data| else pos + |more|)
    && forall i :: 0 <= i < |w| ==>
         w[i] == if pos <= i < pos + |more| then more[i - pos] else if i < |data| then data[i] else 0
  }

  lemma WriteAtWrites(data: bytes, pos: nat, more: bytes)
    ensures Written(data, pos, more, WriteAt(data, pos, more))
  {
  }

  lemma WrittenOnce(data: bytes, pos: nat, more: bytes, v: bytes, w: bytes)
    requires Written(data, pos, more, v) && Written(data, pos, more, w)
    ensures v == w
  {
  }

  class File {
    var data: bytes
    var pos: nat

    constructor (data: bytes)
      ensures this.data == data && pos == 0
    {
      this.data, pos := data, 0;
    }

    method Seek(to: nat)
      modifies this`pos
      ensures pos == to
    {
      pos := to;
    }

    /** fread of at most n bytes. */
    method Read(n: nat) returns (b: bytes)
      modifies this`pos
      ensures b == (if old(pos) >= |data| then [] else data[old(pos)..Min(old(pos) + n, |data|)])
      ensures pos == old(pos) + |b|
    {
      b := if pos >= |data| then [] else data[pos..Min(pos + n, |data|)];
      pos := pos + |b|;
    }

    method Write(b: bytes)
      modifies this
      ensures data == WriteAt(old(data), old(pos), b) && pos == old(pos) + |b|
    {
      data := WriteAt(data, pos, b);
      pos := pos + |b|;
    }
  }

  /** file_buffer: a segment read chunk by chunk. */
  class FileBuffer {
    const file: File
    var totalLen: nat
    var data: bytes
    var good: bool

    constructor (file: File, totalLen: nat)
      ensures this.file == file && this.totalLen == totalLen && data == [] && good
    {
      this.file, this.totalLen, data, good := file, totalLen, [], true;
    }

    /** read: the next chunk, empty at the end; it fails when the file is too short. `counted` is what it adds to
        transmit_size. */
    method Read() returns (ok: bool, counted: nat)
      modifies this, file`pos
      ensures var k := Min(old(totalLen), MAX_CHUNK);
              && totalLen == old(totalLen) - k
              && ok == (old(file.pos) + k <= |file.data| || k == 0)
              && (ok ==> file.pos == old(file.pos) + k && good == old(good) && counted == k
                         && data == if k == 0 then [] else file.data[old(file.pos)..old(file.pos) + k])
              && (!ok ==> data == [] && !good && counted == 0)
    {
      ok, counted := true, 0;
      if totalLen == 0 {
        data := [];
      } else {
        var dataLen := if totalLen > MAX_CHUNK then MAX_CHUNK else totalLen;
        totalLen := totalLen - dataLen;
        data := file.Read(dataLen);
        if |data| != dataLen {
          data, good, ok := [], false, false;
        } else {
          counted := dataLen;
        }
      }
    }
  }

  /** file_unpacker: a segment written as it arrives. */
  class FileUnpacker {
    const file: File
    var totalLen: nat

    constructor (file: File, totalLen: nat)
      ensures this.file == file && this.totalLen == totalLen
    {
      this.file, this.totalLen := file, totalLen;
    }

    predicate IsFinished()
      reads this
    {
      totalLen == 0
    }

    /** The size of the buffer on offer. */
    method PrepareNextRecv() returns (size: nat)
      ensures size == Min(totalLen, MAX_CHUNK)
    {
      size := if totalLen > MAX_CHUNK then MAX_CHUNK else totalLen;
    }

    /** parse_msg of a received chunk; the result is what it adds to transmit_size. */
    method ParseMsg(chunk: bytes) returns (counted: nat)
      requires |chunk| <= totalLen
      modifies this, file
      ensures totalLen == old(totalLen) - |chunk| && counted == |chunk|
      ensures file.data == WriteAt(old(file.data), old(file.pos), chunk) && file.pos == old(file.pos) + |chunk|
    {
      totalLen := totalLen - |chunk|;
      counted := |chunk|;
      file.Write(chunk);
    }
  }

  /** The sender's side of one link: the chunks of file_buffer, put together, are the segment. */
  method SendSegment(file: File, offset: nat, length: nat) returns (sent: bytes, counted: nat)
    requires offset + length <= |file.data|
    modifies file`pos
    ensures sent == file.data[offset..offset + length] && counted == length
  {
    file.Seek(offset);
    var buffer := new FileBuffer(file, length);
    sent, counted := [], 0;
    var more := true;
    while more
      invariant buffer.file == file && fresh(buffer) && file.data == old(file.data) && file.pos == offset + counted
      invariant counted + buffer.totalLen == length && sent == file.data[offset..offset + counted]
      invariant !more ==> buffer.totalLen == 0
      decreases buffer.totalLen, more
    {
      var ok, k := buffer.Read();
      more := buffer.data != [];
      assert file.data[offset..offset + counted] + buffer.data == file.data[offset..offset + counted + k];
      sent, counted := sent + buffer.data, counted + k;
    }
  }

  lemma WrittenOn(data: bytes, pos: nat, a: bytes, b: bytes, w: bytes, x: bytes)
    requires Written(data, pos, a, w) && Written(w, pos + |a|, b, x)
    ensures Written(data, pos, a + b, x)
  {
  }

  /** Two writes one behind the other are one write. */
  lemma WriteOn(data: bytes, pos: nat, a: bytes, b: bytes)
    ensures WriteAt(WriteAt(data, pos, a), pos + |a|, b) == WriteAt(data, pos, a + b)
  {
    var w := WriteAt(data, pos, a);
    var x := WriteAt(w, pos + |a|, b);
    WriteAtWrites(data, pos, a);
    WriteAtWrites(w, pos + |a|, b);
    WrittenOn(data, pos, a, b, w, x);
    WriteAtWrites(data, pos, a + b);
    WrittenOnce(data, pos, a + b, x, WriteAt(data, pos, a + b));
    hide WriteAt, Written;
  }

  /** The receiver's side of one link: whatever the chunks, the whole segment is written, and nothing else. */
  method ReceiveSegment(file: File, offset: nat, stream: bytes, cuts: nat -> nat) returns (counted: nat)
    modifies file
    ensures file.data == (if stream == [] then old(file.data) else WriteAt(old(file.data), offset, stream))
    ensures counted == |stream|
  {
    hide WriteAt;
    file.Seek(offset);
    var unpacker := new FileUnpacker(file, |stream|);
    counted := 0;
    ghost var was := file.data;
    while !unpacker.IsFinished()
      invariant unpacker.file == file && fresh(unpacker) && file.pos == offset + counted
      invariant counted + unpacker.totalLen == |stream|
      invariant file.data == if counted == 0 then was else WriteAt(was, offset, stream[..counted])
      decreases unpacker.totalLen
    {
      var size := unpacker.PrepareNextRecv();
      var k := if 1 <= cuts(counted) <= size then cuts(counted) else size;
      var chunk := stream[counted..counted + k];
      assert stream[..counted] + chunk == stream[..counted + k];
      WriteOn(was, offset, stream[..counted], chunk);
      var n := unpacker.ParseMsg(chunk);
      counted := counted + n;
    }
    assert stream[..|stream|] == stream;
  }

  // All links at once.

  datatype Phase = Prepare | Busy | Done

  /** `left`: what file_buffer has yet to read; `flying`: bytes on their way; `got`: bytes written. */
  datatype Link = Link(phase: Phase, left: nat, flying: bytes, got: nat)

  /** A get counts in transmit_size what is written, a put what is read. */
  datatype Job = Job(source: bytes, segs: seq<Segment>, put: bool) {
    predicate Valid() { Tile(segs, |source|) }
  }

  /** How the client splits a file over its links. */
  function JobOf(source: bytes, links: nat, put: bool): (j: Job)
    requires links > 0
    ensures j.Valid()
  {
    SplitTiles(|source|, links);
    Job(source, Split(|source|, links), put)
  }

  datatype State = State(dest: bytes, links: seq<Link>, transmitSize: nat)

  datatype Step = Begin(i: nat) | Read(i: nat) | Receive(i: nat, k: nat)

  predicate Fits(j: Job, i: nat, l: Link)
    requires j.Valid() && i < |j.segs|
  {
    l.got + |l.flying| + l.left <= j.segs[i].len
  }

  predicate Shaped(j: Job, s: State) {
    && j.Valid() && |s.links| == |j.segs|
    && forall i :: 0 <= i < |j.segs| ==> Fits(j, i, s.links[i])
  }

  /** The destination has been truncated, and every link has asked for the file. */
  function Init(j: Job): (s: State)
    requires j.Valid()
    ensures Shaped(j, s)
  {
    State([], seq(|j.segs|, i requires 0 <= i < |j.segs| => Link(Prepare, j.segs[i].len, [], 0)), 0)
  }

  /** The next chunk that file_buffer reads. */
  function Chunk(j: Job, i: nat, l: Link): (chunk: bytes)
    requires j.Valid() && i < |j.segs| && Fits(j, i, l)
    ensures |chunk| == Min(l.left, MAX_CHUNK)
  {
    SegmentFits(j.segs, |j.source|, i);
    var from := j.segs[i].from + j.segs[i].len - l.left;
    j.source[from..from + Min(l.left, MAX_CHUNK)]
  }

  predicate Receives(l: Link, step: Step) {
    step.Receive? && l.phase == Busy && 0 < step.k <= |l.flying| && step.k <= MAX_CHUNK
  }

  predicate Reads(l: Link, step: Step) { step.Read? && l.phase == Busy && l.left > 0 }

  function NextLink(j: Job, i: nat, l: Link, step: Step): (l': Link)
    requires j.Valid() && i < |j.segs| && Fits(j, i, l)
    ensures Fits(j, i, l')
  {
    if step.Begin? && l.phase == Prepare then l.(phase := if j.segs[i].len > 0 then Busy else Done)
    else if Reads(l, step) then l.(left := l.left - Min(l.left, MAX_CHUNK), flying := l.flying + Chunk(j, i, l))
    else if Receives(l, step) then
      l.(flying := l.flying[step.k..], got := l.got + step.k,
         phase := if l.got + step.k == j.segs[i].len then Done else Busy)
    else l
  }

  /** How many bytes a step adds to transmit_size. */
  function Adds(j: Job, l: Link, step: Step): nat {
    if j.put then (if Reads(l, step) then Min(l.left, MAX_CHUNK) else 0)
    else (if Receives(l, step) then step.k else 0)
  }

  function DoLink(j: Job, s: State, i: nat, step: Step): State
    requires j.Valid() && i < |s.links| == |j.segs| && Fits(j, i, s.links[i])
  {
    var l := s.links[i];
    State(if Receives(l, step) then WriteAt(s.dest, j.segs[i].from + l.got, l.flying[..step.k]) else s.dest,
          s.links[i := NextLink(j, i, l, step)],
          s.transmitSize + Adds(j, l, step))
  }

  function Do(j: Job, s: State, step: Step): (s': State)
    requires Shaped(j, s)
    ensures Shaped(j, s')
  {
    if step.i < |j.segs| then DoLink(j, s, step.i, step) else s
  }

  function Run(j: Job, schedule: seq<Step>): (s: State)
    requires j.Valid()
    ensures Shaped(j, s)
    decreases |schedule|
  {
    if schedule == [] then Init(j) else Do(j, Run(j, schedule[..|schedule| - 1]), schedule[|schedule| - 1])
  }

  /** These bytes are the source's, from a position on. */
  ghost predicate Flies(source: bytes, at: nat, flying: bytes) {
    at + |flying| <= |source| && flying == source[at..at + |flying|]
  }

  /** So many bytes of the source, from a position on, are in the destination. */
  ghost predicate InPlace(source: bytes, dest: bytes, from: nat, got: nat)
    requires from + got <= |source|
  {
    && (got > 0 ==> from + got <= |dest|)
    && (forall p :: from <= p < from + got ==> dest[p] == source[p])
  }

  /** A link has written the beginning of its segment, and what is flying comes right behind that. */
  ghost predicate LinkOk(j: Job, dest: bytes, i: nat, l: Link)
    requires j.Valid() && i < |j.segs|
  {
    SegmentFits(j.segs, |j.source|, i);
    && l.got + |l.flying| + l.left == j.segs[i].len
    && Flies(j.source, j.segs[i].from + l.got, l.flying)
    && (l.phase == Done ==> l.got == j.segs[i].len)
    && (l.phase == Busy ==> l.got < j.segs[i].len)
    && (l.phase == Prepare ==> l.flying == [] && l.got == 0)
    && InPlace(j.source, dest, j.segs[i].from, l.got)
  }

  /** What a link adds to transmit_size. */
  function Counted(j: Job, i: nat, l: Link): nat
    requires j.Valid() && i < |j.segs|
  {
    if j.put then (if l.left <= j.segs[i].len then j.segs[i].len - l.left else 0) else l.got
  }

  function AllCounted(j: Job, links: seq<Link>): (ns: seq<nat>)
    requires j.Valid() && |links| == |j.segs|
    ensures |ns| == |links|
  {
    seq(|links|, i requires 0 <= i < |links| => Counted(j, i, links[i]))
  }

  ghost predicate Inv(j: Job, s: State) {
    && j.Valid() && |s.links| == |j.segs|
    && |s.dest| <= |j.source|
    && (forall i :: 0 <= i < |j.segs| ==> LinkOk(j, s.dest, i, s.links[i]))
    && s.transmitSize == Total(AllCounted(j, s.links))
  }

  /** A write inside one link's segment is nothing to another link. */
  lemma OthersKeep(j: Job, dest: bytes, i: nat, from: nat, chunk: bytes, o: nat, l: Link)
    requires j.Valid() && i < |j.segs| && o < |j.segs| && o != i && LinkOk(j, dest, o, l)
    requires j.segs[i].from <= from && from + |chunk| <= j.segs[i].from + j.segs[i].len
    ensures LinkOk(j, WriteAt(dest, from, chunk), o, l)
  {
    WriteAtWrites(dest, from, chunk);
    if o < i {
      SegmentsGrow(j.segs, |j.source|, o, i);
    } else {
      SegmentsGrow(j.segs, |j.source|, i, o);
    }
    hide WriteAt;
  }

  lemma FliesOn(source: bytes, at: nat, a: bytes, b: bytes)
    requires Flies(source, at, a) && Flies(source, at + |a|, b)
    ensures Flies(source, at, a + b)
  {
  }

  lemma FliesCut(source: bytes, at: nat, flying: bytes, k: nat)
    requires Flies(source, at, flying) && k <= |flying|
    ensures Flies(source, at, flying[..k]) && Flies(source, at + k, flying[k..])
  {
  }

  lemma ChunkFlies(j: Job, i: nat, l: Link)
    requires j.Valid() && i < |j.segs| && Fits(j, i, l) && l.got + |l.flying| + l.left == j.segs[i].len
    ensures Flies(j.source, j.segs[i].from + l.got + |l.flying|, Chunk(j, i, l))
  {
    SegmentFits(j.segs, |j.source|, i);
    hide Tile;
  }

  lemma LinkReads(j: Job, dest: bytes, i: nat, l: Link, step: Step)
    requires j.Valid() && i < |j.segs| && Fits(j, i, l) && LinkOk(j, dest, i, l) && Reads(l, step)
    ensures LinkOk(j, dest, i, NextLink(j, i, l, step))
  {
    hide Tile, Chunk, InPlace, Flies;
    SegmentFits(j.segs, |j.source|, i);
    ChunkFlies(j, i, l);
    FliesOn(j.source, j.segs[i].from + l.got, l.flying, Chunk(j, i, l));
  }

  /** Writing what comes right behind the part in place extends that part. */
  lemma PartGrows(source: bytes, dest: bytes, from: nat, got: nat, chunk: bytes)
    requires from + got <= |source| && Flies(source, from + got, chunk)
    requires InPlace(source, dest, from, got) && |dest| <= |source| && chunk != []
    ensures var w := WriteAt(dest, from + got, chunk);
            InPlace(source, w, from, got + |chunk|) && |w| <= |source|
  {
    WriteAtWrites(dest, from + got, chunk);
    hide WriteAt;
  }

  lemma NextReceives(j: Job, i: nat, l: Link, step: Step)
    requires j.Valid() && i < |j.segs| && Fits(j, i, l) && Receives(l, step)
    ensures var l' := NextLink(j, i, l, step);
            && l'.left == l.left && l'.flying == l.flying[step.k..] && l'.got == l.got + step.k
            && (l'.phase == Done ==> l'.got == j.segs[i].len)
            && (l'.phase == Busy ==> l'.got != j.segs[i].len) && l'.phase != Prepare
  {
    hide Tile;
  }

  lemma LinkReceives(j: Job, dest: bytes, i: nat, l: Link, step: Step)
    requires j.Valid() && i < |j.segs| && Fits(j, i, l) && LinkOk(j, dest, i, l) && |dest| <= |j.source|
    requires Receives(l, step)
    ensures var dest' := WriteAt(dest, j.segs[i].from + l.got, l.flying[..step.k]);
            LinkOk(j, dest', i, NextLink(j, i, l, step)) && |dest'| <= |j.source|
  {
    hide WriteAt, NextLink, Tile, InPlace, Flies;
    SegmentFits(j.segs, |j.source|, i);
    FliesCut(j.source, j.segs[i].from + l.got, l.flying, step.k);
    PartGrows(j.source, dest, j.segs[i].from, l.got, l.flying[..step.k]);
    NextReceives(j, i, l, step);
  }

  /** What a step does to the link that it is about. */
  lemma LinkStep(j: Job, dest: bytes, i: nat, l: Link, step: Step)
    requires j.Valid() && i < |j.segs| && Fits(j, i, l) && LinkOk(j, dest, i, l) && |dest| <= |j.source|
    ensures var l' := NextLink(j, i, l, step);
            var dest' := if Receives(l, step) then WriteAt(dest, j.segs[i].from + l.got, l.flying[..step.k]) else dest;
            LinkOk(j, dest', i, l') && |dest'| <= |j.source|
    ensures Counted(j, i, NextLink(j, i, l, step)) == Counted(j, i, l) + Adds(j, l, step)
  {
    if Receives(l, step) {
      LinkReceives(j, dest, i, l, step);
    } else if Reads(l, step) {
      LinkReads(j, dest, i, l, step);
    }
    hide WriteAt, Chunk;
  }

  lemma CountStep(j: Job, s: State, step: Step)
    requires Shaped(j, s) && step.i < |j.segs| && s.transmitSize == Total(AllCounted(j, s.links))
    requires var i, l := step.i, s.links[step.i];
             Counted(j, i, NextLink(j, i, l, step)) == Counted(j, i, l) + Adds(j, l, step)
    ensures DoLink(j, s, step.i, step).transmitSize == Total(AllCounted(j, DoLink(j, s, step.i, step).links))
  {
    var i, l := step.i, s.links[step.i];
    var l' := NextLink(j, i, l, step);
    assert AllCounted(j, s.links[i := l']) == AllCounted(j, s.links)[i := Counted(j, i, l')];
    TotalUpdate(AllCounted(j, s.links), i, Counted(j, i, l'));
    hide LinkOk, Counted, Total, WriteAt, NextLink, Receives, Adds;
  }

  lemma AllLinksStep(j: Job, s: State, step: Step)
    requires Inv(j, s) && Shaped(j, s) && step.i < |j.segs|
    ensures var s' := DoLink(j, s, step.i, step);
            && |s'.links| == |j.segs| && |s'.dest| <= |j.source|
            && forall o :: 0 <= o < |j.segs| ==> LinkOk(j, s'.dest, o, s'.links[o])
  {
    hide LinkOk, Counted, AllCounted, Total, WriteAt, NextLink, Receives, Adds, Fits, Tile;
    var i, s' := step.i, DoLink(j, s, step.i, step);
    LinkStep(j, s.dest, i, s.links[i], step);
    forall o | 0 <= o < |j.segs| ensures LinkOk(j, s'.dest, o, s'.links[o]) {
      if o != i {
        OtherLink(j, s, step, o);
      }
    }
  }

  lemma InvStep(j: Job, s: State, step: Step)
    requires Inv(j, s) && Shaped(j, s)
    ensures Inv(j, Do(j, s, step))
  {
    if step.i < |j.segs| {
      LinkStep(j, s.dest, step.i, s.links[step.i], step);
      CountStep(j, s, step);
      AllLinksStep(j, s, step);
    }
    hide LinkOk, Counted, AllCounted, Total, DoLink, NextLink, WriteAt, Receives, Adds, Fits, Tile;
  }

  lemma OtherLink(j: Job, s: State, step: Step, o: nat)
    requires Inv(j, s) && Shaped(j, s) && step.i < |j.segs| && o < |j.segs| && o != step.i
    ensures LinkOk(j, DoLink(j, s, step.i, step).dest, o, s.links[o])
  {
    var i, l := step.i, s.links[step.i];
    if Receives(l, step) {
      OthersKeep(j, s.dest, i, j.segs[i].from + l.got, l.flying[..step.k], o, s.links[o]);
    }
    hide WriteAt, Total;
  }

  lemma InitOk(j: Job)
    requires j.Valid()
    ensures Inv(j, Init(j))
  {
    TotalZero(AllCounted(j, Init(j).links));
    forall i | 0 <= i < |j.segs| ensures LinkOk(j, [], i, Init(j).links[i]) {
      SegmentFits(j.segs, |j.source|, i);
    }
    hide Total;
  }

  lemma {:induction false} InvRun(j: Job, schedule: seq<Step>)
    requires j.Valid()
    ensures Inv(j, Run(j, schedule))
    decreases |schedule|
  {
    if schedule == [] {
      InitOk(j);
    } else {
      InvRun(j, schedule[..|schedule| - 1]);
      InvStep(j, Run(j, schedule[..|schedule| - 1]), schedule[|schedule| - 1]);
    }
    hide Inv, Do, Init;
  }

  function Shares(j: Job, k: nat): (ns: seq<nat>)
    requires j.Valid() && k <= |j.segs|
  {
    seq(k, i requires 0 <= i < k => j.segs[i].len)
  }

  lemma {:induction false} SharesAddUp(j: Job, k: nat)
    requires j.Valid() && 0 < k <= |j.segs|
    ensures Total(Shares(j, k)) == j.segs[k - 1].End()
  {
    assert Shares(j, k) == Shares(j, k - 1) + [j.segs[k - 1].len];
    TotalAppend(Shares(j, k - 1), j.segs[k - 1].len);
    if k > 1 {
      SharesAddUp(j, k - 1);
    }
  }

  predicate AllDone(s: State) { forall i :: 0 <= i < |s.links| ==> s.links[i].phase == Done }

  predicate AllGot(j: Job, s: State)
    requires |s.links| == |j.segs|
  {
    forall i :: 0 <= i < |s.links| ==> s.links[i].got == j.segs[i].len
  }

  /** The segments of the first k links are in place. */
  lemma {:induction false} Covered(j: Job, s: State, k: nat)
    requires Inv(j, s) && AllGot(j, s) && 0 < k <= |j.segs|
    ensures var end := j.segs[k - 1].End();
            end <= |s.dest| && forall p :: 0 <= p < end ==> s.dest[p] == j.source[p]
  {
    assert LinkOk(j, s.dest, k - 1, s.links[k - 1]);
    if k > 1 {
      Covered(j, s, k - 1);
    }
    hide Total;
  }

  /** A link that is done has written, and counted, its whole segment. */
  lemma DoneLink(j: Job, s: State, i: nat)
    requires Inv(j, s) && i < |j.segs| && s.links[i].phase == Done
    ensures Counted(j, i, s.links[i]) == j.segs[i].len == s.links[i].got
  {
    assert LinkOk(j, s.dest, i, s.links[i]);
    hide Tile, Total, AllCounted;
  }

  lemma DoneIsArrived(j: Job, s: State)
    requires Inv(j, s) && AllDone(s)
    ensures s.dest == j.source
  {
    forall i | 0 <= i < |j.segs| ensures s.links[i].got == j.segs[i].len {
      DoneLink(j, s, i);
    }
    Covered(j, s, |j.segs|);
    assert j.segs[|j.segs| - 1].End() == |j.source|;
    hide Tile, LinkOk, Counted, Total, AllCounted;
  }

  lemma DoneIsShares(j: Job, s: State)
    requires Inv(j, s) && AllDone(s)
    ensures AllCounted(j, s.links) == Shares(j, |j.segs|)
  {
    forall i | 0 <= i < |j.segs| ensures Counted(j, i, s.links[i]) == j.segs[i].len {
      DoneLink(j, s, i);
    }
    hide Tile, LinkOk, Counted, Total;
  }

  lemma DoneCounts(j: Job, s: State)
    requires Inv(j, s) && AllDone(s)
    ensures s.transmitSize == |j.source|
  {
    DoneIsShares(j, s);
    SharesAddUp(j, |j.segs|);
    assert j.segs[|j.segs| - 1].End() == |j.source|;
    hide Tile, LinkOk, Counted, AllCounted, Shares, Total;
  }

  /** Every get or put that ends without an error, over any number of links and with any interleaving of reads and
      receptions: the destination is the source, and transmit_size is the file's size. */
  lemma TransferIsComplete(j: Job, schedule: seq<Step>)
    requires j.Valid() && AllDone(Run(j, schedule))
    ensures Run(j, schedule).dest == j.source && Run(j, schedule).transmitSize == |j.source|
  {
    InvRun(j, schedule);
    DoneIsArrived(j, Run(j, schedule));
    DoneCounts(j, Run(j, schedule));
    hide Run, Inv, AllDone, Tile;
  }

  // Every transfer can be completed.

  function PhaseRank(l: Link): nat { if l.phase == Prepare then 1 else 0 }

  predicate Nearer(l': Link, l: Link) {
    if PhaseRank(l') != PhaseRank(l) then PhaseRank(l') < PhaseRank(l)
    else if l'.left != l.left then l'.left < l.left
    else |l'.flying| < |l.flying|
  }

  /** A link that is not done can take a step, which brings it nearer; the others stay as they are. */
  lemma LinkMoves(j: Job, s: State, i: nat) returns (step: Step)
    requires Inv(j, s) && Shaped(j, s) && i < |j.segs| && s.links[i].phase != Done
    ensures var s' := Do(j, s, step);
            && Nearer(s'.links[i], s.links[i])
            && forall o :: 0 <= o < |j.segs| && o != i ==> s'.links[o] == s.links[o]
  {
    hide WriteAt, Tile, Total, AllCounted, Chunk, InPlace, Flies;
    var l := s.links[i];
    assert LinkOk(j, s.dest, i, l);
    step := if l.phase == Prepare then Begin(i)
            else if l.flying != [] then Receive(i, Min(|l.flying|, MAX_CHUNK)) else Read(i);
  }

  lemma {:induction false} FinishLink(j: Job, q0: seq<Step>, i: nat) returns (q: seq<Step>)
    requires j.Valid() && i < |j.segs|
    ensures q0 <= q
    ensures var s, s' := Run(j, q0), Run(j, q);
            && s'.links[i].phase == Done
            && forall o :: 0 <= o < |j.segs| && o != i ==> s'.links[o] == s.links[o]
    decreases PhaseRank(Run(j, q0).links[i]), Run(j, q0).links[i].left, |Run(j, q0).links[i].flying|
  {
    hide Run, Do, Inv;
    q := q0;
    if Run(j, q0).links[i].phase != Done {
      InvRun(j, q0);
      var step := LinkMoves(j, Run(j, q0), i);
      RunOne(j, q0, step);
      q := FinishLink(j, q0 + [step], i);
    }
  }

  lemma {:induction false} FinishLinks(j: Job, q0: seq<Step>, k: nat) returns (q: seq<Step>)
    requires j.Valid() && k <= |j.segs|
    ensures q0 <= q && forall i :: 0 <= i < k ==> Run(j, q).links[i].phase == Done
  {
    hide Run;
    q := q0;
    if k > 0 {
      q := FinishLinks(j, q0, k - 1);
      q := FinishLink(j, q, k - 1);
    }
  }

  /** From every state that a run reaches the transfer can be completed: by reads and receptions alone, all links come to
      their ends, and the destination is the source. */
  lemma {:induction false} TransferCanComplete(j: Job, schedule: seq<Step>) returns (more: seq<Step>)
    requires j.Valid()
    ensures AllDone(Run(j, schedule + more)) && Run(j, schedule + more).dest == j.source
  {
    hide Run;
    var q := FinishLinks(j, schedule, |j.segs|);
    more := q[|schedule|..];
    assert schedule + more == q;
    TransferIsComplete(j, q);
  }

  /** Until then, transmit_size is what the links have counted, and never more than the file's size. */
  lemma ProgressIsHonest(j: Job, schedule: seq<Step>)
    requires j.Valid()
    ensures var s := Run(j, schedule);
            s.transmitSize == Total(AllCounted(j, s.links)) <= |j.source| && |s.dest| <= |j.source|
  {
    var s := Run(j, schedule);
    InvRun(j, schedule);
    SharesAddUp(j, |j.segs|);
    forall i | 0 <= i < |j.segs| ensures Counted(j, i, s.links[i]) <= j.segs[i].len {
      assert LinkOk(j, s.dest, i, s.links[i]);
    }
    TotalMonotone(AllCounted(j, s.links), Shares(j, |j.segs|));
    hide Run, Total;
  }

  lemma {:induction false} TotalMonotone(a: seq<nat>, b: seq<nat>)
    requires |a| == |b| && forall i :: 0 <= i < |a| ==> a[i] <= b[i]
    ensures Total(a) <= Total(b)
  {
    if a != [] {
      TotalMonotone(a[1..], b[1..]);
    }
  }

  lemma {:induction false} TotalStrict(a: seq<nat>, b: seq<nat>)
    requires |a| == |b| && Total(a) == Total(b) && forall i :: 0 <= i < |a| ==> a[i] <= b[i]
    ensures a == b
  {
    if a != [] {
      TotalMonotone(a[1..], b[1..]);
      TotalStrict(a[1..], b[1..]);
      assert a == [a[0]] + a[1..] && b == [b[0]] + b[1..];
    }
  }

  /** Nothing has arrived yet; the first k links have read their segments, the others have not begun. */
  ghost predicate OnlyRead(j: Job, s: State, k: nat) {
    && Shaped(j, s) && s.dest == []
    && (forall i :: 0 <= i < |j.segs| && i < k ==> s.links[i].left == 0)
    && forall i :: 0 <= i < |j.segs| && k <= i ==> s.links[i] == Link(Prepare, j.segs[i].len, [], 0)
  }

  /** Link i has begun and has yet to read something. */
  ghost predicate StillReads(j: Job, s: State, i: nat) {
    && Shaped(j, s) && s.dest == [] && i < |j.segs| && s.links[i].phase == Busy
    && (forall o :: 0 <= o < |j.segs| && o < i ==> s.links[o].left == 0)
    && forall o :: 0 <= o < |j.segs| && i < o ==> s.links[o] == Link(Prepare, j.segs[o].len, [], 0)
  }

  lemma RunOne(j: Job, q: seq<Step>, step: Step)
    requires j.Valid()
    ensures Run(j, q + [step]) == Do(j, Run(j, q), step)
  {
    assert (q + [step])[..|q|] == q;
    hide Do;
  }

  lemma ReadStep(j: Job, s: State, i: nat)
    requires StillReads(j, s, i) && s.links[i].left > 0
    ensures StillReads(j, Do(j, s, Read(i)), i) && Do(j, s, Read(i)).links[i].left < s.links[i].left
  {
    hide WriteAt, Chunk;
  }

  lemma BeginStep(j: Job, s: State, i: nat)
    requires OnlyRead(j, s, i) && i < |j.segs|
    ensures if j.segs[i].len > 0 then StillReads(j, Do(j, s, Begin(i)), i) else OnlyRead(j, Do(j, s, Begin(i)), i + 1)
  {
    hide WriteAt, Chunk;
  }

  lemma {:induction false} ReadOut(j: Job, q0: seq<Step>, i: nat) returns (q: seq<Step>)
    requires j.Valid() && StillReads(j, Run(j, q0), i)
    ensures OnlyRead(j, Run(j, q), i + 1)
    decreases Run(j, q0).links[i].left
  {
    if Run(j, q0).links[i].left == 0 {
      q := q0;
    } else {
      RunOne(j, q0, Read(i));
      ReadStep(j, Run(j, q0), i);
      q := ReadOut(j, q0 + [Read(i)], i);
    }
    hide Run, Do;
  }

  lemma {:induction false} ReadAll(j: Job, k: nat) returns (q: seq<Step>)
    requires j.Valid() && k <= |j.segs|
    ensures OnlyRead(j, Run(j, q), k)
  {
    if k == 0 {
      q := [];
    } else {
      q := ReadAll(j, k - 1);
      RunOne(j, q, Begin(k - 1));
      BeginStep(j, Run(j, q), k - 1);
      q := q + [Begin(k - 1)];
      if j.segs[k - 1].len > 0 {
        q := ReadOut(j, q, k - 1);
      }
    }
    hide Do;
  }

  /** A put whose bytes have all been read counts as full, although none of them has arrived. */
  lemma AllReadIsFull(j: Job, s: State)
    requires Inv(j, s) && OnlyRead(j, s, |j.segs|) && j.put
    ensures s.transmitSize == |j.source|
  {
    hide Total, LinkOk;
    SharesAddUp(j, |j.segs|);
    assert AllCounted(j, s.links) == Shares(j, |j.segs|);
  }

  /** The client takes a transfer as finished when transmit_size reaches the file's size. Then the destination is the
      source, in any run, exactly when it is a get, or there is nothing to put: a put counts what is read, not what has
      arrived. */
  lemma FullProgressMeansArrived(j: Job)
    requires j.Valid()
    ensures (forall schedule: seq<Step> ::
               Run(j, schedule).transmitSize == |j.source| ==> Run(j, schedule).dest == j.source)
            <==> !j.put || j.source == []
  {
    if j.put && j.source != [] {
      var q := ReadAll(j, |j.segs|);
      InvRun(j, q);
      AllReadIsFull(j, Run(j, q));
    } else {
      forall schedule: seq<Step> | Run(j, schedule).transmitSize == |j.source| ensures Run(j, schedule).dest == j.source {
        FullGetHasArrived(j, schedule);
      }
    }
    hide Run;
  }

  lemma FullGetHasArrived(j: Job, schedule: seq<Step>)
    requires j.Valid() && (!j.put || j.source == []) && Run(j, schedule).transmitSize == |j.source|
    ensures Run(j, schedule).dest == j.source
  {
    var s := Run(j, schedule);
    InvRun(j, schedule);
    if j.source != [] {
      SharesAddUp(j, |j.segs|);
      forall i | 0 <= i < |j.segs| ensures Counted(j, i, s.links[i]) == s.links[i].got <= j.segs[i].len {
        assert LinkOk(j, s.dest, i, s.links[i]);
      }
      TotalStrict(AllCounted(j, s.links), Shares(j, |j.segs|));
      forall i | 0 <= i < |j.segs| ensures s.links[i].got == j.segs[i].len {
        assert AllCounted(j, s.links)[i] == Shares(j, |j.segs|)[i];
      }
      Covered(j, s, |j.segs|);
    }
    hide Run, Total;
  }
}
