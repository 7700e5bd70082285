/** One link of a transfer: a file_buffer at one end, a file_unpacker at the other, and the bytes between them. What
    the two classes do is what the transfer's state machine says of the link. */
module FileLink {
  import opened Bytes
  import opened FileTransfer

  class Ends {
    ghost const j: Job
    ghost const i: nat
    const sender: FileBuffer
    const receiver: FileUnpacker
    var begun: bool
    /** What has been read and not yet received. */
    var flying: bytes

    ghost predicate Valid()
      reads this, sender, sender.file, receiver, receiver.file
    {
      && j.Valid() && i < |j.segs| && sender.file != receiver.file && sender.file.data == j.source
      && sender.totalLen + |flying| <= receiver.totalLen <= j.segs[i].len
      && sender.file.pos == j.segs[i].from + j.segs[i].len - sender.totalLen
      && receiver.file.pos == j.segs[i].from + j.segs[i].len - receiver.totalLen
      && (!begun ==> receiver.totalLen == j.segs[i].len)
    }

    /** The link, as the machine sees it. */
    ghost function View(): Link
      requires Valid()
      reads this, sender, sender.file, receiver, receiver.file
    {
      Link(if !begun then Prepare else if receiver.totalLen == 0 then Done else Busy,
           sender.totalLen, flying, j.segs[i].len - receiver.totalLen)
    }

    /** A state of the whole transfer in which this link and the destination are as they are here. */
    ghost predicate Shows(s: State)
      requires Valid()
      reads this, sender, sender.file, receiver, receiver.file
    {
      Shaped(j, s) && s.links[i] == View() && s.dest == receiver.file.data
    }

    constructor (ghost j: Job, ghost i: nat, segment: Segment, source: File, dest: File)
      requires j.Valid() && i < |j.segs| && segment == j.segs[i] && source != dest && source.data == j.source
      modifies source`pos, dest`pos
      ensures Valid() && this.j == j && this.i == i && View() == Link(Prepare, segment.len, [], 0)
      ensures sender.file == source && receiver.file == dest && fresh(sender) && fresh(receiver)
    {
      this.j, this.i, begun, flying := j, i, false, [];
      sender := new FileBuffer(source, segment.len);
      receiver := new FileUnpacker(dest, segment.len);
      new;
      source.Seek(segment.from);
      dest.Seek(segment.from);
    }

    /** Both ends have opened the file. */
    method Start(ghost s: State)
      requires Valid() && Shows(s) && !begun
      modifies this`begun
      ensures Valid() && Shows(DoLink(j, s, i, Begin(i)))
    {
      begun := true;
    }

    /** file_buffer's next chunk is sent; a put counts it. */
    method Read(ghost s: State) returns (counted: nat)
      requires Valid() && Shows(s) && begun && sender.totalLen > 0
      modifies this`flying, sender, sender.file`pos
      ensures Valid() && var s' := DoLink(j, s, i, Step.Read(i));
              Shows(s') && (j.put ==> s'.transmitSize == s.transmitSize + counted)
    {
      SegmentFits(j.segs, |j.source|, i);
      var ok, k := sender.Read();
      flying := flying + sender.data;
      counted := k;
      hide WriteAt, Tile;
    }

    /** k of the bytes on their way arrive in the buffer that file_unpacker offers; a get counts them. */
    method Receive(ghost s: State, k: nat) returns (counted: nat)
      requires Valid() && Shows(s) && begun && 0 < k <= |flying| && k <= MAX_CHUNK
      modifies this`flying, receiver, receiver.file
      ensures Valid() && var s' := DoLink(j, s, i, Step.Receive(i, k));
              Shows(s') && (!j.put ==> s'.transmitSize == s.transmitSize + counted)
    {
      var chunk := flying[..k];
      flying := flying[k..];
      counted := receiver.ParseMsg(chunk);
      hide WriteAt, Tile, Chunk;
    }
  }
}
