/** The three length-prefixed unpackers are one unpacker to their user. */
module Refinement {
  import opened Bytes
  import opened Framing
  import opened Reading
  import DefaultUnpacker
  import FlexibleUnpacker
  import NonCopyUnpacker

  /** For any byte stream, good or bad, and any chunking for each of them: the flexible unpacker, stripping or
      not, delivers what the default one delivers, in the same order, and rejects when it does. */
  method FlexibleRefinesDefault(p: Params, stripped: bool, stream: bytes, env1: Env, env2: Env)
    returns (msgs1: seq<bytes>, rejected1: bool, msgs2: seq<bytes>, rejected2: bool)
    requires p.Valid()
    ensures msgs1 == msgs2 && rejected1 == rejected2
    ensures msgs1 == Deliver(p, stripped, ScanStream(p, stream).frames)
  {
    msgs1, rejected1 := DefaultUnpacker.ReceiveAll(p, stripped, stream, env1);
    msgs2, rejected2 := FlexibleUnpacker.ReceiveAll(p, stripped, stream, env2);
  }

  /** The same for the non-copy unpacker, which always strips. */
  method NonCopyRefinesDefault(p: Params, stream: bytes, env1: Env, env2: Env)
    returns (msgs1: seq<bytes>, rejected1: bool, msgs2: seq<bytes>, rejected2: bool)
    requires p.Valid()
    ensures msgs1 == msgs2 && rejected1 == rejected2
    ensures msgs1 == Deliver(p, true, ScanStream(p, stream).frames)
  {
    msgs1, rejected1 := DefaultUnpacker.ReceiveAll(p, true, stream, env1);
    msgs2, rejected2 := NonCopyUnpacker.ReceiveAll(p, stream, env2);
  }

  /** Until it is rejected, what a stream delivers only grows with it; a rejection settles it for good. */
  lemma DeliveryIsPrefixClosed(p: Params, stripped: bool, a: bytes, b: bytes)
    requires p.Valid()
    ensures var x, y := ScanStream(p, a), ScanStream(p, a + b);
            && Deliver(p, stripped, x.frames) <= Deliver(p, stripped, y.frames)
            && (x.bad ==> y.bad && Deliver(p, stripped, x.frames) == Deliver(p, stripped, y.frames))
  {
    ScanExtend(p, a, b);
    var x := ScanStream(p, a);
    if !x.bad {
      DeliverAppend(p, stripped, x.frames, ScanStream(p, x.rest + b).frames);
    }
  }
}
