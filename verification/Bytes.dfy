/** Byte strings, their concatenation, and the big-endian heads that
    `htons`/`ntohs` and `htonl`/`ntohl` produce and read. */
module Bytes {

  type byte = x: int | 0 <= x < 256

  type bytes = seq<byte>

  /** The values of `size_t` that a build can have as (size_t) -1. */
  predicate IsSizeMax(npos: nat) {
    npos == 0xFFFF_FFFF || npos == 0xFFFF_FFFF_FFFF_FFFF
  }

  function Flatten<T>(parts: seq<seq<T>>): (all: seq<T>)
  {
    if parts == [] then [] else parts[0] + Flatten(parts[1..])
  }

  lemma {:induction false} FlattenAppend<T>(a: seq<seq<T>>, b: seq<seq<T>>)
    ensures Flatten(a + b) == Flatten(a) + Flatten(b)
  {
    if a == [] {
      assert a + b == b;
    } else {
      assert (a + b)[1..] == a[1..] + b;
      FlattenAppend(a[1..], b);
    }
  }

  lemma Assoc<T>(a: seq<T>, b: seq<T>, c: seq<T>)
    ensures a + b + c == a + (b + c)
  {
  }

  lemma FlattenCons<T>(part: seq<T>, parts: seq<seq<T>>)
    ensures Flatten([part] + parts) == part + Flatten(parts)
  {
    assert ([part] + parts)[1..] == parts;
  }

  lemma FlattenNone()
    ensures Flatten<byte>([]) == []
  {
  }

  lemma FlattenOne<T>(part: seq<T>)
    ensures Flatten([part]) == part
  {
    assert Flatten([part][1..]) == [];
  }

  lemma FlattenNext<T>(parts: seq<seq<T>>, i: nat)
    requires i < |parts|
    ensures Flatten(parts[..i + 1]) == Flatten(parts[..i]) + parts[i]
    ensures |Flatten(parts[..i + 1])| <= |Flatten(parts)|
  {
    assert parts[..i + 1] == parts[..i] + [parts[i]];
    assert parts == parts[..i + 1] + parts[i + 1..];
    FlattenAppend(parts[..i], [parts[i]]);
    FlattenOne(parts[i]);
    FlattenAppend(parts[..i + 1], parts[i + 1..]);
  }

  /** sizeof(uint16_t) or sizeof(uint32_t). */
  type HeadLen = n: int | n == 2 || n == 4 witness 2

  /** How many values a head of n bytes can hold. */
  function HeadRange(n: HeadLen): (range: nat)
  {
    if n == 2 then 0x1_0000 else 0x1_0000_0000
  }

  /** htons or htonl of the cast to the head type: the n low bytes of v, most significant first. */
  function EncodeHead(v: nat, n: HeadLen): (head: bytes)
    ensures |head| == n
  {
    var low := [v / 0x100 % 0x100, v % 0x100];
    if n == 2 then low else [v / 0x100_0000 % 0x100, v / 0x1_0000 % 0x100] + low
  }

  /** ntohs or ntohl. */
  function DecodeHead(head: bytes): (v: nat)
    requires |head| == 2 || |head| == 4
  {
    var b: seq<int> := head;
    if |b| == 2 then 0x100 * b[0] + b[1]
    else 0x100_0000 * b[0] + 0x1_0000 * b[1] + 0x100 * b[2] + b[3]
  }

  /** One base-256 digit after the other. */
  lemma SecondDigit(v: nat)
    ensures v % 0x1_0000 == 0x100 * (v / 0x100 % 0x100) + v % 0x100
  {
    var q, r := v / 0x100, v % 0x100;
    var h, l := q / 0x100, q % 0x100;
    assert v == 0x100 * q + r && q == 0x100 * h + l;
    assert v == 0x1_0000 * h + (0x100 * l + r);
  }

  lemma ThirdDigit(v: nat)
    ensures v % 0x100_0000 == 0x1_0000 * (v / 0x1_0000 % 0x100) + v % 0x1_0000
  {
    var q, r := v / 0x1_0000, v % 0x1_0000;
    var h, l := q / 0x100, q % 0x100;
    assert v == 0x1_0000 * q + r && q == 0x100 * h + l;
    assert v == 0x100_0000 * h + (0x1_0000 * l + r);
  }

  lemma FourthDigit(v: nat)
    ensures v % 0x1_0000_0000 == 0x100_0000 * (v / 0x100_0000 % 0x100) + v % 0x100_0000
  {
    var q, r := v / 0x100_0000, v % 0x100_0000;
    var h, l := q / 0x100, q % 0x100;
    assert v == 0x100_0000 * q + r && q == 0x100 * h + l;
    assert v == 0x1_0000_0000 * h + (0x100_0000 * l + r);
  }

  lemma TwoDigits(v: nat)
    ensures DecodeHead(EncodeHead(v, 2)) == v % 0x1_0000
  {
    var a, b := v / 0x100 % 0x100, v % 0x100;
    SecondDigit(v);
    assert EncodeHead(v, 2) == [a, b];
  }

  lemma FourDigits(v: nat)
    ensures DecodeHead(EncodeHead(v, 4)) == v % 0x1_0000_0000
  {
    var a, b, c, d := v / 0x100_0000 % 0x100, v / 0x1_0000 % 0x100, v / 0x100 % 0x100, v % 0x100;
    SecondDigit(v);
    ThirdDigit(v);
    FourthDigit(v);
    assert EncodeHead(v, 4) == [a, b, c, d];
  }

  /** Decoding an encoded length gives it back modulo the head's range. */
  lemma HeadRoundTrip(v: nat, n: HeadLen)
    ensures DecodeHead(EncodeHead(v, n)) == v % HeadRange(n)
    ensures DecodeHead(EncodeHead(v, n)) == v <==> v < HeadRange(n)
  {
    if n == 2 {
      TwoDigits(v);
    } else {
      FourDigits(v);
    }
    hide DecodeHead, EncodeHead;
  }

  /** The most significant byte comes first: heads compare byte by byte as their numbers do. */
  lemma HeadOrder(v: nat, w: nat, n: HeadLen) returns (k: nat)
    requires v < w < HeadRange(n)
    ensures var e, f := EncodeHead(v, n), EncodeHead(w, n);
            k < n && e[..k] == f[..k] && e[k] < f[k]
  {
    hide EncodeHead;
    var e, f := EncodeHead(v, n), EncodeHead(w, n);
    HeadRoundTrip(v, n);
    HeadRoundTrip(w, n);
    k := if e[0] != f[0] then 0 else if n == 2 || e[1] != f[1] then 1 else if e[2] != f[2] then 2 else 3;
  }
}
