/** basic_buffer: a growing byte buffer whose capacity is rounded up to 16 and counted in 32 bits. */
module BasicBuffer {
  import opened Bytes

  const UINT_RANGE := 0x1_0000_0000
  const UINT_MAX := 0xFFFF_FFFF

  datatype Outcome = Fine | LengthError | OutOfRange

  /** 2 * cap in unsigned arithmetic. */
  function Twice(cap: nat): nat { 2 * cap % UINT_RANGE }

  /** capacity & 0xFFFFFFF0, and 16 more if that cut anything off, but never more than the maximum. */
  function RoundUp(capacity: nat): (cap: nat)
    requires capacity <= UINT_MAX
    ensures capacity <= cap <= UINT_MAX && cap < capacity + 16
    ensures cap % 16 == 0 || cap == UINT_MAX
    ensures capacity % 16 == 0 ==> cap == capacity
  {
    var low := capacity - capacity % 16;
    if capacity <= low then low
    else if capacity > low + 16 || low + 16 > UINT_MAX then UINT_MAX
    else low + 16
  }

  /** What reserve is really asked for: never less than the contents, and never nothing. */
  function Wanted(len: nat, capacity: nat): nat {
    if capacity < len then len else if capacity == 0 then 16 else capacity
  }

  /** The capacity that reserve leads to. */
  function NewCap(cap: nat, len: nat, capacity: nat): (newCap: nat)
    requires len <= cap <= UINT_MAX && capacity <= UINT_MAX
  {
    var wanted := Wanted(len, capacity);
    if wanted == cap then cap
    else RoundUp(if cap < wanted < Twice(cap) then Twice(cap) else wanted)
  }

  predicate LegalCap(cap: nat) { cap == 0 || cap % 16 == 0 || cap == UINT_MAX }

  lemma NewCapIsLegal(cap: nat, len: nat, capacity: nat)
    requires LegalCap(cap) && len <= cap <= UINT_MAX && capacity <= UINT_MAX
    ensures var c := NewCap(cap, len, capacity);
            LegalCap(c) && len <= c <= UINT_MAX && capacity <= c
    ensures var c, least := NewCap(cap, len, capacity), if capacity > len then capacity else if len == 0 then 16 else len;
            c < least + 16 || (cap < least && c <= 2 * cap)
  {
  }

  /** Growing doubles the capacity, or takes it to the maximum, exactly when the old one is below 2^31 or the request is
      within the last 16 bytes: above, 2 * cap wraps around. */
  lemma GrowthDoubles(cap: nat, len: nat, capacity: nat)
    requires LegalCap(cap) && len <= cap < capacity <= UINT_MAX
    ensures (NewCap(cap, len, capacity) >= 2 * cap || NewCap(cap, len, capacity) == UINT_MAX)
            <==> cap < 0x8000_0000 || capacity > 0xFFFF_FFF0
  {
    if cap >= 0x8000_0000 {
      assert Twice(cap) == 2 * cap - UINT_RANGE;
      var low := capacity - capacity % 16;
      assert capacity <= 0xFFFF_FFF0 ==> RoundUp(capacity) <= 0xFFFF_FFF0;
    }
  }

  class Buffer {
    /** The block from the heap; no block is an empty one. */
    var buff: array<byte>
    var len: nat
    var cap: nat
    /** How many bytes reallocations have copied. */
    ghost var copied: nat

    ghost predicate Valid()
      reads this
    {
      buff.Length == cap && len <= cap <= UINT_MAX && LegalCap(cap)
    }

    ghost function Contents(): bytes
      reads this, buff
      requires Valid()
    {
      buff[..len]
    }

    constructor ()
      ensures Valid() && fresh(buff) && Contents() == [] && copied == 0 && cap == 0
    {
      buff := new byte[0];
      len, cap, copied := 0, 0, 0;
    }

    method Reserve(capacity: nat) returns (so: Outcome)
      requires Valid()
      modifies this`buff, this`cap, this`copied
      ensures Valid() && Contents() == old(Contents()) && (buff == old(buff) || fresh(buff))
      ensures so == if capacity > UINT_MAX then LengthError else Fine
      ensures so == LengthError ==> cap == old(cap) && copied == old(copied)
      ensures so == Fine ==> cap == NewCap(old(cap), len, capacity)
      ensures so == Fine ==>
                copied == old(copied) + (if cap == old(cap) then 0 else if old(cap) < cap then old(cap) else cap)
    {
      if capacity > UINT_MAX {
        return LengthError;
      }
      NewCapIsLegal(cap, len, capacity);
      var wanted := Wanted(len, capacity);
      if wanted != cap {
        if cap < wanted && wanted < Twice(cap) {
          wanted := Twice(cap);
        }
        var newCap := RoundUp(wanted);
        if newCap != cap {
          Realloc(newCap);
        }
      }
      so := Fine;
    }

    /** realloc: a block of another size with the same bytes as far as it goes. */
    method Realloc(newCap: nat)
      requires Valid() && len <= newCap <= UINT_MAX && LegalCap(newCap)
      modifies this`buff, this`cap, this`copied
      ensures Valid() && fresh(buff) && cap == newCap && Contents() == old(Contents())
      ensures copied == old(copied) + (if old(cap) < newCap then old(cap) else newCap)
    {
      var n := if cap < newCap then cap else newCap;
      var block := new byte[newCap];
      forall i | 0 <= i < n {
        block[i] := buff[i];
      }
      buff, cap, copied := block, newCap, copied + n;
    }

    /** resize; the bytes that it adds are whatever the block holds. */
    method Resize(newLen: nat) returns (so: Outcome)
      requires Valid()
      modifies this
      ensures Valid() && (buff == old(buff) || fresh(buff))
      ensures so == if newLen > UINT_MAX then LengthError else Fine
      ensures so == LengthError ==> Contents() == old(Contents())
      ensures so == Fine ==> len == newLen
      ensures so == Fine && newLen <= old(len) ==> Contents() == old(Contents())[..newLen] && buff == old(buff)
      ensures so == Fine && newLen > old(len) ==> Contents()[..old(len)] == old(Contents())
    {
      if newLen > cap {
        so := Reserve(newLen);
        if so != Fine {
          return;
        }
        NewCapIsLegal(old(cap), len, newLen);
      }
      len := newLen;
      so := Fine;
    }

    method CopyIn(more: bytes)
      requires Valid() && len + |more| <= cap
      modifies buff
      ensures buff[..len + |more|] == old(buff[..len]) + more
    {
      forall i | 0 <= i < |more| {
        buff[len + i] := more[i];
      }
    }

    method Append(more: bytes) returns (so: Outcome)
      requires Valid()
      modifies this, buff
      ensures Valid() && (buff == old(buff) || fresh(buff))
      ensures so == if old(len) + |more| > UINT_MAX then LengthError else Fine
      ensures Contents() == if so == Fine then old(Contents()) + more else old(Contents())
      ensures if so == Fine && old(len) + |more| > old(cap)
              then cap == NewCap(old(cap), old(len), old(len) + |more|) && copied == old(copied) + old(cap)
              else cap == old(cap) && copied == old(copied)
    {
      if more == [] {
        return Fine;
      }
      if UINT_MAX - len < |more| {
        return LengthError;
      }
      var capacity := len + |more|;
      if capacity > cap {
        NewCapIsLegal(cap, len, capacity);
        var _ := Reserve(capacity);
      }
      CopyIn(more);
      len := len + |more|;
      so := Fine;
    }

    /** append2: one '\0' at the end gives way first. */
    method Append2(more: bytes) returns (so: Outcome)
      requires Valid()
      modifies this, buff
      ensures Valid()
      ensures var s := old(Contents());
              var front := if s != [] && s[|s| - 1] == 0 then s[..|s| - 1] else s;
              && so == (if |front| + |more| > UINT_MAX then LengthError else Fine)
              && Contents() == if so == Fine then front + more else front
    {
      if len > 0 && buff[len - 1] == 0 {
        var _ := Resize(len - 1);
      }
      so := Append(more);
    }

    /** memmove of what is behind the erased bytes. */
    method CloseGap(pos: nat, n: nat)
      requires Valid() && pos + n <= len
      modifies buff
      ensures Valid() && Contents()[..len - n] == old(Contents())[..pos] + old(Contents())[pos + n..]
    {
      ghost var was := Contents();
      forall i | pos <= i < len - n {
        buff[i] := buff[i + n];
      }
      GapClosed(was, Contents(), pos, n);
    }

    lemma GapClosed(was: bytes, now: bytes, pos: nat, n: nat)
      requires |was| == |now| && pos + n <= |was|
      requires forall i :: 0 <= i < pos ==> now[i] == was[i]
      requires forall i :: pos <= i < |now| - n ==> now[i] == was[i + n]
      ensures now[..|now| - n] == was[..pos] + was[pos + n..]
    {
    }

    /** erase: as std::string's. */
    method Erase(pos: nat, n: nat) returns (so: Outcome)
      requires Valid()
      modifies this, buff
      ensures Valid()
      ensures so == if pos > old(len) then OutOfRange else Fine
      ensures var s := old(Contents());
              Contents() == if so == OutOfRange then s
                            else s[..pos] + s[if pos + n <= |s| then pos + n else |s|..]
    {
      if pos > len {
        return OutOfRange;
      }
      if n >= len {
        so := Resize(pos);
      } else if pos >= len - n {
        so := Resize(pos);
      } else {
        CloseGap(pos, n);
        so := Resize(len - n);
      }
    }
  }

  /** Building from nothing by appends, as long as it stays below 2^31 bytes: the reallocations copy at most twice as many
      bytes as there are in the end. */
  method Build(parts: seq<bytes>) returns (b: Buffer)
    requires |Flatten(parts)| < 0x8000_0000
    ensures fresh(b) && b.Valid() && b.Contents() == Flatten(parts)
    ensures b.copied <= 2 * |Flatten(parts)|
  {
    b := new Buffer();
    assert parts[..0] == [] && Flatten(parts[..0]) == [];
    hide Flatten;
    for i := 0 to |parts|
      invariant fresh(b) && fresh(b.buff) && b.Valid() && b.Contents() == Flatten(parts[..i])
      invariant b.copied <= b.cap && b.copied <= 2 * b.len
    {
      FlattenNext(parts, i);
      if b.len + |parts[i]| > b.cap {
        GrowthDoubles(b.cap, b.len, b.len + |parts[i]|);
      }
      hide NewCap, RoundUp, LegalCap;
      var _ := b.Append(parts[i]);
    }
    assert parts[..|parts|] == parts;
  }
}
