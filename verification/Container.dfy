/** The byte-counted queue between user threads and the strand. Every public operation of the
    original holds the queue's lock, so each method here is one atomic step. */
module Container {
  import opened Bytes
  import opened Packing

  function Size(items: seq<bytes>): (n: nat) { |Flatten(items)| }

  /** How many items a batch takes: the shortest non-empty prefix that reaches the limit, or all. */
  function Reach(items: seq<bytes>, limit: nat): (n: nat)
    ensures n <= |items| && (items != [] ==> n > 0)
  {
    if items == [] then 0
    else if |items[0]| >= limit then 1
    else 1 + Reach(items[1..], limit - |items[0]|)
  }

  lemma {:induction false} ReachIsShortest(items: seq<bytes>, limit: nat)
    ensures var n := Reach(items, limit);
            && (n < |items| ==> Size(items[..n]) >= limit)
            && (forall k :: 1 <= k < n ==> Size(items[..k]) < limit)
  {
    if items != [] && |items[0]| < limit {
      var n, m := Reach(items, limit), Reach(items[1..], limit - |items[0]|);
      ReachIsShortest(items[1..], limit - |items[0]|);
      SizeOfPrefix(items, n);
      forall k | 1 <= k < n ensures Size(items[..k]) < limit {
        SizeOfPrefix(items, k);
        if k > 1 {
          assert Size(items[1..][..k - 1]) < limit - |items[0]|;
        } else {
          assert items[1..][..0] == [];
        }
      }
    } else if items != [] {
      SizeOfPrefix(items, 1);
    }
  }

  /** ... and nothing else is. */
  lemma {:induction false} ReachIsUnique(items: seq<bytes>, limit: nat, n: nat)
    requires 0 < n <= |items|
    requires n < |items| ==> Size(items[..n]) >= limit
    requires forall k :: 1 <= k < n ==> Size(items[..k]) < limit
    ensures n == Reach(items, limit)
  {
    var m := Reach(items, limit);
    ReachIsShortest(items, limit);
    var a, b := Size(items[..m]), Size(items[..n]);
  }

  lemma SizeOfPrefix(items: seq<bytes>, k: nat)
    requires 1 <= k <= |items|
    ensures Size(items[..k]) == |items[0]| + Size(items[1..][..k - 1])
  {
    assert items[..k] == [items[0]] + items[1..][..k - 1];
    FlattenCons(items[0], items[1..][..k - 1]);
  }

  lemma SizeAppend(a: seq<bytes>, b: seq<bytes>)
    ensures Size(a + b) == Size(a) + Size(b)
  {
    FlattenAppend(a, b);
  }

  lemma SizeOne(item: bytes)
    ensures Size([item]) == |item|
  {
    FlattenOne(item);
  }

  lemma SizeSplit(items: seq<bytes>, n: nat)
    requires n <= |items|
    ensures Size(items) == Size(items[..n]) + Size(items[n..])
  {
    assert items == items[..n] + items[n..];
    SizeAppend(items[..n], items[n..]);
  }

  class Queue {
    var items: seq<bytes>
    var totalSize: nat

    ghost predicate Valid()
      reads this
    {
      totalSize == Size(items)
    }

    constructor ()
      ensures Valid() && items == []
    {
      items, totalSize := [], 0;
    }

    method Clear()
      modifies this
      ensures Valid() && items == []
    {
      items, totalSize := [], 0;
    }

    method Swap(can: seq<bytes>) returns (can': seq<bytes>)
      modifies this
      ensures Valid() && items == can && can' == old(items)
    {
      var size := SizeInByte(can);
      can' := items;
      items, totalSize := can, size;
    }

    method Enqueue(item: bytes)
      requires Valid()
      modifies this
      ensures Valid() && items == old(items) + [item]
    {
      SizeAppend(items, [item]);
      SizeOne(item);
      items, totalSize := items + [item], totalSize + |item|;
    }

    method EnqueueFront(item: bytes)
      requires Valid()
      modifies this
      ensures Valid() && items == [item] + old(items)
    {
      SizeAppend([item], items);
      SizeOne(item);
      items, totalSize := [item] + items, totalSize + |item|;
    }

    /** Splices src behind the items; a size of zero means that the caller has not counted. */
    method MoveItemsIn(src: seq<bytes>, sizeInByte: nat)
      requires Valid() && (sizeInByte == 0 || sizeInByte == Size(src))
      modifies this
      ensures Valid() && items == old(items) + src
    {
      var size := sizeInByte;
      if size == 0 {
        size := SizeInByte(src);
      }
      SizeAppend(items, src);
      items, totalSize := items + src, totalSize + size;
    }

    method MoveItemsInFront(src: seq<bytes>, sizeInByte: nat)
      requires Valid() && (sizeInByte == 0 || sizeInByte == Size(src))
      modifies this
      ensures Valid() && items == src + old(items)
    {
      var size := sizeInByte;
      if size == 0 {
        size := SizeInByte(src);
      }
      SizeAppend(src, items);
      items, totalSize := src + items, totalSize + size;
    }

    method TryDequeue(item: bytes) returns (ok: bool, item': bytes)
      requires Valid()
      modifies this
      ensures Valid() && ok == (old(items) != [])
      ensures if ok then old(items) == [item'] + items else item' == item && items == old(items)
    {
      if items == [] {
        return false, item;
      }
      item' := items[0];
      SizeSplit(items, 1);
      SizeOne(item');
      assert items[..1] == [item'];
      items, totalSize := items[1..], totalSize - |item'|;
      ok := true;
    }

    /** Moves out at most num items, or all of them for (size_t) -1. */
    method MoveItemsOutByNum(dest: seq<bytes>, num: nat, npos: nat) returns (dest': seq<bytes>)
      requires Valid()
      modifies this
      ensures Valid()
      ensures var n := if num == npos || num > |old(items)| then |old(items)| else num;
              dest' == dest + old(items[..n]) && items == old(items[n..])
    {
      dest' := dest;
      if num == npos {
        dest' := dest + items;
        items, totalSize := [], 0;
      } else if num > 0 {
        var size, end := 0, 0;
        while end < |items| && end < num
          invariant Valid() && items == old(items) && end <= |items| && end <= num && size == Size(items[..end])
        {
          SizeStep(end);
          size := size + |items[end]|;
          end := end + 1;
        }
        dest' := Splice(dest, end, size);
      }
    }

    /** Moves out a batch. */
    method MoveItemsOutBySize(limit: nat, dest: seq<bytes>, npos: nat) returns (dest': seq<bytes>)
      requires Valid()
      modifies this
      ensures Valid()
      ensures var n := if limit == npos then |old(items)| else Reach(old(items), limit);
              dest' == dest + old(items[..n]) && items == old(items[n..])
    {
      if limit == npos {
        dest' := dest + items;
        items, totalSize := [], 0;
      } else {
        var size, end := 0, 0;
        while end < |items|
          invariant Valid() && items == old(items) && end <= |items| && size == Size(items[..end])
          invariant forall k :: 1 <= k <= end ==> Size(items[..k]) < limit
        {
          SizeStep(end);
          size := size + |items[end]|;
          end := end + 1;
          if size >= limit {
            break;
          }
        }
        if items != [] {
          ReachIsUnique(items, limit, end);
        }
        dest' := Splice(dest, end, size);
      }
    }

    lemma SizeStep(end: nat)
      requires end < |items|
      ensures Size(items[..end + 1]) == Size(items[..end]) + |items[end]|
    {
      assert items[..end + 1] == items[..end] + [items[end]];
      SizeAppend(items[..end], [items[end]]);
      SizeOne(items[end]);
    }

    method Splice(dest: seq<bytes>, end: nat, size: nat) returns (dest': seq<bytes>)
      requires Valid() && end <= |items| && size == Size(items[..end])
      modifies this
      ensures Valid() && dest' == dest + old(items[..end]) && items == old(items[end..])
    {
      SizeSplit(items, end);
      if end == |items| {
        dest' := dest + items;
        items := [];
      } else {
        dest' := dest + items[..end];
        items := items[end..];
      }
      totalSize := totalSize - size;
    }
  }
}
