/** The object pool: which sockets are in use, which are waiting to be reused or freed, and under which ids.

    Each public function of the original holds the pool's locks while it uses a container; here each is called on its
    own, and `PoolRuns` lets the critical sections of several threads mix. */
module ObjectPool {
  import opened Bytes
  import opened Wrappers

  /** A socket, as far as the pool looks at it: its id, what obsoleted() says, and how many shared pointers to it there
      are besides the pool's own. */
  class Sock {
    var id: nat
    var obsolete: bool
    var refs: nat

    constructor (id: nat, refs: nat)
      ensures this.id == id && this.refs == refs && !obsolete
    {
      this.id, this.refs, obsolete := id, refs, false;
    }

    /** Nobody but the pool refers to it, and it is over. */
    predicate Free()
      reads this
    {
      refs == 0 && obsolete
    }

    method Reset()
      modifies this`obsolete
      ensures !obsolete
    {
      obsolete := false;
    }
  }

  /** What is left of a list when its first `num` free items have gone. */
  function Kept<T>(list: seq<T>, free: seq<bool>, num: nat): (kept: seq<T>)
    requires |free| == |list|
  {
    if list == [] then []
    else if free[0] && num > 0 then Kept(list[1..], free[1..], num - 1)
    else [list[0]] + Kept(list[1..], free[1..], num)
  }

  function FreeCount(free: seq<bool>): nat {
    if free == [] then 0 else (if free[0] then 1 else 0) + FreeCount(free[1..])
  }

  /** Only free items go, as many as there are up to `num`: no item becomes more frequent, and one that is not free
      anywhere stays as frequent as it was. */
  lemma {:induction false} KeptIsExact<T>(list: seq<T>, free: seq<bool>, num: nat, x: T)
    requires |free| == |list|
    ensures |Kept(list, free, num)| == |list| - (if num <= FreeCount(free) then num else FreeCount(free))
    ensures FreeCount(free) <= |list|
    ensures multiset(Kept(list, free, num))[x] <= multiset(list)[x]
    ensures (forall i :: 0 <= i < |list| && list[i] == x ==> !free[i]) ==>
              multiset(Kept(list, free, num))[x] == multiset(list)[x]
  {
    if list != [] {
      var n := if free[0] && num > 0 then num - 1 else num;
      KeptIsExact(list[1..], free[1..], n, x);
      assert list == [list[0]] + list[1..];
      assert (forall i :: 0 <= i < |list| && list[i] == x ==> !free[i]) ==>
        forall i :: 0 <= i < |list[1..]| && list[1..][i] == x ==> !free[1..][i] by {
        forall i | 0 <= i < |list[1..]| ensures list[1..][i] == list[i + 1] && free[1..][i] == free[i + 1] {}
      }
    }
  }

  /** ... in their old order, without repetition if there was none. */
  lemma {:induction false} KeptIsDistinct<T>(list: seq<T>, free: seq<bool>, num: nat)
    requires |free| == |list| && Distinct(list)
    ensures Distinct(Kept(list, free, num))
    ensures forall x <- Kept(list, free, num) :: x in list
  {
    if list != [] {
      KeptIsDistinct(list[1..], free[1..], if free[0] && num > 0 then num - 1 else num);
      assert list[0] !in list[1..];
    }
  }

  /** ... and it is the first ones that go: a list may be cut anywhere, and what goes from the second part is what
      the first part leaves of the number. */
  lemma {:induction false} KeptGoesForward<T>(list: seq<T>, free: seq<bool>, num: nat, k: nat)
    requires |free| == |list| && k <= |list| && FreeCount(free[..k]) <= num
    ensures Kept(list, free, num) ==
            Kept(list[..k], free[..k], num) + Kept(list[k..], free[k..], num - FreeCount(free[..k]))
  {
    if k == 0 {
      assert list[0..] == list && free[0..] == free;
    } else {
      assert free[..k][1..] == free[1..][..k - 1] && list[..k][1..] == list[1..][..k - 1];
      assert free[k..] == free[1..][k - 1..] && list[k..] == list[1..][k - 1..];
      KeptGoesForward(list[1..], free[1..], if free[0] && num > 0 then num - 1 else num, k - 1);
    }
  }

  predicate Distinct<T(==)>(list: seq<T>) { forall i, j :: 0 <= i < j < |list| ==> list[i] != list[j] }

  function Remove(list: seq<Sock>, i: nat): seq<Sock>
    requires i < |list|
  {
    list[..i] + list[i + 1..]
  }

  class Pool {
    var objects: map<nat, Sock>
    var invalid: seq<Sock>
    var maxSize: nat

    /** Every key is its socket's id; no socket is both in use and invalid, or invalid twice. */
    ghost predicate Valid()
      reads this, objects.Values
    {
      && (forall id <- objects :: objects[id].id == id)
      && (forall id <- objects :: objects[id] !in invalid)
      && Distinct(invalid)
    }

    /** All sockets of the pool. */
    ghost function Members(): set<Sock>
      reads this
    {
      objects.Values + set s | s in invalid
    }

    constructor (maxSize: nat)
      ensures Valid() && objects == map[] && invalid == [] && this.maxSize == maxSize
    {
      objects, invalid, this.maxSize := map[], [], maxSize;
    }

    /** add_object. A socket that is invalid must not be added. */
    method AddObject(s: Sock) returns (ok: bool)
      requires Valid()
      modifies this`objects
      ensures ok == (|old(objects)| < maxSize && s.id !in old(objects))
      ensures objects == if ok then old(objects)[s.id := s] else old(objects)
      ensures Valid() <==> !ok || s !in invalid
    {
      ok := |objects| < maxSize && s.id !in objects;
      if ok {
        objects := objects[s.id := s];
        assert objects[s.id] == s;
      }
    }

    /** del_object by socket erases whatever is stored under its id. Applied to the socket that is stored there it only
        moves it; otherwise the stored one is lost and this one taken in, perhaps for the second time. */
    method DelObject(s: Sock) returns (ok: bool)
      requires Valid()
      modifies this`objects, this`invalid
      ensures ok == (s.id in old(objects))
      ensures objects == old(objects) - {s.id} && invalid == if ok then old(invalid) + [s] else old(invalid)
      ensures Valid() <==> !ok || s !in old(invalid)
      ensures ok && old(objects)[s.id] == s ==> Valid() && Members() == old(Members())
      ensures ok && old(objects)[s.id] != s ==> old(objects)[s.id] !in Members()
    {
      ok := s.id in objects;
      ghost var was := objects;
      objects := objects - {s.id};
      if ok {
        invalid := invalid + [s];
        assert invalid[|invalid| - 1] == s;
        if was[s.id] == s {
          Moved(was, s.id, invalid[..|invalid| - 1]);
        }
        if s in invalid[..|invalid| - 1] {
          var i :| 0 <= i < |invalid| - 1 && invalid[i] == s;
        }
      }
    }

    lemma Moved(was: map<nat, Sock>, id: nat, before: seq<Sock>)
      requires id in was
      ensures was.Values + (set s | s in before) ==
              (was - {id}).Values + (set s | s in before + [was[id]])
    {
      forall s ensures s in was.Values ==> s in (was - {id}).Values || s == was[id] {
        if s in was.Values && s != was[id] {
          var k :| k in was && was[k] == s;
          assert k in was - {id} && (was - {id})[k] == s;
        }
      }
    }

    /** del_object by id. */
    method DelObjectById(id: nat) returns (ok: bool)
      requires Valid()
      modifies this`objects, this`invalid
      ensures Valid() && ok == (id in old(objects)) && Members() == old(Members())
      ensures objects == old(objects) - {id} && invalid == if ok then old(invalid) + [old(objects)[id]] else old(invalid)
    {
      ok := id in objects;
      if ok {
        var s := objects[id];
        Moved(objects, id, invalid);
        objects := objects - {id};
        invalid := invalid + [s];
      }
    }

    /** init_object_id: stores a socket under a new id. It keeps the pool valid exactly when the socket is not invalid;
        it loses nobody when no other socket is stored under its old id. */
    method InitObjectId(s: Sock, id: nat) returns (ok: bool)
      requires Valid()
      modifies this`objects, s`id
      ensures ok == (old(s.id) == id || id !in old(objects))
      ensures invalid == old(invalid)
      ensures !ok || old(s.id) == id ==> Valid() && objects == old(objects) && s.id == old(s.id)
      ensures ok && old(s.id) != id ==>
                && s.id == id && objects == old(objects)[id := s] - {old(s.id)}
                && (Valid() <==> s !in invalid)
                && (old(s.id) !in old(objects) || old(objects)[old(s.id)] == s ==> Members() == old(Members()) + {s})
    {
      if s.id == id {
        return true;
      }
      if id in objects {
        return false;
      }
      ghost var was := objects;
      StoredUnderItsId(s);
      objects := objects[id := s] - {s.id};
      if s.id !in was || was[s.id] == s {
        Rekeyed(was, s.id, id, s);
      }
      s.id := id;
      assert id in objects && objects[id] == s;
      ok := true;
    }

    lemma StoredUnderItsId(s: Sock)
      requires Valid()
      ensures forall k <- objects :: objects[k] == s ==> k == s.id
    {
    }

    lemma Rekeyed(was: map<nat, Sock>, from: nat, to: nat, s: Sock)
      requires from != to && to !in was && (from in was ==> was[from] == s)
      ensures (was[to := s] - {from}).Values == was.Values + {s}
    {
      var now := was[to := s] - {from};
      assert to in now && now[to] == s;
      forall x | x in was.Values ensures x in now.Values {
        var k :| k in was && was[k] == x;
        if k != from {
          assert k in now && now[k] == x;
        }
      }
    }

    ghost function Frees(list: seq<Sock>): (free: seq<bool>)
      reads list
      ensures |free| == |list|
      ensures forall i :: 0 <= i < |list| ==> (free[i] <==> list[i].refs == 0 && list[i].obsolete)
    {
      seq(|list|, i requires 0 <= i < |list| reads list => list[i].Free())
    }

    /** Takes one socket out of the invalid list. */
    method TakeOut(i: nat) returns (s: Sock)
      requires Valid() && i < |invalid|
      modifies this`invalid
      ensures Valid() && s == old(invalid)[i] && invalid == Remove(old(invalid), i)
      ensures s !in invalid && s !in objects.Values
      ensures Members() == old(Members()) - {s}
    {
      s := invalid[i];
      invalid := Remove(invalid, i);
    }

    /** invalid_object_pop by id: only the first socket with that id is looked at, and it must be free. */
    method InvalidObjectPopById(id: nat) returns (s: Option<Sock>, ghost k: nat)
      requires Valid()
      modifies this`invalid
      ensures Valid() && k <= |old(invalid)| && forall i :: 0 <= i < k ==> old(invalid)[i].id != id
      ensures k < |old(invalid)| ==> old(invalid)[k].id == id
      ensures s.Some? <==> k < |old(invalid)| && old(invalid)[k].refs == 0 && old(invalid)[k].obsolete
      ensures s.None? ==> invalid == old(invalid)
      ensures s.Some? ==> s.value == old(invalid)[k] && invalid == Remove(old(invalid), k)
                          && s.value !in invalid && s.value !in objects.Values && Members() == old(Members()) - {s.value}
    {
      var i := 0;
      while i < |invalid| && invalid[i].id != id
        invariant i <= |invalid| && forall h :: 0 <= h < i ==> invalid[h].id != id
      {
        i := i + 1;
      }
      s, k := None, i;
      if i < |invalid| && invalid[i].Free() {
        var found := TakeOut(i);
        s := Some(found);
      }
    }

    /** invalid_object_pop: the first free one. */
    method InvalidObjectPop() returns (s: Option<Sock>)
      requires Valid()
      modifies this`invalid
      ensures Valid()
      ensures s.None? ==> invalid == old(invalid) &&
                          forall i :: 0 <= i < |invalid| ==> invalid[i].refs > 0 || !invalid[i].obsolete
      ensures s.Some? ==> s.value.refs == 0 && s.value.obsolete && s.value in old(invalid) && s.value !in invalid
                          && s.value !in objects.Values && Members() == old(Members()) - {s.value}
    {
      for k := 0 to |invalid|
        invariant invalid == old(invalid) && forall i :: 0 <= i < k ==> !invalid[i].Free()
      {
        if invalid[k].Free() {
          var found := TakeOut(k);
          return Some(found);
        }
      }
      s := None;
    }

    /** reuse_object: a popped socket is reset before it is used again. */
    method ReuseObject() returns (s: Option<Sock>)
      requires Valid()
      modifies this`invalid, invalid
      ensures Valid()
      ensures s.None? ==> invalid == old(invalid)
      ensures s.Some? <==> exists i :: 0 <= i < |old(invalid)| && old(invalid[i].refs == 0 && invalid[i].obsolete)
      ensures s.Some? ==> s.value in old(invalid) && old(s.value.refs == 0 && s.value.obsolete) && !s.value.obsolete
                          && s.value !in invalid && s.value !in objects.Values
    {
      s := InvalidObjectPop();
      if s.Some? {
        s.value.Reset();
      }
    }

    /** free_object. */
    method FreeObject(num: nat) returns (affected: nat)
      requires Valid()
      modifies this`invalid
      ensures Valid() && invalid == Kept(old(invalid), Frees(old(invalid)), num)
      ensures affected == |old(invalid)| - |invalid|
    {
      var kept: seq<Sock> := [];
      var left: nat := num;
      var k := 0;
      ghost var free := Frees(invalid);
      while left > 0 && k < |invalid|
        invariant k <= |invalid| && invalid == old(invalid) && left + (k - |kept|) == num && |kept| <= k
        invariant Kept(invalid, free, num) == kept + Kept(invalid[k..], free[k..], left)
      {
        assert invalid[k..][1..] == invalid[k + 1..] && free[k..][1..] == free[k + 1..];
        if invalid[k].Free() {
          left := left - 1;
        } else {
          kept := kept + [invalid[k]];
        }
        k := k + 1;
      }
      if left == 0 {
        KeptNone(invalid[k..], free[k..]);
      } else {
        assert invalid[k..] == [];
      }
      KeptIsDistinct(invalid, free, num);
      affected := num - left;
      invalid := kept + invalid[k..];
    }

    lemma {:induction false} KeptNone(list: seq<Sock>, free: seq<bool>)
      requires |free| == |list|
      ensures Kept(list, free, 0) == list
    {
      if list != [] {
        KeptNone(list[1..], free[1..]);
      }
    }

    /** change_object_id: gives a socket the id of an invalid one, which leaves the pool. It fails when there is no free
        invalid socket of that id, or the id is in use; then the pool is what it was, but for the order of the invalid
        list. */
    method ChangeObjectId(s: Sock, id: nat) returns (popped: Option<Sock>, ghost k: nat)
      requires Valid()
      modifies this`objects, this`invalid, s`id
      ensures k <= |old(invalid)| && forall i :: 0 <= i < k ==> old(invalid[i].id) != id
      ensures k < |old(invalid)| ==> old(invalid[k].id) == id
      ensures popped.Some? <==>
                && k < |old(invalid)| && old(invalid)[k].refs == 0 && old(invalid)[k].obsolete
                && (old(s.id) == id || id !in old(objects))
      ensures popped.Some? ==> popped.value == old(invalid)[k]
      ensures s !in old(invalid) ==> Valid()
      ensures popped.Some? ==> popped.value in old(invalid) && old(popped.value.id) == id
                               && popped.value !in invalid && multiset(old(invalid)) == multiset(invalid + [popped.value])
                               && s.id == id
                               && objects == if old(s.id) == id then old(objects) else old(objects)[id := s] - {old(s.id)}
      ensures popped.None? ==> objects == old(objects) && s.id == old(s.id) && multiset(invalid) == multiset(old(invalid))
    {
      hide Members, Distinct;
      popped, k := InvalidObjectPopById(id);
      if popped.Some? {
        RemoveIsOne(old(invalid), k);
        if s !in old(invalid) {
          InRemove(old(invalid), k, s);
        }
        hide Remove;
        var ok := InitObjectId(s, id);
        if !ok {
          PutBack(popped.value);
          popped := None;
        }
      }
    }

    lemma InRemove(list: seq<Sock>, k: nat, s: Sock)
      requires k < |list| && s !in list
      ensures s !in Remove(list, k)
    {
    }

    method PutBack(s: Sock)
      requires Valid() && s !in invalid && s !in objects.Values
      modifies this`invalid
      ensures Valid() && invalid == old(invalid) + [s]
    {
      invalid := invalid + [s];
    }

    lemma RemoveIsOne(list: seq<Sock>, k: nat)
      requires k < |list|
      ensures multiset(Remove(list, k) + [list[k]]) == multiset(list)
    {
      assert list == list[..k] + [list[k]] + list[k + 1..];
    }

    /** clear_obsoleted_object: every obsolete socket in use becomes invalid, in some order. */
    method ClearObsoletedObject() returns (size: nat, ghost moved: seq<Sock>)
      requires Valid()
      modifies this`objects, this`invalid
      ensures Valid() && Members() == old(Members())
      ensures objects == map id | id in old(objects) && !old(objects)[id].obsolete :: old(objects)[id]
      ensures invalid == old(invalid) + moved && size == |moved|
      ensures forall s :: s in moved <==> s in old(objects).Values && s.obsolete
    {
      var out: seq<Sock> := [];
      var keys := objects.Keys;
      ghost var was := objects;
      assert Clearing(was, keys, out);
      hide Clearing, Members, Distinct;
      while keys != {}
        invariant invalid == old(invalid) && was == old(objects) && Clearing(was, keys, out)
        decreases |keys|
      {
        var id :| id in keys;
        out := ClearOne(was, keys, out, id);
        keys := keys - {id};
      }
      size, moved := |out|, out;
      SpliceOut(was, out);
    }

    /** The moved sockets are spliced into the invalid list. */
    method SpliceOut(ghost was: map<nat, Sock>, out: seq<Sock>)
      requires Clearing(was, {}, out)
      modifies this`invalid
      ensures Valid() && invalid == old(invalid) + out
      ensures Members() == was.Values + set s | s in old(invalid)
      ensures objects == map id | id in was && !was[id].obsolete :: was[id]
      ensures forall s :: s in out <==> s in was.Values && s.obsolete
    {
      AllMoved(was, out);
      Together(was, objects, invalid, out);
      hide Clearing, Distinct;
      invalid := invalid + out;
    }

    /** The loop has looked at all keys but some, and has moved the obsolete sockets among those. */
    ghost predicate Clearing(was: map<nat, Sock>, keys: set<nat>, out: seq<Sock>)
      reads this, was.Values
    {
      && keys <= objects.Keys
      && (forall id <- was :: was[id].id == id && was[id] !in invalid)
      && Distinct(invalid) && Distinct(out)
      && (forall id :: id in objects <==> id in was && (id in keys || !was[id].obsolete))
      && (forall id <- objects :: objects[id] == was[id])
      && (forall i :: 0 <= i < |out| ==> exists id :: id in was && id !in keys && was[id] == out[i] && out[i].obsolete)
      && (forall id <- was :: id !in keys && was[id].obsolete ==> was[id] in out)
    }

    method ClearOne(ghost was: map<nat, Sock>, ghost keys: set<nat>, out: seq<Sock>, id: nat) returns (out': seq<Sock>)
      requires Clearing(was, keys, out) && id in keys
      modifies this`objects
      ensures Clearing(was, keys - {id}, out')
    {
      out' := out;
      if objects[id].obsolete {
        assert forall i :: 0 <= i < |out| ==> out[i] != was[id];
        out' := out + [objects[id]];
        objects := objects - {id};
        assert out'[|out|] == was[id];
      }
    }

    lemma AllMoved(was: map<nat, Sock>, out: seq<Sock>)
      requires Clearing(was, {}, out)
      ensures Distinct(invalid + out)
      ensures objects == map id | id in was && !was[id].obsolete :: was[id]
      ensures forall s :: s in out <==> s in was.Values && s.obsolete
      ensures forall id <- objects :: objects[id].id == id && objects[id] !in invalid + out
    {
    }

    lemma Together(was: map<nat, Sock>, now: map<nat, Sock>, before: seq<Sock>, out: seq<Sock>)
      requires forall id <- now :: id in was && now[id] == was[id]
      requires forall id <- was :: id in now || was[id] in out
      requires forall i :: 0 <= i < |out| ==> out[i] in was.Values
      ensures was.Values + (set s | s in before) == now.Values + set s | s in before + out
    {
      forall s | s in was.Values ensures s in now.Values || s in out {
        var k :| k in was && was[k] == s;
        if k in now {
          assert now[k] == s;
        }
      }
      forall s | s in now.Values ensures s in was.Values {
        var k :| k in now && now[k] == s;
        assert was[k] == s;
      }
    }
  }
}
