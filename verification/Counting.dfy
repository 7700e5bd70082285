/** Counting the threads that are somewhere, over a step that moves one of them. */
module Counting {

  function Bit(b: bool): nat { if b then 1 else 0 }

  /** How many of the threads have a mark. */
  function Count<T>(mark: T -> bool, threads: seq<T>): (n: nat) {
    if threads == [] then 0 else Bit(mark(threads[0])) + Count(mark, threads[1..])
  }

  lemma {:induction false} CountMove<T>(mark: T -> bool, threads: seq<T>, t: nat, pc: T)
    requires t < |threads|
    ensures Count(mark, threads[t := pc]) == Count(mark, threads) - Bit(mark(threads[t])) + Bit(mark(pc))
    ensures mark(threads[t]) ==> Count(mark, threads) > 0
  {
    if t == 0 {
      assert threads[0 := pc][1..] == threads[1..];
    } else {
      assert threads[t := pc][1..] == threads[1..][t - 1 := pc];
      CountMove(mark, threads[1..], t - 1, pc);
    }
  }

  lemma {:induction false} CountZero<T>(mark: T -> bool, threads: seq<T>)
    ensures Count(mark, threads) == 0 <==> forall i :: 0 <= i < |threads| ==> !mark(threads[i])
  {
    if threads != [] {
      CountZero(mark, threads[1..]);
      assert threads == [threads[0]] + threads[1..];
    }
  }

  /** Marks that no thread has together count no more than a mark that each of them implies. */
  lemma {:induction false} CountAdd<T>(a: T -> bool, b: T -> bool, c: T -> bool, threads: seq<T>)
    requires forall i :: 0 <= i < |threads| ==>
               var pc := threads[i]; (a(pc) ==> c(pc)) && (b(pc) ==> c(pc)) && !(a(pc) && b(pc))
    ensures Count(a, threads) + Count(b, threads) <= Count(c, threads)
  {
    if threads != [] {
      CountAdd(a, b, c, threads[1..]);
    }
  }

  /** How many steps the threads have before them, when each place has so many. */
  function Weight<T>(rank: T -> nat, threads: seq<T>): (w: nat) {
    if threads == [] then 0 else rank(threads[0]) + Weight(rank, threads[1..])
  }

  lemma {:induction false} WeightMove<T>(rank: T -> nat, threads: seq<T>, t: nat, pc: T)
    requires t < |threads|
    ensures Weight(rank, threads[t := pc]) + rank(threads[t]) == Weight(rank, threads) + rank(pc)
  {
    if t == 0 {
      assert threads[0 := pc][1..] == threads[1..];
    } else {
      assert threads[t := pc][1..] == threads[1..][t - 1 := pc];
      WeightMove(rank, threads[1..], t - 1, pc);
    }
  }

  /** Some thread has a step before it, or none has. */
  lemma {:induction false} WeightOfOne<T>(rank: T -> nat, threads: seq<T>) returns (t: nat)
    ensures Weight(rank, threads) > 0 ==> t < |threads| && rank(threads[t]) > 0
    ensures Weight(rank, threads) == 0 ==> forall i :: 0 <= i < |threads| ==> rank(threads[i]) == 0
  {
    t := 0;
    if threads != [] {
      t := WeightOfOne(rank, threads[1..]);
      t := if rank(threads[0]) > 0 then 0 else t + 1;
      assert threads == [threads[0]] + threads[1..];
    }
  }

  function Total(ns: seq<nat>): (n: nat) {
    if ns == [] then 0 else ns[0] + Total(ns[1..])
  }

  lemma {:induction false} TotalUpdate(ns: seq<nat>, t: nat, n: nat)
    requires t < |ns|
    ensures Total(ns[t := n]) == Total(ns) - ns[t] + n
  {
    if t == 0 {
      assert ns[0 := n][1..] == ns[1..];
    } else {
      assert ns[t := n][1..] == ns[1..][t - 1 := n];
      TotalUpdate(ns[1..], t - 1, n);
    }
  }

  lemma {:induction false} TotalAppend(ns: seq<nat>, n: nat)
    ensures Total(ns + [n]) == Total(ns) + n
  {
    if ns == [] {
      assert [] + [n] == [n] && [n][1..] == [];
    } else {
      assert (ns + [n])[1..] == ns[1..] + [n];
      TotalAppend(ns[1..], n);
    }
  }

  lemma {:induction false} TotalZero(ns: seq<nat>)
    requires forall i :: 0 <= i < |ns| ==> ns[i] == 0
    ensures Total(ns) == 0
  {
    if ns != [] {
      TotalZero(ns[1..]);
    }
  }
}
