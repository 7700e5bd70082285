/** The object pool under concurrency: each critical section of its functions is a step of its own, so that a socket may
    be in a third place, in the hands of a thread between two sections.

    Whether a socket is free to go (obsolete, and referred to by nobody else) is up to the sockets and their users, and
    comes with the step that asks for it. */
module PoolRuns {
  import opened Counting
  import opened Machine

  /** Where a thread is: outside the pool's functions; about to append sockets to the invalid list; or inside
      change_object_id, having popped the invalid socket of that id, with init_object_id next. */
  datatype Thread = Idle | Moving(list: seq<nat>) | Changing(x: nat, id: nat, popped: nat)

  /** Sockets are numbers; `objects` and `invalid` are the pool's containers, `ids` the ids of all sockets. */
  datatype State = State(objects: map<nat, nat>, invalid: seq<nat>, ids: map<nat, nat>, threads: seq<Thread>,
                         maxSize: nat, nextId: nat)

  /** Erase and EraseId begin the two forms of del_object, Kick begins clear_obsoleted_object for the keys that it finds
      obsolete, and Append ends each; Pop begins change_object_id and Rekey goes on with it. Leave is free_object's
      erasing of one socket, or invalid_object_pop, and Create is init_object. */
  datatype Step =
    | Create(x: nat) | Add(x: nat) | Leave(i: nat, free: bool)
    | Erase(t: nat, x: nat) | EraseId(t: nat, id: nat) | Kick(t: nat, keys: seq<nat>) | Append(t: nat)
    | Pop(t: nat, x: nat, id: nat, free: bool) | Rekey(t: nat)

  function Init(n: nat, maxSize: nat): State { State(map[], [], map[], seq(n, i => Idle), maxSize, 0) }

  predicate InUse(s: State, x: nat) { x in s.ids && s.ids[x] in s.objects && s.objects[s.ids[x]] == x }

  function Times(list: seq<nat>, x: nat): nat { multiset(list)[x] }

  function Hand(pc: Thread): seq<nat> {
    match pc
    case Idle => []
    case Moving(list) => list
    case Changing(_, _, popped) => [popped]
  }

  function InHands(threads: seq<Thread>, x: nat): nat {
    if threads == [] then 0 else Times(Hand(threads[0]), x) + InHands(threads[1..], x)
  }

  /** In how many places a socket is, and in how many besides being in use. */
  function Strays(s: State, x: nat): nat { Times(s.invalid, x) + InHands(s.threads, x) }

  function Copies(s: State, x: nat): nat { Bit(InUse(s, x)) + Strays(s, x) }

  predicate At(s: State, t: nat, pc: Thread) { t < |s.threads| && s.threads[t] == pc }

  function Goto(s: State, t: nat, pc: Thread): State
    requires t < |s.threads|
  {
    s.(threads := s.threads[t := pc])
  }

  function Without(list: seq<nat>, i: nat): seq<nat>
    requires i < |list|
  {
    list[..i] + list[i + 1..]
  }

  /** The position of the first socket with an id. */
  function First(s: State, list: seq<nat>, id: nat): (i: nat)
    ensures i <= |list|
  {
    if list == [] then 0
    else if list[0] in s.ids && s.ids[list[0]] == id then 0
    else 1 + First(s, list[1..], id)
  }

  predicate AreKeys(s: State, keys: seq<nat>) {
    && (forall i :: 0 <= i < |keys| ==> keys[i] in s.objects)
    && (forall i, j :: 0 <= i < j < |keys| ==> keys[i] != keys[j])
  }

  function Stored(objects: map<nat, nat>, keys: seq<nat>): (list: seq<nat>)
    requires forall i :: 0 <= i < |keys| ==> keys[i] in objects
    ensures |list| == |keys|
  {
    seq(|keys|, i requires 0 <= i < |keys| => objects[keys[i]])
  }

  predicate CanAdd(s: State, x: nat) { x in s.ids && |s.objects| < s.maxSize && s.ids[x] !in s.objects }

  predicate CanErase(s: State, t: nat, x: nat) { At(s, t, Idle) && x in s.ids && s.ids[x] in s.objects }

  predicate IsChanging(s: State, t: nat) {
    t < |s.threads| && s.threads[t].Changing? && s.threads[t].x in s.ids
  }

  /** init_object_id finds that the socket has that id already, that the id is in use, or stores the socket. */
  predicate Same(s: State, t: nat) { IsChanging(s, t) && s.ids[s.threads[t].x] == s.threads[t].id }

  predicate Stores(s: State, t: nat) { IsChanging(s, t) && !Same(s, t) && s.threads[t].id !in s.objects }

  function DoRekey(s: State, t: nat): State {
    if !IsChanging(s, t) then s
    else
      var pc := s.threads[t];
      if Same(s, t) then Goto(s, t, Idle)
      else if !Stores(s, t) then Goto(s, t, Moving([pc.popped]))
      else Goto(s, t, Idle).(objects := s.objects[pc.id := pc.x] - {s.ids[pc.x]}, ids := s.ids[pc.x := pc.id])
  }

  function DoPop(s: State, t: nat, x: nat, id: nat, free: bool): State {
    var i := First(s, s.invalid, id);
    if At(s, t, Idle) && i < |s.invalid| && free
    then Goto(s, t, Changing(x, id, s.invalid[i])).(invalid := Without(s.invalid, i)) else s
  }

  function Do(s: State, step: Step): State {
    match step
    case Create(x) => if Copies(s, x) == 0 then s.(ids := s.ids[x := s.nextId], nextId := s.nextId + 1) else s
    case Add(x) => if CanAdd(s, x) then s.(objects := s.objects[s.ids[x] := x]) else s
    case Leave(i, free) => if free && i < |s.invalid| then s.(invalid := Without(s.invalid, i)) else s
    case Erase(t, x) => if CanErase(s, t, x) then Goto(s, t, Moving([x])).(objects := s.objects - {s.ids[x]}) else s
    case EraseId(t, id) =>
      if At(s, t, Idle) && id in s.objects
      then Goto(s, t, Moving([s.objects[id]])).(objects := s.objects - {id}) else s
    case Kick(t, keys) =>
      if At(s, t, Idle) && AreKeys(s, keys)
      then Goto(s, t, Moving(Stored(s.objects, keys))).(objects := s.objects - set k | k in keys) else s
    case Append(t) =>
      if t < |s.threads| && s.threads[t].Moving?
      then Goto(s, t, Idle).(invalid := s.invalid + s.threads[t].list) else s
    case Pop(t, x, id, free) => DoPop(s, t, x, id, free)
    case Rekey(t) => DoRekey(s, t)
  }

  // Every socket is in one place.

  /** Every key is its socket's id. */
  ghost predicate Keyed(s: State) { forall k <- s.objects :: s.objects[k] in s.ids && s.ids[s.objects[k]] == k }

  ghost predicate Single(s: State) { forall x: nat :: Copies(s, x) <= 1 }

  /** A socket leaves the pool: it has been found free. */
  predicate Leaves(s: State, step: Step, y: nat) {
    || (step.Leave? && step.free && step.i < |s.invalid| && y == s.invalid[step.i])
    || (step.Rekey? && (Same(s, step.t) || Stores(s, step.t)) && y == s.threads[step.t].popped)
  }

  predicate Joins(s: State, step: Step, y: nat) {
    || (step.Add? && CanAdd(s, step.x) && y == step.x)
    || (step.Rekey? && Stores(s, step.t) && y == s.threads[step.t].x && !InUse(s, y))
  }

  /** What the pool asks of its users: a socket that is stored, by add_object or under a new id, is neither invalid nor in
      another thread's hands, and whatever has its key erased is the socket that is stored there. */
  predicate Proper(s: State, step: Step) {
    && (step.Add? && CanAdd(s, step.x) ==> Strays(s, step.x) == 0)
    && (step.Erase? && CanErase(s, step.t, step.x) ==> InUse(s, step.x))
    && (step.Rekey? && Stores(s, step.t) ==>
          var pc := s.threads[step.t];
          Strays(s, pc.x) == Bit(pc.x == pc.popped) && (s.ids[pc.x] in s.objects ==> InUse(s, pc.x)))
  }

  /** No socket is twice in the pool after the step, and none is gone but by being found free. */
  ghost predicate Sound(s: State, step: Step) {
    && Single(Do(s, step))
    && forall y: nat :: Copies(Do(s, step), y) < Copies(s, y) ==> Leaves(s, step, y)
  }

  lemma {:induction false} HandsMove(threads: seq<Thread>, t: nat, pc: Thread, y: nat)
    requires t < |threads|
    ensures InHands(threads[t := pc], y) + Times(Hand(threads[t]), y) == InHands(threads, y) + Times(Hand(pc), y)
    ensures InHands(threads, y) >= Times(Hand(threads[t]), y)
  {
    hide Times, Hand;
    if t == 0 {
      assert threads[0 := pc][1..] == threads[1..];
    } else {
      assert threads[t := pc][0] == threads[0] && threads[t := pc][1..] == threads[1..][t - 1 := pc];
      HandsMove(threads[1..], t - 1, pc, y);
    }
  }

  lemma {:induction false} HandsEmpty(n: nat, y: nat)
    ensures InHands(seq(n, i => Idle), y) == 0
    decreases n
  {
    if n > 0 {
      assert seq(n, i => Idle)[1..] == seq(n - 1, i => Idle);
      HandsEmpty(n - 1, y);
    }
  }

  lemma TimesWithout(list: seq<nat>, i: nat, y: nat)
    requires i < |list|
    ensures Times(Without(list, i), y) == Times(list, y) - Bit(list[i] == y)
  {
    assert list == list[..i] + [list[i]] + list[i + 1..];
  }

  lemma TimesOne(x: nat, y: nat)
    ensures Times([x], y) == Bit(x == y)
  {
  }

  lemma TimesAppend(a: seq<nat>, b: seq<nat>, y: nat)
    ensures Times(a + b, y) == Times(a, y) + Times(b, y)
  {
  }

  /** Each socket in use is taken out once with its key. */
  lemma {:induction false} TimesStored(s: State, keys: seq<nat>, y: nat)
    requires Keyed(s) && AreKeys(s, keys)
    ensures Times(Stored(s.objects, keys), y) == Bit(InUse(s, y) && s.ids[y] in keys)
  {
    if keys != [] {
      TimesStored(s, keys[1..], y);
      assert Stored(s.objects, keys) == [s.objects[keys[0]]] + Stored(s.objects, keys[1..]);
      TimesOne(s.objects[keys[0]], y);
      TimesAppend([s.objects[keys[0]]], Stored(s.objects, keys[1..]), y);
      assert keys == [keys[0]] + keys[1..];
    }
    hide Times;
  }

  /** The keys stay right whatever the users do. */
  lemma StaysKeyed(s: State, step: Step)
    requires Keyed(s)
    ensures Keyed(Do(s, step))
  {
    hide Times, Hand, InHands, Without, First, Stored;
  }

  /** Only what a thread has in its hands changes with where it is. */
  lemma GotoStrays(s: State, t: nat, pc: Thread, y: nat)
    requires t < |s.threads|
    ensures Strays(Goto(s, t, pc), y) == Strays(s, y) - Times(Hand(s.threads[t]), y) + Times(Hand(pc), y)
  {
    HandsMove(s.threads, t, pc, y);
    hide Times, InHands, Hand;
  }

  lemma RekeyStrays(s: State, t: nat, y: nat)
    ensures Strays(DoRekey(s, t), y) == Strays(s, y) - Bit(Leaves(s, Rekey(t), y))
  {
    if IsChanging(s, t) {
      var s', popped := DoRekey(s, t), s.threads[t].popped;
      var pc: Thread := if Same(s, t) || Stores(s, t) then Idle else Moving([popped]);
      assert s'.invalid == s.invalid && s'.threads == Goto(s, t, pc).threads;
      GotoStrays(s, t, pc, y);
      TimesOne(popped, y);
      hide DoRekey, Times, InHands, Same, Stores;
    }
    hide Times, InHands;
  }

  lemma RekeyInUse(s: State, t: nat, y: nat)
    requires Keyed(s) && Proper(s, Rekey(t))
    ensures InUse(Do(s, Rekey(t)), y) <==> InUse(s, y) || Joins(s, Rekey(t), y)
  {
    hide Strays;
  }

  lemma EraseCopies(s: State, t: nat, x: nat, y: nat)
    requires Keyed(s) && Proper(s, Erase(t, x))
    ensures Copies(Do(s, Erase(t, x)), y) == Copies(s, y)
  {
    if CanErase(s, t, x) {
      GotoStrays(s, t, Moving([x]), y);
      TimesOne(x, y);
    }
    hide Times, InHands, Strays, Joins;
  }

  lemma EraseIdCopies(s: State, t: nat, id: nat, y: nat)
    requires Keyed(s)
    ensures Copies(Do(s, EraseId(t, id)), y) == Copies(s, y)
  {
    if At(s, t, Idle) && id in s.objects {
      GotoStrays(s, t, Moving([s.objects[id]]), y);
      TimesOne(s.objects[id], y);
    }
    hide Times, InHands, Strays;
  }

  lemma KickCopies(s: State, t: nat, keys: seq<nat>, y: nat)
    requires Keyed(s)
    ensures Copies(Do(s, Kick(t, keys)), y) == Copies(s, y)
  {
    if At(s, t, Idle) && AreKeys(s, keys) {
      GotoStrays(s, t, Moving(Stored(s.objects, keys)), y);
      TimesStored(s, keys, y);
    }
    hide Times, InHands, Strays, Stored;
  }

  lemma LeaveCopies(s: State, i: nat, free: bool, y: nat)
    ensures Copies(Do(s, Leave(i, free)), y) == Copies(s, y) - Bit(Leaves(s, Leave(i, free), y))
  {
    if i < |s.invalid| {
      TimesWithout(s.invalid, i, y);
    }
    hide Times, InHands, Without;
  }

  lemma AppendCopies(s: State, t: nat, y: nat)
    ensures Copies(Do(s, Append(t)), y) == Copies(s, y)
  {
    if t < |s.threads| {
      GotoStrays(s, t, Idle, y);
      TimesAppend(s.invalid, Hand(s.threads[t]), y);
    }
    hide Times, InHands;
  }

  lemma PopCopies(s: State, step: Step, y: nat)
    requires step.Pop?
    ensures Copies(Do(s, step), y) == Copies(s, y)
  {
    var i := First(s, s.invalid, step.id);
    if step.t < |s.threads| && i < |s.invalid| {
      GotoStrays(s, step.t, Changing(step.x, step.id, s.invalid[i]), y);
      TimesWithout(s.invalid, i, y);
      TimesOne(s.invalid[i], y);
    }
    hide Times, InHands, Without, First;
  }

  /** A proper step changes the number of a socket's places by its joining or leaving the pool, and nothing else does. */
  lemma ProperCopies(s: State, step: Step, y: nat)
    requires Keyed(s) && Proper(s, step)
    ensures Copies(Do(s, step), y) == Copies(s, y) + Bit(Joins(s, step, y)) - Bit(Leaves(s, step, y))
  {
    match step {
      case Rekey(t) =>
        RekeyStrays(s, t, y);
        RekeyInUse(s, t, y);
        hide Do, InUse, Strays, Leaves, Same, Stores, Proper;
      case Erase(t, x) => EraseCopies(s, t, x, y);
      case EraseId(t, id) => EraseIdCopies(s, t, id, y);
      case Kick(t, keys) => KickCopies(s, t, keys, y);
      case Leave(i, free) => LeaveCopies(s, i, free, y);
      case Append(t) => AppendCopies(s, t, y);
      case Pop(_, _, _, _) => PopCopies(s, step, y);
      case _ =>
    }
    hide Times, InHands;
  }

  lemma ProperIsSound(s: State, step: Step)
    requires Keyed(s) && Single(s) && Proper(s, step)
    ensures Sound(s, step)
  {
    forall y: nat
      ensures Copies(Do(s, step), y) <= 1
      ensures Copies(Do(s, step), y) < Copies(s, y) ==> Leaves(s, step, y)
    {
      ProperCopies(s, step, y);
      if Joins(s, step, y) {
        NewcomersAreOut(s, step, y);
      }
      hide Do, Copies, Leaves, Joins, Proper;
    }
    hide Do, Copies, Leaves;
  }

  lemma NewcomersAreOut(s: State, step: Step, y: nat)
    requires Keyed(s) && Single(s) && Proper(s, step) && Joins(s, step, y)
    ensures Copies(s, y) == Bit(Leaves(s, step, y))
  {
    hide Times, InHands, Strays;
  }

  /** A socket that is added while it is elsewhere in the pool, or stored under a new id, is there twice. */
  lemma StoredTwice(s: State, step: Step)
    requires Keyed(s) && Single(s)
    requires step.Add? ==> CanAdd(s, step.x) && Strays(s, step.x) > 0
    requires step.Rekey? ==>
               Stores(s, step.t) && var pc := s.threads[step.t]; Strays(s, pc.x) != Bit(pc.x == pc.popped)
    requires step.Add? || step.Rekey?
    ensures !Sound(s, step)
  {
    if step.Rekey? {
      var pc := s.threads[step.t];
      RekeyStrays(s, step.t, pc.x);
      GotoStrays(s, step.t, Idle, pc.popped);
      TimesOne(pc.popped, pc.popped);
      assert Copies(Do(s, step), pc.x) > 1;
    } else {
      assert Copies(Do(s, step), step.x) > 1;
    }
    hide Times, InHands;
  }

  /** One that is erased with the key of another one, or stored anew with that key, takes the other one out. */
  lemma AnotherIsLost(s: State, step: Step)
    requires Keyed(s) && Single(s)
    requires step.Erase? ==> CanErase(s, step.t, step.x) && !InUse(s, step.x)
    requires step.Rekey? ==>
               Stores(s, step.t) && var x := s.threads[step.t].x; s.ids[x] in s.objects && !InUse(s, x)
    requires step.Erase? || step.Rekey?
    ensures !Sound(s, step)
  {
    var y := s.objects[s.ids[if step.Erase? then step.x else s.threads[step.t].x]];
    if step.Erase? {
      GotoStrays(s, step.t, Moving([step.x]), y);
      TimesOne(step.x, y);
    } else {
      RekeyStrays(s, step.t, y);
      GotoStrays(s, step.t, Idle, y);
      TimesOne(s.threads[step.t].popped, y);
    }
    assert Copies(Do(s, step), y) < Copies(s, y) && !Leaves(s, step, y);
    hide Times, InHands;
  }

  /** A step is sound exactly if it is proper. */
  lemma SoundIfProper(s: State, step: Step)
    requires Keyed(s) && Single(s)
    ensures Sound(s, step) <==> Proper(s, step)
  {
    if Proper(s, step) {
      ProperIsSound(s, step);
    } else if step.Add? {
      StoredTwice(s, step);
    } else if step.Erase? {
      AnotherIsLost(s, step);
    } else {
      var x := s.threads[step.t].x;
      if s.ids[x] in s.objects && !InUse(s, x) {
        AnotherIsLost(s, step);
      } else {
        StoredTwice(s, step);
      }
    }
    hide Sound, Strays, InUse, Single, Keyed, CanAdd, CanErase, Stores;
  }

  /** Every step of a run is sound, or proper, in the state in which it is made. */
  ghost predicate AllSound(s: State, schedule: seq<Step>)
    decreases |schedule|
  {
    schedule == [] ||
    var front, last := schedule[..|schedule| - 1], schedule[|schedule| - 1];
    AllSound(s, front) && Sound(Run(Do, s, front), last)
  }

  predicate AllProper(s: State, schedule: seq<Step>)
    decreases |schedule|
  {
    schedule == [] ||
    var front, last := schedule[..|schedule| - 1], schedule[|schedule| - 1];
    AllProper(s, front) && Proper(Run(Do, s, front), last)
  }

  /** In a run of any number of threads, every socket is always in one place at most, in use, invalid or in one thread's
      hands, and leaves the pool only when it has been found free, exactly as long as the pool's users are proper. */
  lemma {:induction false} EachInOnePlace(n: nat, maxSize: nat, schedule: seq<Step>)
    ensures var s := Init(n, maxSize);
            && (AllSound(s, schedule) <==> AllProper(s, schedule))
            && Keyed(Run(Do, s, schedule))
            && (AllProper(s, schedule) ==> Single(Run(Do, s, schedule)))
    decreases |schedule|
  {
    if schedule == [] {
      forall y: nat ensures Copies(Init(n, maxSize), y) == 0 {
        HandsEmpty(n, y);
      }
      hide InHands;
    } else {
      var front := schedule[..|schedule| - 1];
      var s := Run(Do, Init(n, maxSize), front);
      EachInOnePlace(n, maxSize, front);
      StaysKeyed(s, schedule[|schedule| - 1]);
      if AllProper(Init(n, maxSize), front) {
        SoundIfProper(s, schedule[|schedule| - 1]);
      }
      hide Do, Init, Keyed, Single, Proper, Sound;
    }
  }

  // One function without another thread in between.

  lemma AppendAlone(s: State, t: nat, list: seq<nat>)
    requires At(s, t, Idle)
    ensures Do(Goto(s, t, Moving(list)), Append(t)) == s.(invalid := s.invalid + list)
  {
    assert s.threads[t := Moving(list)][t := Idle] == s.threads;
    hide Times, InHands;
  }

  /** del_object of a socket, and of an id. */
  lemma {:induction false} DelObjectAlone(s: State, t: nat, x: nat, id: nat)
    requires At(s, t, Idle) && x in s.ids
    ensures Run(Do, s, [Erase(t, x), Append(t)]) ==
            if s.ids[x] in s.objects then s.(objects := s.objects - {s.ids[x]}, invalid := s.invalid + [x]) else s
    ensures Run(Do, s, [EraseId(t, id), Append(t)]) ==
            if id in s.objects then s.(objects := s.objects - {id}, invalid := s.invalid + [s.objects[id]]) else s
  {
    RunTwo(Do, s, Erase(t, x), Append(t));
    RunTwo(Do, s, EraseId(t, id), Append(t));
    AppendAlone(s.(objects := s.objects - {s.ids[x]}), t, [x]);
    if id in s.objects {
      AppendAlone(s.(objects := s.objects - {id}), t, [s.objects[id]]);
    }
    hide Run, Times, InHands;
  }

  /** clear_obsoleted_object. */
  lemma {:induction false} ClearAlone(s: State, t: nat, keys: seq<nat>)
    requires At(s, t, Idle) && AreKeys(s, keys)
    ensures Run(Do, s, [Kick(t, keys), Append(t)]) ==
            s.(objects := s.objects - (set k | k in keys), invalid := s.invalid + Stored(s.objects, keys))
  {
    var rest := s.(objects := s.objects - set k | k in keys);
    assert Do(s, Kick(t, keys)) == Goto(rest, t, Moving(Stored(s.objects, keys)));
    AppendAlone(rest, t, Stored(s.objects, keys));
    RunTwo(Do, s, Kick(t, keys), Append(t));
    hide Run, Do, Stored, Goto, AreKeys;
  }

  /** The second part of change_object_id: the socket that was popped has left when the other one could be given its id,
      and is put back at the end of the list when it could not. */
  lemma RekeyAlone(s: State, t: nat)
    requires IsChanging(s, t)
    ensures var pc, s1 := s.threads[t], Goto(s, t, Idle);
            Do(Do(s, Rekey(t)), Append(t)) ==
            if s.ids[pc.x] == pc.id then s1
            else if pc.id in s.objects then s1.(invalid := s.invalid + [pc.popped])
            else s1.(objects := s.objects[pc.id := pc.x] - {s.ids[pc.x]}, ids := s.ids[pc.x := pc.id])
  {
    var back := Moving([s.threads[t].popped]);
    assert s.threads[t := back][t := Idle] == s.threads[t := Idle];
    assert s.threads[t := Idle][t := Idle] == s.threads[t := Idle];
    hide Times, InHands;
  }

  lemma {:induction false} ChangeObjectIdAlone(s: State, t: nat, x: nat, id: nat)
    requires At(s, t, Idle) && x in s.ids && First(s, s.invalid, id) < |s.invalid|
    ensures var i := First(s, s.invalid, id);
            var s1 := s.(invalid := Without(s.invalid, i));
            Run(Do, s, [Pop(t, x, id, true), Rekey(t), Append(t)]) ==
            if s.ids[x] == id then s1
            else if id in s.objects then s1.(invalid := s1.invalid + [s.invalid[i]])
            else s1.(objects := s.objects[id := x] - {s.ids[x]}, ids := s.ids[x := id])
  {
    var i := First(s, s.invalid, id);
    var pc := Changing(x, id, s.invalid[i]);
    var a := Goto(s, t, pc).(invalid := Without(s.invalid, i));
    assert Do(s, Pop(t, x, id, true)) == a;
    assert a.threads[t := Idle] == s.threads;
    RekeyAlone(a, t);
    RunThree(Do, s, Pop(t, x, id, true), Rekey(t), Append(t));
    hide Run, Do, First, Without;
  }

  /** add_object, and what free_object and invalid_object_pop do with one socket. */
  lemma AddAndLeaveAlone(s: State, x: nat, i: nat, free: bool)
    ensures Run(Do, s, [Add(x)]) ==
            if x in s.ids && |s.objects| < s.maxSize && s.ids[x] !in s.objects
            then s.(objects := s.objects[s.ids[x] := x]) else s
    ensures Run(Do, s, [Leave(i, free)]) ==
            if free && i < |s.invalid| then s.(invalid := s.invalid[..i] + s.invalid[i + 1..]) else s
  {
    RunTwo(Do, s, Add(x), Add(x));
    RunTwo(Do, s, Leave(i, free), Leave(i, free));
    hide Run, Times, InHands;
  }

  // Ids.

  /** All ids have been given out before the next one. */
  ghost predicate Given(s: State) {
    && (forall x <- s.ids :: s.ids[x] < s.nextId)
    && (forall i :: 0 <= i < |s.threads| && s.threads[i].Changing? ==> s.threads[i].id < s.nextId)
  }

  lemma {:induction false} FirstHas(s: State, list: seq<nat>, id: nat)
    ensures var i := First(s, list, id); i < |list| ==> list[i] in s.ids && s.ids[list[i]] == id
  {
    if list != [] && !(list[0] in s.ids && s.ids[list[0]] == id) {
      FirstHas(s, list[1..], id);
    }
  }

  lemma GivenStep(s: State, step: Step)
    requires Given(s)
    ensures Given(Do(s, step))
  {
    if step.Pop? {
      FirstHas(s, s.invalid, step.id);
    }
    hide Times, InHands, First, Without, Stored, Copies;
  }

  lemma {:induction false} GivenRun(n: nat, maxSize: nat, schedule: seq<Step>)
    ensures Given(Run(Do, Init(n, maxSize), schedule))
    decreases |schedule|
  {
    if schedule != [] {
      GivenRun(n, maxSize, schedule[..|schedule| - 1]);
      GivenStep(Run(Do, Init(n, maxSize), schedule[..|schedule| - 1]), schedule[|schedule| - 1]);
      hide Do, Init, Given;
    }
  }

  /** In every run, a socket that is created (or reused) and is in no thread's hands nor in the pool gets an id that no
      other socket has, whatever ids have been changed. */
  lemma {:induction false} CreatedIdIsNew(n: nat, maxSize: nat, schedule: seq<Step>, x: nat)
    requires Copies(Run(Do, Init(n, maxSize), schedule), x) == 0
    ensures var s, s' := Run(Do, Init(n, maxSize), schedule), Run(Do, Init(n, maxSize), schedule + [Create(x)]);
            && x in s'.ids && (forall y <- s.ids :: s.ids[y] != s'.ids[x])
            && (forall y <- s.ids :: y != x ==> y in s'.ids && s'.ids[y] == s.ids[y])
            && s'.objects == s.objects && s'.invalid == s.invalid
  {
    GivenRun(n, maxSize, schedule);
    RunOne(Do, Init(n, maxSize), schedule, Create(x));
    hide Run, Init, Copies;
  }

  // Two functions on one socket.

  /** A socket in use is deleted by one thread while another one changes its id: either call is right by itself, but
      together they leave the socket in use and invalid. */
  lemma DeletedWhileChanging(s: State, t: nat, u: nat, x: nat, id: nat)
    requires At(s, t, Idle) && At(s, u, Idle) && t != u && InUse(s, x)
    requires First(s, s.invalid, id) < |s.invalid| && id !in s.objects
    ensures var s' := Run(Do, s, [Pop(t, x, id, true), EraseId(u, s.ids[x]), Rekey(t), Append(u)]);
            InUse(s', x) && x in s'.invalid
  {
    var i := First(s, s.invalid, id);
    var a := Goto(s, t, Changing(x, id, s.invalid[i])).(invalid := Without(s.invalid, i));
    var b := Goto(a, u, Moving([x])).(objects := s.objects - {s.ids[x]});
    assert Do(s, Pop(t, x, id, true)) == a && Do(a, EraseId(u, s.ids[x])) == b;
    DeletedAndStored(b, t, u);
    RunFour(Do, s, Pop(t, x, id, true), EraseId(u, s.ids[x]), Rekey(t), Append(u));
    hide Run, Do, First, Without;
  }

  lemma DeletedAndStored(s: State, t: nat, u: nat)
    requires t != u && Stores(s, t) && At(s, u, Moving([s.threads[t].x]))
    ensures var s', x := Do(Do(s, Rekey(t)), Append(u)), s.threads[t].x; InUse(s', x) && x in s'.invalid
  {
    hide Times, InHands;
  }
}
