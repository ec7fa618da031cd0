/**
 * opal_lifo.h without a wide compare-and-set: item_free is a small lock on an item, so that an item whose link a
 * pop has read cannot leave the stack and come back meanwhile.  Any number of threads, one atomic access per step.
 */
module LockedLifo {
  import opened History
  import opened Threads
  import opened Pointers
  import opened Wrappers

  /** The shared memory, the abstract stack, top first, and the items that were ever handed to a push. */
  datatype Shared = Shared(head: Ref, next: map<nat, Ref>, free: map<nat, bool>, stack: seq<nat>, seen: set<nat>)

  /** Program counters with the local variables that are live there. */
  datatype Pc =
    | Idle
    | PushFree(item: nat)                 // item->item_free = 1
    | PushRead(item: nat)                 // next = head.item
    | PushSet(item: nat, next: Ref)       // item->next = next
    | PushCas(item: nat, next: Ref)       // compare-and-set of head.item from next to item
    | PushDone(item: nat)                 // item->item_free = 0; return next
    | PopRead                             // item = head.item
    | PopSwap(item: nat)                  // swap item->item_free with 1
    | PopNext(item: nat)                  // item->next
    | PopCas(item: nat, next: Ref)        // compare-and-set of head.item from item to next
    | PopFree(item: nat)                  // item->item_free = 0, and once more
    | PopClear(item: nat)                 // item->next = NULL; return item

  function NextOf(sh: Shared, i: nat): Ref
  {
    if i in sh.next then sh.next[i] else Null
  }

  function Top(stack: seq<nat>): Ref
  {
    if stack == [] then Ghost else Item(stack[0])
  }

  predicate Locked(sh: Shared, i: nat)
  {
    i in sh.free && sh.free[i]
  }

  predicate SharedOk(sh: Shared)
  {
    && Distinct(sh.stack)
    && sh.head == Top(sh.stack)
    && (forall k :: 0 <= k < |sh.stack| ==> sh.stack[k] in sh.next && sh.next[sh.stack[k]] == Top(sh.stack[k + 1..]))
    && (forall k :: 0 <= k < |sh.stack| ==> sh.stack[k] in sh.seen)
    && (forall i :: i in sh.seen && i !in sh.stack ==> Locked(sh, i))
  }

  predicate Outside(sh: Shared, i: nat)
  {
    i in sh.next && i !in sh.stack
  }

  /** A stacked item that this thread has locked. */
  predicate Owns(sh: Shared, i: nat)
  {
    i in sh.stack && Locked(sh, i)
  }

  /** What a thread may rely on: an item it has locked stays where it is. */
  predicate ThreadOk(sh: Shared, pc: Pc)
  {
    match pc
    case Idle => true
    case PushFree(i) => Outside(sh, i)
    case PushRead(i) => Outside(sh, i) && i in sh.seen
    case PushSet(i, _) => Outside(sh, i) && i in sh.seen
    case PushCas(i, n) => Outside(sh, i) && i in sh.seen && sh.next[i] == n
    case PushDone(i) => Owns(sh, i)
    case PopRead => true
    case PopSwap(a) => a in sh.seen
    case PopNext(a) => Owns(sh, a)
    case PopCas(a, n) => Owns(sh, a) && NextOf(sh, a) == n
    case PopFree(a) => Owns(sh, a)
    case PopClear(a) => Outside(sh, a) && a in sh.seen
  }

  /** The item an operation has to itself. */
  function Held(pc: Pc): Option<nat>
  {
    match pc
    case Idle => None
    case PopRead => None
    case PopSwap(_) => None
    case PushFree(i) => Some(i)
    case PushRead(i) => Some(i)
    case PushSet(i, _) => Some(i)
    case PushCas(i, _) => Some(i)
    case PushDone(i) => Some(i)
    case PopNext(i) => Some(i)
    case PopCas(i, _) => Some(i)
    case PopFree(i) => Some(i)
    case PopClear(i) => Some(i)
  }

  /** What holds of one thread. */
  predicate Fits(sh: Shared, pc: Pc)
  {
    ThreadOk(sh, pc) && (Held(pc).Some? && Held(pc).value in sh.seen ==> Locked(sh, Held(pc).value))
  }

  // ----- The changes of shared memory -----

  function SetNext(sh: Shared, i: nat, r: Ref): Shared { sh.(next := sh.next[i := r]) }
  function Lock(sh: Shared, i: nat): Shared { sh.(free := sh.free[i := true], seen := sh.seen + {i}) }
  function Unlock(sh: Shared, i: nat): Shared { sh.(free := sh.free[i := false]) }
  function HeadPush(sh: Shared, i: nat): Shared { sh.(head := Item(i), stack := [i] + sh.stack) }
  function HeadPop(sh: Shared, r: Ref): Shared requires |sh.stack| > 0
  {
    sh.(head := r, stack := sh.stack[1..])
  }

  lemma SetNextKeeps(sh: Shared, i: nat, r: Ref)
    requires SharedOk(sh) && Outside(sh, i)
    ensures SharedOk(SetNext(sh, i, r))
  {}

  lemma SetNextOthers(sh: Shared, i: nat, r: Ref, pc: Pc)
    requires SharedOk(sh) && Outside(sh, i) && Fits(sh, pc) && Held(pc) != Some(i)
    ensures Fits(SetNext(sh, i, r), pc)
  {}

  lemma LockKeeps(sh: Shared, i: nat)
    requires SharedOk(sh)
    ensures SharedOk(Lock(sh, i))
  {}

  lemma LockOthers(sh: Shared, i: nat, pc: Pc)
    requires Fits(sh, pc)
    ensures Fits(Lock(sh, i), pc)
  {}

  lemma UnlockKeeps(sh: Shared, i: nat)
    requires SharedOk(sh) && i in sh.stack
    ensures SharedOk(Unlock(sh, i))
  {}

  lemma UnlockOthers(sh: Shared, i: nat, pc: Pc)
    requires Fits(sh, pc) && Held(pc) != Some(i)
    ensures Fits(Unlock(sh, i), pc)
  {}

  lemma PushLinks(s: seq<nat>, i: nat, k: nat)
    requires k < |s|
    ensures ([i] + s)[k + 1] == s[k] && ([i] + s)[k + 2..] == s[k + 1..]
  {}

  lemma PushedLinks(sh: Shared, i: nat, k: nat)
    requires SharedOk(sh) && 1 <= k <= |sh.stack|
    ensures var s' := [i] + sh.stack; s'[k] in sh.next && sh.next[s'[k]] == Top(s'[k + 1..]) && s'[k] in sh.seen
  {
    PushLinks(sh.stack, i, k - 1);
  }

  lemma PushedDistinct(s: seq<nat>, i: nat)
    requires Distinct(s) && i !in s
    ensures Distinct([i] + s)
  {
    assert forall k :: 0 <= k < |s| ==> ([i] + s)[k + 1] == s[k];
  }

  lemma PushKeeps(sh: Shared, i: nat)
    requires SharedOk(sh) && Outside(sh, i) && i in sh.seen && sh.next[i] == sh.head
    ensures SharedOk(HeadPush(sh, i)) && Owns(HeadPush(sh, i), i)
  {
    var s' := [i] + sh.stack;
    assert s'[0] == i && s'[1..] == sh.stack;
    PushedDistinct(sh.stack, i);
    forall k | 1 <= k < |s'| ensures s'[k] in sh.next && sh.next[s'[k]] == Top(s'[k + 1..]) && s'[k] in sh.seen {
      PushedLinks(sh, i, k);
    }
    forall j | j in sh.seen && j !in s' ensures Locked(sh, j) { assert j !in sh.stack; }
  }

  lemma PushOthers(sh: Shared, i: nat, pc: Pc)
    requires SharedOk(sh) && Outside(sh, i) && Fits(sh, pc) && Held(pc) != Some(i)
    ensures Fits(HeadPush(sh, i), pc)
  {}

  /** The links below the top. */
  lemma TailLinks(sh: Shared, k: nat)
    requires SharedOk(sh) && k < |sh.stack| - 1
    ensures var s' := sh.stack[1..];
            s'[k] in sh.next && sh.next[s'[k]] == Top(s'[k + 1..]) && s'[k] in sh.seen
  {
    var s' := sh.stack[1..];
    assert s'[k] == sh.stack[k + 1] && s'[k + 1..] == sh.stack[k + 2..];
  }

  lemma TailLocked(sh: Shared, i: nat)
    requires SharedOk(sh) && |sh.stack| > 0 && Locked(sh, sh.stack[0]) && i in sh.seen && i !in sh.stack[1..]
    ensures Locked(sh, i)
  {
    assert sh.stack == [sh.stack[0]] + sh.stack[1..];
    if i != sh.stack[0] { assert i !in sh.stack; }
  }

  lemma PopKeeps(sh: Shared, r: Ref)
    requires SharedOk(sh) && |sh.stack| > 0 && NextOf(sh, sh.stack[0]) == r && Owns(sh, sh.stack[0])
    ensures SharedOk(HeadPop(sh, r)) && Outside(HeadPop(sh, r), sh.stack[0]) && sh.stack[0] in sh.seen
  {
    var s' := sh.stack[1..];
    forall k | 0 <= k < |s'| ensures s'[k] in sh.next && sh.next[s'[k]] == Top(s'[k + 1..]) && s'[k] in sh.seen {
      TailLinks(sh, k);
    }
    forall i | i in sh.seen && i !in s' ensures Locked(sh, i) { TailLocked(sh, i); }
    assert forall k :: 0 <= k < |s'| ==> s'[k] == sh.stack[k + 1];
  }

  lemma PopOthers(sh: Shared, r: Ref, pc: Pc)
    requires SharedOk(sh) && |sh.stack| > 0 && Fits(sh, pc) && Held(pc) != Some(sh.stack[0])
    ensures Fits(HeadPop(sh, r), pc)
  {
    assert sh.stack == [sh.stack[0]] + sh.stack[1..];
  }

  // ----- Runs -----

  type Machine = State<Shared, Pc>

  function At(pc: map<nat, Pc>, t: nat): Pc
  {
    if t in pc then pc[t] else Idle
  }

  /** A caller may push any item that is not in the stack and not in the hands of another operation. */
  ghost predicate Can(s: Machine, t: nat, a: Action)
  {
    match a
    case CallPush(i) => At(s.pc, t) == Idle && Outside(s.sh, i) && forall u :: Held(At(s.pc, u)) != Some(i)
    case CallPop => At(s.pc, t) == Idle
    case Tick => At(s.pc, t) != Idle
  }

  function Do(s: Machine, t: nat, a: Action): Machine
  {
    match a
    case CallPush(i) => Put(s, t, s.sh, PushFree(i))
    case CallPop => Put(s, t, s.sh, PopRead)
    case Tick => Step(s, t, At(s.pc, t))
  }

  /** The next atomic step of thread t. */
  function Step(s: Machine, t: nat, pc: Pc): Machine
  {
    var sh := s.sh;
    match pc
    case Idle => s
    case PushFree(i) => Put(s, t, Lock(sh, i), PushRead(i))
    case PushRead(i) => Put(s, t, sh, PushSet(i, sh.head))
    case PushSet(i, n) => Put(s, t, SetNext(sh, i, n), PushCas(i, n))
    case PushCas(i, n) =>
      if sh.head == n then Log(Put(s, t, HeadPush(sh, i), PushDone(i)), Add(t, i)) else Put(s, t, sh, PushRead(i))
    case PushDone(i) => Return(s, t, Unlock(sh, i), Idle, Add(t, i))
    case PopRead =>
      if sh.head.Item? then Put(s, t, sh, PopSwap(sh.head.id)) else Log(Return(s, t, sh, Idle, Empty(t)), Empty(t))
    case PopSwap(a) => Put(s, t, Lock(sh, a), if Locked(sh, a) then PopRead else PopNext(a))
    case PopNext(a) => Put(s, t, sh, PopCas(a, NextOf(sh, a)))
    case PopCas(a, n) =>
      if sh.head == Item(a) && sh.stack != [] then Log(Put(s, t, HeadPop(sh, n), PopClear(a)), Take(t, a))
      else Put(s, t, sh, PopFree(a))
    case PopFree(a) => Put(s, t, Unlock(sh, a), PopRead)
    case PopClear(a) => Return(s, t, SetNext(sh, a, Null), Idle, Take(t, a))
  }

  // ----- The invariant -----

  ghost predicate Safe(sh: Shared, pc: map<nat, Pc>)
  {
    && SharedOk(sh)
    && (forall t :: Fits(sh, At(pc, t)))
    && (forall t, u :: t != u && Held(At(pc, t)).Some? ==> Held(At(pc, t)) != Held(At(pc, u)))
  }

  /** One thread moves: enough to look at it, and at what the others rely on. */
  lemma Moves(s: Machine, t: nat, sh: Shared, pc: Pc)
    requires Safe(s.sh, s.pc) && SharedOk(sh) && Fits(sh, pc)
    requires forall u :: u != t ==> Fits(sh, At(s.pc, u))
    requires Held(pc).Some? ==> forall u :: u != t ==> Held(At(s.pc, u)) != Held(pc)
    ensures Safe(sh, s.pc[t := pc])
  {
    var pc' := s.pc[t := pc];
    forall u ensures Fits(sh, At(pc', u)) {
      assert u != t ==> At(pc', u) == At(s.pc, u);
    }
    forall u, v | u != v && Held(At(pc', u)).Some? ensures Held(At(pc', u)) != Held(At(pc', v)) {
      assert u != t ==> At(pc', u) == At(s.pc, u);
      assert v != t ==> At(pc', v) == At(s.pc, v);
    }
  }

  /** Nobody else holds an unlocked item. */
  lemma PopLocks(s: Machine, t: nat, a: nat)
    requires Safe(s.sh, s.pc) && a in s.sh.seen && !Locked(s.sh, a)
    ensures forall u :: Held(At(s.pc, u)) != Some(a)
  {
    forall u ensures Held(At(s.pc, u)) != Some(a) {
      assert Fits(s.sh, At(s.pc, u));
    }
  }

  lemma PushStep(s: Machine, t: nat, pc: Pc)
    requires Safe(s.sh, s.pc) && pc == At(s.pc, t)
             && (pc.PushFree? || pc.PushRead? || pc.PushSet? || pc.PushCas? || pc.PushDone?)
    ensures Safe(Step(s, t, pc).sh, Step(s, t, pc).pc)
  {
    var sh := s.sh;
    assert Fits(sh, pc);
    match pc
    case PushFree(i) =>
      LockKeeps(sh, i);
      forall u | u != t ensures Fits(Lock(sh, i), At(s.pc, u)) { LockOthers(sh, i, At(s.pc, u)); }
      Moves(s, t, Lock(sh, i), PushRead(i));
    case PushRead(i) => Moves(s, t, sh, PushSet(i, sh.head));
    case PushSet(i, n) =>
      SetNextKeeps(sh, i, n);
      forall u | u != t ensures Fits(SetNext(sh, i, n), At(s.pc, u)) { SetNextOthers(sh, i, n, At(s.pc, u)); }
      Moves(s, t, SetNext(sh, i, n), PushCas(i, n));
    case PushCas(i, n) =>
      if sh.head == n {
        PushKeeps(sh, i);
        forall u | u != t ensures Fits(HeadPush(sh, i), At(s.pc, u)) { PushOthers(sh, i, At(s.pc, u)); }
        Moves(s, t, HeadPush(sh, i), PushDone(i));
      } else {
        Moves(s, t, sh, PushRead(i));
      }
    case PushDone(i) =>
      UnlockKeeps(sh, i);
      forall u | u != t ensures Fits(Unlock(sh, i), At(s.pc, u)) { UnlockOthers(sh, i, At(s.pc, u)); }
      Moves(s, t, Unlock(sh, i), Idle);
  }

  lemma LockStep(s: Machine, t: nat, pc: Pc)
    requires Safe(s.sh, s.pc) && pc == At(s.pc, t) && (pc.PopRead? || pc.PopSwap? || pc.PopFree?)
    ensures Safe(Step(s, t, pc).sh, Step(s, t, pc).pc)
  {
    var sh := s.sh;
    assert Fits(sh, pc);
    match pc
    case PopRead => Moves(s, t, sh, if sh.head.Item? then PopSwap(sh.head.id) else Idle);
    case PopSwap(a) =>
      LockKeeps(sh, a);
      forall u | u != t ensures Fits(Lock(sh, a), At(s.pc, u)) { LockOthers(sh, a, At(s.pc, u)); }
      if !Locked(sh, a) { PopLocks(s, t, a); }
      Moves(s, t, Lock(sh, a), if Locked(sh, a) then PopRead else PopNext(a));
    case PopFree(a) =>
      UnlockKeeps(sh, a);
      forall u | u != t ensures Fits(Unlock(sh, a), At(s.pc, u)) { UnlockOthers(sh, a, At(s.pc, u)); }
      Moves(s, t, Unlock(sh, a), PopRead);
  }

  lemma PopStep(s: Machine, t: nat, pc: Pc)
    requires Safe(s.sh, s.pc) && pc == At(s.pc, t) && (pc.PopNext? || pc.PopCas? || pc.PopClear?)
    ensures Safe(Step(s, t, pc).sh, Step(s, t, pc).pc)
  {
    var sh := s.sh;
    assert Fits(sh, pc);
    match pc
    case PopNext(a) => Moves(s, t, sh, PopCas(a, NextOf(sh, a)));
    case PopCas(a, n) =>
      if sh.head == Item(a) && sh.stack != [] {
        PopKeeps(sh, n);
        forall u | u != t ensures Fits(HeadPop(sh, n), At(s.pc, u)) { PopOthers(sh, n, At(s.pc, u)); }
        Moves(s, t, HeadPop(sh, n), PopClear(a));
      } else {
        Moves(s, t, sh, PopFree(a));
      }
    case PopClear(a) =>
      SetNextKeeps(sh, a, Null);
      forall u | u != t ensures Fits(SetNext(sh, a, Null), At(s.pc, u)) { SetNextOthers(sh, a, Null, At(s.pc, u)); }
      Moves(s, t, SetNext(sh, a, Null), Idle);
  }

  /** Every step of every thread keeps the invariant. */
  lemma StepSafe(s: Machine, t: nat, a: Action)
    requires Safe(s.sh, s.pc) && Can(s, t, a)
    ensures Safe(Do(s, t, a).sh, Do(s, t, a).pc)
  {
    match a
    case CallPush(i) => Moves(s, t, s.sh, PushFree(i));
    case CallPop => Moves(s, t, s.sh, PopRead);
    case Tick =>
      var pc := At(s.pc, t);
      if pc.PushFree? || pc.PushRead? || pc.PushSet? || pc.PushCas? || pc.PushDone? { PushStep(s, t, pc); }
      else if pc.PopRead? || pc.PopSwap? || pc.PopFree? { LockStep(s, t, pc); }
      else { PopStep(s, t, pc); }
  }

  // ----- Linearizability -----

  /** The event of an operation that has taken effect and not returned yet. */
  function Pending(t: nat, pc: Pc): seq<Event>
  {
    match pc
    case PushDone(i) => [Add(t, i)]
    case PopClear(i) => [Take(t, i)]
    case _ => []
  }

  /** Which event a step logs. */
  function Logged(s: Machine, t: nat, pc: Pc): seq<Event>
  {
    match pc
    case PushCas(i, n) => if s.sh.head == n then [Add(t, i)] else []
    case PopRead => if s.sh.head.Item? then [] else [Empty(t)]
    case PopCas(a, _) => if s.sh.head == Item(a) && s.sh.stack != [] then [Take(t, a)] else []
    case _ => []
  }

  ghost predicate Explained(s: Machine)
  {
    forall t :: Project(s.log, t) == RespOf(s, t) + Pending(t, At(s.pc, t))
  }

  /** What the threads were told is what the sequential stack answers, in the order of the log. */
  ghost predicate Linearized(s: Machine)
  {
    && Replay(LastInFirstOut, s.log) == Some(s.sh.stack)
    && Explained(s)
  }

  lemma StepReplay(s: Machine, t: nat, pc: Pc)
    requires Safe(s.sh, s.pc) && pc == At(s.pc, t) && Replay(LastInFirstOut, s.log) == Some(s.sh.stack)
    ensures var s' := Step(s, t, pc);
            s'.log == s.log + Logged(s, t, pc) && Replay(LastInFirstOut, s'.log) == Some(s'.sh.stack)
  {
    assert Fits(s.sh, pc);
    assert s.log + [] == s.log;
    if Logged(s, t, pc) != [] {
      ReplayStep(LastInFirstOut, s.log, Logged(s, t, pc)[0], s.sh.stack, Step(s, t, pc).sh.stack);
    }
  }

  lemma StepOwn(s: Machine, t: nat, pc: Pc)
    requires pc == At(s.pc, t)
    ensures var s' := Step(s, t, pc);
            RespOf(s', t) + Pending(t, At(s'.pc, t)) == (RespOf(s, t) + Pending(t, pc)) + Logged(s, t, pc)
  {}

  lemma StepFrame(s: Machine, t: nat, u: nat)
    requires u != t
    ensures var s' := Step(s, t, At(s.pc, t)); At(s'.pc, u) == At(s.pc, u) && RespOf(s', u) == RespOf(s, u)
  {}

  /** Each thread's events are the ones it was told about, then the one still pending. */
  lemma StepExplained(s: Machine, t: nat, s': Machine, es: seq<Event>)
    requires Explained(s) && s' == Step(s, t, At(s.pc, t)) && es == Logged(s, t, At(s.pc, t)) && s'.log == s.log + es
    ensures Explained(s')
  {
    ProjectStep(s.log, es, t);
    forall u ensures Project(s'.log, u) == RespOf(s', u) + Pending(u, At(s'.pc, u)) {
      assert Project(s.log, u) == RespOf(s, u) + Pending(u, At(s.pc, u));
      if u == t { StepOwn(s, t, At(s.pc, t)); } else { StepFrame(s, t, u); }
    }
  }

  /** Every step keeps the log a legal history that explains all results. */
  lemma StepLinearized(s: Machine, t: nat, a: Action)
    requires Safe(s.sh, s.pc) && Linearized(s) && Can(s, t, a)
    ensures Linearized(Do(s, t, a))
  {
    var s', pc := Do(s, t, a), At(s.pc, t);
    if a.Tick? {
      StepReplay(s, t, pc);
      StepExplained(s, t, s', Logged(s, t, pc));
    } else {
      CallLinearized(s, t, a);
    }
  }

  /** A call by itself has no effect yet. */
  lemma CallLinearized(s: Machine, t: nat, a: Action)
    requires Explained(s) && At(s.pc, t) == Idle && !a.Tick?
    ensures Explained(Do(s, t, a))
  {
    var s' := Do(s, t, a);
    forall u ensures Project(s'.log, u) == RespOf(s', u) + Pending(u, At(s'.pc, u)) {
      assert Project(s.log, u) == RespOf(s, u) + Pending(u, At(s.pc, u));
      assert u != t ==> At(s'.pc, u) == At(s.pc, u);
    }
  }

  // ----- Whole runs -----

  /** Any items, with whatever item_free they were made with. */
  function Start(next: map<nat, Ref>, free: map<nat, bool>): Machine
  {
    State(Shared(Ghost, next, free, [], {}), map[], [], map[])
  }

  ghost predicate Runs(s: Machine, ms: seq<Move>)
    decreases |ms|
  {
    ms == [] || (Can(s, ms[0].thread, ms[0].action) && Runs(Do(s, ms[0].thread, ms[0].action), ms[1..]))
  }

  function Run(s: Machine, ms: seq<Move>): Machine
    decreases |ms|
  {
    if ms == [] then s else Run(Do(s, ms[0].thread, ms[0].action), ms[1..])
  }

  lemma {:induction false} RunKeeps(s: Machine, ms: seq<Move>)
    requires Safe(s.sh, s.pc) && Linearized(s) && Runs(s, ms)
    ensures var s' := Run(s, ms); Safe(s'.sh, s'.pc) && Linearized(s')
    decreases |ms|
  {
    if ms != [] {
      StepSafe(s, ms[0].thread, ms[0].action);
      StepLinearized(s, ms[0].thread, ms[0].action);
      RunKeeps(Do(s, ms[0].thread, ms[0].action), ms[1..]);
    }
  }

  lemma StartKeeps(next: map<nat, Ref>, free: map<nat, bool>, ms: seq<Move>)
    requires Runs(Start(next, free), ms)
    ensures var s := Run(Start(next, free), ms); Safe(s.sh, s.pc) && Linearized(s) && Owned(s.sh, s.pc)
  {
    var s := Start(next, free);
    assert Linearized(s);
    RunKeeps(s, ms);
    RunOwned(s, ms);
  }

  /**
   * Any number of threads, any interleaving: the results are those of the sequential stack in the order of the
   * log, each within its call; no item is lost or given out twice; and the links spell the stack.
   */
  lemma Correct(next: map<nat, Ref>, free: map<nat, bool>, ms: seq<Move>, s: Machine)
    requires Runs(Start(next, free), ms) && s == Run(Start(next, free), ms)
    ensures Replay(LastInFirstOut, s.log) == Some(s.sh.stack)
    ensures forall t :: Project(s.log, t) == RespOf(s, t) + Pending(t, At(s.pc, t))
    ensures multiset(Taken(s.log)) + multiset(s.sh.stack) == multiset(Added(s.log))
    ensures SharedOk(s.sh)
  {
    var s0 := Start(next, free);
    assert Linearized(s0);
    RunKeeps(s0, ms);
    Conserved(LastInFirstOut, s.log, s.sh.stack);
  }

  /** At the compare-and-set of a pop the stack is tested in vain: if the head is still the same it is on top. */
  lemma CasGuard(s: Machine, t: nat)
    requires Safe(s.sh, s.pc) && At(s.pc, t).PopCas? && s.sh.head == Item(At(s.pc, t).item)
    ensures s.sh.stack != [] && s.sh.stack[0] == At(s.pc, t).item
  {}

  /** Push returns the head it replaced, so that the caller sees whether the stack was empty. */
  lemma PushReports(s: Machine, t: nat)
    requires Safe(s.sh, s.pc) && At(s.pc, t).PushCas? && s.sh.head == At(s.pc, t).next
    ensures At(s.pc, t).next == Ghost <==> s.sh.stack == []
  {}

  // ----- Every call is answered -----

  /** The call an operation belongs to. */
  function Current(pc: Pc): Option<Action>
  {
    match pc
    case Idle => None
    case PushFree(i) => Some(CallPush(i))
    case PushRead(i) => Some(CallPush(i))
    case PushSet(i, _) => Some(CallPush(i))
    case PushCas(i, _) => Some(CallPush(i))
    case PushDone(i) => Some(CallPush(i))
    case _ => Some(CallPop)
  }

  /** A step goes on with the call, or returns the answer to it. */
  lemma StepAnswers(s: Machine, t: nat, pc: Pc)
    requires pc == At(s.pc, t) && pc != Idle
    ensures var s', a := Step(s, t, pc), Current(pc);
            || (Current(At(s'.pc, t)) == a && RespOf(s', t) == RespOf(s, t))
            || (At(s'.pc, t) == Idle && |RespOf(s', t)| == |RespOf(s, t)| + 1 && RespOf(s, t) <= RespOf(s', t)
                && Answers(a.value, t, RespOf(s', t)[|RespOf(s, t)|]))
  {}

  lemma {:induction false} RunAnswered(s: Machine, ms: seq<Move>, t: nat, calls: seq<Action>, all: seq<Action>)
    requires Runs(s, ms) && Answered(calls, t, RespOf(s, t), Current(At(s.pc, t))) && all == calls + Calls(ms, t)
    ensures var s' := Run(s, ms); Answered(all, t, RespOf(s', t), Current(At(s'.pc, t)))
    decreases |ms|
  {
    if ms == [] {
      assert all == calls;
    } else {
      var s1, calls1 := FirstAnswered(s, ms, t, calls, all);
      RunAnswered(s1, ms[1..], t, calls1, all);
    }
  }

  lemma FirstAnswered(s: Machine, ms: seq<Move>, t: nat, calls: seq<Action>, all: seq<Action>)
    returns (s1: Machine, calls1: seq<Action>)
    requires ms != [] && Runs(s, ms) && Answered(calls, t, RespOf(s, t), Current(At(s.pc, t)))
    requires all == calls + Calls(ms, t)
    ensures Runs(s1, ms[1..]) && Run(s, ms) == Run(s1, ms[1..]) && all == calls1 + Calls(ms[1..], t)
    ensures Answered(calls1, t, RespOf(s1, t), Current(At(s1.pc, t)))
  {
    CallsFirst(ms, t, calls);
    MoveAnswered(s, ms[0], t, calls);
    s1, calls1 := Do(s, ms[0].thread, ms[0].action), calls + OwnCall(ms[0], t);
  }

  lemma MoveAnswered(s: Machine, m: Move, t: nat, calls: seq<Action>)
    requires Can(s, m.thread, m.action) && Answered(calls, t, RespOf(s, t), Current(At(s.pc, t)))
    ensures var s' := Do(s, m.thread, m.action);
            Answered(calls + OwnCall(m, t), t, RespOf(s', t), Current(At(s'.pc, t)))
  {
    if OwnCall(m, t) == [] { assert calls + [] == calls; }
    if m.action.Tick? {
      if m.thread == t { StepAnswers(s, t, At(s.pc, t)); } else { StepFrame(s, m.thread, t); }
    }
  }

  /**
   * In every run a thread has been answered as often as it has called, but for the call it is in, and each answer is
   * one to the call it stands for.
   */
  lemma Answering(next: map<nat, Ref>, free: map<nat, bool>, ms: seq<Move>, t: nat, s: Machine)
    requires Runs(Start(next, free), ms) && s == Run(Start(next, free), ms)
    ensures |Calls(ms, t)| == |RespOf(s, t)| + (if At(s.pc, t) == Idle then 0 else 1)
    ensures forall k :: 0 <= k < |RespOf(s, t)| ==> Answers(Calls(ms, t)[k], t, RespOf(s, t)[k])
    ensures Answered(Calls(ms, t), t, RespOf(s, t), Current(At(s.pc, t)))
  {
    RunAnswered(Start(next, free), ms, t, [], Calls(ms, t));
  }

  // ----- A thread alone returns -----

  /** A stacked item is locked only by an operation that is still to unlock it. */
  ghost predicate Owned(sh: Shared, pc: map<nat, Pc>)
  {
    forall i :: i in sh.stack && Locked(sh, i) ==> HeldBy(pc, i)
  }

  ghost predicate HeldBy(pc: map<nat, Pc>, i: nat) { exists t :: Held(At(pc, t)) == Some(i) }

  lemma HeldAfter(s: Machine, t: nat, i: nat, pc': map<nat, Pc>)
    requires HeldBy(s.pc, i) && (Held(At(s.pc, t)) != Some(i) || Held(At(pc', t)) == Some(i))
    requires forall u :: u != t ==> At(pc', u) == At(s.pc, u)
    ensures HeldBy(pc', i)
  {
    var u :| Held(At(s.pc, u)) == Some(i);
    assert Held(At(pc', u)) == Some(i);
  }

  /** A step locks only what it then holds, and lets go only of what it unlocks or takes away. */
  lemma StepHolds(s: Machine, t: nat, pc: Pc, i: nat)
    requires Safe(s.sh, s.pc) && pc == At(s.pc, t) && pc != Idle
    requires var s' := Step(s, t, pc); i in s'.sh.stack && Locked(s'.sh, i)
    ensures var s' := Step(s, t, pc);
            || Held(At(s'.pc, t)) == Some(i)
            || (i in s.sh.stack && Locked(s.sh, i) && Held(pc) != Some(i))
  {
    assert Fits(s.sh, pc);
    if pc.PopCas? && s.sh.head == Item(pc.item) && s.sh.stack != [] {
      assert forall k :: 0 <= k < |s.sh.stack[1..]| ==> s.sh.stack[1..][k] == s.sh.stack[k + 1];
    }
  }

  lemma StepOwned(s: Machine, t: nat, a: Action)
    requires Safe(s.sh, s.pc) && Owned(s.sh, s.pc) && Can(s, t, a)
    ensures Owned(Do(s, t, a).sh, Do(s, t, a).pc)
  {
    var s' := Do(s, t, a);
    forall u | u != t ensures At(s'.pc, u) == At(s.pc, u) { if a.Tick? { StepFrame(s, t, u); } }
    forall i | i in s'.sh.stack && Locked(s'.sh, i) ensures HeldBy(s'.pc, i) {
      if a.Tick? { StepHolds(s, t, At(s.pc, t), i); }
      if Held(At(s'.pc, t)) != Some(i) { HeldAfter(s, t, i, s'.pc); }
    }
  }

  lemma {:induction false} RunOwned(s: Machine, ms: seq<Move>)
    requires Safe(s.sh, s.pc) && Owned(s.sh, s.pc) && Runs(s, ms)
    ensures Owned(Run(s, ms).sh, Run(s, ms).pc)
    decreases |ms|
  {
    if ms != [] {
      StepSafe(s, ms[0].thread, ms[0].action);
      StepOwned(s, ms[0].thread, ms[0].action);
      RunOwned(Do(s, ms[0].thread, ms[0].action), ms[1..]);
    }
  }

  /** How many steps are left at most, if nobody else moves. */
  function Left(sh: Shared, pc: Pc): nat
  {
    match pc
    case Idle => 0
    case PushFree(_) => 5
    case PushRead(_) => 4
    case PushSet(_, n) => if n == sh.head then 3 else 6
    case PushCas(_, n) => if n == sh.head then 2 else 5
    case PushDone(_) => 1
    case PopRead => 5
    case PopSwap(a) => if sh.head == Item(a) then 4 else 9
    case PopNext(a) => if sh.head == Item(a) then 3 else 8
    case PopCas(a, _) => if sh.head == Item(a) then 2 else 7
    case PopFree(_) => 6
    case PopClear(_) => 1
  }

  /** Nobody is operating; nobody but t is. */
  ghost predicate Quiet(s: Machine) { forall u :: At(s.pc, u) == Idle }
  ghost predicate Alone(s: Machine, t: nat) { forall u :: u != t ==> At(s.pc, u) == Idle }

  /** The item on top is not locked when a thread that is alone wants it. */
  lemma TopUnlocked(s: Machine, t: nat)
    requires Safe(s.sh, s.pc) && Owned(s.sh, s.pc) && Alone(s, t) && Held(At(s.pc, t)) == None && s.sh.head.Item?
    ensures !Locked(s.sh, s.sh.head.id)
  {
    assert s.sh.head.id in s.sh.stack && !HeldBy(s.pc, s.sh.head.id);
  }

  lemma PushNearer(s: Machine, t: nat, pc: Pc)
    requires pc == At(s.pc, t) && (pc.PushFree? || pc.PushRead? || pc.PushSet? || pc.PushCas? || pc.PushDone?)
    ensures var s' := Step(s, t, pc); Left(s'.sh, At(s'.pc, t)) < Left(s.sh, pc)
  {}

  lemma PopNearer(s: Machine, t: nat, pc: Pc)
    requires pc == At(s.pc, t) && (pc.PopRead? || pc.PopNext? || pc.PopCas? || pc.PopFree? || pc.PopClear?)
    requires pc.PopCas? && s.sh.head == Item(pc.item) ==> s.sh.stack != []
    ensures var s' := Step(s, t, pc); Left(s'.sh, At(s'.pc, t)) < Left(s.sh, pc)
  {}

  lemma AloneStep(s: Machine, t: nat)
    requires Safe(s.sh, s.pc) && Owned(s.sh, s.pc) && Alone(s, t) && At(s.pc, t) != Idle
    ensures var s' := Step(s, t, At(s.pc, t)); Left(s'.sh, At(s'.pc, t)) < Left(s.sh, At(s.pc, t))
  {
    var pc := At(s.pc, t);
    if pc.PopSwap? {
      SwapAlone(s, t, pc.item);
    } else if pc.PushFree? || pc.PushRead? || pc.PushSet? || pc.PushCas? || pc.PushDone? {
      PushNearer(s, t, pc);
    } else {
      if pc.PopCas? && s.sh.head == Item(pc.item) { CasGuard(s, t); }
      PopNearer(s, t, pc);
    }
  }

  lemma SwapAlone(s: Machine, t: nat, a: nat)
    requires Safe(s.sh, s.pc) && Owned(s.sh, s.pc) && Alone(s, t) && At(s.pc, t) == PopSwap(a)
    ensures var s' := Step(s, t, PopSwap(a)); Left(s'.sh, At(s'.pc, t)) < Left(s.sh, PopSwap(a))
  {
    if s.sh.head == Item(a) { TopUnlocked(s, t); }
  }

  /** A thread that nobody disturbs returns, after no more steps than Left says. */
  lemma {:induction false} AloneReturns(s: Machine, t: nat) returns (ms: seq<Move>)
    requires Safe(s.sh, s.pc) && Owned(s.sh, s.pc) && Alone(s, t)
    ensures |ms| <= Left(s.sh, At(s.pc, t)) <= 9 && OnlyTicks(ms, t) && Runs(s, ms)
    ensures Quiet(Run(s, ms))
    decreases Left(s.sh, At(s.pc, t))
  {
    ms := [];
    if At(s.pc, t) == Idle {
      assert Run(s, ms) == s;
    } else {
      var s' := Do(s, t, Tick);
      StepSafe(s, t, Tick);
      StepOwned(s, t, Tick);
      forall u | u != t ensures At(s'.pc, u) == Idle { StepFrame(s, t, u); }
      AloneStep(s, t);
      var more := AloneReturns(s', t);
      ms := [Move(t, Tick)] + more;
      assert ms[0] == Move(t, Tick) && ms[1..] == more;
      assert Run(s, ms) == Run(s', more);
    }
  }

  /** So it does in every run, wherever it is in its call. */
  lemma AloneEnds(next: map<nat, Ref>, free: map<nat, bool>, before: seq<Move>, s: Machine, t: nat)
    returns (ms: seq<Move>)
    requires Runs(Start(next, free), before) && s == Run(Start(next, free), before) && Alone(s, t)
    ensures |ms| <= 9 && OnlyTicks(ms, t) && Runs(Start(next, free), before + ms)
            && Quiet(Run(Start(next, free), before + ms))
  {
    StartKeeps(next, free, before);
    ms := AloneReturns(s, t);
    RunJoin(Start(next, free), before, ms);
  }

  lemma {:induction false} RunJoin(s: Machine, a: seq<Move>, b: seq<Move>)
    requires Runs(s, a) && Runs(Run(s, a), b)
    ensures Runs(s, a + b) && Run(s, a + b) == Run(Run(s, a), b)
    decreases |a|
  {
    if a == [] {
      assert a + b == b;
    } else {
      assert (a + b)[0] == a[0] && (a + b)[1..] == a[1..] + b;
      RunJoin(Do(s, a[0].thread, a[0].action), a[1..], b);
    }
  }

  lemma MoveLog(s: Machine, t: nat, a: Action) returns (es: seq<Event>)
    ensures Do(s, t, a).log == s.log + es && forall k :: 0 <= k < |es| ==> es[k].thread == t
  {
    es := if a.Tick? then Logged(s, t, At(s.pc, t)) else [];
    assert s.log + [] == s.log;
  }

  lemma FirstLog(s: Machine, ms: seq<Move>, t: nat) returns (s1: Machine, es: seq<Event>)
    requires ms != [] && Runs(s, ms) && ms[0].thread == t
    ensures Runs(s1, ms[1..]) && Run(s, ms) == Run(s1, ms[1..])
    ensures s1.log == s.log + es && forall k :: 0 <= k < |es| ==> es[k].thread == t
  {
    es := MoveLog(s, t, ms[0].action);
    s1 := Do(s, t, ms[0].action);
  }

  /** The steps of one thread add events of that thread only. */
  lemma {:induction false} OwnEvents(s: Machine, ms: seq<Move>, t: nat) returns (es: seq<Event>)
    requires Runs(s, ms) && forall k :: 0 <= k < |ms| ==> ms[k].thread == t
    ensures Run(s, ms).log == s.log + es && forall k :: 0 <= k < |es| ==> es[k].thread == t
    decreases |ms|
  {
    es := [];
    if ms == [] {
      assert s.log + es == s.log;
    } else {
      var s1, first := FirstLog(s, ms, t);
      var more := OwnEvents(s1, ms[1..], t);
      es := first + more;
      assert (s.log + first) + more == s.log + es;
    }
  }

  /** A call when nobody is operating, and then only its own steps. */
  lemma Called(s: Machine, t: nat, a: Action) returns (ms: seq<Move>)
    requires Safe(s.sh, s.pc) && Owned(s.sh, s.pc) && Quiet(s) && Can(s, t, a) && !a.Tick?
    ensures |ms| <= 5 && OnlyTicks(ms, t) && Runs(s, [Move(t, a)] + ms)
    ensures Quiet(Run(s, [Move(t, a)] + ms))
  {
    var s1 := Do(s, t, a);
    StepSafe(s, t, a);
    StepOwned(s, t, a);
    forall u | u != t ensures At(s1.pc, u) == Idle { assert At(s1.pc, u) == At(s.pc, u); }
    assert Left(s1.sh, At(s1.pc, t)) <= 5;
    ms := AloneReturns(s1, t);
    var own := [Move(t, a)] + ms;
    assert own[0] == Move(t, a) && own[1..] == ms;
    assert Run(s, own) == Run(s1, ms);
  }

  /**
   * In any run, when nobody is operating a thread may call and, undisturbed, returns within 5 steps.  The answer
   * is one to its call, and does to the stack what the operation does to the sequential one.
   */
  lemma AloneCall(next: map<nat, Ref>, free: map<nat, bool>, before: seq<Move>, s: Machine, t: nat, a: Action)
    returns (ms: seq<Move>, s': Machine, e: Event)
    requires Runs(Start(next, free), before) && s == Run(Start(next, free), before) && Quiet(s)
    requires Can(s, t, a) && !a.Tick?
    ensures OnlyTicks(ms, t) && |ms| <= 5
    ensures var all := before + ([Move(t, a)] + ms); Runs(Start(next, free), all) && s' == Run(Start(next, free), all)
    ensures Quiet(s') && RespOf(s', t) == RespOf(s, t) + [e] && Answers(a, t, e)
    ensures Apply(LastInFirstOut, s.sh.stack, e) == Some(s'.sh.stack)
  {
    StartKeeps(next, free, before);
    ms := Called(s, t, a);
    var own := [Move(t, a)] + ms;
    RunJoin(Start(next, free), before, own);
    s' := Run(s, own);
    var es := OwnEvents(s, own, t);
    OneCall(t, a, ms);
    e := Outcome(next, free, before, own, s, s', t, a, es);
  }

  lemma Outcome(next: map<nat, Ref>, free: map<nat, bool>, before: seq<Move>, own: seq<Move>, s: Machine, s': Machine,
                t: nat,
                a: Action, es: seq<Event>)
    returns (e: Event)
    requires Runs(Start(next, free), before) && s == Run(Start(next, free), before) && Quiet(s)
    requires Runs(Start(next, free), before + own) && s' == Run(Start(next, free), before + own) && Quiet(s')
    requires Calls(own, t) == [a] && s'.log == s.log + es && forall k :: 0 <= k < |es| ==> es[k].thread == t
    ensures RespOf(s', t) == RespOf(s, t) + [e] && Answers(a, t, e)
    ensures Apply(LastInFirstOut, s.sh.stack, e) == Some(s'.sh.stack)
  {
    StartKeeps(next, free, before);
    StartKeeps(next, free, before + own);
    Answering(next, free, before, t, s);
    Answering(next, free, before + own, t, s');
    CallsJoin(before, own, t);
    Told(s, t);
    Told(s', t);
    e := AloneOutcome(LastInFirstOut, s, s', t, a, es, Calls(before, t), s.sh.stack, s'.sh.stack);
  }

  lemma OneCall(t: nat, a: Action, ms: seq<Move>)
    requires OnlyTicks(ms, t) && !a.Tick?
    ensures Calls([Move(t, a)] + ms, t) == [a]
  {
    var own := [Move(t, a)] + ms;
    assert own[0] == Move(t, a) && own[1..] == ms;
    CallsOfTicks(ms, t, t);
  }

  lemma Told(s: Machine, t: nat)
    requires Linearized(s) && At(s.pc, t) == Idle
    ensures Project(s.log, t) == RespOf(s, t)
  {
    assert Project(s.log, t) == RespOf(s, t) + Pending(t, At(s.pc, t));
  }

  /** Push and then pop, undisturbed: the item pushed comes back, and the stack is as it was. */
  lemma PushThenPop(next: map<nat, Ref>, free: map<nat, bool>, before: seq<Move>, s: Machine, t: nat, i: nat)
    returns (a: seq<Move>, b: seq<Move>, s': Machine)
    requires Runs(Start(next, free), before) && s == Run(Start(next, free), before) && Quiet(s)
    requires Can(s, t, CallPush(i))
    ensures OnlyTicks(a, t) && |a| <= 5 && OnlyTicks(b, t) && |b| <= 5
    ensures var all := before + ([Move(t, CallPush(i))] + a) + ([Move(t, CallPop)] + b);
            Runs(Start(next, free), all) && s' == Run(Start(next, free), all)
    ensures RespOf(s', t) == RespOf(s, t) + [Add(t, i), Take(t, i)] && s'.sh.stack == s.sh.stack
  {
    var s1, e, f;
    a, s1, e := AloneCall(next, free, before, s, t, CallPush(i));
    assert s1.sh.stack == [i] + s.sh.stack;
    b, s', f := AloneCall(next, free, before + ([Move(t, CallPush(i))] + a), s1, t, CallPop);
    assert f == Take(t, i) && s1.sh.stack[1..] == s.sh.stack;
  }
}
