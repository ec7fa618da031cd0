/**
 * opal_lifo.h with a 128-bit compare-and-set: push swaps the head pointer alone, pop swaps pointer and counter
 * together.  Any number of threads, one atomic access per step.
 */
module CountedLifo {
  import opened History
  import opened Threads
  import opened Pointers
  import opened Wrappers

  /** The shared memory, and the abstract stack, top first. */
  datatype Shared = Shared(head: Counted, next: map<nat, Ref>, stack: seq<nat>)

  /** Program counters with the local variables that are live there. */
  datatype Pc =
    | Idle
    | PushRead(item: nat)                            // next = head.item
    | PushSet(item: nat, next: Ref)                  // item->next = next
    | PushCas(item: nat, next: Ref)                  // compare-and-set of head.item from next to item
    | PopCount                                       // old.counter = head.counter
    | PopItem(count: nat)                            // item = old.item = head.item
    | PopNext(count: nat, item: nat)                 // item->next
    | PopCas(count: nat, item: nat, next: Ref)       // update_counted_pointer(head, old, next)
    | PopClear(item: nat)                            // item->next = NULL; return item

  function NextOf(sh: Shared, i: nat): Ref
  {
    if i in sh.next then sh.next[i] else Null
  }

  function Top(stack: seq<nat>): Ref
  {
    if stack == [] then Ghost else Item(stack[0])
  }

  predicate SharedOk(sh: Shared)
  {
    && Distinct(sh.stack)
    && sh.head.ref == Top(sh.stack)
    && forall k :: 0 <= k < |sh.stack| ==> sh.stack[k] in sh.next && sh.next[sh.stack[k]] == Top(sh.stack[k + 1..])
  }

  predicate Outside(sh: Shared, i: nat)
  {
    i in sh.next && i !in sh.stack
  }

  /** What a thread may rely on: while the counter it read stands, nothing has been popped. */
  predicate ThreadOk(sh: Shared, pc: Pc)
  {
    match pc
    case Idle => true
    case PushRead(i) => Outside(sh, i)
    case PushSet(i, _) => Outside(sh, i)
    case PushCas(i, n) => Outside(sh, i) && sh.next[i] == n
    case PopCount => true
    case PopItem(c) => c <= sh.head.count
    case PopNext(c, a) => c <= sh.head.count && (c == sh.head.count ==> a in sh.stack)
    case PopCas(c, a, n) => c <= sh.head.count && (c == sh.head.count ==> a in sh.stack && NextOf(sh, a) == n)
    case PopClear(a) => Outside(sh, a)
  }

  /** The item an operation is working on. */
  function Held(pc: Pc): Option<nat>
  {
    match pc
    case PushRead(i) => Some(i)
    case PushSet(i, _) => Some(i)
    case PushCas(i, _) => Some(i)
    case PopClear(i) => Some(i)
    case _ => None
  }

  // ----- The changes of shared memory -----

  function SetNext(sh: Shared, i: nat, r: Ref): Shared { sh.(next := sh.next[i := r]) }
  function HeadPush(sh: Shared, i: nat): Shared { sh.(head := sh.head.(ref := Item(i)), stack := [i] + sh.stack) }
  function HeadPop(sh: Shared, r: Ref): Shared requires |sh.stack| > 0
  {
    sh.(head := Counted(sh.head.count + 1, r), stack := sh.stack[1..])
  }

  lemma SetNextKeeps(sh: Shared, i: nat, r: Ref)
    requires SharedOk(sh) && Outside(sh, i)
    ensures SharedOk(SetNext(sh, i, r))
  {}

  lemma PushKeeps(sh: Shared, i: nat)
    requires SharedOk(sh) && Outside(sh, i) && sh.next[i] == sh.head.ref
    ensures SharedOk(HeadPush(sh, i))
  {
    var s, s' := sh.stack, [i] + sh.stack;
    assert s'[1..] == s;
    forall k | 1 <= k < |s'| ensures s'[k] in sh.next && sh.next[s'[k]] == Top(s'[k + 1..]) {
      assert s'[k] == s[k - 1] && s'[k + 1..] == s[k..];
    }
  }

  lemma PopKeeps(sh: Shared, r: Ref)
    requires SharedOk(sh) && |sh.stack| > 0 && NextOf(sh, sh.stack[0]) == r
    ensures SharedOk(HeadPop(sh, r)) && Outside(HeadPop(sh, r), sh.stack[0])
  {
    var s, s' := sh.stack, sh.stack[1..];
    forall k | 0 <= k < |s'| ensures s'[k] in sh.next && sh.next[s'[k]] == Top(s'[k + 1..]) {
      assert s'[k] == s[k + 1] && s'[k + 1..] == s[k + 2..];
    }
  }

  // ----- Runs -----

  type Machine = State<Shared, Pc>

  function At(pc: map<nat, Pc>, t: nat): Pc
  {
    if t in pc then pc[t] else Idle
  }

  /** A caller may push any item that is not in the stack and not in the hands of another operation. */
  ghost predicate Can(s: Machine, t: nat, a: Action)
  {
    match a
    case CallPush(i) => At(s.pc, t) == Idle && Outside(s.sh, i) && forall u :: Held(At(s.pc, u)) != Some(i)
    case CallPop => At(s.pc, t) == Idle
    case Tick => At(s.pc, t) != Idle
  }

  function Do(s: Machine, t: nat, a: Action): Machine
  {
    match a
    case CallPush(i) => Put(s, t, s.sh, PushRead(i))
    case CallPop => Put(s, t, s.sh, PopCount)
    case Tick => Step(s, t, At(s.pc, t))
  }

  /** The next atomic step of thread t. */
  function Step(s: Machine, t: nat, pc: Pc): Machine
  {
    var sh := s.sh;
    match pc
    case Idle => s
    case PushRead(i) => Put(s, t, sh, PushSet(i, sh.head.ref))
    case PushSet(i, n) => Put(s, t, SetNext(sh, i, n), PushCas(i, n))
    case PushCas(i, n) =>
      if sh.head.ref == n then Log(Return(s, t, HeadPush(sh, i), Idle, Add(t, i)), Add(t, i))
        else Put(s, t, sh, PushRead(i))
    case PopCount => Put(s, t, sh, PopItem(sh.head.count))
    case PopItem(c) =>
      if sh.head.ref.Item? then Put(s, t, sh, PopNext(c, sh.head.ref.id))
        else Log(Return(s, t, sh, Idle, Empty(t)), Empty(t))
    case PopNext(c, a) => Put(s, t, sh, PopCas(c, a, NextOf(sh, a)))
    case PopCas(c, a, n) =>
      if sh.head == Counted(c, Item(a)) && sh.stack != [] then Log(Put(s, t, HeadPop(sh, n), PopClear(a)), Take(t, a))
      else Put(s, t, sh, PopCount)
    case PopClear(a) => Return(s, t, SetNext(sh, a, Null), Idle, Take(t, a))
  }

  // ----- The invariant -----

  ghost predicate Safe(sh: Shared, pc: map<nat, Pc>)
  {
    && SharedOk(sh)
    && (forall t :: ThreadOk(sh, At(pc, t)))
    && (forall t, u :: t != u && Held(At(pc, t)).Some? ==> Held(At(pc, t)) != Held(At(pc, u)))
  }

  /** One thread moves: enough to look at it, and at what the others rely on. */
  lemma Moves(s: Machine, t: nat, sh: Shared, pc: Pc)
    requires Safe(s.sh, s.pc) && SharedOk(sh) && ThreadOk(sh, pc)
    requires forall u :: u != t ==> ThreadOk(sh, At(s.pc, u))
    requires Held(pc).Some? ==> forall u :: u != t ==> Held(At(s.pc, u)) != Held(pc)
    ensures Safe(sh, s.pc[t := pc])
  {
    var pc' := s.pc[t := pc];
    forall u ensures ThreadOk(sh, At(pc', u)) {
      assert u != t ==> At(pc', u) == At(s.pc, u);
    }
    forall u, v | u != v && Held(At(pc', u)).Some? ensures Held(At(pc', u)) != Held(At(pc', v)) {
      assert u != t ==> At(pc', u) == At(s.pc, u);
      assert v != t ==> At(pc', v) == At(s.pc, v);
    }
  }

  lemma PushStep(s: Machine, t: nat, pc: Pc)
    requires Safe(s.sh, s.pc) && pc == At(s.pc, t) && (pc.PushRead? || pc.PushSet? || pc.PushCas?)
    ensures Safe(Step(s, t, pc).sh, Step(s, t, pc).pc)
  {
    var sh := s.sh;
    assert ThreadOk(sh, pc);
    match pc
    case PushRead(i) => Moves(s, t, sh, PushSet(i, sh.head.ref));
    case PushSet(i, n) =>
      SetNextKeeps(sh, i, n);
      Moves(s, t, SetNext(sh, i, n), PushCas(i, n));
    case PushCas(i, n) =>
      if sh.head.ref == n {
        PushKeeps(sh, i);
        Moves(s, t, HeadPush(sh, i), Idle);
      } else {
        Moves(s, t, sh, PushRead(i));
      }
  }

  lemma PopStep(s: Machine, t: nat, pc: Pc)
    requires Safe(s.sh, s.pc) && pc == At(s.pc, t)
             && (pc.PopCount? || pc.PopItem? || pc.PopNext? || pc.PopCas? || pc.PopClear?)
    ensures Safe(Step(s, t, pc).sh, Step(s, t, pc).pc)
  {
    var sh := s.sh;
    assert ThreadOk(sh, pc);
    match pc
    case PopCount => Moves(s, t, sh, PopItem(sh.head.count));
    case PopItem(c) => Moves(s, t, sh, if sh.head.ref.Item? then PopNext(c, sh.head.ref.id) else Idle);
    case PopNext(c, a) => Moves(s, t, sh, PopCas(c, a, NextOf(sh, a)));
    case PopCas(c, a, n) =>
      if sh.head == Counted(c, Item(a)) && sh.stack != [] {
        PopKeeps(sh, n);
        Moves(s, t, HeadPop(sh, n), PopClear(a));
      } else {
        Moves(s, t, sh, PopCount);
      }
    case PopClear(a) =>
      SetNextKeeps(sh, a, Null);
      Moves(s, t, SetNext(sh, a, Null), Idle);
  }

  /** Every step of every thread keeps the invariant. */
  lemma StepSafe(s: Machine, t: nat, a: Action)
    requires Safe(s.sh, s.pc) && Can(s, t, a)
    ensures Safe(Do(s, t, a).sh, Do(s, t, a).pc)
  {
    match a
    case CallPush(i) => Moves(s, t, s.sh, PushRead(i));
    case CallPop => Moves(s, t, s.sh, PopCount);
    case Tick =>
      var pc := At(s.pc, t);
      if pc.PushRead? || pc.PushSet? || pc.PushCas? { PushStep(s, t, pc); } else { PopStep(s, t, pc); }
  }

  // ----- Linearizability -----

  /** The event of an operation that has taken effect and not returned yet. */
  function Pending(t: nat, pc: Pc): seq<Event>
  {
    if pc.PopClear? then [Take(t, pc.item)] else []
  }

  /** Which event a step logs. */
  function Logged(s: Machine, t: nat, pc: Pc): seq<Event>
  {
    match pc
    case PushCas(i, n) => if s.sh.head.ref == n then [Add(t, i)] else []
    case PopItem(_) => if s.sh.head.ref.Item? then [] else [Empty(t)]
    case PopCas(c, a, _) => if s.sh.head == Counted(c, Item(a)) && s.sh.stack != [] then [Take(t, a)] else []
    case _ => []
  }

  ghost predicate Explained(s: Machine)
  {
    forall t :: Project(s.log, t) == RespOf(s, t) + Pending(t, At(s.pc, t))
  }

  /** What the threads were told is what the sequential stack answers, in the order of the log. */
  ghost predicate Linearized(s: Machine)
  {
    && Replay(LastInFirstOut, s.log) == Some(s.sh.stack)
    && Explained(s)
  }

  lemma StepReplay(s: Machine, t: nat, pc: Pc)
    requires Safe(s.sh, s.pc) && pc == At(s.pc, t) && Replay(LastInFirstOut, s.log) == Some(s.sh.stack)
    ensures var s' := Step(s, t, pc);
            s'.log == s.log + Logged(s, t, pc) && Replay(LastInFirstOut, s'.log) == Some(s'.sh.stack)
  {
    assert ThreadOk(s.sh, pc);
    assert s.log + [] == s.log;
    if Logged(s, t, pc) != [] {
      ReplayStep(LastInFirstOut, s.log, Logged(s, t, pc)[0], s.sh.stack, Step(s, t, pc).sh.stack);
    }
  }

  lemma StepOwn(s: Machine, t: nat, pc: Pc)
    requires pc == At(s.pc, t)
    ensures var s' := Step(s, t, pc);
            RespOf(s', t) + Pending(t, At(s'.pc, t)) == (RespOf(s, t) + Pending(t, pc)) + Logged(s, t, pc)
  {}

  lemma StepFrame(s: Machine, t: nat, u: nat)
    requires u != t
    ensures var s' := Step(s, t, At(s.pc, t)); At(s'.pc, u) == At(s.pc, u) && RespOf(s', u) == RespOf(s, u)
  {}

  /** Each thread's events are the ones it was told about, then the one still pending. */
  lemma StepExplained(s: Machine, t: nat, s': Machine, es: seq<Event>)
    requires Explained(s) && s' == Step(s, t, At(s.pc, t)) && es == Logged(s, t, At(s.pc, t)) && s'.log == s.log + es
    ensures Explained(s')
  {
    ProjectStep(s.log, es, t);
    forall u ensures Project(s'.log, u) == RespOf(s', u) + Pending(u, At(s'.pc, u)) {
      assert Project(s.log, u) == RespOf(s, u) + Pending(u, At(s.pc, u));
      if u == t { StepOwn(s, t, At(s.pc, t)); } else { StepFrame(s, t, u); }
    }
  }

  /** Every step keeps the log a legal history that explains all results. */
  lemma StepLinearized(s: Machine, t: nat, a: Action)
    requires Safe(s.sh, s.pc) && Linearized(s) && Can(s, t, a)
    ensures Linearized(Do(s, t, a))
  {
    var s', pc := Do(s, t, a), At(s.pc, t);
    if a.Tick? {
      StepReplay(s, t, pc);
      StepExplained(s, t, s', Logged(s, t, pc));
    } else {
      CallLinearized(s, t, a);
    }
  }

  /** A call by itself has no effect yet. */
  lemma CallLinearized(s: Machine, t: nat, a: Action)
    requires Explained(s) && At(s.pc, t) == Idle && !a.Tick?
    ensures Explained(Do(s, t, a))
  {
    var s' := Do(s, t, a);
    forall u ensures Project(s'.log, u) == RespOf(s', u) + Pending(u, At(s'.pc, u)) {
      assert Project(s.log, u) == RespOf(s, u) + Pending(u, At(s.pc, u));
      assert u != t ==> At(s'.pc, u) == At(s.pc, u);
    }
  }

  // ----- Whole runs -----

  function Start(next: map<nat, Ref>): Machine
  {
    State(Shared(Counted(0, Ghost), next, []), map[], [], map[])
  }

  ghost predicate Runs(s: Machine, ms: seq<Move>)
    decreases |ms|
  {
    ms == [] || (Can(s, ms[0].thread, ms[0].action) && Runs(Do(s, ms[0].thread, ms[0].action), ms[1..]))
  }

  function Run(s: Machine, ms: seq<Move>): Machine
    decreases |ms|
  {
    if ms == [] then s else Run(Do(s, ms[0].thread, ms[0].action), ms[1..])
  }

  lemma {:induction false} RunKeeps(s: Machine, ms: seq<Move>)
    requires Safe(s.sh, s.pc) && Linearized(s) && Runs(s, ms)
    ensures var s' := Run(s, ms); Safe(s'.sh, s'.pc) && Linearized(s')
    decreases |ms|
  {
    if ms != [] {
      StepSafe(s, ms[0].thread, ms[0].action);
      StepLinearized(s, ms[0].thread, ms[0].action);
      RunKeeps(Do(s, ms[0].thread, ms[0].action), ms[1..]);
    }
  }

  lemma StartKeeps(next: map<nat, Ref>, ms: seq<Move>)
    requires Runs(Start(next), ms)
    ensures var s := Run(Start(next), ms); Safe(s.sh, s.pc) && Linearized(s)
  {
    var s := Start(next);
    assert Linearized(s);
    RunKeeps(s, ms);
  }

  /**
   * Any number of threads, any interleaving: the results are those of the sequential stack in the order of the
   * log, each within its call; no item is lost or given out twice; and the links spell the stack.
   */
  lemma Correct(next: map<nat, Ref>, ms: seq<Move>, s: Machine)
    requires Runs(Start(next), ms) && s == Run(Start(next), ms)
    ensures Replay(LastInFirstOut, s.log) == Some(s.sh.stack)
    ensures forall t :: Project(s.log, t) == RespOf(s, t) + Pending(t, At(s.pc, t))
    ensures multiset(Taken(s.log)) + multiset(s.sh.stack) == multiset(Added(s.log))
    ensures SharedOk(s.sh)
  {
    var s0 := Start(next);
    assert Linearized(s0);
    RunKeeps(s0, ms);
    Conserved(LastInFirstOut, s.log, s.sh.stack);
  }

  /** At the compare-and-set of a pop the stack is tested in vain: if the head is still the same it is on top. */
  lemma CasGuard(s: Machine, t: nat)
    requires Safe(s.sh, s.pc) && At(s.pc, t).PopCas? && s.sh.head == Counted(At(s.pc, t).count, Item(At(s.pc, t).item))
    ensures s.sh.stack != [] && s.sh.stack[0] == At(s.pc, t).item
  {}

  /** Push returns the head it replaced, so that the caller sees whether the stack was empty. */
  lemma PushReports(s: Machine, t: nat)
    requires Safe(s.sh, s.pc) && At(s.pc, t).PushCas? && s.sh.head.ref == At(s.pc, t).next
    ensures At(s.pc, t).next == Ghost <==> s.sh.stack == []
  {}

  // ----- Every call is answered -----

  /** The call an operation belongs to. */
  function Current(pc: Pc): Option<Action>
  {
    match pc
    case Idle => None
    case PushRead(i) => Some(CallPush(i))
    case PushSet(i, _) => Some(CallPush(i))
    case PushCas(i, _) => Some(CallPush(i))
    case _ => Some(CallPop)
  }

  /** A step goes on with the call, or returns the answer to it. */
  lemma StepAnswers(s: Machine, t: nat, pc: Pc)
    requires pc == At(s.pc, t) && pc != Idle
    ensures var s', a := Step(s, t, pc), Current(pc);
            || (Current(At(s'.pc, t)) == a && RespOf(s', t) == RespOf(s, t))
            || (At(s'.pc, t) == Idle && |RespOf(s', t)| == |RespOf(s, t)| + 1 && RespOf(s, t) <= RespOf(s', t)
                && Answers(a.value, t, RespOf(s', t)[|RespOf(s, t)|]))
  {}

  lemma {:induction false} RunAnswered(s: Machine, ms: seq<Move>, t: nat, calls: seq<Action>, all: seq<Action>)
    requires Runs(s, ms) && Answered(calls, t, RespOf(s, t), Current(At(s.pc, t))) && all == calls + Calls(ms, t)
    ensures var s' := Run(s, ms); Answered(all, t, RespOf(s', t), Current(At(s'.pc, t)))
    decreases |ms|
  {
    if ms == [] {
      assert all == calls;
    } else {
      var s1, calls1 := FirstAnswered(s, ms, t, calls, all);
      RunAnswered(s1, ms[1..], t, calls1, all);
    }
  }

  lemma FirstAnswered(s: Machine, ms: seq<Move>, t: nat, calls: seq<Action>, all: seq<Action>)
    returns (s1: Machine, calls1: seq<Action>)
    requires ms != [] && Runs(s, ms) && Answered(calls, t, RespOf(s, t), Current(At(s.pc, t)))
    requires all == calls + Calls(ms, t)
    ensures Runs(s1, ms[1..]) && Run(s, ms) == Run(s1, ms[1..]) && all == calls1 + Calls(ms[1..], t)
    ensures Answered(calls1, t, RespOf(s1, t), Current(At(s1.pc, t)))
  {
    CallsFirst(ms, t, calls);
    MoveAnswered(s, ms[0], t, calls);
    s1, calls1 := Do(s, ms[0].thread, ms[0].action), calls + OwnCall(ms[0], t);
  }

  lemma MoveAnswered(s: Machine, m: Move, t: nat, calls: seq<Action>)
    requires Can(s, m.thread, m.action) && Answered(calls, t, RespOf(s, t), Current(At(s.pc, t)))
    ensures var s' := Do(s, m.thread, m.action);
            Answered(calls + OwnCall(m, t), t, RespOf(s', t), Current(At(s'.pc, t)))
  {
    if OwnCall(m, t) == [] { assert calls + [] == calls; }
    if m.action.Tick? {
      if m.thread == t { StepAnswers(s, t, At(s.pc, t)); } else { StepFrame(s, m.thread, t); }
    }
  }

  /**
   * In every run a thread has been answered as often as it has called, but for the call it is in, and each answer is
   * one to the call it stands for.
   */
  lemma Answering(next: map<nat, Ref>, ms: seq<Move>, t: nat, s: Machine)
    requires Runs(Start(next), ms) && s == Run(Start(next), ms)
    ensures |Calls(ms, t)| == |RespOf(s, t)| + (if At(s.pc, t) == Idle then 0 else 1)
    ensures forall k :: 0 <= k < |RespOf(s, t)| ==> Answers(Calls(ms, t)[k], t, RespOf(s, t)[k])
    ensures Answered(Calls(ms, t), t, RespOf(s, t), Current(At(s.pc, t)))
  {
    RunAnswered(Start(next), ms, t, [], Calls(ms, t));
  }

  // ----- A thread alone returns -----

  /** How many steps are left at most, if nobody else moves. */
  function Left(sh: Shared, pc: Pc): nat
  {
    match pc
    case Idle => 0
    case PushRead(_) => 3
    case PushSet(_, n) => if n == sh.head.ref then 2 else 5
    case PushCas(_, n) => if n == sh.head.ref then 1 else 4
    case PopCount => 5
    case PopItem(c) => if c == sh.head.count then 4 else 8
    case PopNext(c, a) => if sh.head == Counted(c, Item(a)) then 3 else 7
    case PopCas(c, a, _) => if sh.head == Counted(c, Item(a)) then 2 else 6
    case PopClear(_) => 1
  }

  /** Nobody is operating; nobody but t is. */
  ghost predicate Quiet(s: Machine) { forall u :: At(s.pc, u) == Idle }
  ghost predicate Alone(s: Machine, t: nat) { forall u :: u != t ==> At(s.pc, u) == Idle }

  lemma AloneStep(s: Machine, t: nat)
    requires Safe(s.sh, s.pc) && At(s.pc, t) != Idle
    ensures var s' := Step(s, t, At(s.pc, t)); Left(s'.sh, At(s'.pc, t)) < Left(s.sh, At(s.pc, t))
  {
    if At(s.pc, t).PopCas? && Left(s.sh, At(s.pc, t)) == 2 { CasGuard(s, t); }
  }

  /** A thread that nobody disturbs returns, after no more steps than Left says. */
  lemma {:induction false} AloneReturns(s: Machine, t: nat) returns (ms: seq<Move>)
    requires Safe(s.sh, s.pc) && Alone(s, t)
    ensures |ms| <= Left(s.sh, At(s.pc, t)) <= 8 && OnlyTicks(ms, t) && Runs(s, ms)
    ensures Quiet(Run(s, ms))
    decreases Left(s.sh, At(s.pc, t))
  {
    ms := [];
    if At(s.pc, t) == Idle {
      assert Run(s, ms) == s;
    } else {
      var s' := Do(s, t, Tick);
      StepSafe(s, t, Tick);
      forall u | u != t ensures At(s'.pc, u) == Idle { StepFrame(s, t, u); }
      AloneStep(s, t);
      var more := AloneReturns(s', t);
      ms := [Move(t, Tick)] + more;
      assert ms[0] == Move(t, Tick) && ms[1..] == more;
      assert Run(s, ms) == Run(s', more);
    }
  }

  /** So it does in every run, wherever it is in its call. */
  lemma AloneEnds(next: map<nat, Ref>, before: seq<Move>, s: Machine, t: nat) returns (ms: seq<Move>)
    requires Runs(Start(next), before) && s == Run(Start(next), before) && Alone(s, t)
    ensures |ms| <= 8 && OnlyTicks(ms, t) && Runs(Start(next), before + ms) && Quiet(Run(Start(next), before + ms))
  {
    StartKeeps(next, before);
    ms := AloneReturns(s, t);
    RunJoin(Start(next), before, ms);
  }

  lemma {:induction false} RunJoin(s: Machine, a: seq<Move>, b: seq<Move>)
    requires Runs(s, a) && Runs(Run(s, a), b)
    ensures Runs(s, a + b) && Run(s, a + b) == Run(Run(s, a), b)
    decreases |a|
  {
    if a == [] {
      assert a + b == b;
    } else {
      assert (a + b)[0] == a[0] && (a + b)[1..] == a[1..] + b;
      RunJoin(Do(s, a[0].thread, a[0].action), a[1..], b);
    }
  }

  lemma MoveLog(s: Machine, t: nat, a: Action) returns (es: seq<Event>)
    ensures Do(s, t, a).log == s.log + es && forall k :: 0 <= k < |es| ==> es[k].thread == t
  {
    es := if a.Tick? then Logged(s, t, At(s.pc, t)) else [];
    assert s.log + [] == s.log;
  }

  lemma FirstLog(s: Machine, ms: seq<Move>, t: nat) returns (s1: Machine, es: seq<Event>)
    requires ms != [] && Runs(s, ms) && ms[0].thread == t
    ensures Runs(s1, ms[1..]) && Run(s, ms) == Run(s1, ms[1..])
    ensures s1.log == s.log + es && forall k :: 0 <= k < |es| ==> es[k].thread == t
  {
    es := MoveLog(s, t, ms[0].action);
    s1 := Do(s, t, ms[0].action);
  }

  /** The steps of one thread add events of that thread only. */
  lemma {:induction false} OwnEvents(s: Machine, ms: seq<Move>, t: nat) returns (es: seq<Event>)
    requires Runs(s, ms) && forall k :: 0 <= k < |ms| ==> ms[k].thread == t
    ensures Run(s, ms).log == s.log + es && forall k :: 0 <= k < |es| ==> es[k].thread == t
    decreases |ms|
  {
    es := [];
    if ms == [] {
      assert s.log + es == s.log;
    } else {
      var s1, first := FirstLog(s, ms, t);
      var more := OwnEvents(s1, ms[1..], t);
      es := first + more;
      assert (s.log + first) + more == s.log + es;
    }
  }

  /** A call when nobody is operating, and then only its own steps. */
  lemma Called(s: Machine, t: nat, a: Action) returns (ms: seq<Move>)
    requires Safe(s.sh, s.pc) && Quiet(s) && Can(s, t, a) && !a.Tick?
    ensures |ms| <= 5 && OnlyTicks(ms, t) && Runs(s, [Move(t, a)] + ms)
    ensures Quiet(Run(s, [Move(t, a)] + ms))
  {
    var s1 := Do(s, t, a);
    StepSafe(s, t, a);
    forall u | u != t ensures At(s1.pc, u) == Idle { assert At(s1.pc, u) == At(s.pc, u); }
    assert Left(s1.sh, At(s1.pc, t)) <= 5;
    ms := AloneReturns(s1, t);
    var own := [Move(t, a)] + ms;
    assert own[0] == Move(t, a) && own[1..] == ms;
    assert Run(s, own) == Run(s1, ms);
  }

  /**
   * In any run, when nobody is operating a thread may call and, undisturbed, returns within 5 steps.  The answer
   * is one to its call, and does to the stack what the operation does to the sequential one.
   */
  lemma AloneCall(next: map<nat, Ref>, before: seq<Move>, s: Machine, t: nat, a: Action)
    returns (ms: seq<Move>, s': Machine, e: Event)
    requires Runs(Start(next), before) && s == Run(Start(next), before) && Quiet(s)
    requires Can(s, t, a) && !a.Tick?
    ensures OnlyTicks(ms, t) && |ms| <= 5
    ensures var all := before + ([Move(t, a)] + ms); Runs(Start(next), all) && s' == Run(Start(next), all)
    ensures Quiet(s') && RespOf(s', t) == RespOf(s, t) + [e] && Answers(a, t, e)
    ensures Apply(LastInFirstOut, s.sh.stack, e) == Some(s'.sh.stack)
  {
    StartKeeps(next, before);
    ms := Called(s, t, a);
    var own := [Move(t, a)] + ms;
    RunJoin(Start(next), before, own);
    s' := Run(s, own);
    var es := OwnEvents(s, own, t);
    OneCall(t, a, ms);
    e := Outcome(next, before, own, s, s', t, a, es);
  }

  lemma Outcome(next: map<nat, Ref>, before: seq<Move>, own: seq<Move>, s: Machine, s': Machine, t: nat,
                a: Action, es: seq<Event>)
    returns (e: Event)
    requires Runs(Start(next), before) && s == Run(Start(next), before) && Quiet(s)
    requires Runs(Start(next), before + own) && s' == Run(Start(next), before + own) && Quiet(s')
    requires Calls(own, t) == [a] && s'.log == s.log + es && forall k :: 0 <= k < |es| ==> es[k].thread == t
    ensures RespOf(s', t) == RespOf(s, t) + [e] && Answers(a, t, e)
    ensures Apply(LastInFirstOut, s.sh.stack, e) == Some(s'.sh.stack)
  {
    StartKeeps(next, before);
    StartKeeps(next, before + own);
    Answering(next, before, t, s);
    Answering(next, before + own, t, s');
    CallsJoin(before, own, t);
    Told(s, t);
    Told(s', t);
    e := AloneOutcome(LastInFirstOut, s, s', t, a, es, Calls(before, t), s.sh.stack, s'.sh.stack);
  }

  lemma OneCall(t: nat, a: Action, ms: seq<Move>)
    requires OnlyTicks(ms, t) && !a.Tick?
    ensures Calls([Move(t, a)] + ms, t) == [a]
  {
    var own := [Move(t, a)] + ms;
    assert own[0] == Move(t, a) && own[1..] == ms;
    CallsOfTicks(ms, t, t);
  }

  lemma Told(s: Machine, t: nat)
    requires Linearized(s) && At(s.pc, t) == Idle
    ensures Project(s.log, t) == RespOf(s, t)
  {
    assert Project(s.log, t) == RespOf(s, t) + Pending(t, At(s.pc, t));
  }

  /** Push and then pop, undisturbed: the item pushed comes back, and the stack is as it was. */
  lemma PushThenPop(next: map<nat, Ref>, before: seq<Move>, s: Machine, t: nat, i: nat)
    returns (a: seq<Move>, b: seq<Move>, s': Machine)
    requires Runs(Start(next), before) && s == Run(Start(next), before) && Quiet(s)
    requires Can(s, t, CallPush(i))
    ensures OnlyTicks(a, t) && |a| <= 5 && OnlyTicks(b, t) && |b| <= 5
    ensures var all := before + ([Move(t, CallPush(i))] + a) + ([Move(t, CallPop)] + b);
            Runs(Start(next), all) && s' == Run(Start(next), all)
    ensures RespOf(s', t) == RespOf(s, t) + [Add(t, i), Take(t, i)] && s'.sh.stack == s.sh.stack
  {
    var s1, e, f;
    a, s1, e := AloneCall(next, before, s, t, CallPush(i));
    assert s1.sh.stack == [i] + s.sh.stack;
    b, s', f := AloneCall(next, before + ([Move(t, CallPush(i))] + a), s1, t, CallPop);
    assert f == Take(t, i) && s1.sh.stack[1..] == s.sh.stack;
  }
}
