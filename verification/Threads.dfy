/** Threads that call push and pop: what the three lock-free structures have in common. */
module Threads {
  import opened History
  import opened Wrappers

  /** A call begins, or a thread takes the next atomic step of the call it is in. */
  datatype Action = CallPush(item: nat) | CallPop | Tick

  datatype Move = Move(thread: nat, action: Action)

  /** Shared memory, program counters, the events in the order they took effect, and the results returned per thread. */
  datatype State<S, P> = State(sh: S, pc: map<nat, P>, log: seq<Event>, resp: map<nat, seq<Event>>)

  function RespOf<S, P>(s: State<S, P>, t: nat): seq<Event>
  {
    if t in s.resp then s.resp[t] else []
  }

  function Put<S, P>(s: State<S, P>, t: nat, sh: S, pc: P): State<S, P> { s.(sh := sh, pc := s.pc[t := pc]) }
  function Log<S, P>(s: State<S, P>, e: Event): State<S, P> { s.(log := s.log + [e]) }

  /** The operation returns, with the event as its result. */
  function Return<S, P>(s: State<S, P>, t: nat, sh: S, idle: P, e: Event): State<S, P>
  {
    Put(s, t, sh, idle).(resp := s.resp[t := RespOf(s, t) + [e]])
  }

  // ----- Calls and their answers -----

  /** The calls of one thread in a run. */
  function Calls(ms: seq<Move>, t: nat): seq<Action>
  {
    if ms == [] then [] else OwnCall(ms[0], t) + Calls(ms[1..], t)
  }

  function OwnCall(m: Move, t: nat): seq<Action> { if m.thread == t && !m.action.Tick? then [m.action] else [] }

  lemma CallsFirst(ms: seq<Move>, t: nat, calls: seq<Action>)
    requires ms != []
    ensures calls + Calls(ms, t) == (calls + OwnCall(ms[0], t)) + Calls(ms[1..], t)
  {
    assert calls + (OwnCall(ms[0], t) + Calls(ms[1..], t)) == (calls + OwnCall(ms[0], t)) + Calls(ms[1..], t);
  }

  /** A push is answered by its own item having been added, a pop by an item taken or by none being there. */
  predicate Answers(a: Action, t: nat, e: Event)
  {
    match a
    case CallPush(i) => e == Add(t, i)
    case CallPop => e == Empty(t) || (e.Take? && e.thread == t)
    case Tick => false
  }

  /** The k-th response answers the k-th call, and one call more is under way exactly when there is a current one. */
  predicate Answered(calls: seq<Action>, t: nat, resp: seq<Event>, current: Option<Action>)
  {
    && |calls| == |resp| + (if current.Some? then 1 else 0)
    && (forall k :: 0 <= k < |resp| ==> Answers(calls[k], t, resp[k]))
    && (current.Some? ==> calls[|resp|] == current.value)
  }

  /** Nothing but steps of one thread. */
  predicate OnlyTicks(ms: seq<Move>, t: nat)
  {
    forall k :: 0 <= k < |ms| ==> ms[k] == Move(t, Tick)
  }

  lemma {:induction false} CallsOfTicks(ms: seq<Move>, t: nat, u: nat)
    requires OnlyTicks(ms, t)
    ensures Calls(ms, u) == []
  {
    if ms != [] { CallsOfTicks(ms[1..], t, u); }
  }

  lemma {:induction false} CallsJoin(a: seq<Move>, b: seq<Move>, t: nat)
    ensures Calls(a + b, t) == Calls(a, t) + Calls(b, t)
    decreases |a|
  {
    if a == [] {
      assert a + b == b;
    } else {
      assert (a + b)[0] == a[0] && (a + b)[1..] == a[1..] + b;
      CallsJoin(a[1..], b, t);
    }
  }

  /** Of one thread's own events, those it was told are all there are once it is told. */
  lemma {:induction false} ProjectOwn(log: seq<Event>, es: seq<Event>, t: nat)
    requires forall k :: 0 <= k < |es| ==> es[k].thread == t
    ensures Project(log + es, t) == Project(log, t) + es
    decreases |es|
  {
    if es == [] {
      assert log + es == log;
    } else {
      var front, e := es[..|es| - 1], es[|es| - 1];
      assert es == front + [e];
      ProjectOwn(log, front, t);
      ProjectOne(log + front, e, t);
      assert log + es == (log + front) + [e];
      assert Project(log + es, t) == (Project(log, t) + front) + [e];
    }
  }

  /** One event more on a legal history is one operation on the sequential collection. */
  lemma ReplayOne(d: Discipline, log: seq<Event>, e: Event, q: seq<nat>, q': seq<nat>)
    requires Replay(d, log) == Some(q) && Replay(d, log + [e]) == Some(q')
    ensures Apply(d, q, e) == Some(q')
  {
    assert (log + [e])[..|log|] == log;
  }

  /**
   * A thread called while nobody was operating and has returned; es is what it added to the log.  That is one event,
   * it is what the thread was told, it answers the call, and it is what the sequential collection does.
   */
  lemma AloneOutcome<S, P>(d: Discipline, s: State<S, P>, s': State<S, P>, t: nat, a: Action, es: seq<Event>,
                           calls: seq<Action>, q: seq<nat>, q': seq<nat>)
    returns (e: Event)
    requires s'.log == s.log + es && forall k :: 0 <= k < |es| ==> es[k].thread == t
    requires Project(s.log, t) == RespOf(s, t) && Project(s'.log, t) == RespOf(s', t)
    requires Answered(calls, t, RespOf(s, t), None) && Answered(calls + [a], t, RespOf(s', t), None)
    requires Replay(d, s.log) == Some(q) && Replay(d, s'.log) == Some(q')
    ensures RespOf(s', t) == RespOf(s, t) + [e] && Answers(a, t, e) && Apply(d, q, e) == Some(q')
  {
    var resp, resp' := RespOf(s, t), RespOf(s', t);
    ProjectOwn(s.log, es, t);
    assert resp' == resp + es && |resp'| == |calls + [a]| == |resp| + 1;
    e := es[0];
    assert es == [e] && resp'[|resp|] == e && (calls + [a])[|resp|] == a;
    ReplayOne(d, s.log, e, q, q');
  }
}
