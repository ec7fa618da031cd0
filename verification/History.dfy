/**
 * Histories of a shared collection: the events of all threads in the order they took effect, the sequential
 * collection they must agree with, and the part of the history that one thread has seen.
 */
module History {
  import opened Wrappers

  datatype Discipline = FirstInFirstOut | LastInFirstOut

  /** What an operation did, recorded at the step where it took effect. */
  datatype Event = Add(thread: nat, item: nat) | Take(thread: nat, item: nat) | Empty(thread: nat)

  /** One event on the sequential collection, whose next item is the first; None if the event is wrong there. */
  function Apply(d: Discipline, q: seq<nat>, e: Event): Option<seq<nat>>
  {
    match e
    case Add(_, i) => Some(if d.FirstInFirstOut? then q + [i] else [i] + q)
    case Take(_, i) => if |q| > 0 && q[0] == i then Some(q[1..]) else None
    case Empty(_) => if q == [] then Some(q) else None
  }

  /** What the events, taken one after the other, leave behind; None if one of them is wrong. */
  function Replay(d: Discipline, log: seq<Event>): Option<seq<nat>>
  {
    if log == [] then Some([]) else
      match Replay(d, log[..|log| - 1])
      case None => None
      case Some(q) => Apply(d, q, log[|log| - 1])
  }

  /** The events of one thread. */
  function Project(log: seq<Event>, t: nat): seq<Event>
  {
    if log == [] then [] else
      var e := log[|log| - 1];
      Project(log[..|log| - 1], t) + (if e.thread == t then [e] else [])
  }

  function Added(log: seq<Event>): seq<nat>
  {
    if log == [] then [] else
      var e := log[|log| - 1];
      Added(log[..|log| - 1]) + (if e.Add? then [e.item] else [])
  }

  function Taken(log: seq<Event>): seq<nat>
  {
    if log == [] then [] else
      var e := log[|log| - 1];
      Taken(log[..|log| - 1]) + (if e.Take? then [e.item] else [])
  }

  lemma ReplayStep(d: Discipline, log: seq<Event>, e: Event, q: seq<nat>, q': seq<nat>)
    requires Replay(d, log) == Some(q) && Apply(d, q, e) == Some(q')
    ensures Replay(d, log + [e]) == Some(q')
  {
    assert (log + [e])[..|log|] == log;
  }

  lemma ProjectOne(log: seq<Event>, e: Event, t: nat)
    ensures Project(log + [e], t) == Project(log, t) + (if e.thread == t then [e] else [])
  {
    assert (log + [e])[..|log|] == log;
  }

  lemma ProjectStep(log: seq<Event>, es: seq<Event>, u: nat)
    requires |es| <= 1 && forall k :: 0 <= k < |es| ==> es[k].thread == u
    ensures Project(log + es, u) == Project(log, u) + es
    ensures forall v :: v != u ==> Project(log + es, v) == Project(log, v)
  {
    if es == [] {
      assert log + es == log;
    } else {
      assert es == [es[0]];
      forall v ensures Project(log + es, v) == Project(log, v) + (if v == u then es else []) {
        ProjectOne(log, es[0], v);
      }
    }
  }

  /** First in, first out: what was taken, then what is left, is what was added, in order. */
  lemma {:induction false} InOrder(log: seq<Event>, q: seq<nat>)
    requires Replay(FirstInFirstOut, log) == Some(q)
    ensures Taken(log) + q == Added(log)
  {
    if log != [] {
      var before, e := log[..|log| - 1], log[|log| - 1];
      var q0 := Replay(FirstInFirstOut, before).value;
      InOrder(before, q0);
      if e.Take? {
        assert q0 == [e.item] + q;
        assert Taken(before) + q0 == (Taken(before) + [e.item]) + q;
      } else if e.Add? {
        assert Taken(before) + (q0 + [e.item]) == (Taken(before) + q0) + [e.item];
      }
    }
  }

  lemma TakenNext(log: seq<Event>)
    requires log != []
    ensures var e := log[|log| - 1];
            && multiset(Taken(log))
               == multiset(Taken(log[..|log| - 1])) + (if e.Take? then multiset{e.item} else multiset{})
            && multiset(Added(log))
               == multiset(Added(log[..|log| - 1])) + (if e.Add? then multiset{e.item} else multiset{})
  {}

  lemma ApplyConserves(d: Discipline, q0: seq<nat>, e: Event, q: seq<nat>)
    requires Apply(d, q0, e) == Some(q)
    ensures multiset(q) + (if e.Take? then multiset{e.item} else multiset{})
            == multiset(q0) + (if e.Add? then multiset{e.item} else multiset{})
  {
    if e.Take? { assert q0 == [e.item] + q; }
  }

  lemma Regroup(t: multiset<nat>, q0: multiset<nat>, q: multiset<nat>, x: multiset<nat>, y: multiset<nat>)
    requires q + x == q0 + y
    ensures (t + x) + q == (t + q0) + y
  {
    assert (t + x) + q == t + (q + x);
    assert (t + q0) + y == t + (q0 + y);
  }

  /** In either discipline nothing is lost, duplicated or made up. */
  lemma {:induction false} Conserved(d: Discipline, log: seq<Event>, q: seq<nat>)
    requires Replay(d, log) == Some(q)
    ensures multiset(Taken(log)) + multiset(q) == multiset(Added(log))
  {
    if log != [] {
      var before := log[..|log| - 1];
      var q0 := Replay(d, before).value;
      Conserved(d, before, q0);
      var e := log[|log| - 1];
      TakenNext(log);
      ApplyConserves(d, q0, e, q);
      Regroup(multiset(Taken(before)), multiset(q0), multiset(q),
              if e.Take? then multiset{e.item} else multiset{}, if e.Add? then multiset{e.item} else multiset{});
    }
  }
}
