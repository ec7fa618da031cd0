/**
 * opal_fifo.h with a 128-bit compare-and-set: push and pop by any number of threads, one atomic access per
 * step.  The abstract queue changes at the tail update of a push and at the head update of a pop.
 */
module Fifo {

  import opened History
  import opened Threads
  import opened Pointers
  import opened Wrappers

  /** The pop that has just emptied the head and must still settle head and tail. */
  datatype Mover = Mover(thread: nat, item: nat)

  /** The shared memory, the abstract queue, and who is settling. */
  datatype Shared = Shared(head: Counted, tail: Counted, next: map<nat, Ref>, queue: seq<nat>, mover: Option<Mover>)

  /** Program counters with the local variables that are live there. */
  datatype Pc =
    | Idle
    | PushInit(item: nat)                                  // item->next = ghost
    | PushRead(item: nat)                                  // tail = fifo->tail
    | PushCas(item: nat, tail: Counted)                    // update_counted_pointer(fifo->tail, tail, item)
    | PushLink(item: nat, prev: Ref)                       // fifo->head.item = item, or prev->next = item
    | PopHead                                              // head = fifo->head
    | PopTail(head: Counted)                               // tail = fifo->tail
    | PopNext(head: Counted, tail: Counted)                // next = item->next
    | PopCas(head: Counted, tail: Counted, next: Ref)      // the checks; update_counted_pointer(fifo->head, head, next)
    | PopTailCas(item: nat, tail: Counted)                 // update_counted_pointer(fifo->tail, tail, ghost)
    | PopWait(item: nat)                                   // while (ghost == item->next)
    | PopFixRead(item: nat)                                // next = item->next
    | PopFixWrite(item: nat, next: Ref)                    // fifo->head.item = next
    | PopClear(item: nat)                                  // item->next = NULL; return item

  /** The queue as the links show it: the item of the settling pop is still in front. */
  function Chain(sh: Shared): seq<nat>
  {
    match sh.mover
    case None => sh.queue
    case Some(m) => [m.item] + sh.queue
  }

  function NextOf(sh: Shared, r: Ref): Ref
  {
    match r
    case Item(i) => if i in sh.next then sh.next[i] else Null
    case _ => r
  }

  // ----- What the shared memory looks like -----

  /** A link is either in place or still the ghost, because its push has not got there yet. */
  predicate Linked(sh: Shared)
  {
    var c := Chain(sh);
    && (forall k :: 0 <= k < |c| ==> c[k] in sh.next)
    && (forall k :: 0 <= k < |c| - 1 ==> sh.next[c[k]] == Ghost || sh.next[c[k]] == Item(c[k + 1]))
    && (|c| > 0 ==> sh.next[c[|c| - 1]] == Ghost)
  }

  predicate Ends(sh: Shared)
  {
    var c := Chain(sh);
    && sh.tail.ref == (if |c| == 0 then Ghost else Item(c[|c| - 1]))
    && (sh.head.ref == Ghost || (sh.mover == None && |c| > 0 && sh.head.ref == Item(c[0])))
  }

  predicate SharedOk(sh: Shared)
  {
    Distinct(Chain(sh)) && Linked(sh) && Ends(sh)
  }

  // ----- What a thread may rely on -----

  /** A head read earlier is the current one, or it can never be current again. */
  predicate Snapshot(sh: Shared, head: Counted)
  {
    || head == sh.head
    || head.count < sh.head.count
    || (head.count == sh.head.count && head.ref == Ghost && sh.head.ref != Ghost)
  }

  /** A tail read after a head that is still current. */
  predicate TailSeen(sh: Shared, head: Counted, tail: Counted)
  {
    head == sh.head && head.ref != Ghost ==>
      && tail.ref != Ghost
      && (tail.ref == head.ref ==>
          (tail == sh.tail && |Chain(sh)| == 1) || (tail.count < sh.tail.count && |Chain(sh)| > 1))
  }

  predicate NextSeen(sh: Shared, head: Counted, next: Ref)
  {
    && (head.ref == Ghost ==> next == Ghost)
    && (head == sh.head && head.ref != Ghost ==>
          var c := Chain(sh);
          next == Ghost || (|c| > 1 && next == Item(c[1]) && c[0] in sh.next && sh.next[c[0]] == next))
  }

  /** The k-th item of the chain cannot be reached from its predecessor prev yet. */
  predicate LinkAt(sh: Shared, k: nat, b: nat, prev: Ref)
  {
    var c := Chain(sh);
    && k < |c| && c[k] == b
    && (if k == 0 then prev == Ghost && sh.mover == None && sh.head.ref == Ghost
        else prev == Item(c[k - 1]) && c[k - 1] in sh.next && sh.next[c[k - 1]] == Ghost)
  }

  /** The push of b still has to make b reachable. */
  predicate LinkPending(sh: Shared, b: nat, prev: Ref)
  {
    exists k :: 0 <= k < |Chain(sh)| && LinkAt(sh, k, b, prev)
  }

  predicate Moving(sh: Shared, t: nat, item: nat)
  {
    sh.mover == Some(Mover(t, item))
  }

  predicate Outside(sh: Shared, i: nat)
  {
    i in sh.next && i !in Chain(sh)
  }

  predicate ThreadOk(sh: Shared, t: nat, pc: Pc)
  {
    match pc
    case Idle => true
    case PushInit(i) => Outside(sh, i)
    case PushRead(i) => Outside(sh, i) && sh.next[i] == Ghost
    case PushCas(i, _) => Outside(sh, i) && sh.next[i] == Ghost
    case PushLink(b, prev) => LinkPending(sh, b, prev)
    case PopHead => true
    case PopTail(h) => Snapshot(sh, h)
    case PopNext(h, tl) => Snapshot(sh, h) && TailSeen(sh, h, tl)
    case PopCas(h, tl, n) => Snapshot(sh, h) && TailSeen(sh, h, tl) && NextSeen(sh, h, n)
    case PopTailCas(a, tl) =>
      Moving(sh, t, a) && ((tl == sh.tail && sh.queue == []) || (tl.count < sh.tail.count && sh.queue != []))
    case PopWait(a) => Moving(sh, t, a) && sh.queue != []
    case PopFixRead(a) => Moving(sh, t, a) && sh.queue != [] && a in sh.next && sh.next[a] == Item(sh.queue[0])
    case PopFixWrite(a, r) =>
      Moving(sh, t, a) && sh.queue != [] && r == Item(sh.queue[0]) && a in sh.next && sh.next[a] == r
    case PopClear(a) => Outside(sh, a)
  }

  /** The item an operation is working on. */
  function Held(pc: Pc): Option<nat>
  {
    match pc
    case PushInit(i) => Some(i)
    case PushRead(i) => Some(i)
    case PushCas(i, _) => Some(i)
    case PushLink(i, _) => Some(i)
    case PopClear(i) => Some(i)
    case _ => None
  }

  // ----- The changes of shared memory -----

  function SetNext(sh: Shared, i: nat, r: Ref): Shared { sh.(next := sh.next[i := r]) }
  function TailPush(sh: Shared, i: nat): Shared
  {
    sh.(tail := Counted(sh.tail.count + 1, Item(i)), queue := sh.queue + [i])
  }
  function HeadStore(sh: Shared, r: Ref): Shared { sh.(head := sh.head.(ref := r)) }
  function HeadPop(sh: Shared, r: Ref): Shared requires |sh.queue| > 0
  {
    sh.(head := Counted(sh.head.count + 1, r), queue := sh.queue[1..])
  }
  function HeadMove(sh: Shared, t: nat, item: nat): Shared requires |sh.queue| > 0
  {
    HeadPop(sh, Ghost).(mover := Some(Mover(t, item)))
  }
  function TailDrain(sh: Shared): Shared { sh.(tail := Counted(sh.tail.count + 1, Ghost), mover := None) }
  function HeadFix(sh: Shared, r: Ref): Shared { HeadStore(sh, r).(mover := None) }

  // ----- Each change keeps the shape, and what other threads rely on -----

  /** A store to an item that no link leads to. */
  lemma SetNextShape(sh: Shared, i: nat, r: Ref)
    requires SharedOk(sh) && Outside(sh, i)
    ensures SharedOk(SetNext(sh, i, r))
  {}

  lemma SetNextOthers(sh: Shared, i: nat, r: Ref, u: nat, pc: Pc)
    requires SharedOk(sh) && Outside(sh, i) && ThreadOk(sh, u, pc) && Held(pc) != Some(i)
    ensures ThreadOk(SetNext(sh, i, r), u, pc)
  {
    var c := Chain(sh);
    assert forall k :: 0 <= k < |c| ==> c[k] != i;
    if pc.PushLink? {
      var k :| 0 <= k < |c| && LinkAt(sh, k, pc.item, pc.prev);
      assert LinkAt(SetNext(sh, i, r), k, pc.item, pc.prev);
    }
    if pc.PopFixRead? || pc.PopFixWrite? { assert c[0] == pc.item; }
  }

  /** The tail update of a push: the item joins the queue. */
  lemma TailPushShape(sh: Shared, i: nat)
    requires SharedOk(sh) && Outside(sh, i) && sh.next[i] == Ghost
    ensures SharedOk(TailPush(sh, i)) && LinkPending(TailPush(sh, i), i, sh.tail.ref)
    ensures Chain(TailPush(sh, i)) == Chain(sh) + [i]
  {
    var c, c' := Chain(sh), Chain(TailPush(sh, i));
    assert c' == c + [i];
    assert LinkAt(TailPush(sh, i), |c|, i, sh.tail.ref);
  }

  lemma TailPushOthers(sh: Shared, i: nat, u: nat, pc: Pc)
    requires SharedOk(sh) && Outside(sh, i) && sh.next[i] == Ghost && ThreadOk(sh, u, pc) && Held(pc) != Some(i)
    ensures ThreadOk(TailPush(sh, i), u, pc)
  {
    var c, c' := Chain(sh), Chain(TailPush(sh, i));
    assert c' == c + [i];
    if pc.PushLink? {
      var k :| 0 <= k < |c| && LinkAt(sh, k, pc.item, pc.prev);
      assert LinkAt(TailPush(sh, i), k, pc.item, pc.prev);
    }
  }

  /** The head update of a push onto an empty queue. */
  lemma HeadStoreShape(sh: Shared, b: nat)
    requires SharedOk(sh) && LinkPending(sh, b, Ghost)
    ensures SharedOk(HeadStore(sh, Item(b))) && sh.head.ref == Ghost && sh.mover == None && |sh.queue| > 0
            && sh.queue[0] == b
  {
    var c := Chain(sh);
    var k :| 0 <= k < |c| && LinkAt(sh, k, b, Ghost);
  }

  lemma HeadStoreOthers(sh: Shared, b: nat, u: nat, pc: Pc)
    requires SharedOk(sh) && LinkPending(sh, b, Ghost) && ThreadOk(sh, u, pc) && Held(pc) != Some(b)
    ensures ThreadOk(HeadStore(sh, Item(b)), u, pc)
  {
    HeadStoreShape(sh, b);
    if pc.PushLink? {
      var k :| 0 <= k < |Chain(sh)| && LinkAt(sh, k, pc.item, pc.prev);
      assert LinkAt(HeadStore(sh, Item(b)), k, pc.item, pc.prev);
    }
  }

  /** The link from the previous item. */
  lemma LinkShape(sh: Shared, a: nat, b: nat, k: nat)
    requires SharedOk(sh) && LinkAt(sh, k, b, Item(a))
    ensures SharedOk(SetNext(sh, a, Item(b)))
  {}

  lemma LinkOthers(sh: Shared, a: nat, b: nat, k: nat, u: nat, pc: Pc)
    requires SharedOk(sh) && LinkAt(sh, k, b, Item(a)) && ThreadOk(sh, u, pc) && Held(pc) != Some(b)
    ensures ThreadOk(SetNext(sh, a, Item(b)), u, pc)
  {
    var c := Chain(sh);
    assert c[k - 1] == a && c[k] == b && sh.next[a] == Ghost;
    match pc
    case PushLink(i, prev) =>
      var j :| 0 <= j < |c| && LinkAt(sh, j, i, prev);
      assert j > 0 ==> c[j - 1] != a;
      assert LinkAt(SetNext(sh, a, Item(b)), j, i, prev);
    case PopFixRead(i) => assert c[0] == i;
    case PopFixWrite(i, _) => assert c[0] == i;
    case _ =>
  }

  /** The head update of a pop that saw the successor. */
  lemma HeadPopShape(sh: Shared, r: Ref)
    requires SharedOk(sh) && sh.head.ref != Ghost && r != Ghost && NextSeen(sh, sh.head, r)
    ensures |sh.queue| > 1 && sh.mover == None && sh.head.ref == Item(sh.queue[0]) && r == Item(sh.queue[1])
    ensures SharedOk(HeadPop(sh, r)) && Outside(HeadPop(sh, r), sh.queue[0])
  {}

  lemma HeadPopOthers(sh: Shared, r: Ref, u: nat, pc: Pc)
    requires SharedOk(sh) && sh.head.ref != Ghost && r != Ghost && NextSeen(sh, sh.head, r)
    requires ThreadOk(sh, u, pc) && |sh.queue| > 0
    ensures ThreadOk(HeadPop(sh, r), u, pc) && Held(pc) != Some(sh.queue[0])
  {
    HeadPopShape(sh, r);
    var c, c' := sh.queue, sh.queue[1..];
    match pc
    case PushLink(i, prev) =>
      var j :| 0 <= j < |c| && LinkAt(sh, j, i, prev);
      assert j > 1;
      assert LinkAt(HeadPop(sh, r), j - 1, i, prev);
    case _ =>
  }

  lemma HeadMoveChain(sh: Shared, t: nat)
    requires |sh.queue| > 0
    ensures Chain(HeadMove(sh, t, sh.queue[0])) == sh.queue
  {
    assert Chain(HeadMove(sh, t, sh.queue[0])) == [sh.queue[0]] + sh.queue[1..];
  }

  /** The head update of a pop that saw no successor: head and tail are to be settled. */
  lemma HeadMoveShape(sh: Shared, t: nat, tail: Counted)
    requires SharedOk(sh) && sh.head.ref != Ghost && TailSeen(sh, sh.head, tail) && tail.ref == sh.head.ref
    ensures |sh.queue| > 0 && sh.mover == None && sh.head.ref == Item(sh.queue[0])
    ensures SharedOk(HeadMove(sh, t, sh.queue[0])) && Chain(HeadMove(sh, t, sh.queue[0])) == sh.queue
    ensures ThreadOk(HeadMove(sh, t, sh.queue[0]), t, PopTailCas(sh.queue[0], tail))
  {
    HeadMoveChain(sh, t);
  }

  lemma HeadMoveOthers(sh: Shared, t: nat, u: nat, pc: Pc)
    requires SharedOk(sh) && sh.head.ref != Ghost && ThreadOk(sh, u, pc) && |sh.queue| > 0
    ensures ThreadOk(HeadMove(sh, t, sh.queue[0]), u, pc)
  {
    HeadMoveChain(sh, t);
    match pc
    case PushLink(i, prev) =>
      var j :| 0 <= j < |sh.queue| && LinkAt(sh, j, i, prev);
      assert LinkAt(HeadMove(sh, t, sh.queue[0]), j, i, prev);
    case _ =>
  }

  /** Nothing was pushed meanwhile: the tail follows the head to the ghost. */
  lemma TailDrainShape(sh: Shared, t: nat, a: nat)
    requires SharedOk(sh) && Moving(sh, t, a) && sh.queue == []
    ensures SharedOk(TailDrain(sh)) && Outside(TailDrain(sh), a)
  {
    assert Chain(sh) == [a];
  }

  lemma TailDrainOthers(sh: Shared, t: nat, a: nat, u: nat, pc: Pc)
    requires SharedOk(sh) && Moving(sh, t, a) && sh.queue == [] && ThreadOk(sh, u, pc) && u != t
    ensures ThreadOk(TailDrain(sh), u, pc) && Held(pc) != Some(a)
  {
    assert Chain(sh) == [a];
  }

  /** Something was pushed: the head moves on to it. */
  lemma HeadFixShape(sh: Shared, t: nat, a: nat)
    requires SharedOk(sh) && Moving(sh, t, a) && sh.queue != []
    ensures SharedOk(HeadFix(sh, Item(sh.queue[0]))) && Outside(HeadFix(sh, Item(sh.queue[0])), a)
            && sh.head.ref == Ghost
  {
    var c := Chain(sh);
    assert c == [a] + sh.queue;
    assert c[0] == a && forall k :: 0 <= k < |sh.queue| ==> sh.queue[k] == c[k + 1];
  }

  lemma HeadFixOthers(sh: Shared, t: nat, a: nat, u: nat, pc: Pc)
    requires SharedOk(sh) && Moving(sh, t, a) && sh.queue != [] && a in sh.next && sh.next[a] == Item(sh.queue[0])
    requires ThreadOk(sh, u, pc) && u != t
    ensures ThreadOk(HeadFix(sh, Item(sh.queue[0])), u, pc) && Held(pc) != Some(a)
  {
    var c := Chain(sh);
    assert c == [a] + sh.queue;
    HeadFixShape(sh, t, a);
    match pc
    case PushLink(i, prev) =>
      var j :| 0 <= j < |c| && LinkAt(sh, j, i, prev);
      assert j > 1;
      assert LinkAt(HeadFix(sh, Item(sh.queue[0])), j - 1, i, prev);
    case _ =>
  }

  // ----- Runs -----

  type Machine = State<Shared, Pc>

  function At(pc: map<nat, Pc>, t: nat): Pc
  {
    if t in pc then pc[t] else Idle
  }

  function PcOf(s: Machine, t: nat): Pc { At(s.pc, t) }

  /** A caller may push any item that is not in the queue and not in the hands of another operation. */
  ghost predicate Can(s: Machine, t: nat, a: Action)
  {
    match a
    case CallPush(i) => PcOf(s, t) == Idle && Outside(s.sh, i) && forall u :: Held(At(s.pc, u)) != Some(i)
    case CallPop => PcOf(s, t) == Idle
    case Tick => PcOf(s, t) != Idle
  }

  function Do(s: Machine, t: nat, a: Action): Machine
  {
    match a
    case CallPush(i) => Put(s, t, s.sh, PushInit(i))
    case CallPop => Put(s, t, s.sh, PopHead)
    case Tick => Step(s, t, PcOf(s, t))
  }

  /** The next atomic step of thread t. */
  function Step(s: Machine, t: nat, pc: Pc): Machine
  {
    var sh := s.sh;
    match pc
    case Idle => s
    case PushInit(i) => Put(s, t, SetNext(sh, i, Ghost), PushRead(i))
    case PushRead(i) => Put(s, t, sh, PushCas(i, sh.tail))
    case PushCas(i, tl) =>
      if sh.tail == tl then Log(Put(s, t, TailPush(sh, i), PushLink(i, tl.ref)), Add(t, i))
        else Put(s, t, sh, PushRead(i))
    case PushLink(i, prev) =>
      Return(s, t, if prev.Item? then SetNext(sh, prev.id, Item(i)) else HeadStore(sh, Item(i)), Idle, Add(t, i))
    case PopHead => Put(s, t, sh, PopTail(sh.head))
    case PopTail(h) =>
      var s' := Put(s, t, sh, PopNext(h, sh.tail));
      if h.ref == Ghost && sh.tail.ref == Ghost then Log(s', Empty(t)) else s'
    case PopNext(h, tl) => Put(s, t, sh, PopCas(h, tl, NextOf(sh, h.ref)))
    case PopCas(h, tl, n) =>
      if tl.ref == Ghost && h.ref == Ghost then Return(s, t, sh, Idle, Empty(t))
      else if tl.ref != h.ref && tl.ref != Ghost && n == Ghost then Put(s, t, sh, PopHead)
      else if sh.head != h || !h.ref.Item? || sh.queue == [] then Put(s, t, sh, PopHead)
      else if n == Ghost then Log(Put(s, t, HeadMove(sh, t, h.ref.id), PopTailCas(h.ref.id, tl)), Take(t, h.ref.id))
      else Log(Put(s, t, HeadPop(sh, n), PopClear(h.ref.id)), Take(t, h.ref.id))
    case PopTailCas(i, tl) =>
      if sh.tail == tl then Put(s, t, TailDrain(sh), PopClear(i)) else Put(s, t, sh, PopWait(i))
    case PopWait(i) => if NextOf(sh, Item(i)) == Ghost then s else Put(s, t, sh, PopFixRead(i))
    case PopFixRead(i) => Put(s, t, sh, PopFixWrite(i, NextOf(sh, Item(i))))
    case PopFixWrite(i, r) => Put(s, t, HeadFix(sh, r), PopClear(i))
    case PopClear(i) => Return(s, t, SetNext(sh, i, Null), Idle, Take(t, i))
  }

  // ----- The invariant over all threads -----

  ghost predicate Safe(sh: Shared, pc: map<nat, Pc>)
  {
    && SharedOk(sh)
    && (forall t :: ThreadOk(sh, t, At(pc, t)))
    && (forall t, u :: t != u && Held(At(pc, t)).Some? ==> Held(At(pc, t)) != Held(At(pc, u)))
  }

  ghost predicate Inv(s: Machine) { Safe(s.sh, s.pc) }

  /** One thread moves: enough to look at it, and at what the others rely on. */
  lemma Moves(s: Machine, t: nat, sh: Shared, pc: Pc)
    requires Inv(s) && SharedOk(sh) && ThreadOk(sh, t, pc)
    requires forall u :: u != t ==> ThreadOk(sh, u, At(s.pc, u))
    requires Held(pc).Some? ==> forall u :: u != t ==> Held(At(s.pc, u)) != Held(pc)
    ensures Safe(sh, s.pc[t := pc])
  {
    var pc' := s.pc[t := pc];
    forall u ensures ThreadOk(sh, u, At(pc', u)) {
      assert u != t ==> At(pc', u) == At(s.pc, u);
    }
    forall u, v | u != v && Held(At(pc', u)).Some? ensures Held(At(pc', u)) != Held(At(pc', v)) {
      assert u != t ==> At(pc', u) == At(s.pc, u);
      assert v != t ==> At(pc', v) == At(s.pc, v);
    }
  }

  lemma PushStepInv(s: Machine, t: nat)
    requires Inv(s) && (PcOf(s, t).PushInit? || PcOf(s, t).PushRead? || PcOf(s, t).PushCas?)
    ensures Inv(Step(s, t, PcOf(s, t)))
  {
    var sh, pc := s.sh, PcOf(s, t);
    assert ThreadOk(sh, t, pc);
    match pc
    case PushInit(i) =>
      SetNextShape(sh, i, Ghost);
      forall u | u != t ensures ThreadOk(SetNext(sh, i, Ghost), u, At(s.pc, u)) {
        SetNextOthers(sh, i, Ghost, u, At(s.pc, u));
      }
      Moves(s, t, SetNext(sh, i, Ghost), PushRead(i));
    case PushRead(i) => Moves(s, t, sh, PushCas(i, sh.tail));
    case PushCas(i, tl) =>
      if sh.tail == tl {
        TailPushShape(sh, i);
        forall u | u != t ensures ThreadOk(TailPush(sh, i), u, At(s.pc, u)) { TailPushOthers(sh, i, u, At(s.pc, u)); }
        Moves(s, t, TailPush(sh, i), PushLink(i, tl.ref));
      } else {
        Moves(s, t, sh, PushRead(i));
      }
  }

  lemma LinkStepInv(s: Machine, t: nat)
    requires Inv(s) && PcOf(s, t).PushLink?
    ensures Inv(Step(s, t, PcOf(s, t)))
  {
    var sh, b, prev := s.sh, PcOf(s, t).item, PcOf(s, t).prev;
    assert ThreadOk(sh, t, PcOf(s, t));
    var k :| 0 <= k < |Chain(sh)| && LinkAt(sh, k, b, prev);
    if prev == Ghost {
      HeadStoreShape(sh, b);
      forall u | u != t ensures ThreadOk(HeadStore(sh, Item(b)), u, At(s.pc, u)) {
        HeadStoreOthers(sh, b, u, At(s.pc, u));
      }
      Moves(s, t, HeadStore(sh, Item(b)), Idle);
    } else {
      LinkShape(sh, prev.id, b, k);
      forall u | u != t ensures ThreadOk(SetNext(sh, prev.id, Item(b)), u, At(s.pc, u)) {
        LinkOthers(sh, prev.id, b, k, u, At(s.pc, u));
      }
      Moves(s, t, SetNext(sh, prev.id, Item(b)), Idle);
    }
  }

  lemma ReadStepInv(s: Machine, t: nat)
    requires Inv(s) && (PcOf(s, t).PopHead? || PcOf(s, t).PopTail? || PcOf(s, t).PopNext?)
    ensures Inv(Step(s, t, PcOf(s, t)))
  {
    var sh, pc := s.sh, PcOf(s, t);
    assert ThreadOk(sh, t, pc);
    match pc
    case PopHead => Moves(s, t, sh, PopTail(sh.head));
    case PopTail(h) => Moves(s, t, sh, PopNext(h, sh.tail));
    case PopNext(h, tl) => Moves(s, t, sh, PopCas(h, tl, NextOf(sh, h.ref)));
  }

  lemma CasStepInv(s: Machine, t: nat)
    requires Inv(s) && PcOf(s, t).PopCas?
    ensures Inv(Step(s, t, PcOf(s, t)))
  {
    var sh, h, tl, n := s.sh, PcOf(s, t).head, PcOf(s, t).tail, PcOf(s, t).next;
    assert ThreadOk(sh, t, PcOf(s, t));
    if tl.ref == Ghost && h.ref == Ghost {
      Moves(s, t, sh, Idle);
    } else if (tl.ref != h.ref && tl.ref != Ghost && n == Ghost) || sh.head != h || !h.ref.Item? || sh.queue == [] {
      Moves(s, t, sh, PopHead);
    } else if n == Ghost {
      HeadMoveShape(sh, t, tl);
      forall u | u != t ensures ThreadOk(HeadMove(sh, t, sh.queue[0]), u, At(s.pc, u)) {
        HeadMoveOthers(sh, t, u, At(s.pc, u));
      }
      Moves(s, t, HeadMove(sh, t, sh.queue[0]), PopTailCas(sh.queue[0], tl));
    } else {
      HeadPopShape(sh, n);
      forall u | u != t ensures ThreadOk(HeadPop(sh, n), u, At(s.pc, u)) && Held(At(s.pc, u)) != Some(sh.queue[0]) {
        HeadPopOthers(sh, n, u, At(s.pc, u));
      }
      Moves(s, t, HeadPop(sh, n), PopClear(sh.queue[0]));
    }
  }

  lemma SettleStepInv(s: Machine, t: nat)
    requires Inv(s) && (PcOf(s, t).PopTailCas? || PcOf(s, t).PopWait? || PcOf(s, t).PopFixRead?
                        || PcOf(s, t).PopFixWrite? || PcOf(s, t).PopClear?)
    ensures Inv(Step(s, t, PcOf(s, t)))
  {
    var sh, pc := s.sh, PcOf(s, t);
    assert ThreadOk(sh, t, pc);
    match pc
    case PopTailCas(i, tl) =>
      if sh.tail == tl {
        TailDrainShape(sh, t, i);
        forall u | u != t ensures ThreadOk(TailDrain(sh), u, At(s.pc, u)) && Held(At(s.pc, u)) != Some(i) {
          TailDrainOthers(sh, t, i, u, At(s.pc, u));
        }
        Moves(s, t, TailDrain(sh), PopClear(i));
      } else {
        Moves(s, t, sh, PopWait(i));
      }
    case PopWait(i) =>
      assert Chain(sh)[0] == i && Chain(sh)[1] == sh.queue[0];
      if NextOf(sh, Item(i)) != Ghost {
        Moves(s, t, sh, PopFixRead(i));
      }
    case PopFixRead(i) => Moves(s, t, sh, PopFixWrite(i, NextOf(sh, Item(i))));
    case PopFixWrite(i, r) =>
      HeadFixShape(sh, t, i);
      forall u | u != t ensures ThreadOk(HeadFix(sh, r), u, At(s.pc, u)) && Held(At(s.pc, u)) != Some(i) {
        HeadFixOthers(sh, t, i, u, At(s.pc, u));
      }
      Moves(s, t, HeadFix(sh, r), PopClear(i));
    case PopClear(i) =>
      SetNextShape(sh, i, Null);
      forall u | u != t ensures ThreadOk(SetNext(sh, i, Null), u, At(s.pc, u)) {
        SetNextOthers(sh, i, Null, u, At(s.pc, u));
      }
      Moves(s, t, SetNext(sh, i, Null), Idle);
  }

  /** Every step of every thread keeps the invariant. */
  lemma StepInv(s: Machine, t: nat, a: Action)
    requires Inv(s) && Can(s, t, a)
    ensures Inv(Do(s, t, a))
  {
    match a
    case CallPush(i) => Moves(s, t, s.sh, PushInit(i));
    case CallPop => Moves(s, t, s.sh, PopHead);
    case Tick =>
      match PcOf(s, t)
      case PushInit(_) => PushStepInv(s, t);
      case PushRead(_) => PushStepInv(s, t);
      case PushCas(_, _) => PushStepInv(s, t);
      case PushLink(_, _) => LinkStepInv(s, t);
      case PopHead => ReadStepInv(s, t);
      case PopTail(_) => ReadStepInv(s, t);
      case PopNext(_, _) => ReadStepInv(s, t);
      case PopCas(_, _, _) => CasStepInv(s, t);
      case _ => SettleStepInv(s, t);
  }

  // ----- Linearizability -----

  /** The event of an operation that has taken effect and not returned yet. */
  function Pending(t: nat, pc: Pc): seq<Event>
  {
    match pc
    case PushLink(i, _) => [Add(t, i)]
    case PopNext(h, tl) => if h.ref == Ghost && tl.ref == Ghost then [Empty(t)] else []
    case PopCas(h, tl, _) => if h.ref == Ghost && tl.ref == Ghost then [Empty(t)] else []
    case PopTailCas(i, _) => [Take(t, i)]
    case PopWait(i) => [Take(t, i)]
    case PopFixRead(i) => [Take(t, i)]
    case PopFixWrite(i, _) => [Take(t, i)]
    case PopClear(i) => [Take(t, i)]
    case _ => []
  }

  ghost predicate Explained(log: seq<Event>, pc: map<nat, Pc>, resp: map<nat, seq<Event>>)
  {
    forall t :: Project(log, t) == (if t in resp then resp[t] else []) + Pending(t, At(pc, t))
  }

  /** What the threads were told is what the sequential queue answers, in the order of the log. */
  ghost predicate Linearized(s: Machine)
  {
    Replay(FirstInFirstOut, s.log) == Some(s.sh.queue) && Explained(s.log, s.pc, s.resp)
  }

  /** Which event a step logs. */
  function Logged(s: Machine, t: nat, pc: Pc): seq<Event>
  {
    match pc
    case PushCas(i, tl) => if s.sh.tail == tl then [Add(t, i)] else []
    case PopTail(h) => if h.ref == Ghost && s.sh.tail.ref == Ghost then [Empty(t)] else []
    case PopCas(h, tl, n) =>
      if (tl.ref == Ghost && h.ref == Ghost) || (tl.ref != h.ref && tl.ref != Ghost && n == Ghost) || s.sh.head != h
        || !h.ref.Item? || s.sh.queue == []
      then [] else [Take(t, h.ref.id)]
    case _ => []
  }

  /** The events of the log are the queue's own history. */
  lemma StepReplay(s: Machine, t: nat)
    requires Inv(s) && Replay(FirstInFirstOut, s.log) == Some(s.sh.queue)
    ensures var s' := Step(s, t, PcOf(s, t));
            s'.log == s.log + Logged(s, t, PcOf(s, t)) && Replay(FirstInFirstOut, s'.log) == Some(s'.sh.queue)
  {
    var sh, pc := s.sh, PcOf(s, t);
    assert ThreadOk(sh, t, pc);
    assert s.log + [] == s.log;
    match pc
    case PushCas(i, tl) => if sh.tail == tl { ReplayStep(FirstInFirstOut, s.log, Add(t, i), sh.queue, sh.queue + [i]); }
    case PopTail(h) =>
      if h.ref == Ghost && sh.tail.ref == Ghost { ReplayStep(FirstInFirstOut, s.log, Empty(t), sh.queue, sh.queue); }
    case PopCas(h, _, n) =>
      if Logged(s, t, pc) != [] { ReplayStep(FirstInFirstOut, s.log, Take(t, h.ref.id), sh.queue, sh.queue[1..]); }
    case _ =>
  }

  /** A step changes nothing of another thread. */
  lemma StepFrame(s: Machine, t: nat, u: nat)
    requires u != t
    ensures At(Step(s, t, PcOf(s, t)).pc, u) == At(s.pc, u) && RespOf(Step(s, t, PcOf(s, t)), u) == RespOf(s, u)
  {}

  lemma PushOwn(s: Machine, t: nat, pc: Pc)
    requires pc == PcOf(s, t) && (pc.PushInit? || pc.PushRead? || pc.PushCas? || pc.PushLink?)
    ensures var s' := Step(s, t, pc);
            RespOf(s', t) + Pending(t, PcOf(s', t)) == (RespOf(s, t) + Pending(t, pc)) + Logged(s, t, pc)
  {}

  lemma PopOwn(s: Machine, t: nat, pc: Pc)
    requires pc == PcOf(s, t) && !(pc.PushInit? || pc.PushRead? || pc.PushCas? || pc.PushLink?)
    ensures var s' := Step(s, t, pc);
            RespOf(s', t) + Pending(t, PcOf(s', t)) == (RespOf(s, t) + Pending(t, pc)) + Logged(s, t, pc)
  {}

  lemma StepOwn(s: Machine, t: nat, pc: Pc)
    requires pc == PcOf(s, t)
    ensures var s' := Step(s, t, pc);
            RespOf(s', t) + Pending(t, PcOf(s', t)) == (RespOf(s, t) + Pending(t, pc)) + Logged(s, t, pc)
  {
    if pc.PushInit? || pc.PushRead? || pc.PushCas? || pc.PushLink? { PushOwn(s, t, pc); } else { PopOwn(s, t, pc); }
  }

  /** Each thread's events are the ones it was told about, then the one still pending. */
  lemma StepExplained(s: Machine, t: nat, s': Machine, es: seq<Event>)
    requires Explained(s.log, s.pc, s.resp)
    requires s' == Step(s, t, PcOf(s, t)) && es == Logged(s, t, PcOf(s, t)) && s'.log == s.log + es
    ensures Explained(s'.log, s'.pc, s'.resp)
  {
    ProjectStep(s.log, es, t);
    forall u ensures Project(s'.log, u) == RespOf(s', u) + Pending(u, At(s'.pc, u)) {
      assert Project(s.log, u) == RespOf(s, u) + Pending(u, At(s.pc, u));
      if u == t { StepOwn(s, t, PcOf(s, t)); } else { StepFrame(s, t, u); }
    }
  }

  /** Every step keeps the log a legal history that explains all results. */
  lemma StepLinearized(s: Machine, t: nat, a: Action)
    requires Inv(s) && Linearized(s) && Can(s, t, a)
    ensures Linearized(Do(s, t, a))
  {
    if a.Tick? {
      StepReplay(s, t);
      StepExplained(s, t, Do(s, t, a), Logged(s, t, PcOf(s, t)));
    } else {
      var s' := Do(s, t, a);
      forall u ensures Project(s'.log, u) == RespOf(s', u) + Pending(u, At(s'.pc, u)) {
        assert u != t ==> At(s'.pc, u) == At(s.pc, u);
        assert Project(s.log, u) == RespOf(s, u) + Pending(u, At(s.pc, u));
      }
    }
  }

  // ----- Every missing link has a push that will supply it -----

  ghost predicate Pushing(pc: map<nat, Pc>, b: nat, prev: Ref)
  {
    exists t :: At(pc, t) == PushLink(b, prev)
  }

  predicate Settling(pc: Pc)
  {
    pc.PopTailCas? || pc.PopWait? || pc.PopFixRead? || pc.PopFixWrite?
  }

  ghost predicate Owned(sh: Shared, pc: map<nat, Pc>)
  {
    && (forall b, prev :: LinkPending(sh, b, prev) ==> Pushing(pc, b, prev))
    && (sh.mover.Some? ==> Settling(At(pc, sh.mover.value.thread)))
  }

  /** A missing link after the change was missing before, at an index that moves by d. */
  lemma LinkBack(sh: Shared, sh': Shared, d: nat, b: nat, prev: Ref)
    requires LinkPending(sh', b, prev)
    requires forall k :: 0 <= k < |Chain(sh')| && LinkAt(sh', k, b, prev) ==> LinkAt(sh, k + d, b, prev)
    ensures LinkPending(sh, b, prev)
  {
    var k :| 0 <= k < |Chain(sh')| && LinkAt(sh', k, b, prev);
    assert LinkAt(sh, k + d, b, prev);
  }

  lemma PushGaps(sh: Shared, i: nat, b: nat, prev: Ref)
    requires SharedOk(sh) && Outside(sh, i) && sh.next[i] == Ghost && LinkPending(TailPush(sh, i), b, prev)
    ensures LinkPending(sh, b, prev) || (b == i && prev == sh.tail.ref)
  {
    TailPushShape(sh, i);
    var c, sh' := Chain(sh), TailPush(sh, i);
    var k :| 0 <= k < |Chain(sh')| && LinkAt(sh', k, b, prev);
    if k < |c| { assert LinkAt(sh, k, b, prev); }
  }

  lemma LinkGaps(sh: Shared, b0: nat, prev0: Ref, b: nat, prev: Ref)
    requires SharedOk(sh) && LinkPending(sh, b0, prev0)
    requires LinkPending(if prev0.Item? then SetNext(sh, prev0.id, Item(b0)) else HeadStore(sh, Item(b0)), b, prev)
    ensures LinkPending(sh, b, prev) && b != b0
  {
    var sh' := if prev0.Item? then SetNext(sh, prev0.id, Item(b0)) else HeadStore(sh, Item(b0));
    var k0 :| 0 <= k0 < |Chain(sh)| && LinkAt(sh, k0, b0, prev0);
    var k :| 0 <= k < |Chain(sh')| && LinkAt(sh', k, b, prev);
    assert LinkAt(sh, k, b, prev) && k != k0;
  }

  lemma PopGaps(sh: Shared, r: Ref, b: nat, prev: Ref)
    requires SharedOk(sh) && |sh.queue| > 0 && sh.mover == None && r != Ghost && LinkPending(HeadPop(sh, r), b, prev)
    ensures LinkPending(sh, b, prev)
  {
    LinkBack(sh, HeadPop(sh, r), 1, b, prev);
  }

  lemma MoveGaps(sh: Shared, t: nat, b: nat, prev: Ref)
    requires SharedOk(sh) && |sh.queue| > 0 && sh.mover == None && LinkPending(HeadMove(sh, t, sh.queue[0]), b, prev)
    ensures LinkPending(sh, b, prev)
  {
    HeadMoveChain(sh, t);
    LinkBack(sh, HeadMove(sh, t, sh.queue[0]), 0, b, prev);
  }

  lemma FixGaps(sh: Shared, r: Ref, b: nat, prev: Ref)
    requires SharedOk(sh) && sh.mover.Some? && r != Ghost && LinkPending(HeadFix(sh, r), b, prev)
    ensures LinkPending(sh, b, prev)
  {
    LinkBack(sh, HeadFix(sh, r), 1, b, prev);
  }

  lemma ClearGaps(sh: Shared, i: nat, r: Ref, b: nat, prev: Ref)
    requires Outside(sh, i) && LinkPending(SetNext(sh, i, r), b, prev)
    ensures LinkPending(sh, b, prev)
  {
    LinkBack(sh, SetNext(sh, i, r), 0, b, prev);
  }

  lemma CasGaps(s: Machine, t: nat, b: nat, prev: Ref)
    requires Inv(s) && PcOf(s, t).PopCas? && LinkPending(Step(s, t, PcOf(s, t)).sh, b, prev)
    ensures LinkPending(s.sh, b, prev)
  {
    var sh, pc := s.sh, PcOf(s, t);
    assert ThreadOk(sh, t, pc);
    if Logged(s, t, pc) != [] {
      if pc.next == Ghost { MoveGaps(sh, t, b, prev); } else { PopGaps(sh, pc.next, b, prev); }
    }
  }

  lemma PushStepGaps(s: Machine, t: nat, b: nat, prev: Ref)
    requires Inv(s) && (PcOf(s, t).PushInit? || PcOf(s, t).PushCas? || PcOf(s, t).PushLink?)
    requires LinkPending(Step(s, t, PcOf(s, t)).sh, b, prev)
    ensures (LinkPending(s.sh, b, prev) && PcOf(s, t) != PushLink(b, prev))
            || PcOf(Step(s, t, PcOf(s, t)), t) == PushLink(b, prev)
  {
    var sh, pc := s.sh, PcOf(s, t);
    assert ThreadOk(sh, t, pc);
    match pc
    case PushInit(i) => ClearGaps(sh, i, Ghost, b, prev);
    case PushCas(i, tl) => if sh.tail == tl { PushGaps(sh, i, b, prev); }
    case PushLink(i, p) => LinkGaps(sh, i, p, b, prev);
  }

  /** A step opens a gap only by starting to close it, and closes the gap of its own push. */
  lemma StepGaps(s: Machine, t: nat, b: nat, prev: Ref)
    requires Inv(s) && LinkPending(Step(s, t, PcOf(s, t)).sh, b, prev)
    ensures (LinkPending(s.sh, b, prev) && PcOf(s, t) != PushLink(b, prev))
            || PcOf(Step(s, t, PcOf(s, t)), t) == PushLink(b, prev)
  {
    var sh, pc := s.sh, PcOf(s, t);
    assert ThreadOk(sh, t, pc);
    match pc
    case PushInit(_) => PushStepGaps(s, t, b, prev);
    case PushCas(_, _) => PushStepGaps(s, t, b, prev);
    case PushLink(_, _) => PushStepGaps(s, t, b, prev);
    case PopCas(_, _, _) => CasGaps(s, t, b, prev);
    case PopFixWrite(i, r) => FixGaps(sh, r, b, prev);
    case PopClear(i) => ClearGaps(sh, i, Null, b, prev);
    case _ =>
  }

  lemma StepMover(s: Machine, t: nat)
    requires Inv(s) && (s.sh.mover.Some? ==> Settling(At(s.pc, s.sh.mover.value.thread)))
    ensures var s' := Step(s, t, PcOf(s, t));
            s'.sh.mover.Some? ==> Settling(At(s'.pc, s'.sh.mover.value.thread))
  {
    assert ThreadOk(s.sh, t, PcOf(s, t));
  }

  lemma StepOwned(s: Machine, t: nat, a: Action)
    requires Inv(s) && Owned(s.sh, s.pc) && Can(s, t, a)
    ensures Owned(Do(s, t, a).sh, Do(s, t, a).pc)
  {
    var s' := Do(s, t, a);
    if a.Tick? { StepMover(s, t); }
    forall b, prev | LinkPending(s'.sh, b, prev) ensures Pushing(s'.pc, b, prev) {
      if a.Tick? { StepGaps(s, t, b, prev); }
      if PcOf(s', t) == PushLink(b, prev) {
        assert At(s'.pc, t) == PushLink(b, prev);
      } else {
        var u :| At(s.pc, u) == PushLink(b, prev);
        if a.Tick? { StepFrame(s, t, u); }
        assert At(s'.pc, u) == PushLink(b, prev);
      }
    }
  }

  // ----- Whole runs -----

  function Start(next: map<nat, Ref>): Machine
  {
    State(Shared(Counted(0, Ghost), Counted(0, Ghost), next, [], None), map[], [], map[])
  }

  ghost predicate Runs(s: Machine, ms: seq<Move>)
    decreases |ms|
  {
    ms == [] || (Can(s, ms[0].thread, ms[0].action) && Runs(Do(s, ms[0].thread, ms[0].action), ms[1..]))
  }

  function Run(s: Machine, ms: seq<Move>): Machine
    decreases |ms|
  {
    if ms == [] then s else Run(Do(s, ms[0].thread, ms[0].action), ms[1..])
  }

  lemma {:induction false} RunKeeps(s: Machine, ms: seq<Move>)
    requires Inv(s) && Linearized(s) && Owned(s.sh, s.pc) && Runs(s, ms)
    ensures var s' := Run(s, ms); Inv(s') && Linearized(s') && Owned(s'.sh, s'.pc)
    decreases |ms|
  {
    if ms != [] {
      StepInv(s, ms[0].thread, ms[0].action);
      StepLinearized(s, ms[0].thread, ms[0].action);
      StepOwned(s, ms[0].thread, ms[0].action);
      RunKeeps(Do(s, ms[0].thread, ms[0].action), ms[1..]);
    }
  }

  lemma StartKeeps(next: map<nat, Ref>, ms: seq<Move>)
    requires Runs(Start(next), ms)
    ensures var s := Run(Start(next), ms); Inv(s) && Linearized(s) && Owned(s.sh, s.pc)
  {
    var s := Start(next);
    assert Inv(s) && Owned(s.sh, s.pc);
    assert Replay(FirstInFirstOut, s.log) == Some([]);
    RunKeeps(s, ms);
  }

  /**
   * Any number of threads, any interleaving: the items popped so far followed by the queue are exactly the items
   * pushed so far, in order; every result a thread got is the sequential queue's answer at one point inside the
   * call; and the links agree with the queue.
   */
  lemma Correct(next: map<nat, Ref>, ms: seq<Move>)
    requires Runs(Start(next), ms)
    ensures var s := Run(Start(next), ms);
            && Replay(FirstInFirstOut, s.log) == Some(s.sh.queue)
            && Taken(s.log) + s.sh.queue == Added(s.log)
            && (forall t :: Project(s.log, t) == RespOf(s, t) + Pending(t, PcOf(s, t)))
            && SharedOk(s.sh)
  {
    var s := Run(Start(next), ms);
    StartKeeps(next, ms);
    InOrder(s.log, s.sh.queue);
    forall t ensures Project(s.log, t) == RespOf(s, t) + Pending(t, PcOf(s, t)) {
      assert PcOf(s, t) == At(s.pc, t);
    }
  }

  /** The links lead from the head through every queued item, and the tail is the last. */
  predicate Settled(sh: Shared)
  {
    var q := sh.queue;
    && sh.head.ref == (if q == [] then Ghost else Item(q[0]))
    && sh.tail.ref == (if q == [] then Ghost else Item(q[|q| - 1]))
    && forall k :: 0 <= k < |q| ==> q[k] in sh.next && sh.next[q[k]] == (if k + 1 < |q| then Item(q[k + 1]) else Ghost)
  }

  lemma NoGap(sh: Shared, pc: map<nat, Pc>, k: nat, b: nat, prev: Ref)
    requires Owned(sh, pc) && (forall t :: At(pc, t) == Idle) && k < |Chain(sh)|
    ensures !LinkAt(sh, k, b, prev)
  {
    assert !Pushing(pc, b, prev);
    assert !LinkPending(sh, b, prev);
  }

  lemma AtRest(sh: Shared, pc: map<nat, Pc>)
    requires SharedOk(sh) && Owned(sh, pc) && forall t :: At(pc, t) == Idle
    ensures Settled(sh)
  {
    var q := sh.queue;
    if q != [] { NoGap(sh, pc, 0, q[0], Ghost); }
    forall k | 0 <= k < |q| - 1 ensures sh.next[q[k]] == Item(q[k + 1]) {
      NoGap(sh, pc, k + 1, q[k + 1], Item(q[k]));
    }
  }

  /** When no operation is under way, all results are accounted for and the list is whole. */
  lemma Quiescent(next: map<nat, Ref>, ms: seq<Move>, s: Machine)
    requires Runs(Start(next), ms) && s == Run(Start(next), ms) && forall t :: At(s.pc, t) == Idle
    ensures Settled(s.sh) && forall t :: Project(s.log, t) == RespOf(s, t)
  {
    StartKeeps(next, ms);
    AtRest(s.sh, s.pc);
    forall t ensures Project(s.log, t) == RespOf(s, t) {
      assert Pending(t, At(s.pc, t)) == [];
    }
  }

  /**
   * At the compare-and-set of a pop the item and the queue are tested in vain: if the head is still the same they are
   * there.
   */
  lemma CasGuards(s: Machine, t: nat)
    requires Inv(s) && PcOf(s, t).PopCas? && s.sh.head == PcOf(s, t).head
    ensures var pc := PcOf(s, t);
            !(pc.tail.ref == Ghost && pc.head.ref == Ghost)
              && !(pc.tail.ref != pc.head.ref && pc.tail.ref != Ghost && pc.next == Ghost) ==>
              pc.head.ref.Item? && s.sh.queue != [] && s.sh.queue[0] == pc.head.ref.id
  {
    assert ThreadOk(s.sh, t, PcOf(s, t));
  }

  /** The source asserts that the head is the ghost when a settling pop moves it on. */
  lemma HeadIsGhost(s: Machine, t: nat)
    requires Inv(s) && (PcOf(s, t).PopFixRead? || PcOf(s, t).PopFixWrite?)
    ensures s.sh.head.ref == Ghost
  {
    assert ThreadOk(s.sh, t, PcOf(s, t));
  }

  /**
   * Push returns the item it found at the tail, for the caller to see whether the queue was empty.  The ghost does
   * mean it was; an empty queue may also answer with the last item of a pop that has not settled yet.
   */
  lemma PushReports(s: Machine, t: nat)
    requires Inv(s) && PcOf(s, t).PushCas? && s.sh.tail == PcOf(s, t).tail
    ensures PcOf(s, t).tail.ref == Ghost <==> s.sh.queue == [] && s.sh.mover == None
  {}

  // ----- An empty queue whose tail is an item -----

  lemma {:induction false} RunMore(s: Machine, ms: seq<Move>, t: nat, a: Action)
    requires Runs(s, ms) && Can(Run(s, ms), t, a)
    ensures Runs(s, ms + [Move(t, a)]) && Run(s, ms + [Move(t, a)]) == Do(Run(s, ms), t, a)
    decreases |ms|
  {
    var ms' := ms + [Move(t, a)];
    if ms != [] {
      assert ms'[0] == ms[0] && ms'[1..] == ms[1..] + [Move(t, a)];
      RunMore(Do(s, ms[0].thread, ms[0].action), ms[1..], t, a);
    }
  }

  /** The run ms from s0 has come to s. */
  ghost predicate Reaches(s0: Machine, ms: seq<Move>, s: Machine) { Runs(s0, ms) && Run(s0, ms) == s }

  lemma Go(s0: Machine, ms: seq<Move>, s: Machine, t: nat, a: Action) returns (ms': seq<Move>, s': Machine)
    requires Reaches(s0, ms, s) && Can(s, t, a)
    ensures Reaches(s0, ms', s') && s' == Do(s, t, a)
  {
    RunMore(s0, ms, t, a);
    ms', s' := ms + [Move(t, a)], Do(s, t, a);
  }

  lemma Ticks(s0: Machine, ms: seq<Move>, s: Machine, t: nat, pc: Pc) returns (ms': seq<Move>, s': Machine)
    requires Reaches(s0, ms, s) && PcOf(s, t) == pc && pc != Idle
    ensures Reaches(s0, ms', s') && s' == Step(s, t, pc)
  {
    ms', s' := Go(s0, ms, s, t, Tick);
  }

  /** A push up to its compare-and-set. */
  lemma PushHalf(s0: Machine, ms: seq<Move>, s: Machine, t: nat, i: nat) returns (ms': seq<Move>, s': Machine)
    requires Reaches(s0, ms, s) && Can(s, t, CallPush(i))
    ensures Reaches(s0, ms', s') && s'.sh == SetNext(s.sh, i, Ghost) && s'.pc == s.pc[t := PushCas(i, s.sh.tail)]
  {
    ms', s' := Go(s0, ms, s, t, CallPush(i));
    ms', s' := Ticks(s0, ms', s', t, PushInit(i));
    ms', s' := Ticks(s0, ms', s', t, PushRead(i));
  }

  /** A whole push onto an empty queue. */
  lemma PushAlone(s0: Machine, ms: seq<Move>, s: Machine, t: nat, i: nat) returns (ms': seq<Move>, s': Machine)
    requires Reaches(s0, ms, s) && Can(s, t, CallPush(i)) && s.sh.tail.ref == Ghost
    ensures Reaches(s0, ms', s') && s'.pc == s.pc[t := Idle]
    ensures s'.sh == HeadStore(TailPush(SetNext(s.sh, i, Ghost), i), Item(i))
  {
    ms', s' := PushHalf(s0, ms, s, t, i);
    ms', s' := Ticks(s0, ms', s', t, PushCas(i, s.sh.tail));
    ms', s' := Ticks(s0, ms', s', t, PushLink(i, Ghost));
  }

  /** The three reads of a pop. */
  lemma PopReads(s0: Machine, ms: seq<Move>, s: Machine, t: nat, i: nat) returns (ms': seq<Move>, s': Machine)
    requires Reaches(s0, ms, s) && PcOf(s, t) == Idle && s.sh.head.ref == s.sh.tail.ref == Item(i)
    requires i in s.sh.next && s.sh.next[i] == Ghost
    ensures Reaches(s0, ms', s') && s'.sh == s.sh && s'.pc == s.pc[t := PopCas(s.sh.head, s.sh.tail, Ghost)]
  {
    ms', s' := Go(s0, ms, s, t, CallPop);
    ms', s' := Ticks(s0, ms', s', t, PopHead);
    ms', s' := Ticks(s0, ms', s', t, PopTail(s.sh.head));
    ms', s' := Ticks(s0, ms', s', t, PopNext(s.sh.head, s.sh.tail));
  }

  /** A pop of the only item, up to the point where the head has moved. */
  lemma PopHalf(s0: Machine, ms: seq<Move>, s: Machine, t: nat, i: nat) returns (ms': seq<Move>, s': Machine)
    requires Reaches(s0, ms, s) && PcOf(s, t) == Idle && s.sh.queue == [i] && s.sh.head.ref == s.sh.tail.ref == Item(i)
    requires i in s.sh.next && s.sh.next[i] == Ghost
    ensures Reaches(s0, ms', s') && s'.sh == HeadMove(s.sh, t, i) && s'.pc == s.pc[t := PopTailCas(i, s.sh.tail)]
  {
    ms', s' := PopReads(s0, ms, s, t, i);
    ms', s' := Ticks(s0, ms', s', t, PopCas(s.sh.head, s.sh.tail, Ghost));
  }

  /**
   * A run from the start: one thread pushes item 0, another pops it up to the head update, and a third reads the
   * tail.  The queue is empty, and the push of the third will report item 0.
   */
  lemma StaleTailSeen() returns (ms: seq<Move>)
    ensures var s0 := Start(map[0 := Null, 1 := Null]);
            && Runs(s0, ms)
            && var s := Run(s0, ms);
               && s.sh.queue == [] && s.sh.mover.Some?
               && PcOf(s, 2) == PushCas(1, s.sh.tail) && s.sh.tail.ref == Item(0)
  {
    var s0 := Start(map[0 := Null, 1 := Null]);
    var s := s0;
    ms := [];
    ms, s := PushAlone(s0, ms, s, 0, 0);
    ms, s := PopHalf(s0, ms, s, 1, 0);
    HeadMoveChain(Shared(Counted(0, Item(0)), Counted(1, Item(0)), map[0 := Ghost, 1 := Null], [0], None), 1);
    assert Chain(s.sh) == [0];
    ms, s := PushHalf(s0, ms, s, 2, 1);
  }

  // ----- Every call is answered -----

  /** The call an operation belongs to. */
  function Current(pc: Pc): Option<Action>
  {
    match pc
    case Idle => None
    case PushInit(i) => Some(CallPush(i))
    case PushRead(i) => Some(CallPush(i))
    case PushCas(i, _) => Some(CallPush(i))
    case PushLink(i, _) => Some(CallPush(i))
    case _ => Some(CallPop)
  }

  /** A step goes on with the call, or returns the answer to it. */
  lemma StepAnswers(s: Machine, t: nat, pc: Pc)
    requires pc == At(s.pc, t) && pc != Idle
    ensures var s', a := Step(s, t, pc), Current(pc);
            || (Current(At(s'.pc, t)) == a && RespOf(s', t) == RespOf(s, t))
            || (At(s'.pc, t) == Idle && |RespOf(s', t)| == |RespOf(s, t)| + 1 && RespOf(s, t) <= RespOf(s', t)
                && Answers(a.value, t, RespOf(s', t)[|RespOf(s, t)|]))
  {}

  lemma {:induction false} RunAnswered(s: Machine, ms: seq<Move>, t: nat, calls: seq<Action>, all: seq<Action>)
    requires Runs(s, ms) && Answered(calls, t, RespOf(s, t), Current(At(s.pc, t))) && all == calls + Calls(ms, t)
    ensures var s' := Run(s, ms); Answered(all, t, RespOf(s', t), Current(At(s'.pc, t)))
    decreases |ms|
  {
    if ms == [] {
      assert all == calls;
    } else {
      var s1, calls1 := FirstAnswered(s, ms, t, calls, all);
      RunAnswered(s1, ms[1..], t, calls1, all);
    }
  }

  lemma FirstAnswered(s: Machine, ms: seq<Move>, t: nat, calls: seq<Action>, all: seq<Action>)
    returns (s1: Machine, calls1: seq<Action>)
    requires ms != [] && Runs(s, ms) && Answered(calls, t, RespOf(s, t), Current(At(s.pc, t)))
    requires all == calls + Calls(ms, t)
    ensures Runs(s1, ms[1..]) && Run(s, ms) == Run(s1, ms[1..]) && all == calls1 + Calls(ms[1..], t)
    ensures Answered(calls1, t, RespOf(s1, t), Current(At(s1.pc, t)))
  {
    CallsFirst(ms, t, calls);
    MoveAnswered(s, ms[0], t, calls);
    s1, calls1 := Do(s, ms[0].thread, ms[0].action), calls + OwnCall(ms[0], t);
  }

  lemma MoveAnswered(s: Machine, m: Move, t: nat, calls: seq<Action>)
    requires Can(s, m.thread, m.action) && Answered(calls, t, RespOf(s, t), Current(At(s.pc, t)))
    ensures var s' := Do(s, m.thread, m.action);
            Answered(calls + OwnCall(m, t), t, RespOf(s', t), Current(At(s'.pc, t)))
  {
    if OwnCall(m, t) == [] { assert calls + [] == calls; }
    if m.action.Tick? {
      if m.thread == t { StepAnswers(s, t, At(s.pc, t)); } else { StepFrame(s, m.thread, t); }
    }
  }

  /**
   * In every run a thread has been answered as often as it has called, but for the call it is in, and each answer is
   * one to the call it stands for.
   */
  lemma Answering(next: map<nat, Ref>, ms: seq<Move>, t: nat, s: Machine)
    requires Runs(Start(next), ms) && s == Run(Start(next), ms)
    ensures |Calls(ms, t)| == |RespOf(s, t)| + (if At(s.pc, t) == Idle then 0 else 1)
    ensures forall k :: 0 <= k < |RespOf(s, t)| ==> Answers(Calls(ms, t)[k], t, RespOf(s, t)[k])
    ensures Answered(Calls(ms, t), t, RespOf(s, t), Current(At(s.pc, t)))
  {
    RunAnswered(Start(next), ms, t, [], Calls(ms, t));
  }

  // ----- A thread alone returns -----

  /** The checks of a pop pass: the queue looks empty, or the head is as it was read and its successor is known. */
  predicate Passes(sh: Shared, h: Counted, tl: Counted, n: Ref)
  {
    (tl.ref == Ghost && h.ref == Ghost) || (sh.head == h && (tl.ref == h.ref || tl.ref == Ghost || n != Ghost))
  }

  /** How many steps are left at most, if nobody else moves. */
  function Left(sh: Shared, pc: Pc): nat
  {
    match pc
    case Idle => 0
    case PushInit(_) => 4
    case PushRead(_) => 3
    case PushCas(_, tl) => if sh.tail == tl then 2 else 4
    case PushLink(_, _) => 1
    case PopHead => 9
    case PopTail(h) => if sh.head == h then 8 else 12
    case PopNext(h, tl) => if sh.head == h && sh.tail == tl then 7 else 11
    case PopCas(h, tl, n) => if Passes(sh, h, tl, n) then 6 else 10
    case PopTailCas(_, _) => 5
    case PopWait(_) => 4
    case PopFixRead(_) => 3
    case PopFixWrite(_, _) => 2
    case PopClear(_) => 1
  }

  /** Nobody is operating; nobody but t is. */
  ghost predicate Quiet(s: Machine) { forall u :: At(s.pc, u) == Idle }
  ghost predicate Alone(s: Machine, t: nat) { forall u :: u != t ==> At(s.pc, u) == Idle }

  /** Nobody is about to make a link, so none is missing. */
  lemma AloneLinked(s: Machine, t: nat, k: nat, b: nat, prev: Ref)
    requires Owned(s.sh, s.pc) && Alone(s, t) && !PcOf(s, t).PushLink? && k < |Chain(s.sh)|
    ensures !LinkAt(s.sh, k, b, prev)
  {
    assert !Pushing(s.pc, b, prev);
    assert !LinkPending(s.sh, b, prev);
  }

  /** The list is whole when a thread that is alone looks at it. */
  lemma AloneSettled(s: Machine, t: nat)
    requires Inv(s) && Owned(s.sh, s.pc) && Alone(s, t) && !PcOf(s, t).PushLink? && !Settling(PcOf(s, t))
    ensures Settled(s.sh)
  {
    var sh, q := s.sh, s.sh.queue;
    assert sh.mover == None;
    if q != [] { AloneLinked(s, t, 0, q[0], Ghost); }
    forall k | 0 <= k < |q| - 1 ensures sh.next[q[k]] == Item(q[k + 1]) {
      AloneLinked(s, t, k + 1, q[k + 1], Item(q[k]));
    }
  }

  /** The pop that waits for a link finds it. */
  lemma AloneWait(s: Machine, t: nat, i: nat)
    requires Inv(s) && Owned(s.sh, s.pc) && Alone(s, t) && PcOf(s, t) == PopWait(i)
    ensures NextOf(s.sh, Item(i)) != Ghost
  {
    assert ThreadOk(s.sh, t, PcOf(s, t));
    var c := Chain(s.sh);
    assert c[0] == i && c[1] == s.sh.queue[0];
    AloneLinked(s, t, 1, c[1], Item(i));
  }

  lemma SettledPasses(sh: Shared)
    requires Settled(sh)
    ensures Passes(sh, sh.head, sh.tail, NextOf(sh, sh.head.ref))
  {
    if |sh.queue| > 1 { assert sh.next[sh.queue[0]] == Item(sh.queue[1]); }
  }

  lemma PushNearer(s: Machine, t: nat, pc: Pc)
    requires pc == PcOf(s, t) && (pc.PushInit? || pc.PushRead? || pc.PushCas? || pc.PushLink?)
    ensures var s' := Step(s, t, pc); Left(s'.sh, PcOf(s', t)) < Left(s.sh, pc)
  {}

  lemma ReadNearer(s: Machine, t: nat, pc: Pc)
    requires pc == PcOf(s, t) && (pc.PopHead? || pc.PopTail? || pc.PopNext?)
    requires pc.PopNext? ==> Passes(s.sh, s.sh.head, s.sh.tail, NextOf(s.sh, s.sh.head.ref))
    ensures var s' := Step(s, t, pc); Left(s'.sh, PcOf(s', t)) < Left(s.sh, pc)
  {}

  lemma CasNearer(s: Machine, t: nat, pc: Pc)
    requires pc == PcOf(s, t) && pc.PopCas?
    requires Passes(s.sh, pc.head, pc.tail, pc.next) && !(pc.tail.ref == Ghost && pc.head.ref == Ghost) ==>
               pc.head.ref.Item? && s.sh.queue != []
    ensures var s' := Step(s, t, pc); Left(s'.sh, PcOf(s', t)) < Left(s.sh, pc)
  {}

  lemma SettleNearer(s: Machine, t: nat, pc: Pc)
    requires pc == PcOf(s, t) && (Settling(pc) || pc.PopClear?)
    requires pc.PopWait? ==> NextOf(s.sh, Item(pc.item)) != Ghost
    ensures var s' := Step(s, t, pc); Left(s'.sh, PcOf(s', t)) < Left(s.sh, pc)
  {}

  lemma AloneStep(s: Machine, t: nat)
    requires Inv(s) && Owned(s.sh, s.pc) && Alone(s, t) && At(s.pc, t) != Idle
    ensures var s' := Step(s, t, At(s.pc, t)); Left(s'.sh, At(s'.pc, t)) < Left(s.sh, At(s.pc, t))
  {
    var pc := PcOf(s, t);
    if pc.PushInit? || pc.PushRead? || pc.PushCas? || pc.PushLink? {
      PushNearer(s, t, pc);
    } else if pc.PopCas? {
      if s.sh.head == pc.head { CasGuards(s, t); }
      CasNearer(s, t, pc);
    } else if Settling(pc) || pc.PopClear? {
      if pc.PopWait? { AloneWait(s, t, pc.item); }
      SettleNearer(s, t, pc);
    } else {
      AloneSettled(s, t);
      SettledPasses(s.sh);
      ReadNearer(s, t, pc);
    }
  }

  /** A thread that nobody disturbs returns, after no more steps than Left says. */
  lemma {:induction false} AloneReturns(s: Machine, t: nat) returns (ms: seq<Move>)
    requires Inv(s) && Owned(s.sh, s.pc) && Alone(s, t)
    ensures |ms| <= Left(s.sh, At(s.pc, t)) <= 12 && OnlyTicks(ms, t) && Runs(s, ms)
    ensures Quiet(Run(s, ms))
    decreases Left(s.sh, At(s.pc, t))
  {
    ms := [];
    if At(s.pc, t) == Idle {
      assert Run(s, ms) == s;
    } else {
      var s' := Do(s, t, Tick);
      StepInv(s, t, Tick);
      StepOwned(s, t, Tick);
      forall u | u != t ensures At(s'.pc, u) == Idle { StepFrame(s, t, u); }
      AloneStep(s, t);
      var more := AloneReturns(s', t);
      ms := [Move(t, Tick)] + more;
      assert ms[0] == Move(t, Tick) && ms[1..] == more;
      assert Run(s, ms) == Run(s', more);
    }
  }

  /** So it does in every run, wherever it is in its call. */
  lemma AloneEnds(next: map<nat, Ref>, before: seq<Move>, s: Machine, t: nat) returns (ms: seq<Move>)
    requires Runs(Start(next), before) && s == Run(Start(next), before) && Alone(s, t)
    ensures |ms| <= 12 && OnlyTicks(ms, t) && Runs(Start(next), before + ms) && Quiet(Run(Start(next), before + ms))
  {
    StartKeeps(next, before);
    ms := AloneReturns(s, t);
    RunJoin(Start(next), before, ms);
  }

  lemma {:induction false} RunJoin(s: Machine, a: seq<Move>, b: seq<Move>)
    requires Runs(s, a) && Runs(Run(s, a), b)
    ensures Runs(s, a + b) && Run(s, a + b) == Run(Run(s, a), b)
    decreases |a|
  {
    if a == [] {
      assert a + b == b;
    } else {
      assert (a + b)[0] == a[0] && (a + b)[1..] == a[1..] + b;
      RunJoin(Do(s, a[0].thread, a[0].action), a[1..], b);
    }
  }

  lemma MoveLog(s: Machine, t: nat, a: Action) returns (es: seq<Event>)
    ensures Do(s, t, a).log == s.log + es && forall k :: 0 <= k < |es| ==> es[k].thread == t
  {
    es := if a.Tick? then Logged(s, t, At(s.pc, t)) else [];
    assert s.log + [] == s.log;
  }

  lemma FirstLog(s: Machine, ms: seq<Move>, t: nat) returns (s1: Machine, es: seq<Event>)
    requires ms != [] && Runs(s, ms) && ms[0].thread == t
    ensures Runs(s1, ms[1..]) && Run(s, ms) == Run(s1, ms[1..])
    ensures s1.log == s.log + es && forall k :: 0 <= k < |es| ==> es[k].thread == t
  {
    es := MoveLog(s, t, ms[0].action);
    s1 := Do(s, t, ms[0].action);
  }

  /** The steps of one thread add events of that thread only. */
  lemma {:induction false} OwnEvents(s: Machine, ms: seq<Move>, t: nat) returns (es: seq<Event>)
    requires Runs(s, ms) && forall k :: 0 <= k < |ms| ==> ms[k].thread == t
    ensures Run(s, ms).log == s.log + es && forall k :: 0 <= k < |es| ==> es[k].thread == t
    decreases |ms|
  {
    es := [];
    if ms == [] {
      assert s.log + es == s.log;
    } else {
      var s1, first := FirstLog(s, ms, t);
      var more := OwnEvents(s1, ms[1..], t);
      es := first + more;
      assert (s.log + first) + more == s.log + es;
    }
  }

  /** A call when nobody is operating, and then only its own steps. */
  lemma Called(s: Machine, t: nat, a: Action) returns (ms: seq<Move>)
    requires Inv(s) && Owned(s.sh, s.pc) && Quiet(s) && Can(s, t, a) && !a.Tick?
    ensures |ms| <= 9 && OnlyTicks(ms, t) && Runs(s, [Move(t, a)] + ms)
    ensures Quiet(Run(s, [Move(t, a)] + ms))
  {
    var s1 := Do(s, t, a);
    StepInv(s, t, a);
    StepOwned(s, t, a);
    forall u | u != t ensures At(s1.pc, u) == Idle { assert At(s1.pc, u) == At(s.pc, u); }
    assert Left(s1.sh, At(s1.pc, t)) <= 9;
    ms := AloneReturns(s1, t);
    var own := [Move(t, a)] + ms;
    assert own[0] == Move(t, a) && own[1..] == ms;
    assert Run(s, own) == Run(s1, ms);
  }

  /**
   * In any run, when nobody is operating a thread may call and, undisturbed, returns within 9 steps.  The answer
   * is one to its call, and does to the queue what the operation does to the sequential one.
   */
  lemma AloneCall(next: map<nat, Ref>, before: seq<Move>, s: Machine, t: nat, a: Action)
    returns (ms: seq<Move>, s': Machine, e: Event)
    requires Runs(Start(next), before) && s == Run(Start(next), before) && Quiet(s)
    requires Can(s, t, a) && !a.Tick?
    ensures OnlyTicks(ms, t) && |ms| <= 9
    ensures var all := before + ([Move(t, a)] + ms); Runs(Start(next), all) && s' == Run(Start(next), all)
    ensures Quiet(s') && RespOf(s', t) == RespOf(s, t) + [e] && Answers(a, t, e)
    ensures Apply(FirstInFirstOut, s.sh.queue, e) == Some(s'.sh.queue)
  {
    StartKeeps(next, before);
    ms := Called(s, t, a);
    var own := [Move(t, a)] + ms;
    RunJoin(Start(next), before, own);
    s' := Run(s, own);
    var es := OwnEvents(s, own, t);
    OneCall(t, a, ms);
    e := Outcome(next, before, own, s, s', t, a, es);
  }

  lemma Outcome(next: map<nat, Ref>, before: seq<Move>, own: seq<Move>, s: Machine, s': Machine, t: nat,
                a: Action, es: seq<Event>)
    returns (e: Event)
    requires Runs(Start(next), before) && s == Run(Start(next), before) && Quiet(s)
    requires Runs(Start(next), before + own) && s' == Run(Start(next), before + own) && Quiet(s')
    requires Calls(own, t) == [a] && s'.log == s.log + es && forall k :: 0 <= k < |es| ==> es[k].thread == t
    ensures RespOf(s', t) == RespOf(s, t) + [e] && Answers(a, t, e)
    ensures Apply(FirstInFirstOut, s.sh.queue, e) == Some(s'.sh.queue)
  {
    StartKeeps(next, before);
    StartKeeps(next, before + own);
    Answering(next, before, t, s);
    Answering(next, before + own, t, s');
    CallsJoin(before, own, t);
    Told(s, t);
    Told(s', t);
    e := AloneOutcome(FirstInFirstOut, s, s', t, a, es, Calls(before, t), s.sh.queue, s'.sh.queue);
  }

  lemma OneCall(t: nat, a: Action, ms: seq<Move>)
    requires OnlyTicks(ms, t) && !a.Tick?
    ensures Calls([Move(t, a)] + ms, t) == [a]
  {
    var own := [Move(t, a)] + ms;
    assert own[0] == Move(t, a) && own[1..] == ms;
    CallsOfTicks(ms, t, t);
  }

  lemma Told(s: Machine, t: nat)
    requires Linearized(s) && At(s.pc, t) == Idle
    ensures Project(s.log, t) == RespOf(s, t)
  {
    assert Project(s.log, t) == RespOf(s, t) + Pending(t, At(s.pc, t));
  }

  /** Push and then pop, undisturbed: what comes back is the first of the queue with the item at its end. */
  lemma PushThenPop(next: map<nat, Ref>, before: seq<Move>, s: Machine, t: nat, i: nat)
    returns (a: seq<Move>, b: seq<Move>, s': Machine)
    requires Runs(Start(next), before) && s == Run(Start(next), before) && Quiet(s)
    requires Can(s, t, CallPush(i))
    ensures OnlyTicks(a, t) && |a| <= 9 && OnlyTicks(b, t) && |b| <= 9
    ensures var all := before + ([Move(t, CallPush(i))] + a) + ([Move(t, CallPop)] + b);
            Runs(Start(next), all) && s' == Run(Start(next), all)
    ensures var q := s.sh.queue + [i];
            RespOf(s', t) == RespOf(s, t) + [Add(t, i), Take(t, q[0])] && s'.sh.queue == q[1..]
  {
    var s1, e, f;
    a, s1, e := AloneCall(next, before, s, t, CallPush(i));
    b, s', f := AloneCall(next, before + ([Move(t, CallPush(i))] + a), s1, t, CallPop);
  }
}
