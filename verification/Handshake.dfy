/**
 * The connection handshake of btl_tcp2_endpoint.c between two processes that may both connect at once.  The
 * sockets are connections with a decision of the accepting side; a run is any interleaving of the handlers.
 */
module Handshake {
  import opened Wrappers

  datatype Proc = P | Q

  function Peer(x: Proc): Proc { if x == P then Q else P }

  /** endpoint_state, without the failed state. */
  datatype Phase = Closed | Connecting | ConnectAck | Connected

  datatype Endpoint = Endpoint(sd: Option<nat>, phase: Phase)

  /** What the other side did with a connection: nothing yet, accepted and acknowledged it, or closed it. */
  datatype Fate = Waiting | Accepted | Rejected

  /** A connection, who opened it, and whether its opener has sent its name on it. */
  datatype Conn = Conn(from: Proc, sent: bool, fate: Fate)

  datatype State = State(p: Endpoint, q: Endpoint, conns: seq<Conn>)

  function End(s: State, x: Proc): Endpoint { if x == P then s.p else s.q }
  function SetEnd(s: State, x: Proc, e: Endpoint): State { if x == P then s.(p := e) else s.(q := e) }

  datatype Step =
    | Start(x: Proc, atOnce: bool)   // endpoint_start_connect; connect() completes at once or later
    | Complete(x: Proc)              // endpoint_complete_connect: our name is sent
    | Incoming(c: nat)               // component_recv_handler and endpoint_accept: the opener's name has arrived
    | Ack(x: Proc)                   // endpoint_recv_connect_ack: the peer's name has arrived
    | Eof(x: Proc)                   // the peer closed the connection instead

  /** The condition in endpoint_accept. */
  predicate Accepts(name: Proc -> int, e: Endpoint, y: Proc)
  {
    e.sd.None? || (e.phase != Connected && name(Peer(y)) < name(y))
  }

  predicate Can(s: State, st: Step)
  {
    match st
    case Start(x, _) => End(s, x).phase == Closed
    case Complete(x) => End(s, x).phase == Connecting && OwnConn(s, x)
    case Incoming(c) => c < |s.conns| && s.conns[c].sent && s.conns[c].fate == Waiting
    case Ack(x) => End(s, x).phase == ConnectAck && OwnConn(s, x) && s.conns[End(s, x).sd.value].fate == Accepted
    case Eof(x) => End(s, x).phase == ConnectAck && OwnConn(s, x) && s.conns[End(s, x).sd.value].fate == Rejected
  }

  predicate OwnConn(s: State, x: Proc) { End(s, x).sd.Some? && End(s, x).sd.value < |s.conns| }

  function Do(name: Proc -> int, s: State, st: Step): State
    requires Can(s, st)
  {
    match st
    case Start(x, atOnce) =>
      SetEnd(s.(conns := s.conns + [Conn(x, atOnce, Waiting)]), x,
             Endpoint(Some(|s.conns|), if atOnce then ConnectAck else Connecting))
    case Complete(x) =>
      var c := End(s, x).sd.value;
      SetEnd(s.(conns := s.conns[c := s.conns[c].(sent := true)]), x, Endpoint(Some(c), ConnectAck))
    case Incoming(c) =>
      var y := Peer(s.conns[c].from);
      if Accepts(name, End(s, y), y)
      then SetEnd(s.(conns := s.conns[c := s.conns[c].(fate := Accepted)]), y, Endpoint(Some(c), Connected))
      else s.(conns := s.conns[c := s.conns[c].(fate := Rejected)])
    case Ack(x) => SetEnd(s, x, End(s, x).(phase := Connected))
    case Eof(x) => SetEnd(s, x, Endpoint(None, Closed))
  }

  // ----- The invariant -----

  /** The process whose connection wins. */
  function Small(name: Proc -> int): Proc { if name(P) < name(Q) then P else Q }

  /** What the phase of an endpoint says about its socket. */
  predicate EndOk(s: State, x: Proc)
  {
    var e := End(s, x);
    match e.sd
    case None => e.phase == Closed
    case Some(c) =>
      && c < |s.conns|
      && (if s.conns[c].from != x then e.phase == Connected && s.conns[c].fate == Accepted
          else (e.phase == Connecting && !s.conns[c].sent && s.conns[c].fate == Waiting)
               || (e.phase == ConnectAck && s.conns[c].sent)
               || (e.phase == Connected && s.conns[c].fate == Accepted))
  }

  /** The endpoint has given up its own attempt for a connection of the other process. */
  predicate Superseded(s: State, x: Proc)
  {
    OwnConn(s, x) && s.conns[End(s, x).sd.value].from == Peer(x) && s.conns[End(s, x).sd.value].fate == Accepted
  }

  predicate ConnOk(s: State, lo: Proc, c: nat)
  {
    c < |s.conns| ==>
      var k := s.conns[c];
      && (k.fate == Accepted ==> End(s, lo).sd == Some(c) && End(s, Peer(lo)).sd == Some(c))
      && (k.fate == Waiting && k.from == lo ==> End(s, lo).sd == Some(c))
      && (k.fate == Waiting && k.from != lo ==> End(s, Peer(lo)).sd == Some(c) || Superseded(s, Peer(lo)))
      && (k.fate == Rejected ==> k.from != lo && k.sent && End(s, lo).sd.Some?)
  }

  ghost predicate Inv(s: State, lo: Proc)
  {
    EndOk(s, P) && EndOk(s, Q) && forall c :: ConnOk(s, lo, c)
  }

  lemma StartInv(name: Proc -> int, s: State, x: Proc, atOnce: bool, lo: Proc)
    requires Inv(s, lo) && Can(s, Start(x, atOnce))
    ensures Inv(Do(name, s, Start(x, atOnce)), lo)
  {
    var s' := Do(name, s, Start(x, atOnce));
    forall c ensures ConnOk(s', lo, c) {
      assert ConnOk(s, lo, c);
    }
  }

  lemma CompleteInv(name: Proc -> int, s: State, x: Proc, lo: Proc)
    requires Inv(s, lo) && Can(s, Complete(x))
    ensures Inv(Do(name, s, Complete(x)), lo)
  {
    var s' := Do(name, s, Complete(x));
    assert EndOk(s, x) && EndOk(s, Peer(x));
    forall c ensures ConnOk(s', lo, c) {
      assert ConnOk(s, lo, c);
    }
  }

  /** The larger process always takes the smaller one's connection; the smaller one only when it has none. */
  lemma Decision(name: Proc -> int, s: State, c: nat)
    requires name(P) != name(Q) && Inv(s, Small(name)) && Can(s, Incoming(c))
    ensures var y := Peer(s.conns[c].from);
            && (y != Small(name) ==> Accepts(name, End(s, y), y))
            && (y == Small(name) ==> (Accepts(name, End(s, y), y) <==> End(s, y).sd == None))
  {
    var lo, y := Small(name), Peer(s.conns[c].from);
    assert ConnOk(s, lo, c) && EndOk(s, y);
    if End(s, y).sd.Some? { assert ConnOk(s, lo, End(s, y).sd.value); }
  }

  /** The larger process takes the connection, and gives up its own attempt. */
  lemma LargerAccepts(name: Proc -> int, s: State, c: nat, lo: Proc)
    requires Inv(s, lo) && Can(s, Incoming(c)) && s.conns[c].from == lo && Accepts(name, End(s, Peer(lo)), Peer(lo))
    ensures Inv(Do(name, s, Incoming(c)), lo)
  {
    var s' := Do(name, s, Incoming(c));
    assert ConnOk(s, lo, c) && EndOk(s, lo);
    forall d ensures ConnOk(s', lo, d) {
      assert ConnOk(s, lo, d);
    }
  }

  /** The smaller process has no connection, so the larger one has not given up the one offered. */
  lemma SmallerAccepts(name: Proc -> int, s: State, c: nat, lo: Proc)
    requires Inv(s, lo) && Can(s, Incoming(c)) && s.conns[c].from == Peer(lo) && End(s, lo).sd == None
    ensures Inv(Do(name, s, Incoming(c)), lo)
  {
    var s', hi := Do(name, s, Incoming(c)), Peer(lo);
    assert ConnOk(s, lo, c) && EndOk(s, hi);
    if End(s, hi).sd.Some? { assert ConnOk(s, lo, End(s, hi).sd.value); }
    assert End(s, hi).sd == Some(c);
    forall d ensures ConnOk(s', lo, d) {
      assert ConnOk(s, lo, d);
    }
  }

  lemma SmallerRejects(name: Proc -> int, s: State, c: nat, lo: Proc)
    requires Inv(s, lo) && Can(s, Incoming(c)) && s.conns[c].from == Peer(lo) && !Accepts(name, End(s, lo), lo)
    ensures Inv(Do(name, s, Incoming(c)), lo)
  {
    var s' := Do(name, s, Incoming(c));
    assert ConnOk(s, lo, c) && EndOk(s, lo) && EndOk(s, Peer(lo));
    forall d ensures ConnOk(s', lo, d) {
      assert ConnOk(s, lo, d);
    }
  }

  lemma IncomingInv(name: Proc -> int, s: State, c: nat)
    requires name(P) != name(Q) && Inv(s, Small(name)) && Can(s, Incoming(c))
    ensures Inv(Do(name, s, Incoming(c)), Small(name))
  {
    var lo := Small(name);
    Decision(name, s, c);
    if s.conns[c].from == lo {
      LargerAccepts(name, s, c, lo);
    } else if End(s, lo).sd == None {
      SmallerAccepts(name, s, c, lo);
    } else {
      SmallerRejects(name, s, c, lo);
    }
  }

  lemma ReplyInv(name: Proc -> int, s: State, x: Proc, lo: Proc, st: Step)
    requires Inv(s, lo) && Can(s, st) && (st == Ack(x) || st == Eof(x))
    ensures Inv(Do(name, s, st), lo)
  {
    var s', e := Do(name, s, st), End(s, x);
    assert EndOk(s, x) && ConnOk(s, lo, e.sd.value);
    forall c ensures ConnOk(s', lo, c) {
      assert ConnOk(s, lo, c);
    }
  }

  /** Every handler keeps the invariant. */
  lemma StepInv(name: Proc -> int, s: State, st: Step)
    requires name(P) != name(Q) && Inv(s, Small(name)) && Can(s, st)
    ensures Inv(Do(name, s, st), Small(name))
  {
    match st
    case Start(x, atOnce) => StartInv(name, s, x, atOnce, Small(name));
    case Complete(x) => CompleteInv(name, s, x, Small(name));
    case Incoming(c) => IncomingInv(name, s, c);
    case Ack(x) => ReplyInv(name, s, x, Small(name), st);
    case Eof(x) => ReplyInv(name, s, x, Small(name), st);
  }

  // ----- Whole runs -----

  const START := State(Endpoint(None, Closed), Endpoint(None, Closed), [])

  predicate Runs(name: Proc -> int, s: State, steps: seq<Step>)
    decreases |steps|
  {
    steps == [] || (Can(s, steps[0]) && Runs(name, Do(name, s, steps[0]), steps[1..]))
  }

  function Run(name: Proc -> int, s: State, steps: seq<Step>): State
    requires Runs(name, s, steps)
    decreases |steps|
  {
    if steps == [] then s else Run(name, Do(name, s, steps[0]), steps[1..])
  }

  lemma {:induction false} RunInv(name: Proc -> int, s: State, steps: seq<Step>)
    requires name(P) != name(Q) && Inv(s, Small(name)) && Runs(name, s, steps)
    ensures Inv(Run(name, s, steps), Small(name))
    decreases |steps|
  {
    if steps != [] {
      StepInv(name, s, steps[0]);
      RunInv(name, Do(name, s, steps[0]), steps[1..]);
    }
  }

  /** However the two attempts cross, an endpoint that is connected shares its connection with the other one. */
  lemma OneConnection(name: Proc -> int, steps: seq<Step>, s: State, x: Proc)
    requires name(P) != name(Q) && Runs(name, START, steps) && s == Run(name, START, steps)
    requires End(s, x).phase == Connected
    ensures End(s, x).sd.Some? && End(s, Peer(x)).sd == End(s, x).sd
  {
    RunInv(name, START, steps);
    assert EndOk(s, x);
    assert ConnOk(s, Small(name), End(s, x).sd.value);
  }

  /** Once connected, always connected by the same connection. */
  lemma StaysConnected(name: Proc -> int, s: State, st: Step, x: Proc)
    requires name(P) != name(Q) && Inv(s, Small(name)) && Can(s, st) && End(s, x).phase == Connected
    ensures End(Do(name, s, st), x) == End(s, x)
  {
    var lo := Small(name);
    assert EndOk(s, x) && EndOk(s, Peer(x)) && ConnOk(s, lo, End(s, x).sd.value);
    if st.Incoming? {
      Decision(name, s, st.c);
      assert ConnOk(s, lo, st.c);
    }
  }

  /** The connection of the smaller process is never turned down. */
  lemma SmallerWins(name: Proc -> int, steps: seq<Step>, s: State, c: nat)
    requires name(P) != name(Q) && Runs(name, START, steps) && s == Run(name, START, steps)
    requires c < |s.conns| && s.conns[c].from == Small(name)
    ensures s.conns[c].fate != Rejected && End(s, Small(name)).sd == Some(c)
  {
    RunInv(name, START, steps);
    assert ConnOk(s, Small(name), c);
  }

  // ----- Every attempt ends, and ends connected -----

  /** A handler other than the one that opens a connection. */
  predicate Reacts(st: Step) { !st.Start? }

  function Rank(p: Phase): nat { if p == Connecting then 2 else if p == ConnectAck then 1 else 0 }

  function Undecided(conns: seq<Conn>): nat
  {
    if conns == [] then 0 else Undecided(conns[1..]) + (if conns[0].fate == Waiting then 1 else 0)
  }

  /** How many reactions are left at most. */
  function Measure(s: State): nat { Rank(s.p.phase) + Rank(s.q.phase) + Undecided(s.conns) }

  lemma {:induction false} UndecidedSet(conns: seq<Conn>, c: nat, k: Conn)
    requires c < |conns|
    ensures Undecided(conns[c := k]) + (if conns[c].fate == Waiting then 1 else 0)
         == Undecided(conns) + (if k.fate == Waiting then 1 else 0)
    decreases c
  {
    if c > 0 {
      assert conns[c := k][1..] == conns[1..][c - 1 := k];
      UndecidedSet(conns[1..], c - 1, k);
    } else {
      assert conns[c := k][1..] == conns[1..];
    }
  }

  /** Every reaction brings the end nearer. */
  lemma Nearer(name: Proc -> int, s: State, st: Step)
    requires Can(s, st) && Reacts(st)
    ensures Measure(Do(name, s, st)) < Measure(s)
  {
    match st
    case Complete(x) =>
      var c := End(s, x).sd.value;
      UndecidedSet(s.conns, c, s.conns[c].(sent := true));
    case Incoming(c) =>
      UndecidedSet(s.conns, c, s.conns[c].(fate := Accepted));
      UndecidedSet(s.conns, c, s.conns[c].(fate := Rejected));
    case _ =>
  }

  /** Both ends use one connection. */
  predicate Joined(s: State)
  {
    s.p.phase == Connected && s.q.phase == Connected && s.p.sd.Some? && s.p.sd == s.q.sd
  }

  /** An accepted connection is acknowledged, or still to be. */
  lemma AcceptedNext(s: State, lo: Proc, c: nat) returns (st: Step)
    requires Inv(s, lo) && c < |s.conns| && s.conns[c].fate == Accepted && !Joined(s)
    ensures Reacts(st) && Can(s, st)
  {
    assert ConnOk(s, lo, c) && EndOk(s, P) && EndOk(s, Q);
    st := Ack(s.conns[c].from);
  }

  /** A connection that an endpoint waits for is completed, taken up or answered. */
  lemma WaitingNext(s: State, lo: Proc, x: Proc) returns (st: Step)
    requires Inv(s, lo) && OwnConn(s, x) && s.conns[End(s, x).sd.value].fate != Accepted
    ensures Reacts(st) && Can(s, st)
  {
    var c := End(s, x).sd.value;
    assert EndOk(s, x) && ConnOk(s, lo, c);
    st := if End(s, x).phase == Connecting then Complete(x) else if s.conns[c].fate == Waiting then Incoming(c)
      else Eof(x);
  }

  /** Until both are connected something can happen, once a connection has been opened. */
  lemma NotStuck(name: Proc -> int, s: State) returns (st: Step)
    requires Inv(s, Small(name)) && s.conns != [] && !Joined(s)
    ensures Reacts(st) && Can(s, st)
  {
    var lo := Small(name);
    var hi, k := Peer(lo), s.conns[0];
    assert ConnOk(s, lo, 0) && EndOk(s, lo) && EndOk(s, hi);
    var x := if End(s, lo).sd.Some? then lo else hi;
    var c := End(s, x).sd.value;
    if s.conns[c].fate == Accepted { st := AcceptedNext(s, lo, c); } else { st := WaitingNext(s, lo, x); }
  }

  /** A connection was opened in every run that started one. */
  lemma {:induction false} Opened(name: Proc -> int, s: State, steps: seq<Step>)
    requires Runs(name, s, steps)
    ensures |Run(name, s, steps).conns| >= |s.conns|
    ensures (exists k :: 0 <= k < |steps| && steps[k].Start?) ==> Run(name, s, steps).conns != []
    decreases |steps|
  {
    if steps != [] {
      var s', more := Do(name, s, steps[0]), steps[1..];
      assert |s'.conns| >= |s.conns| && (steps[0].Start? ==> s'.conns != []);
      Opened(name, s', more);
      if exists k :: 0 <= k < |steps| && steps[k].Start? {
        var k :| 0 <= k < |steps| && steps[k].Start?;
        if k > 0 { assert more[k - 1].Start?; }
      }
    }
  }

  /** When a process has started to connect and nothing more can happen, both are connected by one connection. */
  lemma EndsJoined(name: Proc -> int, steps: seq<Step>, s: State)
    requires name(P) != name(Q) && Runs(name, START, steps) && s == Run(name, START, steps)
    requires (exists k :: 0 <= k < |steps| && steps[k].Start?) && forall st :: Reacts(st) ==> !Can(s, st)
    ensures Joined(s)
  {
    RunInv(name, START, steps);
    Opened(name, START, steps);
    if !Joined(s) { var st := NotStuck(name, s); }
  }

  /** However far the handshake has got, it can be brought to that end, in no more reactions than Measure says. */
  lemma {:induction false} CanJoin(name: Proc -> int, s: State) returns (steps: seq<Step>)
    requires name(P) != name(Q) && Inv(s, Small(name)) && s.conns != []
    ensures |steps| <= Measure(s) && (forall k :: 0 <= k < |steps| ==> Reacts(steps[k]))
    ensures Runs(name, s, steps) && Joined(Run(name, s, steps))
    decreases Measure(s)
  {
    steps := [];
    if !Joined(s) {
      var st := NotStuck(name, s);
      var s' := Do(name, s, st);
      Nearer(name, s, st);
      StepInv(name, s, st);
      var more := CanJoin(name, s');
      steps := [st] + more;
      assert steps[1..] == more;
    }
  }
}
