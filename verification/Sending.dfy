/**
 * mca_btl_tcp2_endpoint_send, the send handler and mca_btl_tcp2_frag_send: fragments queued before or after the
 * connection is made, written by writev in any pieces.
 */
module Sending {
  import opened Bytes
  import opened Wrappers

  /** A fragment and what is left of its vectors. */
  datatype Frag = Frag(id: nat, iov: seq<seq<byte>>)

  function Least(a: nat, b: nat): nat { if a < b then a else b }

  /** The vectors after cnt more bytes have been written: whole vectors go, the next one is advanced. */
  method Advance(iov: seq<seq<byte>>, count: nat) returns (iov': seq<seq<byte>>, ghost written: seq<byte>)
    requires count <= |Flat(iov)|
    ensures written + Flat(iov') == Flat(iov) && |written| == count
    ensures iov' == [] <==> count == |Flat(iov)|
  {
    var cnt: nat := count;
    iov', written := iov, [];
    while iov' != []
      invariant cnt <= |Flat(iov')| && |written| + cnt == count && written + Flat(iov') == Flat(iov)
      decreases |iov'|
    {
      var v := iov'[0];
      if cnt >= |v| {
        assert written + (v + Flat(iov'[1..])) == (written + v) + Flat(iov'[1..]);
        written := written + v;
        cnt := cnt - |v|;
        iov' := iov'[1..];
      } else {
        ghost var rest := Flat(iov'[1..]);
        assert written + (v + rest) == (written + v[..cnt]) + (v[cnt..] + rest);
        written := written + v[..cnt];
        iov' := [v[cnt..]] + iov'[1..];
        assert Flat(iov') == v[cnt..] + rest;
        break;
      }
    }
  }

  /** mca_btl_tcp2_frag_send, where writev takes up to k bytes. */
  method FragSend(f: Frag, wire: seq<byte>, k: nat)
    returns (f': Frag, wire': seq<byte>, done: bool, ghost written: seq<byte>)
    ensures f'.id == f.id && wire' == wire + written && written + Flat(f'.iov) == Flat(f.iov)
    ensures done <==> f'.iov == []
    ensures done <==> Flat(f.iov) == written
    ensures |written| == Least(k, |Flat(f.iov)|)
  {
    var total := Flat(f.iov);
    var n := Least(k, |total|);
    var iov;
    iov, written := Advance(f.iov, n);
    assert written == total[..n];
    f', wire', done := Frag(f.id, iov), wire + total[..n], iov == [];
  }

  /** Fragments from number n on, in the order they were submitted. */
  ghost predicate Waiting(subs: seq<seq<byte>>, n: nat, queue: seq<Frag>)
  {
    n + |queue| == |subs| && forall i :: 0 <= i < |queue| ==> queue[i].id == n + i && Flat(queue[i].iov) == subs[n + i]
  }

  function Upto(n: nat): seq<nat> { seq(n, i => i) }

  lemma FlatPrefix(subs: seq<seq<byte>>, n: nat)
    requires n < |subs|
    ensures Flat(subs[..n + 1]) == Flat(subs[..n]) + subs[n]
  {
    assert subs[..n + 1] == subs[..n] + [subs[n]];
    FlatAppend(subs[..n], subs[n]);
  }

  /** Bytes of fragments that are not on the wire. */
  ghost function Unsent(s: Sender): int
    reads s
  {
    |Flat(s.subs)| - |s.wire|
  }

  lemma WireFits(s: Sender)
    requires s.Valid()
    ensures |s.wire| <= |Flat(s.subs)|
  {
    var n := |s.completed|;
    if s.current.Some? { FlatPrefix(s.subs, n); }
    var m := if s.current.Some? then n + 1 else n;
    assert s.subs == s.subs[..m] + s.subs[m..];
    FlatJoin(s.subs[..m], s.subs[m..]);
  }

  lemma PieceFits(subs: seq<seq<byte>>, n: nat)
    requires n < |subs|
    ensures |subs[n]| <= |Flat(subs)|
  {
    FlatPrefix(subs, n);
    assert subs == subs[..n + 1] + subs[n + 1..];
    FlatJoin(subs[..n + 1], subs[n + 1..]);
  }

  /** Any calls of the send handler in which something is written: in the end everything submitted is on the wire. */
  method SendAll(s: Sender, amounts: nat -> (nat -> nat))
    requires s.Valid() && s.connected && forall j :: amounts(j)(0) > 0
    modifies s
    ensures s.Valid() && s.connected && s.current.None? && s.subs == old(s.subs)
    ensures s.wire == Flat(s.subs) && |s.completed| == |s.subs|
  {
    var j := 0;
    WireFits(s);
    while s.current.Some?
      invariant s.Valid() && s.connected && s.subs == old(s.subs) && |s.wire| <= |Flat(s.subs)|
      decreases |s.subs| - |s.completed|, Unsent(s)
    {
      s.Handle(amounts(j));
      WireFits(s);
      j := j + 1;
    }
    assert s.subs[..|s.subs|] == s.subs;
  }

  class Sender {
    var connected: bool
    var current: Option<Frag>
    var queue: seq<Frag>
    /** What has been written to the socket, and the fragments reported complete. */
    var wire: seq<byte>
    var completed: seq<nat>
    /** The bytes of every fragment submitted, in order, and how much of the current one is on the wire. */
    ghost var subs: seq<seq<byte>>
    ghost var part: seq<byte>

    /**
     * Fragments are complete in order, each once; the wire holds the complete ones and the written part of the
     * current one; the rest wait in order; and a connected endpoint without a current fragment has none waiting.
     */
    ghost predicate Valid()
      reads this
    {
      var n := |completed|;
      && n <= |subs| && completed == Upto(n)
      && wire == Flat(subs[..n]) + part
      && (current.None? ==> part == [] && Waiting(subs, n, queue) && (connected ==> queue == []))
      && (current.Some? ==>
            && connected && n < |subs| && current.value.id == n
            && part + Flat(current.value.iov) == subs[n] && Waiting(subs, n + 1, queue))
    }

    constructor ()
      ensures Valid() && !connected && wire == [] && completed == [] && subs == []
    {
      connected, current, queue, wire, completed := false, None, [], [], [];
      subs, part := [], [];
    }

    /** mca_btl_tcp2_endpoint_connected. */
    method Connect()
      requires Valid() && !connected
      modifies this
      ensures Valid() && connected && subs == old(subs) && wire == old(wire) && completed == old(completed)
    {
      connected := true;
      if queue != [] {
        current, queue := Some(queue[0]), queue[1..];
      }
    }

    /**
     * mca_btl_tcp2_endpoint_send: queued while there is no connection or another fragment is current; otherwise
     * current, after an attempt to write it at once when it has priority.  Says whether that attempt completed it.
     */
    method Submit(f: Frag, priority: bool, k: nat) returns (atOnce: bool)
      requires Valid() && f.id == |subs|
      modifies this
      ensures Valid() && subs == old(subs) + [Flat(f.iov)] && connected == old(connected) && old(wire) <= wire
      ensures completed == if atOnce then old(completed) + [f.id] else old(completed)
      ensures atOnce ==> wire == Flat(subs)
      ensures var tried := priority && old(connected) && old(current).None?;
              && (atOnce <==> tried && k >= |Flat(f.iov)|)
              && |wire| == |old(wire)| + if tried then Least(k, |Flat(f.iov)|) else 0
    {
      if !connected || current.Some? {
        Append(f);
        atOnce := false;
      } else {
        atOnce := Begin(f, priority, k);
      }
    }

    method Append(f: Frag)
      requires Valid() && f.id == |subs| && (!connected || current.Some?)
      modifies this`queue, this`subs
      ensures Valid() && subs == old(subs) + [Flat(f.iov)]
    {
      subs := subs + [Flat(f.iov)];
      queue := queue + [f];
      assert subs[..|completed|] == old(subs)[..|completed|];
    }

    method Begin(f: Frag, priority: bool, k: nat) returns (atOnce: bool)
      requires Valid() && f.id == |subs| && connected && current.None?
      modifies this
      ensures Valid() && subs == old(subs) + [Flat(f.iov)] && connected && old(wire) <= wire
      ensures completed == if atOnce then old(completed) + [f.id] else old(completed)
      ensures atOnce ==> wire == Flat(subs)
      ensures (atOnce <==> priority && k >= |Flat(f.iov)|)
              && |wire| == |old(wire)| + if priority then Least(k, |Flat(f.iov)|) else 0
    {
      subs := subs + [Flat(f.iov)];
      assert subs[..|completed|] == old(subs)[..|completed|] == old(subs);
      FlatAppend(old(subs), Flat(f.iov));
      var f' := f;
      atOnce := false;
      if priority {
        f', wire, atOnce, part := FragSend(f, wire, k);
      }
      if atOnce {
        completed, part := completed + [f.id], [];
        assert subs[..|completed|] == subs;
      } else {
        current := Some(f');
      }
    }

    /** The current fragment has been written completely: it is complete, and the next one becomes current. */
    method Finish(id: nat)
      requires connected && id == |completed| < |subs| && completed == Upto(id) && wire == Flat(subs[..id]) + subs[id]
               && Waiting(subs, id + 1, queue)
      modifies this`completed, this`current, this`queue, this`part
      ensures Valid() && completed == old(completed) + [id]
    {
      FlatPrefix(subs, id);
      completed := completed + [id];
      part := [];
      if queue == [] {
        current := None;
      } else {
        current, queue := Some(queue[0]), queue[1..];
      }
    }

    /** The connected branch of the send handler: fragment after fragment until writev takes less than there is. */
    method Handle(amount: nat -> nat)
      requires Valid() && connected
      modifies this
      ensures Valid() && connected && subs == old(subs) && old(wire) <= wire && old(completed) <= completed
      ensures current.None? ==> wire == Flat(subs) && |completed| == |subs|
      ensures old(current).Some? && amount(0) > 0 ==> |completed| > |old(completed)| || |wire| > |old(wire)|
      ensures (forall k :: amount(k) >= |Flat(subs)|) ==> current.None?
    {
      var i := 0;
      while current.Some?
        invariant Valid() && connected && subs == old(subs) && old(wire) <= wire && old(completed) <= completed
        invariant if i == 0 then current == old(current) else |completed| > |old(completed)|
        decreases |subs| - |completed|
      {
        var done := Progress(amount(i));
        if !done {
          break;
        }
        i := i + 1;
      }
      assert subs[..|subs|] == subs;
    }

    /** One turn: some of the current fragment is written, and it is complete when nothing is left of it. */
    method Progress(k: nat) returns (done: bool)
      requires Valid() && current.Some?
      modifies this
      ensures Valid() && connected && subs == old(subs) && old(wire) <= wire
      ensures completed == old(completed) + (if done then [|old(completed)|] else [])
      ensures !done ==> current.Some?
      ensures k > 0 ==> done || |wire| > |old(wire)|
      ensures !done ==> k < |Flat(subs)|
    {
      ghost var written, base, was := [], Flat(subs[..|completed|]), part;
      PieceFits(subs, |completed|);
      var f';
      f', wire, done, written := FragSend(current.value, wire, k);
      assert was + (written + Flat(f'.iov)) == (was + written) + Flat(f'.iov);
      assert (base + was) + written == base + (was + written);
      part := was + written;
      if done {
        Finish(f'.id);
      } else {
        current := Some(f');
      }
    }
  }
}
