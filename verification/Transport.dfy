/** Sender and receiver together: what is submitted on one side is delivered on the other. */
module Transport {
  import opened Bytes
  import opened Sending
  import opened Framing

  /** Everything submitted has been written, and everything written has been read. */
  ghost predicate Drained(s: Sender, e: Endpoint)
    reads s, e
  {
    s.Valid() && s.connected && s.current.None? && e.Valid() && e.stream == s.wire && e.net == []
  }

  lemma {:induction false} FramesFollow(fmt: Format, subs: seq<seq<byte>>, rest: seq<byte>)
    requires fmt.header > 0 && (forall i :: 0 <= i < |subs| ==> Complete(fmt, subs[i])) && Incomplete(fmt, rest)
    ensures Parse(fmt, Flat(subs) + rest) == Payloads(fmt, subs)
  {
    ParseFlat(fmt, subs, rest);
    assert Parse(fmt, rest) == [];
  }

  /**
   * However the fragments were queued, cut into writes and cut into reads: one delivery for each fragment submitted,
   * in order, each with its payload unless that is empty.
   */
  lemma Delivered(s: Sender, e: Endpoint)
    requires Drained(s, e) && forall i :: 0 <= i < |s.subs| ==> Complete(e.fmt, s.subs[i])
    ensures Matches(Payloads(e.fmt, s.subs), e.delivered) && |e.delivered| == |s.subs| == |s.completed|
  {
    assert s.subs[..|s.subs|] == s.subs;
    FramesFollow(e.fmt, s.subs, []);
    assert s.wire == Flat(s.subs) + [] && e.Begun() + e.net == e.Begun();
    if e.frag.Some? { AwaitingFrame(e.fmt, e.frag.value); }
    ParsedSoFar(e.fmt, e.frames, e.delivered, e.Begun());
    PayloadsAt(e.fmt, s.subs);
  }

  /**
   * Whatever has been submitted, and however much each writev and each readv moves as long as it is something: the
   * peer is given every fragment.
   */
  method Transfer(s: Sender, fmt: Format, mem: seq<byte>, spare: nat -> Framing.Frag, writes: nat -> (nat -> nat),
                  takes: nat -> (nat -> nat))
    returns (e: Endpoint)
    requires s.Valid() && s.connected && fmt.header > 0 && |mem| == fmt.cache
    requires (forall i :: 0 <= i < |s.subs| ==> Complete(fmt, s.subs[i]))
    requires (forall j :: writes(j)(0) > 0) && (forall j :: takes(j)(0) > 0)
    modifies s
    ensures s.subs == old(s.subs) && |s.completed| == |s.subs|
    ensures e.fmt == fmt && Matches(Payloads(fmt, s.subs), e.delivered) && |e.delivered| == |s.subs|
  {
    SendAll(s, writes);
    e := new Endpoint(fmt, s.wire, mem);
    ReceiveAll(e, spare, takes);
    Delivered(s, e);
  }
}
