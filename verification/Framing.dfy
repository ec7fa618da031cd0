/**
 * mca_btl_tcp2_frag_recv and the receive handler: frames of a header and a payload, read by readv in any pieces,
 * with what is read beyond the current fragment kept in the endpoint's cache.
 */
module Framing {
  import opened Bytes
  import opened Wrappers

  /** Header length, the size field of a header, and the capacity of the read-ahead cache. */
  datatype Format = Format(header: nat, sizeOf: seq<byte> -> nat, cache: nat)

  /**
   * A receive fragment: what has arrived of header and payload, the length its segment was left with, and where in
   * the cache the segment lies if the payload was not copied from there.
   */
  datatype Frag = Frag(hdr: seq<byte>, body: seq<byte>, inBody: bool, segLen: nat, lent: Option<nat>)

  /** The endpoint's cache: its memory, and the part of it that holds what was read ahead. */
  datatype Cache = Cache(mem: seq<byte>, pos: nat, len: nat)

  predicate CacheOk(fmt: Format, c: Cache)
  {
    |c.mem| == fmt.cache && c.pos + c.len <= |c.mem| && (c.len == 0 ==> c.pos == 0)
  }

  function Ahead(c: Cache): seq<byte>
    requires c.pos + c.len <= |c.mem|
  {
    c.mem[c.pos..c.pos + c.len]
  }

  /** What the callback is given: a payload, or, for an empty frame, a segment of whatever length was there before. */
  datatype Delivery = Payload(bytes: seq<byte>) | Leftover(len: nat)

  // ----- The simple parse -----

  /** A complete frame: a header and as many bytes as it says. */
  predicate Complete(fmt: Format, f: seq<byte>)
  {
    |f| >= fmt.header && |f| == fmt.header + fmt.sizeOf(f[..fmt.header])
  }

  /** No complete frame at the front. */
  predicate Incomplete(fmt: Format, s: seq<byte>)
  {
    |s| < fmt.header || |s| < fmt.header + fmt.sizeOf(s[..fmt.header])
  }

  /** Header, then body, then the next header: the payloads of all complete frames at the front of a stream. */
  function Parse(fmt: Format, s: seq<byte>): seq<seq<byte>>
    requires fmt.header > 0
    decreases |s|
  {
    if Incomplete(fmt, s) then [] else
      var n := fmt.header + fmt.sizeOf(s[..fmt.header]);
      [s[fmt.header..n]] + Parse(fmt, s[n..])
  }

  function Body(fmt: Format, f: seq<byte>): seq<byte> { if |f| < fmt.header then [] else f[fmt.header..] }

  function Payloads(fmt: Format, fs: seq<seq<byte>>): seq<seq<byte>>
  {
    if fs == [] then [] else [Body(fmt, fs[0])] + Payloads(fmt, fs[1..])
  }

  lemma ParseFrame(fmt: Format, f: seq<byte>, rest: seq<byte>)
    requires fmt.header > 0 && Complete(fmt, f)
    ensures Parse(fmt, f + rest) == [Body(fmt, f)] + Parse(fmt, rest)
  {
    var s, n := f + rest, |f|;
    assert s[..fmt.header] == f[..fmt.header];
    assert s[fmt.header..n] == f[fmt.header..] && s[n..] == rest;
  }

  /** The parse of a stream that consists of these frames and an unfinished one. */
  lemma {:induction false} ParseFlat(fmt: Format, fs: seq<seq<byte>>, rest: seq<byte>)
    requires fmt.header > 0 && forall i :: 0 <= i < |fs| ==> Complete(fmt, fs[i])
    ensures Parse(fmt, Flat(fs) + rest) == Payloads(fmt, fs) + Parse(fmt, rest)
    decreases |fs|
  {
    if fs == [] {
      assert Flat(fs) + rest == rest;
    } else {
      var f, more := fs[0], fs[1..];
      ParseFlat(fmt, more, rest);
      ParseFrame(fmt, f, Flat(more) + rest);
      Assoc(f, Flat(more), rest);
      Assoc([Body(fmt, f)], Payloads(fmt, more), Parse(fmt, rest));
    }
  }

  // ----- The receiver -----

  function Pending(g: Frag): seq<byte> { g.hdr + g.body }

  /** The fragment's state agrees with the bytes it has. */
  predicate Sane(fmt: Format, g: Frag)
  {
    if g.inBody then
      && |g.hdr| == fmt.header && |g.body| <= fmt.sizeOf(g.hdr) == g.segLen && g.segLen > 0
      && (g.lent.Some? ==> |g.body| == g.segLen)
    else |g.hdr| <= fmt.header && g.body == [] && g.lent.None?
  }

  /** iov_len of the fragment's current vector. */
  function Want(fmt: Format, g: Frag): nat
    requires Sane(fmt, g)
  {
    if g.inBody then fmt.sizeOf(g.hdr) - |g.body| else fmt.header - |g.hdr|
  }

  function Fill(fmt: Format, g: Frag, bytes: seq<byte>): Frag
  {
    if g.inBody then g.(body := g.body + bytes) else g.(hdr := g.hdr + bytes)
  }

  function Min(a: nat, b: nat): nat { if a < b then a else b }

  /** What a readv that may return k bytes moves. */
  function Offered(fmt: Format, g: Frag, net: seq<byte>, k: nat): nat
    requires Sane(fmt, g)
  {
    Min(k, Min(|net|, Want(fmt, g) + fmt.cache))
  }

  /** How much of what was got is beyond what the fragment wants. */
  function Beyond(fmt: Format, g: Frag, got: nat): nat
    requires Sane(fmt, g)
  {
    if got <= Want(fmt, g) then 0 else got - Want(fmt, g)
  }

  lemma OfferedSome(fmt: Format, g: Frag, net: seq<byte>, k: nat)
    requires Awaiting(fmt, g)
    ensures k > 0 && net != [] ==> Offered(fmt, g, net, k) > 0
  {}

  /** One readv: up to k bytes, of those that have come, no more than fit the fragment and the cache. */
  method ReadV(fmt: Format, g: Frag, c: Cache, net: seq<byte>, k: nat) returns (g': Frag, c': Cache, net': seq<byte>)
    requires Awaiting(fmt, g) && CacheOk(fmt, c) && c.len == 0
    ensures Sane(fmt, g') && g'.inBody == g.inBody && g'.segLen == g.segLen && g'.lent.None?
    ensures CacheOk(fmt, c') && (Want(fmt, g') > 0 ==> c'.len == 0)
    ensures Pending(g') + Ahead(c') + net' == Pending(g) + net
    ensures |net| - |net'| == Offered(fmt, g, net, k) && c'.len == Beyond(fmt, g, Offered(fmt, g, net, k))
  {
    var want := Want(fmt, g);
    var n := Min(k, Min(|net|, want + fmt.cache));
    var m := Min(n, want);
    var more := net[m..n];
    g', c', net' := Fill(fmt, g, net[..m]), Cache(more + c.mem[n - m..], 0, n - m), net[n..];
    assert Ahead(c') == more;
    Refill(fmt, g, net[..m]);
    ReadSplit(Pending(g), net, m, n);
  }

  lemma ReadSplit(before: seq<byte>, net: seq<byte>, m: nat, n: nat)
    requires m <= n <= |net|
    ensures (before + net[..m]) + net[m..n] + net[n..] == before + net
  {}

  lemma Refill(fmt: Format, g: Frag, bytes: seq<byte>)
    requires Awaiting(fmt, g) && |bytes| <= Want(fmt, g)
    ensures Sane(fmt, Fill(fmt, g, bytes)) && Want(fmt, Fill(fmt, g, bytes)) == Want(fmt, g) - |bytes|
    ensures Pending(Fill(fmt, g, bytes)) == Pending(g) + bytes
  {}

  /** The segment of a fragment whose payload was not copied lies in the cache, unchanged. */
  predicate InPlace(g: Frag, c: Cache)
  {
    g.lent.Some? ==> g.lent.value + |g.body| <= |c.mem| && c.mem[g.lent.value..g.lent.value + |g.body|] == g.body
  }

  /** The cache is used up as far as the fragment wants; a payload that lies there as a whole is not copied. */
  method Uncache(fmt: Format, g: Frag, c: Cache, noCopy: bool) returns (g': Frag, c': Cache)
    requires Awaiting(fmt, g) && CacheOk(fmt, c) && c.len > 0 && (noCopy ==> g.inBody && g.body == [])
    ensures Sane(fmt, g') && g'.inBody == g.inBody && g'.segLen == g.segLen
    ensures CacheOk(fmt, c') && c'.mem == c.mem && c'.len < c.len && (Want(fmt, g') > 0 ==> c'.len == 0)
    ensures Pending(g') + Ahead(c') == Pending(g) + Ahead(c) && InPlace(g', c')
    ensures (g'.lent.Some? <==> noCopy && Want(fmt, g) <= c.len) && c'.len == Beyond(fmt, g, c.len)
  {
    var m := Min(c.len, Want(fmt, g));
    var bytes := c.mem[c.pos..c.pos + m];
    Refill(fmt, g, bytes);
    c' := Cache(c.mem, if m == c.len then 0 else c.pos + m, c.len - m);
    g' := Fill(fmt, g, bytes).(lent := if noCopy && m == Want(fmt, g) then Some(c.pos) else None);
    assert Ahead(c) == bytes + Ahead(c');
    assert Pending(g') + Ahead(c') == Pending(g) + (bytes + Ahead(c'));
  }

  /** MCA_BTL_TCP_FRAG_INIT_DST: ready for a header; the segment is as it was. */
  function InitDst(g: Frag): Frag { Frag([], [], false, g.segLen, None) }

  /** The header has arrived: the segment is set up for a payload, if there is one. */
  function HeaderDone(fmt: Format, g: Frag): Frag
  {
    if fmt.sizeOf(g.hdr) > 0 then Frag(g.hdr, [], true, fmt.sizeOf(g.hdr), None) else g
  }

  /** A fragment that still waits for bytes. */
  predicate Awaiting(fmt: Format, g: Frag) { Sane(fmt, g) && Want(fmt, g) > 0 }

  /** A fragment that holds one frame: its segment is the payload, unless there is none. */
  predicate Finished(fmt: Format, g: Frag)
  {
    Sane(fmt, g) && |g.hdr| == fmt.header
      && (if g.inBody then |g.body| == fmt.sizeOf(g.hdr) else fmt.sizeOf(g.hdr) == 0)
  }

  lemma FinishedFrame(fmt: Format, g: Frag)
    requires Finished(fmt, g)
    ensures Complete(fmt, Pending(g)) && Body(fmt, Pending(g)) == g.body
    ensures g.body != [] <==> g.inBody
  {
    assert Pending(g)[..fmt.header] == g.hdr;
  }

  lemma AwaitingFrame(fmt: Format, g: Frag)
    requires Awaiting(fmt, g)
    ensures Incomplete(fmt, Pending(g))
  {
    if g.inBody { assert Pending(g)[..fmt.header] == g.hdr; }
  }

  /** One pass of the loop in frag_recv: from the cache if it holds anything, else from the socket. */
  method Take(fmt: Format, g: Frag, c: Cache, net: seq<byte>, k: nat, noCopy: bool)
    returns (g': Frag, c': Cache, net': seq<byte>)
    requires Awaiting(fmt, g) && CacheOk(fmt, c) && (noCopy ==> g.inBody && g.body == [])
    ensures Sane(fmt, g') && g'.inBody == g.inBody && g'.segLen == g.segLen && InPlace(g', c')
    ensures CacheOk(fmt, c') && (Want(fmt, g') > 0 ==> c'.len == 0)
    ensures Pending(g') + Ahead(c') + net' == Pending(g) + Ahead(c) + net
    ensures |net| - |net'| == if c.len > 0 then 0 else Offered(fmt, g, net, k)
    ensures c'.len == Beyond(fmt, g, if c.len > 0 then c.len else Offered(fmt, g, net, k))
    ensures g'.lent.Some? <==> noCopy && c.len >= Want(fmt, g)
  {
    if c.len != 0 {
      g', c' := Uncache(fmt, g, c, noCopy);
      net' := net;
    } else {
      g', c', net' := ReadV(fmt, g, c, net, k);
      assert Pending(g) + Ahead(c) == Pending(g);
    }
  }

  /** mca_btl_tcp2_frag_recv: at most two passes; k1 and k2 say how many bytes a readv may return in each. */
  method FragRecv(fmt: Format, g: Frag, c: Cache, net: seq<byte>, k1: nat, k2: nat)
    returns (g': Frag, c': Cache, net': seq<byte>, done: bool)
    requires fmt.header > 0 && Awaiting(fmt, g) && CacheOk(fmt, c)
    ensures CacheOk(fmt, c') && if done then Finished(fmt, g') && InPlace(g', c') else Awaiting(fmt, g') && c'.len == 0
    ensures Pending(g') + Ahead(c') + net' == Pending(g) + Ahead(c) + net
    ensures g'.segLen == (if g'.inBody then fmt.sizeOf(g'.hdr) else g.segLen) && (g.inBody ==> g'.inBody)
    ensures |net'| <= |net| - (if c.len > 0 then 0 else Offered(fmt, g, net, k1))
    ensures !done && k1 > 0 && net' != [] ==> |Pending(g')| > |Pending(g)|
    ensures !g.inBody && g'.inBody && k2 > 0 && net' != [] ==> g'.body != []
    ensures var got := if c.len > 0 then c.len else Offered(fmt, g, net, k1);
            g'.lent.Some? <==> !g.inBody && g'.inBody && got >= Want(fmt, g) + fmt.sizeOf(g'.hdr)
  {
    g', c', net' := Take(fmt, g, c, net, k1, false);
    if !g'.inBody && Want(fmt, g') == 0 && fmt.sizeOf(g'.hdr) > 0 {
      g' := HeaderDone(fmt, g');
      g', c', net' := Take(fmt, g', c', net', k2, true);
    }
    done := Want(fmt, g') == 0;
  }

  /** The bytes of the segment: in the fragment, or still in the cache. */
  function Segment(g: Frag, c: Cache): seq<byte>
    requires InPlace(g, c)
  {
    if g.lent.Some? then c.mem[g.lent.value..g.lent.value + |g.body|] else g.body
  }

  function Deliver(g: Frag): Delivery { if g.inBody then Payload(g.body) else Leftover(g.segLen) }

  /** What was delivered for the frames so far. */
  predicate Answers(fmt: Format, fs: seq<seq<byte>>, ds: seq<Delivery>)
  {
    && |ds| == |fs|
    && (forall i :: 0 <= i < |fs| ==> Complete(fmt, fs[i]))
    && (forall i :: 0 <= i < |fs| ==>
        if Body(fmt, fs[i]) == [] then ds[i].Leftover? else ds[i] == Payload(Body(fmt, fs[i])))
  }

  lemma AnswersNext(fmt: Format, fs: seq<seq<byte>>, ds: seq<Delivery>, g: Frag)
    requires Answers(fmt, fs, ds) && Finished(fmt, g)
    ensures Answers(fmt, fs + [Pending(g)], ds + [Deliver(g)])
  {
    FinishedFrame(fmt, g);
  }

  lemma FlatNext(fs: seq<seq<byte>>, f: seq<byte>, a: seq<byte>, b: seq<byte>)
    ensures Flat(fs) + (f + a + b) == Flat(fs + [f]) + a + b
  {
    FlatAppend(fs, f);
    assert Flat(fs) + (f + a + b) == (Flat(fs) + f) + a + b;
  }

  /** The segment length a fragment is left with after these frames. */
  function SegAfter(fmt: Format, fs: seq<seq<byte>>, seg: nat): nat
  {
    if fs == [] then seg else
      var b := Body(fmt, fs[|fs| - 1]);
      if b != [] then |b| else SegAfter(fmt, fs[..|fs| - 1], seg)
  }

  /** What one fragment, reused for these frames, delivers. */
  function Deliveries(fmt: Format, fs: seq<seq<byte>>, seg: nat): seq<Delivery>
  {
    if fs == [] then [] else
      var front, b := fs[..|fs| - 1], Body(fmt, fs[|fs| - 1]);
      Deliveries(fmt, front, seg) + [if b != [] then Payload(b) else Leftover(SegAfter(fmt, front, seg))]
  }

  lemma DeliverNext(fmt: Format, fs: seq<seq<byte>>, seg: nat, g: Frag)
    requires Finished(fmt, g) && (!g.inBody ==> g.segLen == SegAfter(fmt, fs, seg))
    ensures Deliveries(fmt, fs + [Pending(g)], seg) == Deliveries(fmt, fs, seg) + [Deliver(g)]
    ensures SegAfter(fmt, fs + [Pending(g)], seg) == g.segLen
  {
    FinishedFrame(fmt, g);
    assert (fs + [Pending(g)])[..|fs|] == fs;
  }

  /** The handler's progress: what was delivered, and that no byte is lost. */
  ghost predicate Progress(fmt: Format, whole: seq<byte>, frames: seq<seq<byte>>, more: seq<seq<byte>>,
                           delivered: seq<Delivery>, sofar: seq<Delivery>, seg: nat, g: Frag, rest: seq<byte>)
  {
    && Answers(fmt, frames + more, sofar) && sofar == delivered + Deliveries(fmt, more, seg)
    && (!g.inBody ==> g.segLen == SegAfter(fmt, more, seg))
    && whole == Flat(frames + more) + (Pending(g) + rest)
  }

  /** A finished frame is delivered, and the fragment made ready for the next one. */
  lemma Completed(fmt: Format, whole: seq<byte>, frames: seq<seq<byte>>, more: seq<seq<byte>>, delivered: seq<Delivery>,
                  sofar: seq<Delivery>, seg: nat, g: Frag, rest: seq<byte>)
    requires Progress(fmt, whole, frames, more, delivered, sofar, seg, g, rest) && Finished(fmt, g)
    ensures Progress(fmt, whole, frames, more + [Pending(g)], delivered, sofar + [Deliver(g)], seg, InitDst(g), rest)
  {
    AnswersNext(fmt, frames + more, sofar, g);
    DeliverNext(fmt, more, seg, g);
    Assoc(frames, more, [Pending(g)]);
    Assoc(delivered, Deliveries(fmt, more, seg), [Deliver(g)]);
    FlatNext(frames + more, Pending(g), rest, []);
    assert Pending(g) + rest + [] == Pending(g) + rest && Pending(InitDst(g)) + rest == rest;
    assert Flat(frames + more + [Pending(g)]) + rest + [] == Flat(frames + more + [Pending(g)]) + rest;
  }

  function BegunIn(frag: Option<Frag>): seq<byte> { if frag.Some? then Pending(frag.value) else [] }

  /** Between handler calls: the cache is empty, and frames, the one begun and the rest make up the stream. */
  ghost predicate Receiving(fmt: Format, stream: seq<byte>, frames: seq<seq<byte>>, delivered: seq<Delivery>,
                            frag: Option<Frag>, cache: Cache, net: seq<byte>)
  {
    && fmt.header > 0 && CacheOk(fmt, cache) && cache.len == 0 && Answers(fmt, frames, delivered)
    && (frag.Some? ==> Awaiting(fmt, frag.value))
    && stream == Flat(frames) + (BegunIn(frag) + net)
  }

  /** With bytes left on the socket a read has been tried since the fragment's last change of phase. */
  ghost predicate WentOn(frag: Option<Frag>, net: seq<byte>, amount: nat -> nat)
  {
    (forall k :: amount(k) > 0) && frag.Some? && net != [] ==>
      Pending(frag.value) != [] && (frag.value.inBody ==> frag.value.body != [])
  }

  /**
   * The loop of the receive handler: frame after frame until what has arrived is used up.  The callback is given the
   * segment as it is in memory then, and the cache is empty at the end.
   */
  method Drain(fmt: Format, first: Frag, c: Cache, net: seq<byte>, delivered: seq<Delivery>, amount: nat -> nat,
               ghost frames: seq<seq<byte>>, ghost whole: seq<byte>)
    returns (frag: Option<Frag>, c': Cache, net': seq<byte>, delivered': seq<Delivery>, ghost more: seq<seq<byte>>)
    requires Receiving(fmt, whole, frames, delivered, Some(first), c, net)
    ensures Receiving(fmt, whole, frames + more, delivered', frag, c', net')
    ensures delivered' == delivered + Deliveries(fmt, more, first.segLen)
    ensures |net'| <= |net| - Offered(fmt, first, net, amount(0)) && WentOn(frag, net', amount)
  {
    var g, i, done := first, 0, true;
    c', net', delivered', more := c, net, delivered, [];
    frag := None;
    assert frames + more == frames && Ahead(c) + net == net;
    while true
      invariant Awaiting(fmt, g) && CacheOk(fmt, c')
      invariant if i == 0 then g == first && c'.len == 0 && net' == net
                else |net'| <= |net| - Offered(fmt, first, net, amount(0))
      invariant Progress(fmt, whole, frames, more, delivered, delivered', first.segLen, g, Ahead(c') + net')
      decreases |Pending(g)| + |Ahead(c')| + |net'|
    {
      Assoc(Pending(g), Ahead(c'), net');
      g, c', net', done := FragRecv(fmt, g, c', net', amount(2 * i), amount(2 * i + 1));
      Assoc(Pending(g), Ahead(c'), net');
      if !done {
        frag := Some(g);
        assert Ahead(c') + net' == net';
        return;
      }
      FinishedFrame(fmt, g);
      Completed(fmt, whole, frames, more, delivered, delivered', first.segLen, g, Ahead(c') + net');
      delivered' := delivered' + [if g.inBody then Payload(Segment(g, c')) else Leftover(g.segLen)];
      more := more + [Pending(g)];
      g := InitDst(g);
      if c'.len == 0 {
        assert Ahead(c') + net' == net';
        return;
      }
      i := i + 1;
    }
  }

  /** A handler call goes on with the fragment begun, or with one from the free list. */
  lemma Resumed(fmt: Format, stream: seq<byte>, frames: seq<seq<byte>>, delivered: seq<Delivery>, frag: Option<Frag>,
                cache: Cache, net: seq<byte>, spare: Frag)
    requires Receiving(fmt, stream, frames, delivered, frag, cache, net)
    ensures Receiving(fmt, stream, frames, delivered, Some(if frag.Some? then frag.value else InitDst(spare)), cache,
                      net)
  {
    assert Pending(InitDst(spare)) == [];
  }

  /** One call of the handler, on the fields of the endpoint. */
  method HandleOn(fmt: Format, frag: Option<Frag>, c: Cache, net: seq<byte>, delivered: seq<Delivery>, spare: Frag,
                  amount: nat -> nat, ghost frames: seq<seq<byte>>, ghost stream: seq<byte>)
    returns (frag': Option<Frag>, c': Cache, net': seq<byte>, delivered': seq<Delivery>, ghost frames': seq<seq<byte>>)
    requires Receiving(fmt, stream, frames, delivered, frag, c, net)
    ensures Receiving(fmt, stream, frames', delivered', frag', c', net') && frames <= frames'
    ensures |net'| <= |net| && (amount(0) > 0 && net != [] ==> |net'| < |net|) && WentOn(frag', net', amount)
    ensures delivered' == delivered
            + Deliveries(fmt, frames'[|frames|..], if frag.Some? then frag.value.segLen else spare.segLen)
  {
    var g := if frag.Some? then frag.value else InitDst(spare);
    Resumed(fmt, stream, frames, delivered, frag, c, net, spare);
    OfferedSome(fmt, g, net, amount(0));
    ghost var more;
    frag', c', net', delivered', more := Drain(fmt, g, c, net, delivered, amount, frames, stream);
    frames' := frames + more;
    assert frames'[|frames|..] == more;
  }

  class Endpoint {
    const fmt: Format
    /** The fragment a frame is arriving in, if one has begun; what was read ahead; what the socket still has. */
    var frag: Option<Frag>
    var cache: Cache
    var net: seq<byte>
    var delivered: seq<Delivery>
    /** The frames delivered, and the whole stream. */
    ghost var frames: seq<seq<byte>>
    ghost const stream: seq<byte>

    function Begun(): seq<byte>
      reads this
    {
      BegunIn(frag)
    }

    ghost predicate Valid()
      reads this
    {
      Receiving(fmt, stream, frames, delivered, frag, cache, net)
    }

    constructor (fmt: Format, stream: seq<byte>, mem: seq<byte>)
      requires fmt.header > 0 && |mem| == fmt.cache
      ensures Valid() && net == stream == this.stream && delivered == [] && this.fmt == fmt
    {
      this.fmt := fmt;
      frag, cache, net, delivered := None, Cache(mem, 0, 0), stream, [];
      frames := [];
      this.stream := stream;
    }

    /**
     * The connected branch of the receive handler, with the fragment the free list gives when none is in use, and
     * any amounts of bytes from the socket.
     */
    method Handle(spare: Frag, amount: nat -> nat)
      requires Valid()
      modifies this
      ensures Valid() && cache.len == 0 && old(frames) <= frames
      ensures |net| <= |old(net)| && (amount(0) > 0 && old(net) != [] ==> |net| < |old(net)|)
      ensures WentOn(frag, net, amount)
      ensures delivered == old(delivered)
              + Deliveries(fmt, frames[|old(frames)|..], if old(frag).Some? then old(frag).value.segLen
                           else spare.segLen)
    {
      frag, cache, net, delivered, frames := HandleOn(fmt, frag, cache, net, delivered, spare, amount, frames, stream);
    }

    /** What has been delivered is what the simple parse of the bytes taken so far gives, but for empty frames. */
    lemma SameAsParse()
      requires Valid()
      ensures exists taken :: stream == taken + net && Matches(Parse(fmt, taken), delivered)
    {
      Assoc(Flat(frames), Begun(), net);
      if frag.Some? { AwaitingFrame(fmt, frag.value); }
      ParsedSoFar(fmt, frames, delivered, Begun());
    }
  }

  /** Any calls of the handler in which something is read: in the end the whole stream has been parsed. */
  method ReceiveAll(e: Endpoint, spare: nat -> Frag, amounts: nat -> (nat -> nat))
    requires e.Valid() && forall j :: amounts(j)(0) > 0
    modifies e
    ensures e.Valid() && e.net == [] && Matches(Parse(e.fmt, e.stream), e.delivered)
  {
    var j := 0;
    while e.net != []
      invariant e.Valid()
      decreases |e.net|
    {
      e.Handle(spare(j), amounts(j));
      j := j + 1;
    }
    assert e.Begun() + e.net == e.Begun();
    if e.frag.Some? { AwaitingFrame(e.fmt, e.frag.value); }
    ParsedSoFar(e.fmt, e.frames, e.delivered, e.Begun());
  }

  predicate Matches(ps: seq<seq<byte>>, ds: seq<Delivery>)
  {
    |ds| == |ps| && forall i :: 0 <= i < |ps| ==> if ps[i] == [] then ds[i].Leftover? else ds[i] == Payload(ps[i])
  }

  lemma ParsedSoFar(fmt: Format, fs: seq<seq<byte>>, ds: seq<Delivery>, begun: seq<byte>)
    requires fmt.header > 0 && Answers(fmt, fs, ds) && Incomplete(fmt, begun)
    ensures Matches(Parse(fmt, Flat(fs) + begun), ds)
  {
    ParseFlat(fmt, fs, begun);
    PayloadsAt(fmt, fs);
    assert Parse(fmt, begun) == [];
  }

  lemma {:induction false} PayloadsAt(fmt: Format, fs: seq<seq<byte>>)
    ensures |Payloads(fmt, fs)| == |fs| && forall i :: 0 <= i < |fs| ==> Payloads(fmt, fs)[i] == Body(fmt, fs[i])
  {
    if fs != [] {
      PayloadsAt(fmt, fs[1..]);
      forall i | 0 <= i < |fs| ensures Payloads(fmt, fs)[i] == Body(fmt, fs[i]) {
        if i > 0 { assert fs[1..][i - 1] == fs[i]; }
      }
    }
  }

  // ----- Empty frames -----

  /** The delivery for a frame is right: its payload, or nothing when it is empty. */
  predicate Right(fmt: Format, f: seq<byte>, d: Delivery)
  {
    if Body(fmt, f) == [] then d == Leftover(0) else d == Payload(Body(fmt, f))
  }

  /**
   * A frame is handed on as it is exactly when it is not empty, or the fragment it came in was last left with an
   * empty segment.
   */
  lemma {:induction false} RightExactly(fmt: Format, fs: seq<seq<byte>>, seg: nat, i: nat)
    requires i < |fs|
    ensures |Deliveries(fmt, fs, seg)| == |fs|
    ensures Right(fmt, fs[i], Deliveries(fmt, fs, seg)[i]) <==>
            Body(fmt, fs[i]) != [] || SegAfter(fmt, fs[..i], seg) == 0
    decreases |fs|
  {
    var k := |fs| - 1;
    DeliveriesLength(fmt, fs[..k], seg);
    if i < k {
      RightExactly(fmt, fs[..k], seg, i);
      assert fs[..k][..i] == fs[..i];
    }
  }

  lemma {:induction false} DeliveriesLength(fmt: Format, fs: seq<seq<byte>>, seg: nat)
    ensures |Deliveries(fmt, fs, seg)| == |fs|
  {
    if fs != [] { DeliveriesLength(fmt, fs[..|fs| - 1], seg); }
  }

  /** One byte of header that is the payload's size. */
  const TINY := Format(1, (h: seq<byte>) => if |h| == 1 then h[0] else 0, 8)

  lemma TinyFrames()
    ensures Complete(TINY, [1, 7]) && Complete(TINY, [0]) && Body(TINY, [1, 7]) == [7] && Body(TINY, [0]) == []
  {
    var a: seq<byte>, b: seq<byte> := [1, 7], [0];
    assert a[..1] == [1] && b[..1] == [0];
  }

  /** An empty frame after a frame of one byte: the callback sees a segment of the first one's length. */
  lemma LeftoverSeen()
    ensures Parse(TINY, [1, 7, 0]) == [[7], []]
    ensures Deliveries(TINY, [[1, 7], [0]], 0) == [Payload([7]), Leftover(1)]
    ensures !Right(TINY, [0], Leftover(1))
  {
    var a: seq<byte>, b: seq<byte> := [1, 7], [0];
    TinyFrames();
    ParseFrame(TINY, a, b);
    ParseFrame(TINY, b, []);
    assert a + b == [1, 7, 0] && b + [] == b;
    assert [a, b][..1] == [a] && [a][..0] == [];
    assert Deliveries(TINY, [a], 0) == [Payload([7])];
  }
}
