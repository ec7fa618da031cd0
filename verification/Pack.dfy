/** opal_generic_simple_pack: packing a datatype into buffers of any size, resumable between calls. */
module Pack {
  import opened Offsets
  import opened Description
  import opened Walk
  import opened Packing

  type Memory = int -> bv8

  /** The bytes at the displacements offs. */
  function Gather(mem: Memory, offs: seq<int>): (r: seq<bv8>)
    ensures |r| == |offs|
  {
    seq(|offs|, i requires 0 <= i < |offs| => mem(offs[i]))
  }

  lemma GatherAppend(mem: Memory, a: seq<int>, b: seq<int>)
    ensures Gather(mem, a + b) == Gather(mem, a) + Gather(mem, b)
  {}

  /** Memory tells different offsets apart. */
  lemma GatherApart(a: seq<int>, b: seq<int>) returns (mem: Memory)
    requires !(a <= b)
    ensures !(Gather(mem, a) <= Gather(mem, b))
  {
    if |a| > |b| {
      mem := _ => 0;
    } else {
      var i :| 0 <= i < |a| && a[i] != b[i];
      mem := o => if o == a[i] then 1 else 0;
      assert Gather(mem, a)[i] == 1 && Gather(mem, b)[i] == 0;
    }
  }

  // ----- Moving bytes -----

  /** n blocks of len bytes, `extent` apart, copied one after the other. */
  method CopyBlocks(mem: Memory, off: int, len: nat, extent: int, n: nat) returns (out: seq<bv8>)
    ensures out == Gather(mem, Strided(Range(off, len), extent, n))
  {
    out := [];
    ghost var all := Strided(Range(off, len), extent, n);
    ghost var done: seq<int> := [];
    var i, at := 0, off;
    while i < n
      invariant 0 <= i <= n
      invariant out == Gather(mem, done) && done + Strided(Range(at, len), extent, n - i) == all
    {
      StridedShift(Range(at, len), extent, n - i - 1, extent);
      ShiftRange(at, len, extent);
      ConcatAssoc(done, Range(at, len), Strided(Range(at + extent, len), extent, n - i - 1));
      GatherAppend(mem, done, Range(at, len));
      out := out + Gather(mem, Range(at, len));
      done := done + Range(at, len);
      at := at + extent;
      i := i + 1;
    }
    assert done == all;
  }

  /** The test of the source, by multiplication, gives the number that fits. */
  method Fitting(count: nat, size: nat, space: nat) returns (n: nat)
    ensures n == Fit(count, size, space)
  {
    FitFacts(count, size, space);
    n := count;
    if n * size > space {
      FitSome(count, size, space);
      n := space / size;
    }
  }

  lemma FitSome(count: nat, size: nat, space: nat)
    requires count * size > space
    ensures size > 0 && Fit(count, size, space) == space / size
  {
    FitFacts(count, size, space);
  }

  /** pack_predefined_data: as many elements as fit. */
  method PackPredefined(mem: Memory, elem: Entry, count: nat, conv: int, space: nat)
    returns (out: seq<bv8>, count': nat, conv': int)
    requires elem.ElemE?
    ensures count' == count - Fit(count, BasicSize(elem.typ), space) && conv' == conv + (count - count') * elem.extent
    ensures out == Gather(mem, Shift(DataOffs(elem.typ, count - count', elem.disp, elem.extent), conv))
  {
    var blength := BasicSize(elem.typ);
    var copyCount := Fitting(count, blength, space);
    PackedElements(elem.typ, copyCount, elem.disp, elem.extent, conv);
    if blength == elem.extent {
      StridedDense(conv + elem.disp, blength, copyCount);
      out := Gather(mem, Range(conv + elem.disp, blength * copyCount));
      conv' := conv + blength * copyCount;
    } else {
      out := CopyBlocks(mem, conv + elem.disp, blength, elem.extent, copyCount);
      conv' := conv + copyCount * elem.extent;
    }
    count' := count - copyCount;
  }

  /** The displacements of n elements, moved by conv. */
  lemma {:induction false} PackedElements(typ: nat, n: nat, disp: int, extent: int, conv: int)
    ensures Shift(DataOffs(typ, n, disp, extent), conv) == Strided(Range(conv + disp, BasicSize(typ)), extent, n)
    ensures |Strided(Range(conv + disp, BasicSize(typ)), extent, n)| == n * BasicSize(typ)
  {
    StridedShift(Range(disp, BasicSize(typ)), extent, n, conv);
    ShiftRange(disp, BasicSize(typ), conv);
    StridedLength(Range(conv + disp, BasicSize(typ)), extent, n);
  }

  /** pack_contiguous_loop: as many whole iterations as fit, read through the end marker. */
  method PackContiguousLoop(mem: Memory, loop: Entry, end: Entry, count: nat, conv: int, space: nat)
    returns (out: seq<bv8>, count': nat, conv': int)
    requires loop.LoopE? && end.EndE?
    ensures count' == count - Fit(count, end.size, space) && conv' == conv + (count - count') * loop.extent
    ensures out == Gather(mem, Shift(Strided(Range(end.first, end.size), loop.extent, count - count'), conv))
  {
    var copyLoops := Fitting(count, end.size, space);
    StridedShift(Range(end.first, end.size), loop.extent, copyLoops, conv);
    ShiftRange(end.first, end.size, conv);
    out := CopyBlocks(mem, conv + end.first, end.size, loop.extent, copyLoops);
    conv' := conv + copyLoops * loop.extent;
    count' := count - copyLoops;
  }

  // ----- One turn of the packing loop -----

  /** count elements of the current entry are left, and the first of them is at displacement conv. */
  predicate Counters(p: Place, count: nat, conv: int)
    requires p.Here? && Lively(p)
  {
    match p.s.k.rest
    case Nil => conv == p.s.l.disp
    case Data(_, n, _, e, _, _) => count == n - p.used && conv == p.s.l.disp + p.used * e
    case Loop(n, _, _, _, _, _, _) => count == n && conv == p.s.l.disp
  }

  /** The machine and its counters are at the place p. */
  predicate Standing(desc: seq<Entry>, extent: int, pos: int, stack: seq<Level>, p: Place, count: nat, conv: int)
  {
    p.Here? && Lively(p) && p.pos == pos && Machine(desc, extent, pos, stack, p.s) && Counters(p, count, conv)
  }

  /** UPDATE_INTERNAL_COUNTERS: at the beginning of an entry. */
  lemma {:induction false} Arrive(desc: seq<Entry>, extent: int, pos: int, stack: seq<Level>, s: Stack)
    requires Machine(desc, extent, pos, stack, s)
    ensures 0 <= pos < |desc|
            && Standing(desc, extent, pos, stack, Here(s, pos, 0), CountOf(desc[pos]), stack[|stack| - 1].disp)
  {
    AtEnd(desc, s, pos);
    if s.k.rest.Data? {
      MachineData(desc, extent, pos, stack, s);
    } else if s.k.rest.Loop? {
      MachineLoop(desc, extent, pos, stack, s);
    }
  }

  /** A data entry: pack what fits; go on if all of it did. */
  method TurnData(desc: seq<Entry>, extent: int, mem: Memory, pos: nat, stack: seq<Level>, count: nat, conv: int,
                  space: nat, ghost p: Place)
    returns (stuck: bool, out: seq<bv8>, pos': nat, count': nat, conv': int)
    requires Standing(desc, extent, pos, stack, p, count, conv) && p.s.k.rest.Data?
    ensures stuck == TurnOf(p, space).stuck && out == Gather(mem, TurnOf(p, space).x)
    ensures Standing(desc, extent, pos', stack, TurnOf(p, space).next, count', conv')
  {
    MachineData(desc, extent, pos, stack, p.s);
    out, count', conv' := PackPredefined(mem, desc[pos], count, conv, space);
    MulSplit(p.used, count - count', p.s.k.rest.extent);
    stuck, pos' := count' > 0, pos;
    if !stuck {
      Arrive(desc, extent, pos + 1, stack, SetRest(p.s, p.s.k.rest.next));
      pos' := pos + 1;
      conv' := stack[|stack| - 1].disp;
      count' := CountOf(desc[pos']);
    }
  }

  /** Past the loop when no iteration is left, else into its body for the iterations left. */
  method LeaveOrEnter(desc: seq<Entry>, extent: int, pos: nat, stack: seq<Level>, left: nat, disp: int, ghost s: Stack)
    returns (pos': nat, stack': seq<Level>)
    requires Machine(desc, extent, pos, stack, s) && s.k.rest.Loop? && left <= s.k.rest.loops
    requires disp == s.l.disp + (s.k.rest.loops - left) * s.k.rest.extent
    ensures var q := AfterLoop(s, pos, left); q.Here? && pos' == q.pos && Machine(desc, extent, pos', stack', q.s)
  {
    MachineLoop(desc, extent, pos, stack, s);
    if left == 0 {
      pos', stack' := pos + desc[pos].items + 1, stack;
    } else {
      ghost var t;
      pos', stack', t := EnterLoop(desc, extent, pos, stack, s, left, disp);
    }
  }

  /** A contiguous loop: whole iterations while they fit, then into its body for the rest. */
  method TurnLoop(desc: seq<Entry>, extent: int, mem: Memory, pos: nat, stack: seq<Level>, count: nat, conv: int,
                  space: nat, ghost p: Place)
    returns (out: seq<bv8>, pos': nat, stack': seq<Level>)
    requires Standing(desc, extent, pos, stack, p, count, conv) && p.s.k.rest.Loop? && p.s.k.rest.contig
    ensures var t := TurnOf(p, space);
            out == Gather(mem, t.x) && t.next.Here? && pos' == t.next.pos
              && Machine(desc, extent, pos', stack', t.next.s)
  {
    MachineLoop(desc, extent, pos, stack, p.s);
    var left, conv';
    out, left, conv' := PackContiguousLoop(mem, desc[pos], desc[pos + desc[pos].items], count, conv, space);
    pos', stack' := LeaveOrEnter(desc, extent, pos, stack, left, stack[|stack| - 1].disp + (conv' - conv), p.s);
  }

  /** A start marker or an end marker: a contiguous loop is packed as far as it fits, any other is entered or ended. */
  method TurnMarker(desc: seq<Entry>, extent: int, mem: Memory, pos: nat, stack: seq<Level>, count: nat, conv: int,
                    space: nat, ghost p: Place)
    returns (finished: bool, out: seq<bv8>, pos': nat, stack': seq<Level>)
    requires Standing(desc, extent, pos, stack, p, count, conv) && !p.s.k.rest.Data?
    ensures out == Gather(mem, TurnOf(p, space).x) && finished == TurnOf(p, space).next.Done?
    ensures !finished ==>
              pos' == TurnOf(p, space).next.pos && Machine(desc, extent, pos', stack', TurnOf(p, space).next.s)
  {
    AtEnd(desc, p.s, pos);
    ControlReady(desc, extent, pos, stack, p.s);
    if desc[pos].LoopE? && desc[pos].contig {
      out, pos', stack' := TurnLoop(desc, extent, mem, pos, stack, count, conv, space, p);
      finished := false;
    } else {
      ghost var s';
      finished, pos', stack', s' := Control(desc, extent, pos, stack, p.s);
      out := [];
      ControlTurn(p, space, s');
    }
  }

  lemma {:induction false} ControlTurn(p: Place, space: nat, s': Stack)
    requires p.Here? && Lively(p) && !p.s.k.rest.Data? && (p.s.k.rest.Loop? ==> !p.s.k.rest.contig)
             && s' == AfterControl(p.s, p.pos)
    ensures var t := TurnOf(p, space);
            t.x == [] && (t.next.Done? <==> s' == Empty)
              && (t.next.Here? ==> t.next == Here(s', ControlPos(p.s, p.pos), 0))
  {
    if p.s.k.rest.Loop? { NoIterations(p.s.k.rest, false, p.s.l.disp); }
  }

  /** One turn of the inner loop of opal_generic_simple_pack. */
  method Turn(desc: seq<Entry>, extent: int, mem: Memory, pos: nat, stack: seq<Level>, count: nat, conv: int,
              space: nat, ghost p: Place)
    returns (stuck: bool, finished: bool, out: seq<bv8>, pos': nat, stack': seq<Level>, count': nat, conv': int)
    requires Standing(desc, extent, pos, stack, p, count, conv)
    ensures stuck == TurnOf(p, space).stuck && out == Gather(mem, TurnOf(p, space).x)
            && finished == TurnOf(p, space).next.Done?
    ensures !finished ==> Standing(desc, extent, pos', stack', TurnOf(p, space).next, count', conv')
  {
    AtEnd(desc, p.s, pos);
    stuck, finished, stack' := false, false, stack;
    if desc[pos].ElemE? {
      stuck, out, pos', count', conv' := TurnData(desc, extent, mem, pos, stack, count, conv, space, p);
    } else {
      finished, out, pos', stack' := TurnMarker(desc, extent, mem, pos, stack, count, conv, space, p);
      count', conv' := 0, 0;
      if !finished {
        Arrive(desc, extent, pos', stack', TurnOf(p, space).next.s);
        MarkerNext(p, space);
        count', conv' := CountOf(desc[pos']), stack'[|stack'| - 1].disp;
      }
    }
  }

  /** After a marker packing stands at the beginning of an entry. */
  lemma {:induction false} MarkerNext(p: Place, space: nat)
    requires p.Here? && Lively(p) && !p.s.k.rest.Data?
    ensures !TurnOf(p, space).stuck && (TurnOf(p, space).next.Here? ==> TurnOf(p, space).next.used == 0)
  {}

  // ----- The convertor -----

  function Flat(bufs: seq<seq<bv8>>): seq<bv8>
  {
    if bufs == [] then [] else Flat(bufs[..|bufs| - 1]) + bufs[|bufs| - 1]
  }

  lemma FlatSnoc(bufs: seq<seq<bv8>>, b: seq<bv8>)
    ensures Flat(bufs + [b]) == Flat(bufs) + b
  {
    assert (bufs + [b])[..|bufs|] == bufs;
  }

  lemma BasicSizeBound(typ: nat)
    ensures BasicSize(typ) <= 32
  {}

  /** ... seen from the buffer it fills. */
  method BufferTurn(desc: seq<Entry>, extent: int, mem: Memory, pos: nat, stack: seq<Level>, count: nat, conv: int,
                    space: nat, ghost p: Place)
    returns (stuck: bool, finished: bool, out: seq<bv8>, pos': nat, stack': seq<Level>, count': nat, conv': int,
             ghost t: Step)
    requires Standing(desc, extent, pos, stack, p, count, conv)
    ensures Begins(p, space, t) && stuck == t.stuck && out == Gather(mem, t.x) && finished == t.next.Done?
    ensures !finished ==> Standing(desc, extent, pos', stack', t.next, count', conv')
  {
    t := TurnOf(p, space);
    FillStep(p, space);
    stuck, finished, out, pos', stack', count', conv' := Turn(desc, extent, mem, pos, stack, count, conv, space, p);
  }

  /** x has been packed of a buffer, and packing stands at q. */
  predicate Midway(p: Place, len: nat, x: seq<int>, q: Place, stuck: bool)
  {
    && Lively(p) && Lively(q) && |x| <= len
    && Fill(p, len) == if stuck then Filled(x, q) else Filled(x + Fill(q, len - |x|).x, Fill(q, len - |x|).next)
  }

  lemma {:induction false} MidwayOn(p: Place, len: nat, x: seq<int>, q: Place, t: Step)
    requires Midway(p, len, x, q, false) && Begins(q, len - |x|, t)
    ensures Midway(p, len, x + t.x, t.next, t.stuck)
  {
    if !t.stuck { ConcatAssoc(x, t.x, Fill(t.next, len - |x| - |t.x|).x); }
  }

  lemma {:induction false} MidwayEnd(p: Place, len: nat, x: seq<int>, q: Place, stuck: bool)
    requires Midway(p, len, x, q, stuck) && (stuck || q == Done)
    ensures Fill(p, len) == Filled(x, q)
  {
    assert x + [] == x;
  }

  /** Filling one buffer of len bytes. */
  method FillBuffer(desc: seq<Entry>, extent: int, mem: Memory, pos: nat, stack: seq<Level>, count: nat, conv: int,
                    len: nat, ghost p: Place)
    returns (finished: bool, out: seq<bv8>, pos': nat, stack': seq<Level>, count': nat, conv': int, ghost f: Filled)
    requires Standing(desc, extent, pos, stack, p, count, conv)
    ensures f == Fill(p, len) && out == Gather(mem, f.x) && finished == f.next.Done?
    ensures !finished ==> Standing(desc, extent, pos', stack', f.next, count', conv')
    ensures |out| <= len && (!finished ==> len - |out| < 32)
  {
    pos', stack', count', conv' := pos, stack, count, conv;
    finished, out := false, [];
    var stuck := false;
    ghost var q, x := p, [];
    assert Midway(p, len, x, q, false) by { assert [] + Fill(p, len).x == Fill(p, len).x; }
    while !stuck && !finished
      invariant if finished then q == Done else Standing(desc, extent, pos', stack', q, count', conv')
      invariant Midway(p, len, x, q, stuck) && out == Gather(mem, x)
      decreases !stuck, Rank(q)
    {
      var bytes;
      ghost var t;
      stuck, finished, bytes, pos', stack', count', conv', t :=
        BufferTurn(desc, extent, mem, pos', stack', count', conv', len - |out|, q);
      MidwayOn(p, len, x, q, t);
      GatherAppend(mem, x, t.x);
      out, x, q := out + bytes, x + t.x, t.next;
    }
    MidwayEnd(p, len, x, q, stuck);
    f := Filled(x, q);
    BufferFull(p, len);
  }

  lemma {:induction false} BufferFull(p: Place, len: nat)
    requires Lively(p)
    ensures var f := Fill(p, len); |f.x| <= len && (f.next.Here? ==> len - |f.x| < 32)
  {
    var f := Fill(p, len);
    if f.next.Here? { BasicSizeBound(f.next.s.k.rest.typ); }
  }

  /** No buffer is overfilled, and unless packing has finished each is filled up to less than a basic type. */
  ghost predicate Fits(out: seq<seq<bv8>>, lens: seq<nat>, finished: bool)
  {
    && |out| <= |lens| && (forall i :: 0 <= i < |out| ==> |out[i]| <= lens[i])
    && (!finished ==> forall i :: 0 <= i < |out| ==> lens[i] - |out[i]| < 32)
  }

  lemma FitsSnoc(out: seq<seq<bv8>>, lens: seq<nat>, bytes: seq<bv8>, finished: bool)
    requires Fits(out, lens, false) && |out| < |lens| && |bytes| <= lens[|out|]
             && (!finished ==> lens[|out|] - |bytes| < 32)
    ensures Fits(out + [bytes], lens, finished)
  {}

  /** Filling the buffers one after the other, until they or the bytes run out. */
  method FillBuffers(desc: seq<Entry>, extent: int, mem: Memory, pos: nat, stack: seq<Level>, count: nat, conv: int,
                     lens: seq<nat>, ghost p: Place)
    returns (out: seq<seq<bv8>>, packed: nat, pos': nat, stack': seq<Level>, count': nat, conv': int)
    requires Standing(desc, extent, pos, stack, p, count, conv)
    ensures var f := FillAll(p, lens);
            && Flat(out) == Gather(mem, f.x) && packed == |f.x| && Fits(out, lens, f.next.Done?)
            && (f.next.Here? ==> Standing(desc, extent, pos', stack', f.next, count', conv') && |out| == |lens|)
  {
    pos', stack', count', conv' := pos, stack, count, conv;
    out, packed := [], 0;
    var done := false;
    ghost var f := Filled([], p);
    assert lens[..0] == [];
    while |out| < |lens| && !done
      invariant |out| <= |lens| && f == FillAll(p, lens[..|out|]) && done == f.next.Done?
      invariant Flat(out) == Gather(mem, f.x) && packed == |f.x| && Fits(out, lens, done)
      invariant !done ==> Standing(desc, extent, pos', stack', f.next, count', conv')
      decreases |lens| - |out|
    {
      var bytes;
      ghost var b;
      done, bytes, pos', stack', count', conv', b :=
        FillBuffer(desc, extent, mem, pos', stack', count', conv', lens[|out|], f.next);
      FillAllNext(p, lens, |out|, f, b);
      GatherAppend(mem, f.x, b.x);
      FlatSnoc(out, bytes);
      FitsSnoc(out, lens, bytes, done);
      packed := packed + |bytes|;
      out := out + [bytes];
      f := Filled(f.x + b.x, b.next);
    }
    FillAllEnd(p, lens, |out|);
  }

  lemma {:induction false} FillAllNext(p: Place, lens: seq<nat>, n: nat, f: Filled, b: Filled)
    requires Lively(p) && n < |lens| && f == FillAll(p, lens[..n]) && b == Fill(f.next, lens[n])
    ensures FillAll(p, lens[..n + 1]) == Filled(f.x + b.x, b.next)
  {
    assert lens[..n + 1][..n] == lens[..n];
  }

  /** Once packing is done the buffers left make no difference. */
  lemma {:induction false} FillAllEnd(p: Place, lens: seq<nat>, n: nat)
    requires Lively(p) && n <= |lens| && (n == |lens| || FillAll(p, lens[..n]).next.Done?)
    ensures FillAll(p, lens) == FillAll(p, lens[..n])
  {
    assert lens[..n] + lens[n..] == lens;
    FillAllSplit(p, lens[..n], lens[n..]);
    var f := FillAll(p, lens[..n]);
    if n == |lens| {
      assert lens[..n] == lens;
    } else {
      FillAllDone(f.next, lens[n..]);
      assert f.x + [] == f.x;
    }
  }

  /** At the beginning everything is left. */
  lemma {:induction false} StartReady(desc: seq<Entry>, size: nat, extent: int, count: nat, prog: Prog)
    requires At(desc, 0, prog) && Sized(prog) && size == |Offs(prog, true)| == |Offs(prog, false)|
    ensures var p := Start(prog, extent, count);
            && SizedPlace(p) && Unfinished(p) && |Rest(p, false)| == count * size
               && (p.Done? <==> count == 0 || size == 0)
            && |desc| > 0 && (p.Here? ==> Standing(desc, extent, 0, [Level(-1, count, 0)], p, CountOf(desc[0]), 0))
  {
    StartFacts(prog, extent, count);
    StridedLength(Offs(prog, false), extent, count);
    if count > 0 {
      SizedPositive(prog);
      MachineFirst(desc, prog, count, extent, false);
      Arrive(desc, extent, 0, [Level(-1, count, 0)], Push(Code(prog, prog, extent), Level(-1, count, 0), Empty));
    }
  }

  /** opal_convertor_t for a non-contiguous datatype on a homogeneous machine. */
  class Convertor {
    const desc: seq<Entry>
    const extent: int
    const localSize: nat
    const mem: Memory
    var stack: seq<Level>
    var bConverted: nat
    var completed: bool
    /** Where packing stands. */
    ghost var place: Place

    /** The saved stack is what it takes to go on from the place. */
    ghost predicate Valid()
      reads this
    {
      && SizedPlace(place) && Unfinished(place) && bConverted + |Rest(place, false)| == localSize
         && completed == place.Done?
      && (!completed ==>
            && |stack| >= 1 && stack[|stack| - 1].index >= 0
            && var top := stack[|stack| - 1];
               Standing(desc, extent, top.index, stack[..|stack| - 1], place, top.count, top.disp))
    }

    /** OPAL_CONVERTOR_PREPARE and opal_convertor_create_stack_at_begining. */
    constructor (desc: seq<Entry>, size: nat, extent: int, count: nat, mem: Memory, ghost prog: Prog)
      requires At(desc, 0, prog) && Sized(prog) && size == |Offs(prog, true)| == |Offs(prog, false)|
      ensures Valid() && bConverted == 0 && this.mem == mem && place == Start(prog, extent, count)
    {
      this.desc, this.extent, this.mem := desc, extent, mem;
      localSize := count * size;
      bConverted := 0;
      completed := count == 0 || size == 0;
      stack := [Level(-1, count, 0), Level(0, CountOf(desc[0]), 0)];
      place := Start(prog, extent, count);
      StartReady(desc, size, extent, count, prog);
      new;
      assert stack[..1] == [Level(-1, count, 0)];
    }

    /**
     * opal_convertor_pack with opal_generic_simple_pack: whatever the buffers, the bytes packed and the place reached
     * are those of FillAll, bConverted counts them, the return value is 1 exactly when packing is done, and a buffer
     * is left unfilled only by less than one basic element.
     */
    method Pack(lens: seq<nat>) returns (rc: int, out: seq<seq<bv8>>)
      requires Valid()
      modifies this
      ensures Valid() && place == FillAll(old(place), lens).next
      ensures Flat(out) == Gather(mem, FillAll(old(place), lens).x)
              && bConverted == old(bConverted) + |FillAll(old(place), lens).x|
      ensures rc == if place.Done? then 1 else 0
      ensures |out| <= |lens| && forall i :: 0 <= i < |out| ==> |out[i]| <= lens[i]
      ensures rc == 0 ==> |out| == |lens| && forall i :: 0 <= i < |out| ==> lens[i] - |out[i]| < 32
    {
      if completed {
        FillAllDone(place, lens);
        rc, out := 1, [];
        return;
      }
      var top := stack[|stack| - 1];
      var packed, pos, levels, count, conv;
      ghost var f := FillAllLength(place, lens);
      out, packed, pos, levels, count, conv :=
        FillBuffers(desc, extent, mem, top.index, stack[..|stack| - 1], top.count, top.disp, lens, place);
      bConverted := bConverted + packed;
      place := f.next;
      if bConverted == localSize {
        completed := true;
        rc := 1;
      } else {
        stack := levels + [Level(pos, count, conv)];
        rc := 0;
        assert stack[..|stack| - 1] == levels;
      }
    }
  }

  /** All buffers of all calls. */
  function Buffers(calls: seq<seq<nat>>): seq<nat>
  {
    if calls == [] then [] else Buffers(calls[..|calls| - 1]) + calls[|calls| - 1]
  }

  /** Any sequence of calls packs what its buffers would receive in one call. */
  method PackRun(c: Convertor, calls: seq<seq<nat>>) returns (rc: int, packed: seq<bv8>)
    requires c.Valid()
    modifies c
    ensures c.Valid() && c.place == FillAll(old(c.place), Buffers(calls)).next
            && packed == Gather(c.mem, FillAll(old(c.place), Buffers(calls)).x)
    ensures c.bConverted == old(c.bConverted) + |packed| && (calls != [] ==> (rc == 1 <==> c.place.Done?))
  {
    ghost var p := c.place;
    rc, packed := 0, [];
    ghost var x: seq<int> := [];
    assert calls[..0] == [];
    for i := 0 to |calls|
      invariant c.Valid() && FillAll(p, Buffers(calls[..i])) == Filled(x, c.place) && packed == Gather(c.mem, x)
      invariant c.bConverted == old(c.bConverted) + |packed| && (if i == 0 then rc == 0 else rc == 1 <==> c.place.Done?)
    {
      var out;
      ghost var f := FillAll(c.place, calls[i]);
      rc, out := c.Pack(calls[i]);
      assert calls[..i + 1][..i] == calls[..i];
      FillAllSplit(p, Buffers(calls[..i]), calls[i]);
      GatherAppend(c.mem, x, f.x);
      packed := packed + Flat(out);
      x := x + f.x;
    }
    assert calls[..|calls|] == calls;
  }
}
