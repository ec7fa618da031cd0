/** opal_datatype_copy.h: copying count elements of a datatype from one buffer to another. */
module Copy {
  import opened Offsets
  import opened Description
  import opened Walk

  /**
   * after is before with the bytes at the displacements offs replaced by those of src; dbase and sbase are
   * the positions of displacement 0.
   */
  ghost predicate Copied(before: seq<bv8>, after: seq<bv8>, dbase: int, src: seq<bv8>, sbase: int, offs: seq<int>)
  {
    && |after| == |before| && InBounds(src, sbase, offs) && InBounds(before, dbase, offs)
    && forall i :: 0 <= i < |after| ==>
         (i - dbase in offs ==> 0 <= sbase + (i - dbase) < |src| && after[i] == src[sbase + (i - dbase)])
         && (i - dbase !in offs ==> after[i] == before[i])
  }

  ghost predicate InBounds(buf: seq<bv8>, base: int, offs: seq<int>)
  {
    forall o :: o in offs ==> 0 <= base + o < |buf|
  }

  lemma CopiedThen(a: seq<bv8>, b: seq<bv8>, c: seq<bv8>, dbase: int, src: seq<bv8>, sbase: int, x: seq<int>,
                   y: seq<int>)
    requires Copied(a, b, dbase, src, sbase, x) && Copied(b, c, dbase, src, sbase, y)
    ensures Copied(a, c, dbase, src, sbase, x + y)
  {}

  lemma InBoundsParts(buf: seq<bv8>, base: int, x: seq<int>, y: seq<int>)
    requires InBounds(buf, base, x + y)
    ensures InBounds(buf, base, x) && InBounds(buf, base, y)
  {
    forall o | o in x ensures 0 <= base + o < |buf| { assert o in x + y; }
    forall o | o in y ensures 0 <= base + o < |buf| { assert o in x + y; }
  }

  /** MEM_OP: len bytes at displacement off. */
  method MemCopy(dst: array<bv8>, dbase: int, src: array<bv8>, sbase: int, off: int, len: nat)
    requires dst != src
    requires InBounds(dst[..], dbase, Range(off, len)) && InBounds(src[..], sbase, Range(off, len))
    modifies dst
    ensures Copied(old(dst[..]), dst[..], dbase, src[..], sbase, Range(off, len))
  {
    ghost var before := dst[..];
    var i := 0;
    while i < len
      invariant 0 <= i <= len
      invariant Copied(before, dst[..], dbase, src[..], sbase, Range(off, i))
    {
      assert Range(off, len)[i] == off + i && off + i in Range(off, len);
      ghost var mid := dst[..];
      dst[dbase + off + i] := src[sbase + off + i];
      RangeSplit(off, i, 1);
      assert Range(off + i, 1) == [off + i];
      assert Copied(mid, dst[..], dbase, src[..], sbase, [off + i]);
      CopiedThen(before, mid, dst[..], dbase, src[..], sbase, Range(off, i), [off + i]);
      i := i + 1;
    }
  }

  /** n blocks of len bytes, `extent` apart: the loops of _predefined_data and _contiguous_loop. */
  method CopyBlocks(dst: array<bv8>, dbase: int, src: array<bv8>, sbase: int, off: int, len: nat, extent: int, n: nat)
    requires dst != src
    requires InBounds(dst[..], dbase, Strided(Range(off, len), extent, n))
             && InBounds(src[..], sbase, Strided(Range(off, len), extent, n))
    modifies dst
    ensures Copied(old(dst[..]), dst[..], dbase, src[..], sbase, Strided(Range(off, len), extent, n))
  {
    var i, at := 0, off;
    ghost var all := Strided(Range(off, len), extent, n);
    ghost var before := dst[..];
    ghost var done: seq<int> := [];
    while i < n
      invariant 0 <= i <= n
      invariant done + Strided(Range(at, len), extent, n - i) == all
      invariant Copied(before, dst[..], dbase, src[..], sbase, done)
      invariant dst.Length == |before|
    {
      ghost var rest := Shift(Strided(Range(at, len), extent, n - i - 1), extent);
      StridedShift(Range(at, len), extent, n - i - 1, extent);
      ShiftRange(at, len, extent);
      ConcatAssoc(done, Range(at, len), rest);
      BlockBounds(dst[..], dbase, done, Range(at, len), rest, all);
      BlockBounds(src[..], sbase, done, Range(at, len), rest, all);
      ghost var mid := dst[..];
      MemCopy(dst, dbase, src, sbase, at, len);
      CopiedThen(before, mid, dst[..], dbase, src[..], sbase, done, Range(at, len));
      done := done + Range(at, len);
      at := at + extent;
      i := i + 1;
    }
  }

  lemma BlockBounds(buf: seq<bv8>, base: int, x: seq<int>, y: seq<int>, z: seq<int>, all: seq<int>)
    requires InBounds(buf, base, all) && all == (x + y) + z
    ensures InBounds(buf, base, y)
  {
    InBoundsParts(buf, base, x + y, z);
    InBoundsParts(buf, base, x, y);
  }

  /** _predefined_data. */
  method PredefinedData(dst: array<bv8>, dbase: int, src: array<bv8>, sbase: int, elem: Entry, count: nat, disp: int,
                        space: nat)
    returns (space': int)
    requires dst != src && elem.ElemE?
    requires var o := Shift(DataOffs(elem.typ, count, elem.disp, elem.extent), disp);
             InBounds(dst[..], dbase, o) && InBounds(src[..], sbase, o)
    modifies dst
    ensures Copied(old(dst[..]), dst[..], dbase, src[..], sbase,
                   Shift(DataOffs(elem.typ, count, elem.disp, elem.extent), disp))
    ensures space' == space - |DataOffs(elem.typ, count, elem.disp, elem.extent)|
  {
    var blength := BasicSize(elem.typ);
    StridedShift(Range(elem.disp, blength), elem.extent, count, disp);
    ShiftRange(elem.disp, blength, disp);
    StridedLength(Range(elem.disp, blength), elem.extent, count);
    if blength == elem.extent {
      StridedDense(elem.disp + disp, blength, count);
      MemCopy(dst, dbase, src, sbase, disp + elem.disp, blength * count);
    } else {
      CopyBlocks(dst, dbase, src, sbase, disp + elem.disp, blength, elem.extent, count);
    }
    space' := space - blength * count;
  }

  /** _contiguous_loop. */
  method ContiguousLoop(dst: array<bv8>, dbase: int, src: array<bv8>, sbase: int, loop: Entry, end: Entry, count: nat,
                        disp: int, space: nat)
    returns (space': int)
    requires dst != src && loop.LoopE? && end.EndE?
    requires var o := Shift(Strided(Range(end.first, end.size), loop.extent, count), disp);
             InBounds(dst[..], dbase, o) && InBounds(src[..], sbase, o)
    modifies dst
    ensures Copied(old(dst[..]), dst[..], dbase, src[..], sbase,
                   Shift(Strided(Range(end.first, end.size), loop.extent, count), disp))
    ensures space' == space - |Strided(Range(end.first, end.size), loop.extent, count)|
  {
    StridedShift(Range(end.first, end.size), loop.extent, count, disp);
    ShiftRange(end.first, end.size, disp);
    StridedLength(Range(end.first, end.size), loop.extent, count);
    if loop.extent == end.size {
      StridedDense(end.first + disp, end.size, count);
      MemCopy(dst, dbase, src, sbase, disp + end.first, count * end.size);
    } else {
      CopyBlocks(dst, dbase, src, sbase, disp + end.first, end.size, loop.extent, count);
    }
    space' := space - count * end.size;
  }

  /**
   * The general path of _copy_content_same_ddt: the destination receives exactly the bytes that the
   * description, read as the engines read it, transfers for `count` elements; nothing else changes; and the
   * byte account ends at zero.
   */
  method CopyWalk(desc: seq<Entry>, count: nat, extent: int, size: nat,
                  dst: array<bv8>, dbase: int, src: array<bv8>, sbase: int, ghost prog: Prog) returns (space: int)
    requires At(desc, 0, prog) && Positive(prog) && count >= 1 && dst != src && size == |Offs(prog, true)|
    requires var o := Strided(Offs(prog, true), extent, count);
             InBounds(dst[..], dbase, o) && InBounds(src[..], sbase, o)
    modifies dst
    ensures Copied(old(dst[..]), dst[..], dbase, src[..], sbase, Strided(Offs(prog, true), extent, count))
    ensures space == 0
  {
    ghost var all := Strided(Offs(prog, true), extent, count);
    ghost var before := dst[..];
    ghost var done: seq<int> := [];
    ghost var s := Push(Code(prog, prog, extent), Level(-1, count, 0), Empty);
    MachineFirst(desc, prog, count, extent, true);
    StridedLength(Offs(prog, true), extent, count);
    assert [] + all == all;
    var stack := [Level(-1, count, 0)];
    var pos := 0;
    var finished := false;
    space := count * size;
    while !finished
      invariant if finished then s == Empty else Machine(desc, extent, pos, stack, s)
      invariant all == done + Due(s, true) && space == |Due(s, true)|
      invariant dst.Length == |before| && Copied(before, dst[..], dbase, src[..], sbase, done)
      decreases Work(s), !finished
    {
      ghost var x;
      ghost var mid := dst[..];
      InBoundsParts(before, dbase, done, Due(s, true));
      InBoundsParts(src[..], sbase, done, Due(s, true));
      finished, pos, stack, space, s, x := CopyStep(desc, extent, pos, stack, space, dst, dbase, src, sbase, s);
      CopiedThen(before, mid, dst[..], dbase, src[..], sbase, done, x);
      ConcatAssoc(done, x, Due(s, true));
      done := done + x;
    }
  }

  /** One turn of the walk. */
  method CopyStep(desc: seq<Entry>, extent: int, pos: nat, stack: seq<Level>, space: nat,
                  dst: array<bv8>, dbase: int, src: array<bv8>, sbase: int, ghost s: Stack)
    returns (finished: bool, pos': nat, stack': seq<Level>, space': int, ghost s': Stack, ghost x: seq<int>)
    requires Machine(desc, extent, pos, stack, s) && dst != src && space == |Due(s, true)|
    requires InBounds(dst[..], dbase, Due(s, true)) && InBounds(src[..], sbase, Due(s, true))
    modifies dst
    ensures if finished then s' == Empty else Machine(desc, extent, pos', stack', s')
    ensures Due(s, true) == x + Due(s', true) && Work(s') < Work(s)
    ensures Copied(old(dst[..]), dst[..], dbase, src[..], sbase, x) && space' == |Due(s', true)|
  {
    AtEnd(desc, s, pos);
    finished, stack' := false, stack;
    if desc[pos].ElemE? {
      pos', space', s', x := CopyData(desc, extent, pos, stack, space, dst, dbase, src, sbase, s);
    } else if desc[pos].LoopE? && desc[pos].contig {
      MachineLoop(desc, extent, pos, stack, s);
      pos', space', s', x := CopyLoop(desc, extent, pos, stack, space, dst, dbase, src, sbase, s);
    } else {
      NoneCopied(dst[..], dbase, src[..], sbase);
      space', x := space, [];
      ControlReady(desc, extent, pos, stack, s);
      ControlDue(s, pos, true);
      finished, pos', stack', s' := Control(desc, extent, pos, stack, s);
    }
  }

  /** A data entry is copied at once. */
  method CopyData(desc: seq<Entry>, extent: int, pos: nat, stack: seq<Level>, space: nat,
                   dst: array<bv8>, dbase: int, src: array<bv8>, sbase: int, ghost s: Stack)
    returns (pos': nat, space': int, ghost s': Stack, ghost x: seq<int>)
    requires Machine(desc, extent, pos, stack, s) && dst != src && space == |Due(s, true)|
    requires s.k.rest.Data?
    requires InBounds(dst[..], dbase, Due(s, true)) && InBounds(src[..], sbase, Due(s, true))
    modifies dst
    ensures Machine(desc, extent, pos', stack, s') && Due(s, true) == x + Due(s', true) && Work(s') < Work(s)
    ensures Copied(old(dst[..]), dst[..], dbase, src[..], sbase, x) && space' == |Due(s', true)|
  {
    ghost var p := s.k.rest;
    s' := SetRest(s, p.next);
    WorkDecreases(s, pos, 0);
    MachineData(desc, extent, pos, stack, s);
    var elem, disp := desc[pos], stack[|stack| - 1].disp;
    DataDue(s, true);
    x := Shift(DataOffs(p.typ, p.count, p.disp, p.extent), disp);
    InBoundsParts(dst[..], dbase, x, Due(s', true));
    InBoundsParts(src[..], sbase, x, Due(s', true));
    space' := PredefinedData(dst, dbase, src, sbase, elem, CountOf(elem), disp, space);
    pos' := pos + 1;
  }

  /** A loop flagged contiguous is copied at once, through its end marker. */
  method CopyLoop(desc: seq<Entry>, extent: int, pos: nat, stack: seq<Level>, space: nat,
                   dst: array<bv8>, dbase: int, src: array<bv8>, sbase: int, ghost s: Stack)
    returns (pos': nat, space': int, ghost s': Stack, ghost x: seq<int>)
    requires Machine(desc, extent, pos, stack, s) && dst != src && space == |Due(s, true)|
    requires s.k.rest.Loop? && s.k.rest.contig
    requires InBounds(dst[..], dbase, Due(s, true)) && InBounds(src[..], sbase, Due(s, true))
    modifies dst
    ensures Machine(desc, extent, pos', stack, s') && Due(s, true) == x + Due(s', true) && Work(s') < Work(s)
    ensures Copied(old(dst[..]), dst[..], dbase, src[..], sbase, x) && space' == |Due(s', true)|
  {
    var elem, end;
    elem, end, pos', s' := LoopAhead(desc, extent, pos, stack, s);
    space', x := LoopBytes(elem, end, stack[|stack| - 1].disp, space, dst, dbase, src, sbase, Due(s, true),
                           Due(s', true));
  }

  /** The first and last entry of a loop flagged contiguous, and where the machine stands after it. */
  method LoopAhead(desc: seq<Entry>, extent: int, pos: nat, stack: seq<Level>, ghost s: Stack)
    returns (elem: Entry, end: Entry, pos': nat, ghost s': Stack)
    requires Machine(desc, extent, pos, stack, s) && s.k.rest.Loop? && s.k.rest.contig
    ensures elem.LoopE? && end.EndE? && Machine(desc, extent, pos', stack, s') && Work(s') < Work(s)
    ensures Due(s, true) == Shift(Strided(Range(end.first, end.size), elem.extent, elem.loops), stack[|stack| - 1].disp)
            + Due(s', true)
  {
    s' := SetRest(s, s.k.rest.next);
    WorkDecreases(s, pos, 0);
    MachineLoop(desc, extent, pos, stack, s);
    elem := desc[pos];
    end := desc[pos + elem.items];
    pos' := pos + elem.items + 1;
    LoopDue(s, elem, end);
  }

  /** The bytes of a whole loop, which come first in what is to be copied. */
  method LoopBytes(elem: Entry, end: Entry, disp: int, space: nat, dst: array<bv8>, dbase: int, src: array<bv8>,
                   sbase: int, ghost all: seq<int>, ghost rest: seq<int>)
    returns (space': int, ghost x: seq<int>)
    requires elem.LoopE? && end.EndE? && dst != src && space == |all|
    requires all == Shift(Strided(Range(end.first, end.size), elem.extent, elem.loops), disp) + rest
    requires InBounds(dst[..], dbase, all) && InBounds(src[..], sbase, all)
    modifies dst
    ensures Copied(old(dst[..]), dst[..], dbase, src[..], sbase, x) && all == x + rest && space' == |rest|
  {
    x := Shift(Strided(Range(end.first, end.size), elem.extent, elem.loops), disp);
    InBoundsParts(dst[..], dbase, x, rest);
    InBoundsParts(src[..], sbase, x, rest);
    space' := ContiguousLoop(dst, dbase, src, sbase, elem, end, CountOf(elem), disp, space);
  }

  /** The bytes that the entries of a loop flagged contiguous stand for. */
  lemma {:induction false} LoopDue(s: Stack, elem: Entry, end: Entry)
    requires s.Push? && s.k.rest.Loop? && s.k.rest.contig && elem.LoopE? && end.EndE?
    requires elem.loops == s.k.rest.loops && elem.extent == s.k.rest.extent && end.first == s.k.rest.first
             && end.size == s.k.rest.size
    ensures Due(s, true) == Shift(Strided(Range(end.first, end.size), elem.extent, elem.loops), s.l.disp)
            + Due(SetRest(s, s.k.rest.next), true)
  {
    OverDue(s, true);
    LoopMarked(s.k.rest);
  }

  lemma {:induction false} LoopMarked(p: Prog)
    requires p.Loop? && p.contig
    ensures LoopOffs(p, p.loops, true) == Strided(Range(p.first, p.size), p.extent, p.loops)
  {}

  lemma NoneCopied(buf: seq<bv8>, dbase: int, src: seq<bv8>, sbase: int)
    ensures Copied(buf, buf, dbase, src, sbase, [])
  {}

  /** The bytes of one element: a datatype flagged contiguous is copied without its description. */
  function Read(prog: Prog, size: nat, trueLb: int, contig: bool): seq<int>
  {
    if contig then Range(trueLb, size) else Offs(prog, true)
  }

  /**
   * _copy_content_same_ddt: whichever path is taken, the destination receives exactly the bytes of `count` elements.
   */
  method CopyContent(desc: seq<Entry>, count: nat, size: nat, lb: int, ub: int, trueLb: int, contig: bool, chunk: nat,
                     dst: array<bv8>, dbase: int, src: array<bv8>, sbase: int, ghost prog: Prog)
    requires At(desc, 0, prog) && Positive(prog) && count >= 1 && dst != src && size == |Offs(prog, true)| && chunk > 0
    requires var o := Strided(Read(prog, size, trueLb, contig), ub - lb, count);
             InBounds(dst[..], dbase, o) && InBounds(src[..], sbase, o)
    modifies dst
    ensures Copied(old(dst[..]), dst[..], dbase, src[..], sbase,
                   Strided(Read(prog, size, trueLb, contig), ub - lb, count))
  {
    if !contig {
      var _ := CopyWalk(desc, count, ub - lb, size, dst, dbase, src, sbase, prog);
    } else if size == ub - lb {
      CopyDense(dst, dbase, src, sbase, trueLb, size, count, chunk);
    } else {
      CopyBlocks(dst, dbase, src, sbase, trueLb, size, ub - lb, count);
    }
  }

  /** Elements without gaps are one run of bytes. */
  method CopyDense(dst: array<bv8>, dbase: int, src: array<bv8>, sbase: int, off: int, size: nat, count: nat,
                   chunk: nat)
    requires dst != src && chunk > 0
    requires InBounds(dst[..], dbase, Strided(Range(off, size), size, count))
             && InBounds(src[..], sbase, Strided(Range(off, size), size, count))
    modifies dst
    ensures Copied(old(dst[..]), dst[..], dbase, src[..], sbase, Strided(Range(off, size), size, count))
  {
    StridedDense(off, size, count);
    CopyChunks(dst, dbase, src, sbase, off, count * size, chunk);
  }

  /** The next chunk is in bounds. */
  lemma ChunkBounds(m: seq<bv8>, base: int, off: int, done: nat, step: nat, length: nat)
    requires done + step <= length && InBounds(m, base, Range(off, length))
    ensures InBounds(m, base, Range(off + done, step))
  {
    RangeSplit(off, done, length - done);
    RangeSplit(off + done, step, length - done - step);
    InBoundsParts(m, base, Range(off, done), Range(off + done, length - done));
    InBoundsParts(m, base, Range(off + done, step), Range(off + done + step, length - done - step));
  }

  /** `length` bytes, at most `chunk` at a time. */
  method CopyChunks(dst: array<bv8>, dbase: int, src: array<bv8>, sbase: int, off: int, length: nat, chunk: nat)
    requires dst != src && chunk > 0
    requires InBounds(dst[..], dbase, Range(off, length)) && InBounds(src[..], sbase, Range(off, length))
    modifies dst
    ensures Copied(old(dst[..]), dst[..], dbase, src[..], sbase, Range(off, length))
  {
    ghost var before := dst[..];
    var done: nat, step: nat := 0, chunk;
    while done < length
      invariant done <= length && step > 0
      invariant dst.Length == |before| && Copied(before, dst[..], dbase, src[..], sbase, Range(off, done))
    {
      if step > length - done { step := length - done; }
      ghost var mid := dst[..];
      ChunkBounds(before, dbase, off, done, step, length);
      ChunkBounds(src[..], sbase, off, done, step, length);
      MemCopy(dst, dbase, src, sbase, off + done, step);
      CopiedThen(before, mid, dst[..], dbase, src[..], sbase, Range(off, done), Range(off + done, step));
      RangeSplit(off, done, step);
      done := done + step;
    }
  }

  ghost predicate SameSet(x: seq<int>, y: seq<int>)
  {
    forall o :: o in x <==> o in y
  }

  /**
   * Copying the bytes x is as good as copying the bytes y, whatever the buffers hold, exactly when they are the same
   * set.
   */
  lemma CopyExact(x: seq<int>, y: seq<int>, n: nat, dbase: int, m: nat, sbase: int)
    requires forall o :: o in x || o in y ==> 0 <= dbase + o < n && 0 <= sbase + o < m
    ensures (forall before: seq<bv8>, after, src: seq<bv8> ::
               |before| == n && |src| == m && Copied(before, after, dbase, src, sbase, x) ==>
                 Copied(before, after, dbase, src, sbase, y))
            <==> SameSet(x, y)
  {
    if !SameSet(x, y) {
      var before, src := seq(n, _ => 0 as bv8), seq(m, _ => 1 as bv8);
      var after := seq(n, i => if i - dbase in x then 1 as bv8 else 0);
      assert Copied(before, after, dbase, src, sbase, x);
      var o :| (o in x) != (o in y);
      assert after[dbase + o] == if o in x then 1 else 0;
      assert !Copied(before, after, dbase, src, sbase, y);
    }
  }
}
