/** opal_datatype_optimize_short and opal_datatype_commit: rewriting a description into a shorter one. */
module Optimize {
  import opened Offsets
  import opened Description
  import opened Wrappers
  import opened Rewrite

  /** dt_stack_t as the optimiser uses it: index of the first entry of an open loop, and its displacement. */
  datatype StackEntry = StackEntry(index: int, disp: int)

  // ----- The state of the rewriting: one frame per open loop -----

  /** At one nesting level: input left, output written, and the end marker that closes the level. */
  datatype Frame = Frame(rest: Prog, out: Prog, end: Entry)

  datatype Frames =
    | Base(top: Frame)
    | Open(loops: nat, extent: int, items: nat, top: Frame, below: Frames)

  function WithTop(fs: Frames, rest: Prog, out: Prog): Frames
  {
    var f := Frame(rest, out, fs.top.end);
    match fs
    case Base(_) => Base(f)
    case Open(n, e, i, _, b) => Open(n, e, i, f, b)
  }

  /** The entries after those of the innermost level. */
  function Tail(fs: Frames): seq<Entry>
  {
    [fs.top.end] + (match fs case Base(_) => [] case Open(_, _, _, _, b) => InCode(b))
  }

  /** The entries still to be read. */
  function InCode(fs: Frames): seq<Entry>
  {
    Flatten(fs.top.rest) + ([fs.top.end] + (match fs case Base(_) => [] case Open(_, _, _, _, b) => InCode(b)))
  }

  /** The entries written so far; the `items` of an open loop is not final yet. */
  function OutCode(fs: Frames): seq<Entry>
  {
    match fs
    case Base(t) => Flatten(t.out)
    case Open(n, e, i, t, b) => OutCode(b) + ([LoopE(n, i, e, false)] + Flatten(t.out))
  }

  /** The loop of an open level, with all that will be written in it. */
  function Shut(fs: Frames, inner: Prog): Prog
    requires fs.Open? && fs.top.end.EndE?
  {
    Loop(fs.loops, fs.extent, false, Append(fs.top.out, inner), fs.top.end.first, fs.top.end.size, Nil)
  }

  /** The whole output, with `inner` as what is still to be written at the innermost level. */
  function Plug(fs: Frames, inner: Prog): Prog
    requires Levels(fs)
  {
    match fs
    case Base(t) => Append(t.out, inner)
    case Open(_, _, _, t, b) => Plug(b, Append(Shut(fs, inner), Opt(b.top.rest, EMPTY)))
  }

  predicate Levels(fs: Frames)
  {
    WellFormed(fs.top.rest) && fs.top.end.EndE? && (fs.Open? ==> fs.loops >= 1 && Levels(fs.below))
  }

  predicate StackOk(fs: Frames, stack: seq<StackEntry>)
  {
    match fs
    case Base(_) => stack == [StackEntry(-1, 0)]
    case Open(_, _, _, _, b) =>
      |stack| > 1 && stack[|stack| - 1] == StackEntry(|OutCode(b)| + 1, 0) && StackOk(b, stack[..|stack| - 1])
  }

  /** Input and output entries are those of the frames. */
  predicate InvCode(desc: seq<Entry>, pos: nat, stack: seq<StackEntry>, out: seq<Entry>, fs: Frames)
  {
    pos <= |desc| && desc[pos..] == InCode(fs) && out == OutCode(fs) && StackOk(fs, stack)
  }

  /** What is written and what will be are together the optimised program. */
  predicate InvSense(prog: Prog, last: Last, fs: Frames)
  {
    Levels(fs) && LastOk(last) && Plug(fs, Opt(fs.top.rest, last)) == Opt(prog, EMPTY)
  }

  predicate Inv(prog: Prog, desc: seq<Entry>, pos: nat, stack: seq<StackEntry>, out: seq<Entry>, last: Last, fs: Frames)
  {
    InvCode(desc, pos, stack, out, fs) && InvSense(prog, last, fs)
  }

  // ----- One step of the rewriting -----

  lemma {:induction false} OutAppend(fs: Frames, rest: Prog, q: Prog)
    ensures OutCode(WithTop(fs, rest, Append(fs.top.out, q))) == OutCode(fs) + Flatten(q)
  {
    FlattenAppend(fs.top.out, q);
    match fs
    case Base(_) =>
    case Open(n, e, i, t, b) =>
      ConcatAssoc([LoopE(n, i, e, false)], Flatten(t.out), Flatten(q));
      ConcatAssoc(OutCode(b), [LoopE(n, i, e, false)] + Flatten(t.out), Flatten(q));
  }

  lemma {:induction false} InAdvance(fs: Frames, desc: seq<Entry>, pos: nat, k: nat, next: Prog, out: Prog)
    requires pos <= |desc| && desc[pos..] == InCode(fs) && k <= |Flatten(fs.top.rest)|
             && Flatten(fs.top.rest)[k..] == Flatten(next)
    ensures pos + k <= |desc| && desc[pos + k..] == InCode(WithTop(fs, next, out))
  {
    DropFront(desc, pos, Flatten(fs.top.rest), Tail(fs), k);
  }

  lemma DropFront(desc: seq<Entry>, pos: nat, r: seq<Entry>, tail: seq<Entry>, k: nat)
    requires pos <= |desc| && desc[pos..] == r + tail && k <= |r|
    ensures pos + k <= |desc| && desc[pos + k..] == r[k..] + tail
  {
    assert |desc[pos..]| == |r| + |tail|;
    assert desc[pos + k..] == desc[pos..][k..];
  }

  lemma {:induction false} PlugAdvance(fs: Frames, next: Prog, q: Prog, inner: Prog)
    requires Levels(fs) && WellFormed(next)
    ensures Levels(WithTop(fs, next, Append(fs.top.out, q)))
    ensures Plug(WithTop(fs, next, Append(fs.top.out, q)), inner) == Plug(fs, Append(q, inner))
  {
    AppendAssoc(fs.top.out, q, inner);
  }

  function Moved(fs: Frames, next: Prog, q: Prog): Frames
  {
    WithTop(fs, next, Append(fs.top.out, q))
  }

  /** Passing k entries of the input, from rest to next, with q written and the pending run going from last to last'. */
  lemma {:induction false} Advance(prog: Prog, desc: seq<Entry>, pos: nat, stack: seq<StackEntry>, out: seq<Entry>,
                                   last: Last, fs: Frames, k: nat, next: Prog, q: Prog, last': Last)
    requires Inv(prog, desc, pos, stack, out, last, fs) && WellFormed(next) && LastOk(last')
    requires k <= |Flatten(fs.top.rest)| && Flatten(fs.top.rest)[k..] == Flatten(next)
    requires Opt(fs.top.rest, last) == Append(q, Opt(next, last'))
    ensures Inv(prog, desc, pos + k, stack, out + Flatten(q), last', Moved(fs, next, q))
  {
    OutAppend(fs, next, q);
    InAdvance(fs, desc, pos, k, next, Append(fs.top.out, q));
    PlugAdvance(fs, next, q, Opt(next, last'));
    StackTop(fs, next, Append(fs.top.out, q), stack);
  }

  lemma {:induction false} StackTop(fs: Frames, rest: Prog, out: Prog, stack: seq<StackEntry>)
    ensures StackOk(fs, stack) ==> StackOk(WithTop(fs, rest, out), stack)
  {}

  /** The length of the first item. */
  function Width(p: Prog): nat
    requires p != Nil
  {
    if p.Data? then 1 else |Flatten(p.body)| + 2
  }

  lemma {:induction false} FirstWidth(p: Prog)
    requires p != Nil
    ensures Width(p) <= |Flatten(p)| && Flatten(p)[Width(p)..] == Flatten(p.next)
  {}

  /** Only an empty run is like any other empty run. */
  lemma {:induction false} OptEmpty(p: Prog, last: Last)
    requires last.length == 0
    ensures Opt(p, last) == Opt(p, EMPTY)
  {}

  lemma {:induction false} AfterOk(p: Prog, last: Last)
    requires p != Nil && Sane(p) && LastOk(last)
    ensures LastOk(After(p, last))
  {
    if p.Data? && Joins(p, last) { JoinedFacts(p, last); }
  }

  /** Passing the first item of the input; the pending run may be any that is as good as the one meant. */
  lemma {:induction false} Pass(prog: Prog, desc: seq<Entry>, pos: nat, stack: seq<StackEntry>, out: seq<Entry>,
                                last: Last, fs: Frames, last': Last)
    requires Inv(prog, desc, pos, stack, out, last, fs) && fs.top.rest != Nil
    requires var w := After(fs.top.rest, last); last' == w || (last'.length == 0 && w.length == 0)
    ensures var p := fs.top.rest;
            Inv(prog, desc, pos + Width(p), stack, out + Flatten(Emit(p, last)), last',
                Moved(fs, p.next, Emit(p, last)))
  {
    var p := fs.top.rest;
    FirstWidth(p);
    AfterOk(p, last);
    if last'.length == 0 {
      OptEmpty(p.next, last');
      OptEmpty(p.next, After(p, last));
    }
    Advance(prog, desc, pos, stack, out, last, fs, Width(p), p.next, Emit(p, last), last');
  }

  /** Writing out the pending run before something that cannot merge with it. */
  lemma {:induction false} FlushStep(prog: Prog, desc: seq<Entry>, pos: nat, stack: seq<StackEntry>, out: seq<Entry>,
                                     last: Last, fs: Frames, last': Last)
    requires Inv(prog, desc, pos, stack, out, last, fs) && last'.length == 0
    requires fs.top.rest == Nil || (fs.top.rest.Loop? && !fs.top.rest.contig)
    ensures Inv(prog, desc, pos, stack, out + Flatten(PendElem(last)), last', Moved(fs, fs.top.rest, PendElem(last)))
  {
    var p := fs.top.rest;
    if p == Nil {
      AppendNil(PendElem(last));
    } else {
      var q := if Small(p) then Replaced(p)
        else Loop(p.loops, p.extent, false, Opt(p.body, EMPTY), p.first, p.size, Nil);
      AppendAssoc(PendElem(last), q, Opt(p.next, EMPTY));
      assert Append(Nil, q) == q;
    }
    Advance(prog, desc, pos, stack, out, last, fs, 0, p, PendElem(last), last');
  }

  /** Entering a loop that is kept as a loop. */
  function Entered(fs: Frames): Frames
    requires fs.top.rest.Loop?
  {
    var p, t := fs.top.rest, fs.top;
    var i := |Flatten(p.body)| + 1;
    Open(p.loops, p.extent, i, Frame(p.body, Nil, EndE(i, p.size, p.first)), WithTop(fs, p.next, t.out))
  }

  lemma {:induction false} EnterSense(prog: Prog, last: Last, fs: Frames)
    requires InvSense(prog, last, fs) && last.length == 0 && fs.top.rest.Loop? && !fs.top.rest.contig
             && !Small(fs.top.rest)
    ensures InvSense(prog, last, Entered(fs))
  {
    var p, t := fs.top.rest, fs.top;
    OptEmpty(p.body, last);
    assert Append(Nil, Opt(p.body, EMPTY)) == Opt(p.body, EMPTY);
    var q := Loop(p.loops, p.extent, false, Opt(p.body, EMPTY), p.first, p.size, Nil);
    assert Append(Nil, q) == q;
    assert Opt(p, last) == Append(q, Opt(p.next, EMPTY));
    assert Append(t.out, Opt(p, last)) == Append(t.out, Append(q, Opt(p.next, EMPTY)));
    assert Shut(Entered(fs), Opt(p.body, EMPTY)) == q;
    PlugTop(fs, p.next, Opt(p, last));
  }

  /** The input left at the innermost level does not matter to the output. */
  lemma {:induction false} PlugTop(fs: Frames, next: Prog, inner: Prog)
    requires Levels(fs) && WellFormed(next)
    ensures Levels(WithTop(fs, next, fs.top.out)) && Plug(WithTop(fs, next, fs.top.out), inner) == Plug(fs, inner)
  {}

  lemma {:induction false} OpenLoop(prog: Prog, desc: seq<Entry>, pos: nat, stack: seq<StackEntry>, out: seq<Entry>,
                                    last: Last, fs: Frames)
    requires Inv(prog, desc, pos, stack, out, last, fs) && last.length == 0
    requires fs.top.rest.Loop? && !fs.top.rest.contig && !Small(fs.top.rest)
    ensures var p := fs.top.rest;
            Inv(prog, desc, pos + 1, stack + [StackEntry(|out| + 1, 0)],
                out + [LoopE(p.loops, |Flatten(p.body)| + 1, p.extent, false)], last, Entered(fs))
  {
    var p, t := fs.top.rest, fs.top;
    EnterSense(prog, last, fs);
    StackTop(fs, p.next, t.out, stack);
    assert (stack + [StackEntry(|out| + 1, 0)])[..|stack|] == stack;
    LoopCode(desc, pos, p, Tail(fs));
    assert Flatten(Nil) == [];
  }

  /** The end marker of the loop that starts at `start` is written, and the start marker gets its final `items`. */
  function CloseAt(out: seq<Entry>, start: int, end: Entry): seq<Entry>
    requires 0 <= start < |out| && out[start].LoopE? && end.EndE?
  {
    (out + [EndE(|out| - start, end.size, end.first)])
      [start := LoopE(out[start].loops, |out| - start, out[start].extent, out[start].contig)]
  }

  function Closed(fs: Frames): Frames
    requires fs.Open? && fs.top.end.EndE?
  {
    WithTop(fs.below, fs.below.top.rest, Append(fs.below.top.out, Shut(fs, Nil)))
  }

  lemma {:induction false} CloseOut(fs: Frames, out: seq<Entry>)
    requires fs.Open? && fs.top.end.EndE? && out == OutCode(fs)
    ensures var k := |OutCode(fs.below)|;
            k < |out| && out[k].LoopE? && CloseAt(out, k, fs.top.end) == OutCode(Closed(fs))
  {
    var t, b := fs.top, fs.below;
    var o := Flatten(t.out);
    AppendNil(t.out);
    OutAppend(b, b.top.rest, Shut(fs, Nil));
    PatchBracket(OutCode(b), fs.loops, fs.items, fs.extent, o, t.end.first, t.end.size);
    assert Flatten(Shut(fs, Nil)) == Bracket(fs.loops, fs.extent, false, o, t.end.first, t.end.size) + [];
  }

  lemma {:induction false} PatchBracket(a: seq<Entry>, loops: nat, items: nat, extent: int, o: seq<Entry>, first: int,
                                        size: nat)
    ensures (a + ([LoopE(loops, items, extent, false)] + o) + [EndE(|o| + 1, size, first)])[|a| :=
        LoopE(loops, |o| + 1, extent, false)]
         == a + Bracket(loops, extent, false, o, first, size)
  {}

  lemma {:induction false} CloseIn(desc: seq<Entry>, pos: nat, fs: Frames)
    requires fs.Open? && fs.top.end.EndE? && fs.top.rest == Nil
    requires pos <= |desc| && desc[pos..] == InCode(fs)
    ensures pos < |desc| && desc[pos] == fs.top.end && desc[pos + 1..] == InCode(Closed(fs))
  {
    assert InCode(fs) == [fs.top.end] + InCode(fs.below);
    assert desc[pos..][0] == desc[pos];
    assert desc[pos + 1..] == desc[pos..][1..];
  }

  lemma {:induction false} CloseSense(prog: Prog, last: Last, fs: Frames)
    requires InvSense(prog, last, fs) && last.length == 0 && fs.Open? && fs.top.rest == Nil
    ensures InvSense(prog, last, Closed(fs))
  {
    var b := fs.below;
    OptEmpty(b.top.rest, last);
    assert Opt(Nil, last) == Nil;
    PlugAdvance(b, b.top.rest, Shut(fs, Nil), Opt(b.top.rest, EMPTY));
  }

  /** Closing a loop. */
  lemma {:induction false} CloseLoop(prog: Prog, desc: seq<Entry>, pos: nat, stack: seq<StackEntry>, out: seq<Entry>,
                                     last: Last, fs: Frames)
    requires Inv(prog, desc, pos, stack, out, last, fs) && last.length == 0
    requires fs.Open? && fs.top.rest == Nil
    ensures var k := |OutCode(fs.below)|;
            && stack[|stack| - 1] == StackEntry(k + 1, 0) && k < |out| && out[k].LoopE?
            && pos < |desc| && desc[pos] == fs.top.end
            && Inv(prog, desc, pos + 1, stack[..|stack| - 1], CloseAt(out, k, fs.top.end), last, Closed(fs))
  {
    CloseOut(fs, out);
    CloseIn(desc, pos, fs);
    StackTop(fs.below, fs.below.top.rest, Closed(fs).top.out, stack[..|stack| - 1]);
    CloseSense(prog, last, fs);
  }

  // ----- The optimiser -----

  lemma {:induction false} RestCode(desc: seq<Entry>, pos: nat, fs: Frames)
    requires pos <= |desc| && desc[pos..] == InCode(fs)
    ensures pos < |desc| && Flatten(fs.top.rest) <= desc[pos..]
    ensures fs.top.rest == Nil ==> desc[pos] == fs.top.end
    ensures fs.top.rest.Data? ==>
              var p := fs.top.rest; desc[pos] == ElemE(p.typ, p.count, p.disp, p.extent, p.contig)
    ensures fs.top.rest.Loop? ==>
              var p := fs.top.rest;
              var i := |Flatten(p.body)| + 1;
              && desc[pos] == LoopE(p.loops, i, p.extent, p.contig)
              && pos + i < |desc| && desc[pos + i] == EndE(i, p.size, p.first)
              && (i == 2 && p.body.Data? ==> desc[pos + 1] == Flatten(p.body)[0])
  {
    var tail := [fs.top.end] + (match fs case Base(_) => [] case Open(_, _, _, _, b) => InCode(b));
    assert desc[pos..][0] == desc[pos];
    if fs.top.rest.Loop? {
      LoopCode(desc, pos, fs.top.rest, tail);
      assert desc[pos + 1..][0] == desc[pos + 1];
    }
  }

  /** A data entry (one turn of the inner while loop): merge it into the pending run, or start a new run. */
  method DataEntry(e: Entry, totalDisp: int, out: seq<Entry>, last: Last, ghost p: Prog)
    returns (out': seq<Entry>, last': Last)
    requires p.Data? && e == ElemE(p.typ, p.count, p.disp, p.extent, p.contig) && totalDisp == 0
    ensures out' == out + Flatten(Emit(p, last)) && last' == After(p, last)
  {
    var continuity := last.disp + last.length * BasicSize(last.typ) == totalDisp + e.disp;
    out' := out;
    PendElemOffs(last);
    if e.contig && continuity && e.extent == BasicSize(e.typ) {
      if e.typ == last.typ {
        last' := last.(length := last.length + e.count, extent := e.extent);
      } else if last.length == 0 {
        last' := Last(e.typ, e.count, last.disp, e.extent);
      } else {
        last' := Last(UINT1, last.length * BasicSize(last.typ) + e.count * BasicSize(e.typ), last.disp, 1);
      }
      assert Flatten(Nil) == [] && out + [] == out;
    } else {
      if last.length != 0 {
        out' := out + [ElemE(last.typ, last.length, last.disp, last.extent, true)];
      }
      last' := Last(e.typ, e.count, totalDisp + e.disp, e.extent);
    }
  }

  /** `k` copies of a data entry, `stride` apart, written one after the other. */
  method EmitCopies(out: seq<Entry>, t: nat, n: nat, d: int, e: int, c: bool, stride: int, k: nat)
    returns (out': seq<Entry>)
    ensures out' == out + Flatten(Unrolled(t, n, d, e, c, stride, k))
  {
    out' := out;
    var disp, counter := d, k;
    while counter > 0
      invariant out' + Flatten(Unrolled(t, n, disp, e, c, stride, counter))
                == out + Flatten(Unrolled(t, n, d, e, c, stride, k))
    {
      ConcatAssoc(out', [ElemE(t, n, disp, e, c)], Flatten(Unrolled(t, n, disp + stride, e, c, stride, counter - 1)));
      out' := out' + [ElemE(t, n, disp, e, c)];
      counter := counter - 1;
      disp := disp + stride;
    }
    assert Flatten(Unrolled(t, n, disp, e, c, stride, 0)) == [];
  }

  /** A contiguous loop without gaps joins the pending run, or starts a new one. */
  method FullLoop(loop: Entry, end: Entry, totalDisp: int, loopDisp: int, continuity: bool, out: seq<Entry>, last: Last,
                  ghost p: Prog)
    returns (out': seq<Entry>, last': Last)
    requires p.Loop? && p.contig && p.extent == p.size && totalDisp == 0 && loopDisp == p.first
    requires loop.LoopE? && loop.loops == p.loops && end.EndE? && end.size == p.size
    requires continuity <==> last.disp + last.length * BasicSize(last.typ) == p.first
    ensures out' == out + Flatten(Emit(p, last)) && last' == After(p, last)
  {
    out', last' := out, last;
    if !continuity {
      if last.length != 0 {
        out' := out + [ElemE(last.typ, last.length, last.disp, last.extent, true)];
        last' := last'.(length := 0);
      }
      last' := last'.(disp := totalDisp + loopDisp);
    }
    PendElemOffs(last);
    assert Flatten(Nil) == [] && out + [] == out;
    last' := Last(UINT1, last'.length * BasicSize(last'.typ) + loop.loops * end.size, last'.disp, 1);
  }

  /** A contiguous loop with gaps: its first block may join the pending run; few blocks are unrolled. */
  method GappedLoop(loop: Entry, end: Entry, loopDisp: int, continuity: bool, out: seq<Entry>, last: Last,
                    ghost p: Prog)
    returns (out': seq<Entry>, last': Last)
    requires p.Loop? && p.loops >= 1 && p.contig && p.extent != p.size
    requires loop.LoopE? && loop.loops == p.loops && loop.extent == p.extent && loop.contig
    requires end.EndE? && end.size == p.size && end.first == p.first && loopDisp == p.first
    requires continuity <==> last.disp + last.length * BasicSize(last.typ) == p.first
    ensures out' == out + Flatten(Emit(p, last)) && last'.length == 0
  {
    out', last' := out, last;
    var counter := loop.loops;
    var mergedDisp := 0;
    if last.length != 0 {
      if continuity {
        last' := Last(UINT1, last.length * BasicSize(last.typ) + end.size, last.disp, 1);
        counter := counter - 1;
        mergedDisp := loop.extent;
      }
      out' := out + [ElemE(last'.typ, last'.length, last'.disp, last'.extent, true)];
      last' := Last(LOOP, 0, last'.disp + last'.length, last'.extent);
    }
    ghost var before := out';
    if counter <= 2 {
      out' := EmitCopies(out', UINT1, end.size, end.first + mergedDisp, 1, true, loop.extent, counter);
    } else {
      out' := out' + [LoopE(counter, 2, loop.extent, true),
                      ElemE(UINT1, end.size, loopDisp, 1, true),
                      EndE(2, end.size, end.first + mergedDisp)];
      assert Flatten(Data(UINT1, end.size, loopDisp, 1, true, Nil)) == [ElemE(UINT1, end.size, loopDisp, 1, true)] + [];
    }
    assert out' == before + Flatten(GapTail(p, counter, mergedDisp));
    GapCode(p, last, out, before, counter, mergedDisp);
  }

  lemma {:induction false} GapCode(p: Prog, last: Last, out: seq<Entry>, before: seq<Entry>, counter: nat, merged: int)
    requires p.Loop? && p.loops >= 1
    requires if Meets(last, p.first)
             then counter == p.loops - 1 && merged == p.extent
               && before == out + [ElemE(UINT1, last.length * BasicSize(last.typ) + p.size, last.disp, 1, true)]
             else counter == p.loops && merged == 0 && before == out + Flatten(PendElem(last))
    ensures before + Flatten(GapTail(p, counter, merged)) == out + Flatten(GapOut(p, last))
  {
    var tail := GapTail(p, counter, merged);
    if Meets(last, p.first) {
      ConcatAssoc(out, [ElemE(UINT1, last.length * BasicSize(last.typ) + p.size, last.disp, 1, true)], Flatten(tail));
    } else {
      FlattenAppend(PendElem(last), tail);
      ConcatAssoc(out, Flatten(PendElem(last)), Flatten(tail));
    }
  }

  /** A loop around one data entry is replaced, when it can be. */
  method SmallLoop(loop: Entry, elem: Entry, out: seq<Entry>, ghost p: Prog) returns (done: bool, out': seq<Entry>)
    requires p.Loop? && !p.contig && p.body.Data? && p.body.next == Nil && loop.LoopE? && loop.loops == p.loops
             && loop.extent == p.extent
    requires var b := p.body; elem == ElemE(b.typ, b.count, b.disp, b.extent, b.contig)
    ensures done <==> Small(p)
    ensures out' == if done then out + Flatten(Replaced(p)) else out
  {
    done, out' := false, out;
    if elem.count == 1 && elem.extent == BasicSize(elem.typ) {
      assert Flatten(Replaced(p)) == [ElemE(elem.typ, loop.loops, elem.disp, loop.extent, false)] + [];
      out' := out + [ElemE(elem.typ, loop.loops, elem.disp, loop.extent, false)];
      done := true;
    } else if loop.loops < 3 {
      out' := EmitCopies(out, elem.typ, elem.count, elem.disp, elem.extent, elem.contig, loop.extent, loop.loops);
      done := true;
    }
  }

  lemma {:induction false} Start(prog: Prog, desc: seq<Entry>, end: Entry)
    requires WellFormed(prog) && end.EndE? && desc == Flatten(prog) + [end]
    ensures Inv(prog, desc, 0, [StackEntry(-1, 0)], [], EMPTY, Base(Frame(prog, Nil, end)))
  {
    assert desc[0..] == desc == Flatten(prog) + ([end] + []);
    assert Flatten(Nil) == [];
    assert Append(Nil, Opt(prog, EMPTY)) == Opt(prog, EMPTY);
  }

  /** At the last end marker everything has been read. */
  lemma {:induction false} Finish(prog: Prog, desc: seq<Entry>, pos: nat, stack: seq<StackEntry>, out: seq<Entry>,
                                  last: Last, fs: Frames)
    requires Inv(prog, desc, pos, stack, out, last, fs) && last.length == 0 && fs.Base? && fs.top.rest == Nil
    ensures out == Flatten(Opt(prog, EMPTY)) && stack == [StackEntry(-1, 0)] && |desc| == pos + 1
  {
    AppendNil(fs.top.out);
    assert InCode(fs) == [fs.top.end];
  }

  lemma {:induction false} Unpack(prog: Prog, desc: seq<Entry>, pos: nat, stack: seq<StackEntry>, out: seq<Entry>,
                                  last: Last, fs: Frames)
    requires Inv(prog, desc, pos, stack, out, last, fs)
    ensures LastOk(last) && pos <= |desc| && desc[pos..] == InCode(fs) && WellFormed(fs.top.rest) && fs.top.end.EndE?
    ensures fs.Base? ==> stack == [StackEntry(-1, 0)]
    ensures |stack| >= 1 && stack[|stack| - 1].disp == 0 && (fs.Open? <==> |stack| > 1)
    ensures fs.top.rest.Loop? && fs.top.rest.contig ==> FirstDisp(fs.top.rest.body) == fs.top.rest.first
  {
    if fs.top.rest.Loop? && fs.top.rest.contig {
      FirstOffset(fs.top.rest.body);
    }
  }

  lemma {:induction false} Glance(prog: Prog, desc: seq<Entry>, pos: nat, stack: seq<StackEntry>, out: seq<Entry>,
                                  last: Last, fs: Frames)
    requires Inv(prog, desc, pos, stack, out, last, fs)
    ensures pos < |desc| && |stack| >= 1 && stack[|stack| - 1].disp == 0
    ensures |stack| == 1 ==> fs.Base? && stack[0].index == -1
    ensures desc[pos].EndE? ==> fs.top.rest == Nil
  {
    Unpack(prog, desc, pos, stack, out, last, fs);
    RestCode(desc, pos, fs);
  }

  /** A data entry. */
  method StepData(desc: seq<Entry>, pos: nat, totalDisp: int, out: seq<Entry>, last: Last,
                  ghost prog: Prog, ghost stack: seq<StackEntry>, ghost fs: Frames)
    returns (out': seq<Entry>, last': Last, ghost fs': Frames)
    requires Inv(prog, desc, pos, stack, out, last, fs) && totalDisp == 0
    requires pos < |desc| && desc[pos].ElemE?
    ensures Inv(prog, desc, pos + 1, stack, out', last', fs')
  {
    Unpack(prog, desc, pos, stack, out, last, fs);
    RestCode(desc, pos, fs);
    ghost var p := fs.top.rest;
    out', last' := DataEntry(desc[pos], totalDisp, out, last, p);
    Pass(prog, desc, pos, stack, out, last, fs, last');
    fs' := Moved(fs, p.next, Emit(p, last));
  }

  /** A loop flagged contiguous is consumed whole. */
  method StepContiguous(desc: seq<Entry>, pos: nat, totalDisp: int, out: seq<Entry>, last: Last,
                        ghost prog: Prog, ghost stack: seq<StackEntry>, ghost fs: Frames)
    returns (out': seq<Entry>, last': Last, ghost fs': Frames)
    requires Inv(prog, desc, pos, stack, out, last, fs) && totalDisp == 0
    requires pos < |desc| && desc[pos].LoopE? && desc[pos].contig
    ensures Inv(prog, desc, pos + desc[pos].items + 1, stack, out', last', fs')
  {
    ghost var p := fs.top.rest;
    LoopFacts(prog, desc, pos, stack, out, last, fs);
    var loop := desc[pos];
    var end := desc[pos + loop.items];
    var index := GetFirstNonLoop(desc, pos, p);
    var loopDisp := desc[pos + index].disp;
    var continuity := last.disp + last.length * BasicSize(last.typ) == totalDisp + loopDisp;
    if loop.extent == end.size {
      out', last' := FullLoop(loop, end, totalDisp, loopDisp, continuity, out, last, p);
    } else {
      out', last' := GappedLoop(loop, end, loopDisp, continuity, out, last, p);
    }
    Pass(prog, desc, pos, stack, out, last, fs, last');
    fs' := Moved(fs, p.next, Emit(p, last));
  }

  lemma {:induction false} LoopFacts(prog: Prog, desc: seq<Entry>, pos: nat, stack: seq<StackEntry>, out: seq<Entry>,
                                     last: Last, fs: Frames)
    requires Inv(prog, desc, pos, stack, out, last, fs) && pos < |desc| && desc[pos].LoopE?
    ensures var p := fs.top.rest;
            var i := |Flatten(p.body)| + 1;
            && p.Loop? && p != Nil && Sane(p) && p.loops >= 1 && p.size >= 1 && LastOk(last)
               && Flatten(p) <= desc[pos..]
            && desc[pos] == LoopE(p.loops, i, p.extent, p.contig)
            && pos + i < |desc| && desc[pos + i] == EndE(i, p.size, p.first)
            && (p.contig ==> FirstDisp(p) == p.first)
  {
    Unpack(prog, desc, pos, stack, out, last, fs);
    RestCode(desc, pos, fs);
  }

  /** Writing out the pending run; the run that remains is empty. */
  method Flush(desc: seq<Entry>, pos: nat, out: seq<Entry>, last: Last, typ: nat,
               ghost prog: Prog, ghost stack: seq<StackEntry>, ghost fs: Frames)
    returns (out': seq<Entry>, last': Last, ghost fs': Frames)
    requires Inv(prog, desc, pos, stack, out, last, fs)
    requires pos < |desc| && (desc[pos].EndE? || (desc[pos].LoopE? && !desc[pos].contig))
    ensures Inv(prog, desc, pos, stack, out', last', fs') && last'.length == 0
    ensures fs'.top.rest == fs.top.rest && (fs'.Base? <==> fs.Base?)
  {
    Unpack(prog, desc, pos, stack, out, last, fs);
    RestCode(desc, pos, fs);
    PendElemOffs(last);
    if last.length != 0 {
      out' := out + [ElemE(last.typ, last.length, last.disp, last.extent, true)];
      last' := Last(typ, 0, last.disp + last.length, last.extent);
    } else {
      out', last' := out, last;
    }
    FlushStep(prog, desc, pos, stack, out, last, fs, last');
    fs' := Moved(fs, fs.top.rest, PendElem(last));
  }

  /** A loop around one data entry is replaced if it can be; nothing happens otherwise. */
  method StepSmall(desc: seq<Entry>, pos: nat, out: seq<Entry>, ghost last: Last,
                   ghost prog: Prog, ghost stack: seq<StackEntry>, ghost fs: Frames)
    returns (done: bool, out': seq<Entry>, ghost fs': Frames)
    requires Inv(prog, desc, pos, stack, out, last, fs) && last.length == 0
    requires pos < |desc| && desc[pos].LoopE? && !desc[pos].contig && desc[pos].items == 2
    ensures fs.top.rest.Loop? && (done <==> Small(fs.top.rest))
    ensures done ==> Inv(prog, desc, pos + 3, stack, out', last, fs')
  {
    LoopFacts(prog, desc, pos, stack, out, last, fs);
    RestCode(desc, pos, fs);
    ghost var p := fs.top.rest;
    SingleData(p.body);
    done, out' := SmallLoop(desc[pos], desc[pos + 1], out, p);
    fs' := Moved(fs, p.next, Emit(p, last));
    if done { PassSmall(prog, desc, pos, stack, out, last, fs); }
  }

  lemma {:induction false} PassSmall(prog: Prog, desc: seq<Entry>, pos: nat, stack: seq<StackEntry>, out: seq<Entry>,
                                     last: Last, fs: Frames)
    requires Inv(prog, desc, pos, stack, out, last, fs) && last.length == 0 && fs.top.rest.Loop? && Small(fs.top.rest)
    ensures var p := fs.top.rest;
            Inv(prog, desc, pos + 3, stack, out + Flatten(Replaced(p)), last, Moved(fs, p.next, Emit(p, last)))
  {
    var p := fs.top.rest;
    assert Flatten(Nil) == [] && |Flatten(p.body)| == 1;
    assert Emit(p, last) == Replaced(p);
    Pass(prog, desc, pos, stack, out, last, fs, last);
  }

  lemma {:induction false} SingleData(b: Prog)
    requires |Flatten(b)| == 1
    ensures b.Data? && b.next == Nil && Flatten(b) == [ElemE(b.typ, b.count, b.disp, b.extent, b.contig)]
  {}

  /** A loop with gaps inside: a short one is replaced, any other is entered. */
  method StepLoop(desc: seq<Entry>, pos: nat, totalDisp: int, stack: seq<StackEntry>, out: seq<Entry>, last: Last,
                  ghost prog: Prog, ghost fs: Frames)
    returns (pos': nat, stack': seq<StackEntry>, out': seq<Entry>, ghost fs': Frames)
    requires Inv(prog, desc, pos, stack, out, last, fs) && totalDisp == 0 && last.length == 0
    requires pos < |desc| && desc[pos].LoopE? && !desc[pos].contig
    ensures Inv(prog, desc, pos', stack', out', last, fs') && pos' > pos
  {
    var loop := desc[pos];
    if loop.items == 2 {
      var done;
      done, out', fs' := StepSmall(desc, pos, out, last, prog, stack, fs);
      if done {
        pos', stack' := pos + loop.items + 1, stack;
        return;
      }
    }
    LoopFacts(prog, desc, pos, stack, out, last, fs);
    NotSmall(fs.top.rest);
    OpenLoop(prog, desc, pos, stack, out, last, fs);
    fs' := Entered(fs);
    out' := out + [LoopE(loop.loops, loop.items, loop.extent, loop.contig)];
    stack' := stack + [StackEntry(|out'|, totalDisp)];
    pos' := pos + 1;
  }

  lemma {:induction false} NotSmall(p: Prog)
    requires p.Loop?
    ensures |Flatten(p.body)| != 1 ==> !Small(p)
  {
    assert Flatten(Nil) == [];
  }

  /** The end marker of an open loop. */
  method StepEnd(desc: seq<Entry>, pos: nat, stack: seq<StackEntry>, out: seq<Entry>, last: Last, ghost prog: Prog,
                 ghost fs: Frames)
    returns (out': seq<Entry>, ghost fs': Frames)
    requires Inv(prog, desc, pos, stack, out, last, fs) && last.length == 0 && |stack| > 1
    requires pos < |desc| && desc[pos].EndE?
    ensures Inv(prog, desc, pos + 1, stack[..|stack| - 1], out', last, fs')
  {
    Unpack(prog, desc, pos, stack, out, last, fs);
    RestCode(desc, pos, fs);
    CloseLoop(prog, desc, pos, stack, out, last, fs);
    out' := CloseAt(out, stack[|stack| - 1].index - 1, desc[pos]);
    fs' := Closed(fs);
  }

  /** An end marker: of an open loop, or of the whole description. */
  method TurnEnd(desc: seq<Entry>, pos: nat, stack: seq<StackEntry>, out: seq<Entry>, last: Last, ghost prog: Prog,
                 ghost fs: Frames)
    returns (finished: bool, pos': nat, stack': seq<StackEntry>, out': seq<Entry>, last': Last, ghost fs': Frames)
    requires Inv(prog, desc, pos, stack, out, last, fs) && pos < |desc| && desc[pos].EndE?
    ensures Inv(prog, desc, pos', stack', out', last', fs')
    ensures finished ==> pos' < |desc| && desc[pos'].EndE? && fs'.Base? && fs'.top.rest == Nil && last'.length == 0
    ensures !finished ==> pos' > pos
  {
    out', last', fs' := Flush(desc, pos, out, last, last.typ, prog, stack, fs);
    Glance(prog, desc, pos, stack, out', last', fs');
    finished, pos', stack' := |stack| == 1, pos, stack;
    if !finished {
      out', fs' := StepEnd(desc, pos, stack, out', last', prog, fs');
      pos', stack' := pos + 1, stack[..|stack| - 1];
    }
  }

  /** One turn of the main loop. */
  method Turn(desc: seq<Entry>, pos: nat, totalDisp: int, stack: seq<StackEntry>, out: seq<Entry>, last: Last,
              ghost prog: Prog, ghost fs: Frames)
    returns (finished: bool, pos': nat, stack': seq<StackEntry>, out': seq<Entry>, last': Last, ghost fs': Frames)
    requires Inv(prog, desc, pos, stack, out, last, fs) && pos < |desc| && totalDisp == 0
    ensures Inv(prog, desc, pos', stack', out', last', fs')
    ensures finished ==> pos' < |desc| && desc[pos'].EndE? && fs'.Base? && fs'.top.rest == Nil && last'.length == 0
    ensures !finished ==> pos' > pos
  {
    finished, stack' := false, stack;
    if desc[pos].EndE? {
      finished, pos', stack', out', last', fs' := TurnEnd(desc, pos, stack, out, last, prog, fs);
    } else if desc[pos].ElemE? {
      out', last', fs' := StepData(desc, pos, totalDisp, out, last, prog, stack, fs);
      pos' := pos + 1;
    } else if desc[pos].contig {
      out', last', fs' := StepContiguous(desc, pos, totalDisp, out, last, prog, stack, fs);
      pos' := pos + desc[pos].items + 1;
    } else {
      out', last', fs' := Flush(desc, pos, out, last, LOOP, prog, stack, fs);
      pos', stack', out', fs' := StepLoop(desc, pos, totalDisp, stack, out', last', prog, fs');
    }
  }

  /**
   * opal_datatype_optimize_short writes the entries of the program that Opt gives, for any nesting.  By OptRewrites
   * these transfer the bytes of the original type map in the same order unless bytes join an entry with gaps, and
   * there are no more of them than before, so they fit the 2 * used + 1 slots reserved for them.
   */
  method OptimizeShort(desc: seq<Entry>, ghost prog: Prog) returns (out: seq<Entry>)
    requires WellFormed(prog) && |desc| == |Flatten(prog)| + 1 && desc[|desc| - 1].EndE?
    requires desc == Flatten(prog) + [desc[|desc| - 1]]
    ensures 0 < |out| <= |desc| && out[|out| - 1].EndE?
    ensures out[..|out| - 1] == Flatten(Opt(prog, EMPTY)) && Rewrites(prog, Opt(prog, EMPTY))
  {
    var stack := [StackEntry(-1, 0)];
    var pos: nat, totalDisp, last := 0, 0, EMPTY;
    out := [];
    ghost var fs := Base(Frame(prog, Nil, desc[|desc| - 1]));
    var finished := false;
    Start(prog, desc, desc[|desc| - 1]);
    while !finished
      invariant totalDisp == 0 && Inv(prog, desc, pos, stack, out, last, fs)
      invariant finished ==> pos < |desc| && desc[pos].EndE? && fs.Base? && fs.top.rest == Nil && last.length == 0
      decreases !finished, |desc| - pos
    {
      Glance(prog, desc, pos, stack, out, last, fs);
      finished, pos, stack, out, last, fs := Turn(desc, pos, totalDisp, stack, out, last, prog, fs);
      Glance(prog, desc, pos, stack, out, last, fs);
      totalDisp := stack[|stack| - 1].disp;
    }
    Finish(prog, desc, pos, stack, out, last, fs);
    OptRewrites(prog);
    out := out + [EndE(|out| - stack[0].index + 1, desc[pos].size, desc[pos].first)];
  }

  /** Where the bytes begin; 0 if there are none. */
  method FirstDisplacement(entries: seq<Entry>, size: nat, ghost prog: Prog) returns (first: int)
    requires Sane(prog) && entries == Flatten(prog) && size == |Offs(prog, false)|
    ensures size != 0 ==> first == Offs(prog, false)[0]
  {
    first := 0;
    if size != 0 {
      assert prog != Nil;
      FirstOffset(prog);
      var all := entries + [EndE(0, 0, 0)];
      assert all[0..] == Flatten(prog) + [EndE(0, 0, 0)];
      var index := GetFirstNonLoop(all, 0, prog);
      first := all[index].disp;
    }
  }

  /**
   * opal_datatype_commit: both descriptions get a closing end marker with the size and the first
   * displacement of the datatype, and the optimised one is a rewriting of the original.
   */
  method Commit(entries: seq<Entry>, size: nat, ghost prog: Prog) returns (desc: seq<Entry>, opt: seq<Entry>)
    requires WellFormed(prog) && entries == Flatten(prog) && size == |Offs(prog, false)|
    ensures |desc| == |entries| + 1 && desc[..|entries|] == entries && desc[|entries|].EndE?
    ensures desc[|entries|].size == size && (size != 0 ==> desc[|entries|].first == Offs(prog, false)[0])
    ensures entries == [] ==> opt == []
    ensures entries != [] ==>
              && 0 < |opt| <= |desc| && Rewrites(prog, Opt(prog, EMPTY))
              && opt == Flatten(Opt(prog, EMPTY)) + [EndE(|Flatten(Opt(prog, EMPTY))|, size, desc[|entries|].first)]
  {
    var first := FirstDisplacement(entries, size, prog);
    desc := entries + [EndE(|entries|, size, first)];
    if |entries| == 0 {
      opt := [];
      return;
    }
    opt := OptimizeShort(desc, prog);
    opt := opt[..|opt| - 1] + [EndE(|opt| - 1, size, first)];
  }
}
