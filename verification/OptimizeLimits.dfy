/** Inputs beyond the limits of the optimiser, and the types that stay within them. */
module OptimizeLimits {
  import opened Offsets
  import opened Description
  import opened Walk
  import opened Wrappers
  import opened Rewrite
  import opened Packing
  import Committed
  import P = Pack

  /**
   * A description whose entries leave no gaps, which is what adding types yields unless LeavesGaps, is never squeezed.
   */
  lemma {:induction false} RegularKept(p: Prog)
    requires Regular(p)
    ensures Sane(p) && !Squeezes(p)
  {
    match p
    case Nil =>
    case Data(_, _, _, _, _, next) => RegularKept(next);
    case Loop(_, _, _, body, _, _, next) => RegularKept(body); RegularKept(next);
  }

  // ----- An entry with gaps is squeezed -----

  /** Two bytes at 0 and 4, then the byte at 2, which is where two adjacent bytes at 0 would end. */
  const GAPPED := Data(UINT1, 2, 0, 4, true, Data(UINT1, 1, 2, 1, true, Nil))

  /** The optimised description of GAPPED is three adjacent bytes: it transfers 0, 1, 2 in place of 0, 4, 2. */
  lemma {:induction false} SqueezeLoses()
    ensures WellFormed(GAPPED) && Squeezes(GAPPED) && Opt(GAPPED, EMPTY) == Data(UINT1, 3, 0, 1, true, Nil)
    ensures Offs(GAPPED, false) == [0, 4, 2] && Offs(Opt(GAPPED, EMPTY), true) == [0, 1, 2]
  {
    var next := GAPPED.next;
    assert Offs(Nil, false) == [] && Offs(Nil, true) == [];
    DataDense(UINT1, 1, 2, 1);
    assert Offs(next, false) == Range(2, 1) + [] == [2];
    StridedOne([0], 4);
    assert Range(0, 1) == [0];
    assert DataOffs(UINT1, 2, 0, 4) == [0] + Shift([0], 4) == [0, 4];
    DataDense(UINT1, 3, 0, 1);
    assert Range(0, 3) == [0, 1, 2];
    assert Consistent(next) && Sane(next);
    assert Opt(next, Last(UINT1, 2, 0, 4)) == Append(Nil, Opt(Nil, Last(UINT1, 3, 0, 1)));
  }

  // ----- A first iteration is folded -----

  /** Four bytes at 0, then four blocks of four bytes at 4, 12, 20 and 28. */
  const ORIGINAL := Data(UINT1, 4, 0, 1, true, Loop(4, 8, true, Data(UINT1, 4, 4, 1, true, Nil), 4, 4, Nil))

  /** The kept loop of its optimised form: three blocks, the end marker moved to 12, the body still at 4. */
  const KEPT := Loop(3, 8, true, Data(UINT1, 4, 4, 1, true, Nil), 12, 4, Nil)
  const OPTIMISED := Data(UINT1, 8, 0, 1, true, KEPT)

  lemma {:induction false} OriginalFacts()
    ensures WellFormed(ORIGINAL) && Folds(ORIGINAL, None) && Opt(ORIGINAL, EMPTY) == OPTIMISED
    ensures |Offs(ORIGINAL, false)| == 20 && Range(0, 8) + Range(12, 4) <= Offs(ORIGINAL, false)
  {
    DataDense(UINT1, 4, 0, 1);
    var loop, last := ORIGINAL.next, Last(UINT1, 4, 0, 1);
    BodyFacts();
    assert Folds(loop, Some(4));
    assert Meets(last, 4) && GapTail(loop, 3, 8) == KEPT;
    assert Opt(loop, last) == Append(OPTIMISED, Opt(Nil, EMPTY));
    AppendNil(OPTIMISED);
  }

  lemma {:induction false} BodyFacts()
    ensures var loop := ORIGINAL.next;
            && Sane(loop) && Consistent(loop) && |Offs(loop, false)| == 16
            && Range(0, 8) + Range(12, 4) <= Range(0, 4) + Offs(loop, false)
  {
    DataDense(UINT1, 4, 4, 1);
    var body, loop := ORIGINAL.next.body, ORIGINAL.next;
    assert Offs(Nil, false) == [];
    assert Offs(body, false) == Range(4, 4) + [] == Range(4, 4);
    assert Offs(loop, false) == Strided(Range(4, 4), 8, 4) + [];
    assert Sane(body) && Consistent(body);
    StridedLength(Range(4, 4), 8, 4);
    DueBytes(0, 4);
  }

  /** Where packing OPTIMISED begins, where the kept loop begins, and where its body does. */
  function AtStart(): Place { Here(Push(Code(OPTIMISED, OPTIMISED, 32), Level(-1, 1, 0), Empty), 0, 0) }
  function AtLoop(): Place { Here(SetRest(AtStart().s, KEPT), 1, 0) }
  function AtBody(): Place { Here(Into(AtLoop().s, 1, 3), 2, 0) }

  lemma {:induction false} FirstTurn()
    ensures Lively(AtStart()) && Lively(AtLoop()) && TurnOf(AtStart(), 8) == Step(Range(0, 8), false, AtLoop())
  {
    assert Positive(KEPT.body) && Positive(KEPT);
    DataDense(UINT1, 8, 0, 1);
    ShiftZero(Range(0, 8));
  }

  lemma {:induction false} LoopTurns()
    ensures Lively(AtLoop()) && Lively(AtBody()) && TurnOf(AtLoop(), 0) == Step([], false, AtBody())
  {
    assert Positive(KEPT.body) && Positive(KEPT);
    assert Strided(Range(12, 4), 8, 0) == [];
  }

  lemma {:induction false} BodyTurns()
    ensures Lively(AtBody()) && TurnOf(AtBody(), 0) == Step([], true, AtBody())
    ensures TurnOf(AtBody(), 4).x == Range(4, 4) && !TurnOf(AtBody(), 4).stuck
  {
    assert Positive(KEPT.body) && Positive(KEPT);
    assert DataOffs(UINT1, 0, 4, 1) == [];
    DataDense(UINT1, 4, 4, 1);
    ShiftZero(Range(4, 4));
  }

  /** A buffer of eight bytes ends at the body of the kept loop, and one of four then reads that body. */
  lemma {:induction false} FoldPlaces(p: Place, q: Place)
    requires p == AtStart() && q == AtBody()
    ensures Lively(p) && Lively(q) && Fill(p, 8) == Filled(Range(0, 8), q) && Fill(q, 4).x == Range(4, 4)
  {
    FirstTurn();
    LoopTurns();
    BodyTurns();
    Settles(p, AtLoop(), q);
    TurnFacts(q, 4);
    Reads(q);
  }

  lemma {:induction false} Settles(p: Place, h: Place, q: Place)
    requires p.Here? && h.Here? && q.Here? && Lively(p) && Lively(h) && Lively(q)
    requires TurnOf(p, 8) == Step(Range(0, 8), false, h)
    requires TurnOf(h, 0) == Step([], false, q) && TurnOf(q, 0) == Step([], true, q)
    ensures Fill(p, 8) == Filled(Range(0, 8), q)
  {
    assert Fill(q, 0) == Filled([], q);
    assert Fill(h, 0) == Filled([] + [], q);
    assert Fill(p, 8) == Filled(Range(0, 8) + [], q);
  }

  lemma {:induction false} Reads(q: Place)
    requires q.Here? && Lively(q) && TurnOf(q, 4).x == Range(4, 4) && !TurnOf(q, 4).stuck
    ensures Fill(q, 4).x == Range(4, 4)
  {
    var t := TurnOf(q, 4);
    TurnFacts(q, 4);
    assert Fill(q, 4).x == t.x + Fill(t.next, 0).x;
    assert Fill(t.next, 0).x == [];
  }

  /** Two calls of pack on one element, each with one buffer. */
  method TwoCalls(desc: seq<Entry>, size: nat, extent: int, mem: P.Memory, a: nat, b: nat, ghost prog: Prog)
    returns (first: seq<bv8>, second: seq<bv8>)
    requires At(desc, 0, prog) && Sized(prog) && size == |Offs(prog, true)| == |Offs(prog, false)|
    ensures var p := Start(prog, extent, 1);
            Lively(p) && first == P.Gather(mem, Fill(p, a).x) && second == P.Gather(mem, Fill(Fill(p, a).next, b).x)
  {
    var c := new P.Convertor(desc, size, extent, 1, mem, prog);
    FillAllOne(c.place, a);
    var rc, out := c.Pack([a]);
    first := P.Flat(out);
    FillAllOne(c.place, b);
    rc, out := c.Pack([b]);
    second := P.Flat(out);
  }

  /**
   * Two calls of pack on the committed form of ORIGINAL.  The first fills eight bytes, which end where the folded loop
   * begins; the second then receives the bytes at 4 where those at 12 are due.
   */
  method FoldBreaksResume(mem: P.Memory) returns (first: seq<bv8>, second: seq<bv8>)
    ensures first == P.Gather(mem, Range(0, 8)) && second == P.Gather(mem, Range(4, 4))
    ensures Range(0, 8) + Range(12, 4) <= Offs(ORIGINAL, false)
  {
    OriginalFacts();
    Committed.OptReady(ORIGINAL, 32, 1);
    var desc := Committed.Prepare(OriginalEntries(), 20, ORIGINAL);
    assert Start(OPTIMISED, 32, 1) == AtStart();
    FoldPlaces(AtStart(), AtBody());
    first, second := TwoCalls(desc, 20, 32, mem, 8, 4, OPTIMISED);
  }

  function OriginalEntries(): seq<Entry>
    ensures OriginalEntries() == Flatten(ORIGINAL)
  {
    var e := [ElemE(UINT1, 4, 0, 1, true), LoopE(4, 2, 8, true), ElemE(UINT1, 4, 4, 1, true), EndE(2, 4, 4)];
    assert Flatten(Nil) == [];
    assert Flatten(ORIGINAL.next.body) == [ElemE(UINT1, 4, 4, 1, true)] + [];
    assert Flatten(ORIGINAL.next) == [LoopE(4, 2, 8, true), ElemE(UINT1, 4, 4, 1, true), EndE(2, 4, 4)] + [];
    e
  }

  lemma {:induction false} DueBytes(first: int, n: nat)
    requires n >= 2
    ensures Range(first, 8) + Range(first + 12, 4) <= Range(first, 4) + Strided(Range(first + 4, 4), 8, n)
  {
    FirstThenRest(first + 4, 4, 8, n);
    FirstThenRest(first + 12, 4, 8, n - 1);
    RangeSplit(first, 4, 4);
    Grouped(Range(first, 4), Range(first + 4, 4), Range(first + 12, 4), Strided(Range(first + 20, 4), 8, n - 2));
  }

  lemma Grouped(a: seq<int>, b: seq<int>, c: seq<int>, d: seq<int>)
    ensures a + (b + (c + d)) == ((a + b) + c) + d
  {}
}
