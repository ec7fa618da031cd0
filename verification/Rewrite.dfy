/** The rewriting that the optimiser performs, as a function on programs, and what it preserves. */
module Rewrite {
  import opened Offsets
  import opened Description
  import opened Wrappers

  /** The run of bytes not written out yet: last_type, last_length, last_disp, last_extent. */
  datatype Last = Last(typ: nat, length: nat, disp: int, extent: int)

  predicate LastOk(l: Last)
  {
    l.length > 0 ==> BasicSize(l.typ) >= 1
  }

  /** ... and its elements leave no gap. */
  predicate Dense(l: Last)
  {
    LastOk(l) && (l.length <= 1 || l.extent == BasicSize(l.typ))
  }

  function Pend(l: Last): seq<int>
  {
    DataOffs(l.typ, l.length, l.disp, l.extent)
  }

  function PendCount(l: Last): nat
  {
    if l.length == 0 then 0 else 1
  }

  function PendEnd(l: Last): Option<int>
  {
    if l.length == 0 then None else Some(l.disp + l.length * BasicSize(l.typ))
  }

  function PendElem(l: Last): Prog
  {
    if l.length == 0 then Nil else Data(l.typ, l.length, l.disp, l.extent, true, Nil)
  }

  /**
   * Does the optimiser fold the first iteration of a kept loop into the bytes before it?  `prev` is the
   * end of those bytes.  A sibling that ends where a contiguous loop with gaps and at least four
   * iterations begins is what it takes.
   */
  predicate Folds(p: Prog, prev: Option<int>)
  {
    match p
    case Nil => false
    case Data(t, n, d, _, _, next) => Folds(next, Some(d + n * BasicSize(t)))
    case Loop(n, e, c, body, f, s, next) =>
      if !c then Folds(body, None) || Folds(next, None)
      else if e == s then Folds(next, Some(f + n * s))
      else (prev == Some(f) && n >= 4 && e != 0) || Folds(next, None)
  }

  // ----- What the optimiser takes a description for -----

  /** Does the input go on with bytes that can join a run which ends at `end`? */
  predicate Touches(rest: Prog, end: int)
  {
    match rest
    case Nil => false
    case Data(t, _, d, e, c, _) => c && e == BasicSize(t) && d == end
    case Loop(_, _, c, _, f, _, _) => c && f == end
  }

  /** An entry that bytes join loses its gaps: the end of the run is reckoned from the sizes alone. */
  function SeenExtent(t: nat, n: nat, d: int, e: int, rest: Prog): int
  {
    if n > 1 && Touches(rest, d + n * BasicSize(t)) then BasicSize(t) else e
  }

  /** The description that the optimiser in effect rewrites. */
  function Squeeze(p: Prog): Prog
  {
    match p
    case Nil => Nil
    case Data(t, n, d, e, c, next) => Data(t, n, d, SeenExtent(t, n, d, e, next), c, Squeeze(next))
    case Loop(n, e, c, body, f, s, next) => Loop(n, e, c, if c then body else Squeeze(body), f, s, Squeeze(next))
  }

  /** Is there an entry with gaps that the following bytes would touch if it had none? */
  predicate Squeezes(p: Prog)
  {
    match p
    case Nil => false
    case Data(t, n, d, e, _, next) =>
      (n > 1 && e != BasicSize(t) && Touches(next, d + n * BasicSize(t))) || Squeezes(next)
    case Loop(_, _, c, body, _, _, next) => (!c && Squeezes(body)) || Squeezes(next)
  }

  /** The elements of an entry are where they would be without gaps exactly when it has none. */
  lemma {:induction false} EntryExact(t: nat, n: nat, d: int, e: int)
    requires BasicSize(t) >= 1
    ensures |DataOffs(t, n, d, e)| == |DataOffs(t, n, d, BasicSize(t))|
    ensures DataOffs(t, n, d, e) == DataOffs(t, n, d, BasicSize(t)) <==> n <= 1 || e == BasicSize(t)
  {
    var u := Range(d, BasicSize(t));
    StridedLength(u, e, n);
    StridedLength(u, BasicSize(t), n);
    if n == 1 {
      StridedOne(u, e);
      StridedOne(u, BasicSize(t));
    } else if n > 1 && e != BasicSize(t) {
      SecondElement(u, e, n);
      SecondElement(u, BasicSize(t), n);
    }
  }

  lemma {:induction false} SecondElement(u: seq<int>, e: int, n: nat)
    requires n >= 2 && |u| >= 1
    ensures |Strided(u, e, n)| > |u| && Strided(u, e, n)[|u|] == u[0] + e
  {
    StridedFirst(u, e, n - 1);
  }

  /** The bytes are those of the original description exactly when no entry is squeezed. */
  lemma {:induction false} SqueezeExact(p: Prog)
    requires Sane(p)
    ensures |Offs(Squeeze(p), false)| == |Offs(p, false)|
    ensures Offs(Squeeze(p), false) == Offs(p, false) <==> !Squeezes(p)
  {
    match p
    case Nil =>
    case Data(t, n, d, e, c, next) =>
      SqueezeExact(next);
      EntryExact(t, n, d, e);
      Halves(DataOffs(t, n, d, SeenExtent(t, n, d, e, next)), DataOffs(t, n, d, e), Offs(Squeeze(next), false),
             Offs(next, false));
    case Loop(n, e, c, body, f, s, next) =>
      SqueezeExact(next);
      SqueezeExact(body);
      var b := if c then body else Squeeze(body);
      StridedExact(Offs(b, false), Offs(body, false), e, n);
      Halves(Strided(Offs(b, false), e, n), Strided(Offs(body, false), e, n), Offs(Squeeze(next), false),
             Offs(next, false));
  }

  /** The pending run as it will turn out, given what follows. */
  function Seen(l: Last, rest: Prog): Last
  {
    l.(extent := SeenExtent(l.typ, l.length, l.disp, l.extent, rest))
  }

  lemma {:induction false} PendRange(l: Last)
    requires Dense(l)
    ensures 0 <= l.length * BasicSize(l.typ) && Pend(l) == Range(l.disp, l.length * BasicSize(l.typ))
  {
    DataDense(l.typ, l.length, l.disp, l.extent);
  }

  /** The run l extended by m bytes that begin where it ends. */
  lemma {:induction false} Extend(l: Last, m: nat, l': Last)
    requires Dense(l) && Dense(l') && l'.disp == l.disp
    requires l'.length * BasicSize(l'.typ) == l.length * BasicSize(l.typ) + m
    ensures Pend(l) + Range(l.disp + l.length * BasicSize(l.typ), m) == Pend(l')
  {
    PendRange(l);
    PendRange(l');
    RangeSplit(l.disp, l.length * BasicSize(l.typ), m);
  }

  lemma {:induction false} PendElemOffs(l: Last)
    ensures Offs(PendElem(l), true) == Pend(l)
    ensures Consistent(PendElem(l)) && |Flatten(PendElem(l))| == PendCount(l)
    ensures Flatten(PendElem(l)) == if l.length == 0 then [] else [ElemE(l.typ, l.length, l.disp, l.extent, true)]
  {
    assert Offs(Nil, true) == [] && Flatten(Nil) == [];
    if l.length != 0 {
      assert Offs(PendElem(l), true) == Pend(l) + [];
      assert Flatten(PendElem(l)) == [ElemE(l.typ, l.length, l.disp, l.extent, true)] + [];
    }
  }

  /** The bytes of a data entry, merged into the pending run. */
  lemma {:induction false} DataMerged(last: Last, t: nat, n: nat, d: int, e: int, last': Last)
    requires Dense(last) && Dense(last') && n >= 1 && e == BasicSize(t)
    requires last'.disp == last.disp && last.disp + last.length * BasicSize(last.typ) == d
    requires last'.length * BasicSize(last'.typ) == last.length * BasicSize(last.typ) + n * BasicSize(t)
    ensures Pend(last) + DataOffs(t, n, d, e) == Pend(last')
  {
    DataDense(t, n, d, e);
    Extend(last, n * BasicSize(t), last');
  }

  /** k copies of a data entry, `stride` apart. */
  function Unrolled(t: nat, n: nat, d: int, e: int, c: bool, stride: int, k: nat): Prog
    decreases k
  {
    if k == 0 then Nil else Data(t, n, d, e, c, Unrolled(t, n, d + stride, e, c, stride, k - 1))
  }

  lemma {:induction false} UnrolledOffs(t: nat, n: nat, d: int, e: int, c: bool, stride: int, k: nat, marker: bool)
    ensures Offs(Unrolled(t, n, d, e, c, stride, k), marker) == Strided(DataOffs(t, n, d, e), stride, k)
    ensures |Flatten(Unrolled(t, n, d, e, c, stride, k))| == k
    ensures Consistent(Unrolled(t, n, d, e, c, stride, k))
    ensures n >= 1 && BasicSize(t) >= 1 ==> Neat(Unrolled(t, n, d, e, c, stride, k))
    decreases k
  {
    if k > 0 {
      UnrolledOffs(t, n, d + stride, e, c, stride, k - 1, marker);
      StridedShift(Range(d, BasicSize(t)), e, n, stride);
      ShiftRange(d, BasicSize(t), stride);
      StridedShift(DataOffs(t, n, d, e), stride, k - 1, stride);
    }
  }

  /** The pending run ends where something at `first` begins. */
  predicate Meets(last: Last, first: int)
  {
    last.length > 0 && last.disp + last.length * BasicSize(last.typ) == first
  }

  /** What is written for `counter` iterations of a contiguous loop with gaps, the first one moved by `merged`. */
  function GapTail(p: Prog, counter: nat, merged: int): Prog
    requires p.Loop?
  {
    if counter <= 2 then Unrolled(UINT1, p.size, p.first + merged, 1, true, p.extent, counter)
    else Loop(counter, p.extent, true, Data(UINT1, p.size, p.first, 1, true, Nil), p.first + merged, p.size, Nil)
  }

  lemma {:induction false} ByteRun(n: nat, d: int)
    requires n >= 1
    ensures Offs(Data(UINT1, n, d, 1, true, Nil), false) == Range(d, n)
            && Offs(Data(UINT1, n, d, 1, true, Nil), true) == Range(d, n)
    ensures |Flatten(Data(UINT1, n, d, 1, true, Nil))| == 1 && Consistent(Data(UINT1, n, d, 1, true, Nil))
  {
    DataDense(UINT1, n, d, 1);
    assert Offs(Nil, true) == [] && Offs(Nil, false) == [];
    assert Flatten(Data(UINT1, n, d, 1, true, Nil)) == [ElemE(UINT1, n, d, 1, true)] + [];
  }

  /** A kept loop over bytes agrees with its marker exactly when the marker was not moved. */
  lemma {:induction false} KeptLoop(n: nat, e: int, d: int, size: nat, merged: int)
    requires size >= 1
    ensures var q := Loop(n, e, true, Data(UINT1, size, d, 1, true, Nil), d + merged, size, Nil);
            && Offs(q, true) == Strided(Range(d + merged, size), e, n) && |Flatten(q)| == 3
            && (Consistent(q) <==> merged == 0)
  {
    var body := Data(UINT1, size, d, 1, true, Nil);
    var q := Loop(n, e, true, body, d + merged, size, Nil);
    ByteRun(size, d);
    assert Offs(q, true) == Strided(Range(d + merged, size), e, n) + [];
    assert Flatten(q) == Bracket(n, e, true, Flatten(body), d + merged, size) + [];
    if merged != 0 {
      assert Range(d, size)[0] != Range(d + merged, size)[0];
      assert Range(d, size) != Range(d + merged, size);
    }
  }

  lemma {:induction false} ShortTail(p: Prog, counter: nat, merged: int)
    requires p.Loop? && p.size >= 1
    ensures var q := Unrolled(UINT1, p.size, p.first + merged, 1, true, p.extent, counter);
            && Offs(q, true) == Strided(Range(p.first + merged, p.size), p.extent, counter)
            && Consistent(q) && Neat(q) && |Flatten(q)| == counter
  {
    DataDense(UINT1, p.size, p.first + merged, 1);
    UnrolledOffs(UINT1, p.size, p.first + merged, 1, true, p.extent, counter, true);
  }

  lemma {:induction false} GapTailFacts(p: Prog, counter: nat, merged: int)
    requires p.Loop? && p.size >= 1
    ensures Offs(GapTail(p, counter, merged), true) == Strided(Range(p.first + merged, p.size), p.extent, counter)
    ensures Consistent(GapTail(p, counter, merged)) <==> counter <= 2 || merged == 0
    ensures |Flatten(GapTail(p, counter, merged))| <= 3 && Neat(GapTail(p, counter, merged))
  {
    if counter <= 2 {
      ShortTail(p, counter, merged);
    } else {
      KeptLoop(counter, p.extent, p.first, p.size, merged);
    }
  }

  /** The output for a contiguous loop with gaps, and whether its first iteration joins the pending run. */
  function GapOut(p: Prog, last: Last): Prog
    requires p.Loop?
  {
    if Meets(last, p.first) && p.loops >= 1 then
      Data(UINT1, last.length * BasicSize(last.typ) + p.size, last.disp, 1, true, GapTail(p, p.loops - 1, p.extent))
    else Append(PendElem(last), GapTail(p, p.loops, 0))
  }

  lemma {:induction false} GapOutFacts(p: Prog, last: Last)
    requires p.Loop? && p.contig && p.loops >= 1 && p.size >= 1 && LastOk(last)
    ensures Offs(GapOut(p, last), true) == Pend(Seen(last, p)) + Strided(Range(p.first, p.size), p.extent, p.loops)
    ensures |Flatten(GapOut(p, last))| <= PendCount(last) + 3 && Neat(GapOut(p, last))
    ensures Consistent(GapOut(p, last)) <==> !(PendEnd(last) == Some(p.first) && p.loops >= 4 && p.extent != 0)
  {
    var bytes := last.length * BasicSize(last.typ);
    if last.length != 0 && last.disp + bytes == p.first {
      PendRange(Seen(last, p));
      GapMerged(p, last.disp, bytes);
    } else {
      GapApart(p, last);
    }
  }

  lemma {:induction false} GapApart(p: Prog, last: Last)
    requires p.Loop? && p.loops >= 1 && p.size >= 1 && LastOk(last)
    ensures var q := Append(PendElem(last), GapTail(p, p.loops, 0));
            && Offs(q, true) == Pend(last) + Strided(Range(p.first, p.size), p.extent, p.loops)
            && |Flatten(q)| <= PendCount(last) + 3 && Consistent(q) && Neat(q)
  {
    var tail := GapTail(p, p.loops, 0);
    GapTailFacts(p, p.loops, 0);
    PendElemOffs(last);
    OffsAppend(PendElem(last), tail, true);
    ConsistentAppend(PendElem(last), tail);
    NeatAppend(PendElem(last), tail);
    FlattenAppend(PendElem(last), tail);
  }

  /** A run of single bytes in front of something. */
  lemma {:induction false} BytesThen(n: nat, d: int, next: Prog)
    requires n >= 1
    ensures var q := Data(UINT1, n, d, 1, true, next);
            Offs(q, true) == Range(d, n) + Offs(next, true) && |Flatten(q)| == 1 + |Flatten(next)|
              && (Consistent(q) <==> Consistent(next))
  {
    DataDense(UINT1, n, d, 1);
  }

  lemma {:induction false} GapMerged(p: Prog, disp: int, bytes: nat)
    requires p.Loop? && p.loops >= 1 && p.size >= 1 && disp + bytes == p.first
    ensures var q := Data(UINT1, bytes + p.size, disp, 1, true, GapTail(p, p.loops - 1, p.extent));
            && Offs(q, true) == Range(disp, bytes) + Strided(Range(p.first, p.size), p.extent, p.loops)
            && |Flatten(q)| <= 4 && Neat(q) && (Consistent(q) <==> p.loops <= 3 || p.extent == 0)
  {
    var tail := GapTail(p, p.loops - 1, p.extent);
    GapTailFacts(p, p.loops - 1, p.extent);
    BytesThen(bytes + p.size, disp, tail);
    RangeSplit(disp, bytes, p.size);
    FirstThenRest(p.first, p.size, p.extent, p.loops);
    ConcatAssoc(Range(disp, bytes), Range(p.first, p.size), Offs(tail, true));
  }

  lemma {:induction false} FirstThenRest(first: int, size: nat, extent: int, n: nat)
    requires n >= 1
    ensures Strided(Range(first, size), extent, n)
            == Range(first, size) + Strided(Range(first + extent, size), extent, n - 1)
  {
    ShiftRange(first, size, extent);
    StridedShift(Range(first, size), extent, n - 1, extent);
  }

  // ----- What is written for each item, and the run that is then pending -----

  const EMPTY := Last(UINT1, 0, 0, 1)

  /** The pending run after the data entry p joined it, as bytes if the types differ. */
  function Joined(p: Prog, last: Last): Last
    requires p.Data?
  {
    if p.typ == last.typ then last.(length := last.length + p.count, extent := p.extent)
    else Last(UINT1, last.length * BasicSize(last.typ) + p.count * BasicSize(p.typ), last.disp, 1)
  }

  predicate Joins(p: Prog, last: Last)
    requires p.Data?
  {
    p.contig && p.extent == BasicSize(p.typ) && Meets(last, p.disp)
  }

  /** A loop around one data entry that is replaced. */
  predicate Small(p: Prog)
    requires p.Loop?
  {
    && !p.contig && p.body.Data? && p.body.next == Nil
    && ((p.body.count == 1 && p.body.extent == BasicSize(p.body.typ)) || p.loops < 3)
  }

  /** ... by one strided entry, or by copies of the entry. */
  function Replaced(p: Prog): Prog
    requires p.Loop? && p.body.Data?
  {
    var b := p.body;
    if b.count == 1 && b.extent == BasicSize(b.typ) then Data(b.typ, p.loops, b.disp, p.extent, false, Nil)
    else Unrolled(b.typ, b.count, b.disp, b.extent, b.contig, p.extent, p.loops)
  }

  /** What is written when the first item of p is passed. */
  function Emit(p: Prog, last: Last): Prog
    requires p != Nil
    decreases p, 0
  {
    match p
    case Data(_, _, _, _, _, _) => if Joins(p, last) then Nil else PendElem(last)
    case Loop(n, e, c, body, f, s, next) =>
      if c && e == s then if Meets(last, f) then Nil else PendElem(last)
      else if c then GapOut(p, last)
      else Append(PendElem(last), if Small(p) then Replaced(p) else Loop(n, e, false, Opt(body, EMPTY), f, s, Nil))
  }

  /** ... and the run that is pending then. */
  function After(p: Prog, last: Last): Last
    requires p != Nil
  {
    match p
    case Data(t, n, d, e, _, _) => if Joins(p, last) then Joined(p, last) else Last(t, n, d, e)
    case Loop(n, e, c, body, f, s, next) =>
      if c && e == s then
        if Meets(last, f) then Last(UINT1, last.length * BasicSize(last.typ) + n * s, last.disp, 1)
          else Last(UINT1, n * s, f, 1)
      else EMPTY
  }

  /** The optimised program, with `last` still to be written. */
  function Opt(p: Prog, last: Last): Prog
    decreases p, 1
  {
    if p == Nil then PendElem(last) else Append(Emit(p, last), Opt(p.next, After(p, last)))
  }

  /** The first item of p alone, as the optimiser takes it. */
  function Item(p: Prog): Prog
    requires p != Nil
  {
    match p
    case Data(t, n, d, e, c, next) => Data(t, n, d, SeenExtent(t, n, d, e, next), c, Nil)
    case Loop(n, e, c, body, f, s, _) => Loop(n, e, c, if c then body else Squeeze(body), f, s, Nil)
  }

  /** Passing the first item transfers its bytes, keeps the length in check, and folds it exactly when Folds says so. */
  predicate Passes(p: Prog, last: Last, item: Prog, q: Prog, last': Last)
    requires p != Nil
  {
    && LastOk(last') && Pend(Seen(last, p)) + Offs(item, false) == Offs(q, true) + Pend(Seen(last', p.next))
    && |Flatten(q)| + PendCount(last') <= |Flatten(item)| + PendCount(last)
    && Neat(q) && (Folds(p, PendEnd(last)) <==> !Consistent(q) || Folds(p.next, PendEnd(last')))
  }

  lemma {:induction false} ItemFacts(p: Prog)
    requires p != Nil
    ensures Squeeze(p) == Append(Item(p), Squeeze(p.next))
    ensures Offs(Squeeze(p), false) == Offs(Item(p), false) + Offs(Squeeze(p.next), false)
  {
    assert Append(Nil, Squeeze(p.next)) == Squeeze(p.next);
    OffsAppend(Item(p), Squeeze(p.next), false);
  }

  // ----- Each item is passed -----

  lemma {:induction false} DataItem(p: Prog)
    requires p.Data?
    ensures Offs(Item(p), false) == DataOffs(p.typ, p.count, p.disp, Item(p).extent) && |Flatten(Item(p))| == 1
  {
    assert Offs(Item(p), false) == DataOffs(p.typ, p.count, p.disp, Item(p).extent) + [];
    assert Flatten(Item(p)) == [ElemE(p.typ, p.count, p.disp, Item(p).extent, p.contig)] + [];
  }

  lemma {:induction false} JoinedFacts(p: Prog, last: Last)
    requires p.Data? && p.count >= 1 && p.extent == BasicSize(p.typ) >= 1 && LastOk(last) && last.length > 0
    ensures Dense(Joined(p, last)) && Joined(p, last).length > 0 && Joined(p, last).disp == last.disp
    ensures var l := Joined(p, last);
            l.length * BasicSize(l.typ) == last.length * BasicSize(last.typ) + p.count * BasicSize(p.typ)
  {
    SumTimes(last.length, p.count, BasicSize(p.typ));
    ProductPositive(p.count, BasicSize(p.typ));
  }

  lemma SumTimes(a: nat, b: nat, c: nat)
    ensures (a + b) * c == a * c + b * c
  {}

  lemma ProductPositive(a: nat, b: nat)
    requires a >= 1 && b >= 1
    ensures a * b >= 1
  {}

  lemma {:induction false} DataPasses(p: Prog, last: Last)
    requires p.Data? && WellFormed(p) && LastOk(last)
    ensures Passes(p, last, Item(p), Emit(p, last), After(p, last))
  {
    DataItem(p);
    PendElemOffs(last);
    if Joins(p, last) {
      JoinedFacts(p, last);
      DataMerged(Seen(last, p), p.typ, p.count, p.disp, p.extent, Joined(p, last));
      assert Offs(Nil, true) == [] && [] + Pend(Joined(p, last)) == Pend(Joined(p, last)) && Flatten(Nil) == [];
    }
  }

  lemma {:induction false} LoopItem(p: Prog)
    requires p.Loop?
    ensures |Flatten(Item(p))| == |Flatten(Item(p).body)| + 2
    ensures Offs(Item(p), false) == Strided(Offs(Item(p).body, false), p.extent, p.loops)
  {
    assert Offs(Nil, false) == [] && Flatten(Nil) == [];
  }

  lemma {:induction false} NonEmpty(p: Prog)
    ensures |Flatten(p)| >= 1 <==> p != Nil
  {}

  /** A contiguous loop without gaps is one run of bytes. */
  lemma {:induction false} FullItem(p: Prog, bytes: nat)
    requires p.Loop? && WellFormed(p) && p.contig && p.extent == p.size && bytes == p.loops * p.size
    ensures Offs(Item(p), false) == Range(p.first, bytes) && |Flatten(Item(p))| >= 3 && bytes >= 1
  {
    LoopItem(p);
    NonEmpty(p.body);
    StridedDense(p.first, p.size, p.loops);
    ProductPositive(p.loops, p.size);
  }

  lemma {:induction false} FullJoins(p: Prog, last: Last, bytes: nat, last': Last)
    requires LastOk(last) && Touches(p, last.disp + last.length * BasicSize(last.typ)) && last.length > 0 && p.Loop?
             && bytes >= 1
    requires last' == Last(UINT1, last.length * BasicSize(last.typ) + bytes, last.disp, 1)
    ensures Pend(Seen(last, p)) + Range(p.first, bytes) == Pend(last')
  {
    assert Dense(Seen(last, p)) && Dense(last');
    Extend(Seen(last, p), bytes, last');
  }

  lemma {:induction false} FullRun(p: Prog, last: Last, bytes: nat)
    requires p.Loop? && Sane(p) && LastOk(last) && p.contig && p.extent == p.size && bytes == p.loops * p.size
             && bytes >= 1
    ensures var q, last' := Emit(p, last), After(p, last);
            && Dense(last') && last'.length >= 1 && PendEnd(last') == Some(p.first + bytes)
            && Pend(Seen(last, p)) + Range(p.first, bytes) == Offs(q, true) + Pend(last')
            && |Flatten(q)| <= PendCount(last) && Neat(q) && Consistent(q)
  {
    var last' := After(p, last);
    PendElemOffs(last);
    if Meets(last, p.first) {
      FullJoins(p, last, bytes, last');
      assert Offs(Nil, true) == [] && [] + Pend(last') == Pend(last') && Flatten(Nil) == [];
    } else {
      PendRange(last');
      assert Seen(last, p) == last;
    }
  }

  lemma {:induction false} FullPasses(p: Prog, last: Last)
    requires p.Loop? && WellFormed(p) && LastOk(last) && p.contig && p.extent == p.size
    ensures Passes(p, last, Item(p), Emit(p, last), After(p, last))
  {
    var bytes := p.loops * p.size;
    FullItem(p, bytes);
    FullRun(p, last, bytes);
    assert Seen(After(p, last), p.next) == After(p, last);
  }

  lemma {:induction false} GapPasses(p: Prog, last: Last)
    requires p.Loop? && WellFormed(p) && LastOk(last) && p.contig && p.extent != p.size
    ensures Passes(p, last, Item(p), Emit(p, last), After(p, last))
  {
    LoopItem(p);
    NonEmpty(p.body);
    GapOutFacts(p, last);
    assert Pend(Seen(EMPTY, p.next)) == [];
  }

  /** A loop around a single data entry becomes one strided entry, or is unrolled. */
  lemma {:induction false} SmallItem(p: Prog)
    requires p.Loop? && Sane(p) && Small(p)
    ensures Squeeze(p.body) == p.body && !Folds(p.body, None)
    ensures Offs(Replaced(p), true) == Offs(Item(p), false) && Consistent(Replaced(p)) && Neat(Replaced(p))
            && |Flatten(Replaced(p))| <= 3
  {
    var b, q := p.body, Replaced(p);
    LoopItem(p);
    assert Offs(Nil, true) == [] && Offs(Nil, false) == [] && Flatten(Nil) == [];
    assert Offs(b, false) == DataOffs(b.typ, b.count, b.disp, b.extent);
    if b.count == 1 && b.extent == BasicSize(b.typ) {
      StridedOne(Range(b.disp, BasicSize(b.typ)), b.extent);
      assert Offs(q, true) == DataOffs(b.typ, p.loops, b.disp, p.extent);
      assert |Flatten(q)| == 1;
    } else {
      UnrolledOffs(b.typ, b.count, b.disp, b.extent, b.contig, p.extent, p.loops, true);
    }
  }

  /** Something written after the pending run, with nothing pending then. */
  lemma {:induction false} Apart(p: Prog, last: Last, q: Prog)
    requires p.Loop? && !p.contig && Offs(q, true) == Offs(Item(p), false) && Neat(q)
             && |Flatten(q)| <= |Flatten(Item(p))|
    requires Consistent(q) <==> !Folds(p.body, None)
    requires LastOk(last)
    ensures Passes(p, last, Item(p), Append(PendElem(last), q), EMPTY)
  {
    PendElemOffs(last);
    OffsAppend(PendElem(last), q, true);
    FlattenAppend(PendElem(last), q);
    ConsistentAppend(PendElem(last), q);
    NeatAppend(PendElem(last), q);
    assert Seen(last, p) == last && Pend(Seen(EMPTY, p.next)) == [];
  }

  lemma {:induction false} SmallPasses(p: Prog, last: Last)
    requires p.Loop? && WellFormed(p) && LastOk(last) && Small(p)
    ensures Passes(p, last, Item(p), Emit(p, last), After(p, last))
  {
    SmallItem(p);
    LoopItem(p);
    NonEmpty(p.body);
    Apart(p, last, Replaced(p));
  }

  lemma {:induction false} KeptPasses(p: Prog, last: Last)
    requires p.Loop? && WellFormed(p) && LastOk(last) && !p.contig && !Small(p) && Sound(p.body, EMPTY)
    ensures Passes(p, last, Item(p), Emit(p, last), After(p, last))
  {
    var b := Opt(p.body, EMPTY);
    var q := Loop(p.loops, p.extent, false, b, p.first, p.size, Nil);
    LoopItem(p);
    SqueezeLength(p.body);
    assert Pend(Seen(EMPTY, p.body)) == [];
    assert Offs(b, true) == Offs(Squeeze(p.body), false);
    assert Offs(q, true) == Strided(Offs(b, true), p.extent, p.loops) + [];
    assert Flatten(q) == Bracket(p.loops, p.extent, false, Flatten(b), p.first, p.size) + [];
    Apart(p, last, q);
  }

  lemma {:induction false} SqueezeLength(p: Prog)
    ensures |Flatten(Squeeze(p))| == |Flatten(p)|
  {
    match p
    case Nil =>
    case Data(_, _, _, _, _, next) => SqueezeLength(next);
    case Loop(_, _, _, body, _, _, next) => SqueezeLength(body); SqueezeLength(next);
  }

  lemma {:induction false} ItemPasses(p: Prog, last: Last)
    requires p != Nil && WellFormed(p) && LastOk(last) && (p.Loop? && !p.contig ==> Sound(p.body, EMPTY))
    ensures Passes(p, last, Item(p), Emit(p, last), After(p, last))
  {
    if p.Data? {
      DataPasses(p, last);
    } else if p.contig {
      if p.extent == p.size { FullPasses(p, last); } else { GapPasses(p, last); }
    } else if Small(p) {
      SmallPasses(p, last);
    } else {
      KeptPasses(p, last);
    }
  }

  // ----- The rewriting as a whole -----

  /**
   * The optimised form of p, with the run last in front of it: read through the end markers it transfers last and
   * then p as the optimiser takes it, it is not longer, it is neat, and the bodies of its contiguous loops agree
   * with their end markers exactly when no first iteration is folded into the bytes before a kept loop.
   */
  predicate Sound(p: Prog, last: Last)
  {
    var q := Opt(p, last);
    && Offs(q, true) == Pend(Seen(last, p)) + Offs(Squeeze(p), false)
    && |Flatten(q)| <= |Flatten(p)| + PendCount(last)
    && Neat(q) && (Consistent(q) <==> !Folds(p, PendEnd(last)))
  }

  lemma {:induction false} SoundNil(last: Last)
    requires LastOk(last)
    ensures Sound(Nil, last)
  {
    PendElemOffs(last);
    assert Offs(Nil, false) == [] && Flatten(Nil) == [] && Seen(last, Nil) == last;
  }

  lemma {:induction false} SoundNext(p: Prog, last: Last, q: Prog, last': Last)
    requires p != Nil && q == Emit(p, last) && last' == After(p, last)
    requires Passes(p, last, Item(p), q, last') && Sound(p.next, last')
    ensures Sound(p, last)
  {
    var rest := Opt(p.next, last');
    ItemFacts(p);
    SqueezeLength(p);
    SqueezeLength(p.next);
    FlattenAppend(Item(p), Squeeze(p.next));
    FlattenAppend(q, rest);
    NeatAppend(q, rest);
    ConsistentAppend(q, rest);
    OffsAppend(q, rest, true);
    ConcatAssoc(Offs(q, true), Pend(Seen(last', p.next)), Offs(Squeeze(p.next), false));
    ConcatAssoc(Pend(Seen(last, p)), Offs(Item(p), false), Offs(Squeeze(p.next), false));
  }

  lemma {:induction false} OptSound(p: Prog, last: Last)
    requires WellFormed(p) && LastOk(last)
    ensures Sound(p, last)
    decreases p
  {
    if p == Nil {
      SoundNil(last);
    } else {
      if p.Loop? && !p.contig { OptSound(p.body, EMPTY); }
      ItemPasses(p, last);
      OptSound(p.next, After(p, last));
      SoundNext(p, last, Emit(p, last), After(p, last));
    }
  }

  /**
   * res is what prog may be rewritten to: read through the end markers it transfers as many bytes, the same ones in
   * the same order exactly when no entry is squeezed; and read through the loop bodies it transfers those bytes
   * exactly when no first iteration is folded either.
   */
  predicate Rewrites(prog: Prog, res: Prog)
  {
    && Neat(res) && |Offs(res, true)| == |Offs(prog, false)|
    && (Offs(res, true) == Offs(prog, false) <==> !Squeezes(prog))
    && (Consistent(res) <==> !Folds(prog, None))
  }

  lemma {:induction false} OptRewrites(prog: Prog)
    requires WellFormed(prog)
    ensures Offs(Opt(prog, EMPTY), true) == Offs(Squeeze(prog), false) && Rewrites(prog, Opt(prog, EMPTY))
    ensures |Flatten(Opt(prog, EMPTY))| <= |Flatten(prog)|
  {
    OptSound(prog, EMPTY);
    SqueezeExact(prog);
    assert Pend(Seen(EMPTY, prog)) == [];
  }
}
