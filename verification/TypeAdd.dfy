/** opal_datatype_add: appending count copies of one datatype to another. */
module TypeAdd {
  import opened Offsets
  import opened Description

  const LB := 2
  const UB := 3
  const LONG_MAX := 0x7fff_ffff_ffff_ffff
  const LONG_MIN := -0x8000_0000_0000_0000

  function LMin(a: int, b: int): int { if a < b then a else b }
  function LMax(a: int, b: int): int { if a < b then b else a }

  /** The C remainder, which takes the sign of its first operand. */
  function TruncMod(a: int, b: int): int
    requires b > 0
  {
    if a >= 0 then a % b else -((-a) % b)
  }

  // ----- Translating a description -----

  function ShiftProg(p: Prog, d: int): Prog
  {
    match p
    case Nil => Nil
    case Data(t, n, disp, e, c, next) => Data(t, n, disp + d, e, c, ShiftProg(next, d))
    case Loop(n, e, c, body, f, s, next) => Loop(n, e, c, ShiftProg(body, d), f + d, s, ShiftProg(next, d))
  }

  function ShiftEntry(e: Entry, d: int): Entry
  {
    match e
    case ElemE(t, n, disp, x, c) => ElemE(t, n, disp + d, x, c)
    case LoopE(_, _, _, _) => e
    case EndE(i, s, f) => EndE(i, s, f + d)
  }

  function ShiftAll(entries: seq<Entry>, d: int): seq<Entry>
  {
    seq(|entries|, i requires 0 <= i < |entries| => ShiftEntry(entries[i], d))
  }

  lemma ShiftAllAppend(a: seq<Entry>, b: seq<Entry>, d: int)
    ensures ShiftAll(a + b, d) == ShiftAll(a, d) + ShiftAll(b, d)
  {}

  /** The loop that copies the entries of the added type, moving displacements. */
  method ShiftEntries(entries: seq<Entry>, d: int, ghost p: Prog) returns (out: seq<Entry>)
    requires entries == Flatten(p)
    ensures out == Flatten(ShiftProg(p, d))
  {
    out := [];
    while |out| < |entries|
      invariant |out| <= |entries| && forall i :: 0 <= i < |out| ==> out[i] == ShiftEntry(entries[i], d)
    {
      out := out + [ShiftEntry(entries[|out|], d)];
    }
    assert out == ShiftAll(entries, d);
    ShiftFlatten(p, d);
  }

  lemma {:induction false} ShiftFlatten(p: Prog, d: int)
    ensures ShiftAll(Flatten(p), d) == Flatten(ShiftProg(p, d))
  {
    match p
    case Nil =>
    case Data(t, n, disp, e, c, next) =>
      ShiftFlatten(next, d);
      ShiftAllAppend([ElemE(t, n, disp, e, c)], Flatten(next), d);
    case Loop(n, e, c, body, f, s, next) =>
      ShiftFlatten(body, d);
      ShiftFlatten(next, d);
      ShiftBracket(n, e, c, Flatten(body), f, s, d);
      ShiftAllAppend(Bracket(n, e, c, Flatten(body), f, s), Flatten(next), d);
  }

  lemma ShiftBracket(n: nat, e: int, c: bool, b: seq<Entry>, f: int, s: nat, d: int)
    ensures ShiftAll(Bracket(n, e, c, b, f, s), d) == Bracket(n, e, c, ShiftAll(b, d), f + d, s)
  {}

  lemma {:induction false} ShiftData(t: nat, n: nat, disp: int, e: int, d: int)
    ensures Shift(DataOffs(t, n, disp, e), d) == DataOffs(t, n, disp + d, e)
  {
    StridedShift(Range(disp, BasicSize(t)), e, n, d);
    ShiftRange(disp, BasicSize(t), d);
  }

  /** Moving every displacement of a description moves its bytes. */
  lemma {:induction false} ShiftOffs(p: Prog, d: int, marker: bool)
    ensures Offs(ShiftProg(p, d), marker) == Shift(Offs(p, marker), d)
  {
    match p
    case Nil =>
    case Data(t, n, disp, e, _, next) =>
      ShiftOffs(next, d, marker);
      ShiftOffsData(p, d, marker);
    case Loop(n, e, c, body, f, s, next) =>
      ShiftOffs(body, d, marker);
      ShiftOffs(next, d, marker);
      ShiftOffsLoop(p, d, marker);
  }

  lemma {:induction false} ShiftOffsData(p: Prog, d: int, marker: bool)
    requires p.Data? && Offs(ShiftProg(p.next, d), marker) == Shift(Offs(p.next, marker), d)
    ensures Offs(ShiftProg(p, d), marker) == Shift(Offs(p, marker), d)
  {
    var v := DataOffs(p.typ, p.count, p.disp, p.extent);
    ShiftData(p.typ, p.count, p.disp, p.extent, d);
    ShiftAppend(v, Offs(p.next, marker), d);
    assert Offs(ShiftProg(p, d), marker)
      == DataOffs(p.typ, p.count, p.disp + d, p.extent) + Offs(ShiftProg(p.next, d), marker);
  }

  lemma {:induction false} ShiftOffsLoop(p: Prog, d: int, marker: bool)
    requires p.Loop? && Offs(ShiftProg(p.body, d), marker) == Shift(Offs(p.body, marker), d)
    requires Offs(ShiftProg(p.next, d), marker) == Shift(Offs(p.next, marker), d)
    ensures Offs(ShiftProg(p, d), marker) == Shift(Offs(p, marker), d)
  {
    ShiftRange(p.first, p.size, d);
    var u := if marker && p.contig then Range(p.first, p.size) else Offs(p.body, marker);
    ShiftBlock(u, p.extent, p.loops, Offs(p.next, marker), d);
    assert Offs(p, marker) == Strided(u, p.extent, p.loops) + Offs(p.next, marker);
    assert Offs(ShiftProg(p, d), marker) == Strided(Shift(u, d), p.extent, p.loops) + Shift(Offs(p.next, marker), d);
  }

  lemma {:induction false} ShiftBlock(u: seq<int>, e: int, n: nat, v: seq<int>, d: int)
    ensures Strided(Shift(u, d), e, n) + Shift(v, d) == Shift(Strided(u, e, n) + v, d)
  {
    StridedShift(u, e, n, d);
    ShiftAppend(Strided(u, e, n), v, d);
  }

  lemma {:induction false} ShiftKeeps(p: Prog, d: int)
    ensures Sane(p) ==> Sane(ShiftProg(p, d))
    ensures Regular(p) ==> Regular(ShiftProg(p, d))
    ensures Consistent(p) ==> Consistent(ShiftProg(p, d))
  {
    match p
    case Nil =>
    case Data(_, _, _, _, _, next) => ShiftKeeps(next, d);
    case Loop(_, _, _, body, f, s, next) =>
      ShiftKeeps(body, d);
      ShiftKeeps(next, d);
      ShiftOffs(body, d, false);
      ShiftRange(f, s, d);
  }

  lemma {:induction false} KeepsAppend(p: Prog, q: Prog)
    ensures Sane(Append(p, q)) <==> Sane(p) && Sane(q)
    ensures Regular(Append(p, q)) <==> Regular(p) && Regular(q)
  {
    match p
    case Nil =>
    case Data(_, _, _, _, _, next) => KeepsAppend(next, q);
    case Loop(_, _, _, _, _, _, next) => KeepsAppend(next, q);
  }

  /** What adding appends to the type map: count copies of s, the first moved by disp. */
  function Copies(s: seq<int>, count: nat, disp: int, extent: int): seq<int>
  {
    Strided(Shift(s, disp), extent, count)
  }

  /**
   * Multiplying the element count of a single entry is the same as repeating the entry exactly when one
   * of the counts is one, or the elements all lie on each other.
   */
  lemma {:induction false} Collapse(t: nat, n: nat, d: int, e: int, count: nat)
    requires n >= 1 && count >= 1 && BasicSize(t) >= 1
    ensures DataOffs(t, n * count, d, e) == Strided(DataOffs(t, n, d, e), e, count) <==> n == 1 || count == 1 || e == 0
  {
    var u := Range(d, BasicSize(t));
    StridedOne(u, e);
    StridedOne(Strided(u, e, n), e);
    if e == 0 {
      CollapseZero(u, n, count);
    } else if n > 1 && count > 1 {
      var k := n * BasicSize(t);
      CollapseDiffers(u, e, n, count);
    }
  }

  lemma {:induction false} CollapseZero(u: seq<int>, n: nat, count: nat)
    ensures 0 <= n * count && Strided(u, 0, n * count) == Strided(Strided(u, 0, n), 0, count)
    decreases count
  {
    if count > 0 {
      CollapseZero(u, n, count - 1);
      MulPred(count, n);
      StridedSplit(u, 0, n, n * (count - 1), 0);
    }
  }

  /** The first byte of the second copy is at e in one reading and at n * e in the other. */
  lemma {:induction false} CollapseDiffers(u: seq<int>, e: int, n: nat, count: nat)
    requires |u| >= 1 && n > 1 && count > 1 && e != 0
    ensures 0 <= n * count && Strided(u, e, n * count) != Strided(Strided(u, e, n), e, count)
  {
    var s := Strided(u, e, n);
    StridedLength(u, e, n);
    StridedFirst(u, e, n);
    var k := |s|;
    MulPred(count, n);
    assert n * count == n + n * (count - 1);
    assert n * (count - 1) >= 1;
    var m := n * (count - 1);
    StridedSplit(u, e, n, m, n * e);
    StridedFirst(u, e, m);
    var a, b := Strided(u, e, n + m), Strided(s, e, count);
    assert a == s + Shift(Strided(u, e, m), n * e);
    assert a[k] == u[0] + n * e;
    StridedFirst(s, e, count - 1);
    assert b == s + Shift(Strided(s, e, count - 1), e);
    assert b[k] == s[0] + e;
    assert n * e != e by { assert (n - 1) * e != 0; MulPred(n, e); }
  }

  // ----- Bounds -----

  /** lo is the least of the offsets and hi is one past the greatest, if there are any. */
  predicate Spans(s: seq<int>, lo: int, hi: int)
  {
    (forall i :: 0 <= i < |s| ==> lo <= s[i] < hi) && (s != [] ==> lo in s && hi - 1 in s)
  }

  lemma ShiftIn(s: seq<int>, x: int, d: int)
    requires x in s
    ensures x + d in Shift(s, d)
  {
    var i :| 0 <= i < |s| && s[i] == x;
    assert Shift(s, d)[i] == x + d;
  }

  lemma {:induction false} SpansShift(s: seq<int>, lo: int, hi: int, d: int)
    requires Spans(s, lo, hi)
    ensures Spans(Shift(s, d), lo + d, hi + d)
  {
    if s != [] {
      ShiftIn(s, lo, d);
      ShiftIn(s, hi - 1, d);
    }
  }

  lemma SpansJoin(s: seq<int>, lo: int, hi: int, t: seq<int>, lo': int, hi': int)
    requires Spans(s, lo, hi) && Spans(t, lo', hi') && t != [] && (s == [] ==> lo' <= lo && hi <= hi')
    ensures Spans(s + t, LMin(lo', lo), LMax(hi', hi))
  {}

  /** Copies at a stride of either sign reach from the first to the last copy. */
  lemma {:induction false} SpansStrided(s: seq<int>, extent: int, n: nat, lo: int, hi: int, span: int)
    requires Spans(s, lo, hi) && s != [] && n >= 1 && span == extent * (n - 1)
    ensures Strided(s, extent, n) != [] && Spans(Strided(s, extent, n), lo + LMin(0, span), hi + LMax(0, span))
  {
    if n == 1 {
      StridedOne(s, extent);
    } else {
      assert span - extent == extent * (n - 2) by { MulPred(n - 1, extent); }
      SpanSign(extent, n - 1, span);
      SpansStrided(s, extent, n - 1, lo, hi, span - extent);
      SpansNext(s, Strided(s, extent, n - 1), extent, lo, hi, span);
    }
  }

  lemma SpansNext(s: seq<int>, rest: seq<int>, e: int, lo: int, hi: int, span: int)
    requires Spans(s, lo, hi) && s != [] && rest != [] && (e >= 0 ==> span >= e) && (e <= 0 ==> span <= e)
    requires Spans(rest, lo + LMin(0, span - e), hi + LMax(0, span - e))
    ensures Spans(s + Shift(rest, e), lo + LMin(0, span), hi + LMax(0, span))
  {
    var lo', hi' := lo + LMin(0, span - e), hi + LMax(0, span - e);
    SpansShift(rest, lo', hi', e);
    SpansJoin(s, lo, hi, Shift(rest, e), lo' + e, hi' + e);
  }

  lemma SpansRange(start: int, n: nat)
    requires n >= 1
    ensures Spans(Range(start, n), start, start + n)
  {
    assert Range(start, n)[0] == start && Range(start, n)[n - 1] == start + n - 1;
  }

  lemma SpanSign(e: int, m: nat, span: int)
    requires span == e * m && m >= 1
    ensures e >= 0 ==> span >= e
    ensures e <= 0 ==> span <= e
  {}

  // ----- The entries written -----

  /** Does the one-entry short cut replace count copies by one entry with count times as many elements? */
  predicate ShortCut(p: Prog, addExtent: int, extent: int)
  {
    p.Data? && p.next == Nil && extent == addExtent == p.extent
  }

  /** ... although the entry already has several: the added type was resized below its natural extent. */
  predicate Collapses(p: Prog, predefined: bool, addExtent: int, count: nat, extent: int)
  {
    !predefined && ShortCut(p, addExtent, extent) && p.count > 1 && count > 1 && extent != 0
  }

  /** ... and leaves gaps between the elements of one entry. */
  predicate LeavesGaps(p: Prog, predefined: bool, addExtent: int, count: nat, extent: int)
  {
    !predefined && ShortCut(p, addExtent, extent) && count > 1 && extent != BasicSize(p.typ)
  }

  predicate Basic(p: Prog, id: nat, size: nat)
  {
    p == Data(id, 1, 0, size, true, Nil) && size == BasicSize(id) && size >= 1
  }

  /** A predefined type: one entry, or a loop around one when gaps are needed. */
  function BasicPiece(id: nat, size: nat, count: nat, disp: int, extent: int): Prog
  {
    if extent != size && count > 1 then Loop(count, extent, false, Data(id, 1, disp, size, true, Nil), disp, size, Nil)
    else Data(id, count, disp, extent, true, Nil)
  }

  /** A derived type of one entry whose extent is that of the entry. */
  function ShortPiece(p: Prog, count: nat, disp: int): Prog
    requires p.Data?
  {
    Data(p.typ, p.count * count, p.disp + disp, p.extent, p.contig, Nil)
  }

  /** Any other derived type: its entries moved, inside a loop when there are several copies. */
  function LoopPiece(p: Prog, contiguous: bool, size: nat, count: nat, disp: int, extent: int): Prog
    requires Sane(p) && p != Nil
  {
    var b := ShiftProg(p, disp);
    if count == 1 then b else Loop(count, extent, contiguous, b, FirstDisp(p) + disp, size, Nil)
  }

  /** What opal_datatype_add appends to the description for count copies of p. */
  function Piece(p: Prog, predefined: bool, contiguous: bool, size: nat, addExtent: int, count: nat, disp: int,
                 extent: int): Prog
    requires Sane(p) && p != Nil
  {
    if predefined && p.Data? then BasicPiece(p.typ, size, count, disp, extent)
    else if ShortCut(p, addExtent, extent) then ShortPiece(p, count, disp)
    else LoopPiece(p, contiguous, size, count, disp, extent)
  }

  /** q describes count copies of p exactly when `exact`, and has gaps in an entry only if `gaps`. */
  predicate Describes(q: Prog, p: Prog, count: nat, disp: int, extent: int, exact: bool, gaps: bool)
  {
    && Sane(q) && Consistent(q) && |Offs(q, false)| == count * |Offs(p, false)|
    && (Offs(q, false) == Copies(Offs(p, false), count, disp, extent) <==> exact)
    && (Regular(p) ==> (Regular(q) <==> !gaps))
  }

  lemma {:induction false} BasicDescribes(p: Prog, id: nat, size: nat, count: nat, disp: int, extent: int)
    requires Basic(p, id, size) && count >= 1
    ensures Describes(BasicPiece(id, size, count, disp, extent), p, count, disp, extent, true, false)
  {
    var q := BasicPiece(id, size, count, disp, extent);
    OneOffs(p);
    StridedOne(Range(0, size), size);
    ShiftRange(0, size, disp);
    StridedLength(Range(disp, size), extent, count);
    assert Offs(Nil, false) == [];
    if q.Loop? {
      StridedOne(Range(disp, size), size);
      assert Offs(q.body, false) == Range(disp, size) + [];
      assert Sane(q.body) && Regular(q.body) && Consistent(q.body);
    } else {
      assert Offs(q, false) == DataOffs(id, count, disp, extent) + [];
    }
  }

  lemma {:induction false} OneOffs(p: Prog)
    requires p.Data? && p.next == Nil
    ensures Offs(p, false) == DataOffs(p.typ, p.count, p.disp, p.extent)
  {
    assert Offs(Nil, false) == [];
  }

  lemma {:induction false} ShortDescribes(p: Prog, count: nat, disp: int)
    requires p.Data? && p.next == Nil && Sane(p) && count >= 1
    ensures Describes(ShortPiece(p, count, disp), p, count, disp, p.extent, p.count == 1 || count == 1 || p.extent == 0,
                      count > 1 && p.extent != BasicSize(p.typ))
  {
    OneOffs(p);
    OneOffs(ShortPiece(p, count, disp));
    ProductAtLeast(p.count, count);
    ShiftData(p.typ, p.count, p.disp, p.extent, disp);
    Collapse(p.typ, p.count, p.disp + disp, p.extent, count);
    CollapseLength(p.typ, p.count, p.disp, p.disp + disp, p.extent, count);
  }

  lemma ProductAtLeast(a: nat, b: nat)
    requires a >= 1 && b >= 1
    ensures a * b >= 1 && (a * b > 1 <==> a > 1 || b > 1)
  {}

  lemma {:induction false} CollapseLength(t: nat, n: nat, d: int, d': int, e: int, count: nat)
    ensures 0 <= n * count && |DataOffs(t, n * count, d', e)| == count * |DataOffs(t, n, d, e)|
  {
    StridedLength(Range(d, BasicSize(t)), e, n);
    StridedLength(Range(d', BasicSize(t)), e, n * count);
    assert (n * count) * BasicSize(t) == count * (n * BasicSize(t));
  }

  lemma {:induction false} LoopDescribes(p: Prog, contiguous: bool, size: nat, count: nat, disp: int, extent: int)
    requires Sane(p) && Consistent(p) && p != Nil && size == |Offs(p, false)| && size >= 1 && count >= 1
    requires contiguous ==> Offs(p, false) == Range(Offs(p, false)[0], size)
    ensures Describes(LoopPiece(p, contiguous, size, count, disp, extent), p, count, disp, extent, true, false)
  {
    var b, q := ShiftProg(p, disp), LoopPiece(p, contiguous, size, count, disp, extent);
    ShiftKeeps(p, disp);
    ShiftOffs(p, disp, false);
    FirstOffset(p);
    StridedLength(Shift(Offs(p, false), disp), extent, count);
    if count == 1 {
      StridedOne(Shift(Offs(p, false), disp), extent);
    } else {
      assert Offs(q, false) == Copies(Offs(p, false), count, disp, extent) + [];
      if contiguous { ShiftRange(Offs(p, false)[0], size, disp); }
    }
  }

  /** The type map of the entries appended: exact unless the short cut collapses, without gaps unless it leaves them. */
  lemma {:induction false} PieceDescribes(p: Prog, id: nat, predefined: bool, contiguous: bool, size: nat,
                                          addExtent: int, count: nat, disp: int, extent: int)
    requires Sane(p) && Consistent(p) && p != Nil && size == |Offs(p, false)| && size >= 1 && count >= 1
    requires contiguous ==> Offs(p, false) == Range(Offs(p, false)[0], size)
    requires predefined ==> Basic(p, id, size)
    ensures Describes(Piece(p, predefined, contiguous, size, addExtent, count, disp, extent), p, count, disp, extent,
                      !Collapses(p, predefined, addExtent, count, extent),
                      LeavesGaps(p, predefined, addExtent, count, extent))
  {
    if predefined {
      BasicDescribes(p, id, size, count, disp, extent);
    } else if ShortCut(p, addExtent, extent) {
      ShortDescribes(p, count, disp);
    } else {
      LoopDescribes(p, contiguous, size, count, disp, extent);
    }
  }

  /** The entries that opal_datatype_add appends. */
  method NewEntries(entries: seq<Entry>, id: nat, predefined: bool, contiguous: bool, size: nat, addExtent: int,
                    count: nat, disp: int, extent: int, ghost p: Prog)
    returns (out: seq<Entry>)
    requires entries == Flatten(p) && Sane(p) && p != Nil && count >= 1 && (predefined ==> Basic(p, id, size))
    ensures out == Flatten(Piece(p, predefined, contiguous, size, addExtent, count, disp, extent))
  {
    assert Flatten(Nil) == [];
    OneData(p);
    if predefined {
      if extent != size && count > 1 {
        out := [LoopE(count, 2, extent, false), ElemE(id, 1, disp, size, true), EndE(2, size, disp)];
        assert Flatten(Data(id, 1, disp, size, true, Nil)) == [ElemE(id, 1, disp, size, true)] + [];
      } else {
        out := [ElemE(id, count, disp, extent, true)];
      }
    } else if |entries| == 1 && extent == addExtent && extent == EntryExtent(entries[0]) {
      var e := entries[0];
      out := [ElemE(e.typ, e.count * count, e.disp + disp, e.extent, e.contig)];
    } else {
      out := LoopEntries(entries, contiguous, size, count, disp, extent, p);
    }
  }

  /** Any other derived type: its entries moved, inside a loop when there are several copies. */
  method LoopEntries(entries: seq<Entry>, contiguous: bool, size: nat, count: nat, disp: int, extent: int,
                     ghost p: Prog)
    returns (out: seq<Entry>)
    requires entries == Flatten(p) && Sane(p) && p != Nil
    ensures out == Flatten(LoopPiece(p, contiguous, size, count, disp, extent))
  {
    var inner := ShiftEntries(entries, disp, p);
    ghost var b := ShiftProg(p, disp);
    ShiftKeeps(p, disp);
    ShiftFirst(p, disp);
    out := inner;
    if count != 1 {
      var index := GetFirstNonLoop(inner, 0, b);
      out := [LoopE(count, |inner| + 1, extent, contiguous)] + inner + [EndE(|inner| + 1, size, inner[index].disp)];
      assert Flatten(LoopPiece(p, contiguous, size, count, disp, extent)) == out + [];
    }
  }

  lemma {:induction false} ShiftFirst(p: Prog, d: int)
    requires Sane(p) && p != Nil
    ensures ShiftProg(p, d) != Nil && Sane(ShiftProg(p, d)) && FirstDisp(ShiftProg(p, d)) == FirstDisp(p) + d
  {
    ShiftKeeps(p, d);
    if p.Loop? { ShiftFirst(p.body, d); }
  }

  function EntryExtent(e: Entry): int
  {
    match e
    case ElemE(_, _, _, x, _) => x
    case LoopE(_, _, x, _) => x
    case EndE(_, _, f) => f
  }

  lemma {:induction false} OneData(p: Prog)
    ensures |Flatten(p)| == 1 <==> p.Data? && p.next == Nil
    ensures p.Data? ==> Flatten(p)[0] == ElemE(p.typ, p.count, p.disp, p.extent, p.contig)
  {
    assert Flatten(Nil) == [];
    if p.Data? && p.next != Nil { assert |Flatten(p.next)| >= 1; }
  }

  // ----- The fields that describe the bytes -----

  function FirstByte(trueLb: int, count: nat, disp: int, extent: int): int
  {
    disp + LMin(0, extent * (count - 1)) + trueLb
  }

  function LastByte(trueUb: int, count: nat, disp: int, extent: int): int
  {
    disp + LMax(0, extent * (count - 1)) + trueUb
  }

  /** The fields of opal_datatype_t that describe its bytes. */
  datatype Content = Content(desc: seq<Entry>, size: nat, nbElems: nat, trueLb: int, trueUb: int, contiguous: bool)

  /** They agree with the type map of the description. */
  predicate Shape(prog: Prog, c: Content)
  {
    && c.desc == Flatten(prog) && Sane(prog) && Consistent(prog) && c.size == |Offs(prog, false)|
    && (c.nbElems == 0 <==> c.size == 0) && (prog == Nil <==> c.size == 0)
    && Spans(Offs(prog, false), c.trueLb, c.trueUb)
    && (c.contiguous && c.size > 0 ==> Offs(prog, false) == Range(c.trueLb, c.size) && c.trueUb == c.trueLb + c.size)
  }

  /** The true bounds of a type without bytes are still those it was created with. */
  predicate Fresh(c: Content)
  {
    c.size == 0 ==> c.trueLb == LONG_MAX && c.trueUb == LONG_MIN
  }

  /** The true bounds of the copies are within what the fields can hold. */
  predicate InRange(d: Content, count: nat, disp: int, extent: int)
  {
    LONG_MIN <= FirstByte(d.trueLb, count, disp, extent) && LastByte(d.trueUb, count, disp, extent) <= LONG_MAX
  }

  lemma {:induction false} AppendBasics(p: Prog, size: nat, nbElems: nat, q: Prog, more: nat, moreElems: nat)
    requires Sane(p) && Consistent(p) && size == |Offs(p, false)| && (nbElems == 0 <==> size == 0)
             && (p == Nil <==> size == 0)
    requires Sane(q) && Consistent(q) && more == |Offs(q, false)| && more >= 1 && moreElems >= 1
    ensures Sane(Append(p, q)) && Consistent(Append(p, q)) && size + more == |Offs(Append(p, q), false)|
    ensures Append(p, q) != Nil && nbElems + moreElems > 0
  {
    OffsAppend(p, q, false);
    ConsistentAppend(p, q);
    KeepsAppend(p, q);
  }

  lemma {:induction false} AppendSpans(s: seq<int>, lo: int, hi: int, a: seq<int>, lo': int, hi': int, count: nat,
                                       disp: int, extent: int)
    requires Spans(s, lo, hi) && Spans(a, lo', hi') && a != [] && count >= 1
    requires s == [] ==> FirstByte(lo', count, disp, extent) <= lo && hi <= LastByte(hi', count, disp, extent)
    ensures Spans(s + Copies(a, count, disp, extent), LMin(FirstByte(lo', count, disp, extent), lo),
                  LMax(LastByte(hi', count, disp, extent), hi))
  {
    SpansShift(a, lo', hi', disp);
    SpansStrided(Shift(a, disp), extent, count, lo' + disp, hi' + disp, extent * (count - 1));
    SpansJoin(s, lo, hi, Copies(a, count, disp, extent), FirstByte(lo', count, disp, extent),
              LastByte(hi', count, disp, extent));
  }

  /** Copies laid end to end after an interval that ends where they begin. */
  lemma {:induction false} AppendContiguous(size: nat, lb: int, ub: int, addSize: nat, addLb: int, count: nat,
                                            disp: int, extent: int)
    requires count >= 1 && addSize >= 1 && (addSize == extent || count < 2)
    requires size > 0 ==> ub == lb + size && disp + addLb == ub
    requires size == 0 ==> addLb == 0
    ensures var start := if size == 0 then disp else lb;
            && Range(start, size) + Copies(Range(addLb, addSize), count, disp, extent)
               == Range(start, size + count * addSize)
            && FirstByte(addLb, count, disp, extent) == disp + addLb
            && LastByte(addLb + addSize, count, disp, extent) == start + size + count * addSize
  {
    ShiftRange(addLb, addSize, disp);
    if count == 1 {
      StridedOne(Range(addLb + disp, addSize), extent);
    } else {
      StridedDense(addLb + disp, addSize, count);
      MulPred(count, addSize);
      assert extent * (count - 1) == (count - 1) * addSize >= 0;
    }
    RangeSplit(if size == 0 then disp else lb, size, count * addSize);
  }

  predicate StillContiguous(c: Content, a: Content, count: nat, disp: int, extent: int)
  {
    && c.contiguous && a.contiguous && disp + a.trueLb == (if c.nbElems == 0 then disp else c.trueUb)
    && (a.size == extent || count < 2)
  }

  /** The fields after q was appended for count copies of a type with the fields d. */
  function Grown(c: Content, d: Content, count: nat, disp: int, extent: int, q: Prog): Content
  {
    Content(c.desc + Flatten(q), c.size + count * d.size, c.nbElems + count * d.nbElems,
            LMin(FirstByte(d.trueLb, count, disp, extent), c.trueLb),
            LMax(LastByte(d.trueUb, count, disp, extent), c.trueUb),
            StillContiguous(c, d, count, disp, extent))
  }

  /** They agree with the type map of the result when q describes the copies. */
  lemma {:induction false} GrownShape(p: Prog, c: Content, a: Prog, d: Content, count: nat, disp: int, extent: int,
                                      q: Prog)
    requires Shape(p, c) && Fresh(c) && Shape(a, d) && d.size > 0 && count >= 1 && InRange(d, count, disp, extent)
    requires Sane(q) && Consistent(q) && Offs(q, false) == Copies(Offs(a, false), count, disp, extent)
             && |Offs(q, false)| == count * d.size
    ensures Shape(Append(p, q), Grown(c, d, count, disp, extent, q)) && Grown(c, d, count, disp, extent, q).size > 0
  {
    ProductAtLeast(count, d.size);
    ProductAtLeast(count, d.nbElems);
    AppendBasics(p, c.size, c.nbElems, q, count * d.size, count * d.nbElems);
    FlattenAppend(p, q);
    AppendBytes(p, c, a, d, count, disp, extent, q);
    if StillContiguous(c, d, count, disp, extent) {
      AppendInterval(p, c, a, d, count, disp, extent, q);
    }
  }

  lemma {:induction false} AppendBytes(p: Prog, c: Content, a: Prog, d: Content, count: nat, disp: int, extent: int,
                                       q: Prog)
    requires Spans(Offs(p, false), c.trueLb, c.trueUb) && Spans(Offs(a, false), d.trueLb, d.trueUb) && count >= 1
    requires Offs(a, false) != [] && Offs(q, false) == Copies(Offs(a, false), count, disp, extent)
    requires Fresh(c) && InRange(d, count, disp, extent) && c.size == |Offs(p, false)|
    ensures Spans(Offs(Append(p, q), false), LMin(FirstByte(d.trueLb, count, disp, extent), c.trueLb),
                  LMax(LastByte(d.trueUb, count, disp, extent), c.trueUb))
  {
    OffsAppend(p, q, false);
    SpanOrdered(d, count, disp, extent);
    AppendSpans(Offs(p, false), c.trueLb, c.trueUb, Offs(a, false), d.trueLb, d.trueUb, count, disp, extent);
  }

  lemma SpanOrdered(d: Content, count: nat, disp: int, extent: int)
    ensures d.trueLb < d.trueUb ==> FirstByte(d.trueLb, count, disp, extent) < LastByte(d.trueUb, count, disp, extent)
  {}

  lemma {:induction false} AppendInterval(p: Prog, c: Content, a: Prog, d: Content, count: nat, disp: int, extent: int,
                                          q: Prog)
    requires Shape(p, c) && Fresh(c) && Shape(a, d) && d.size > 0 && count >= 1 && InRange(d, count, disp, extent)
    requires StillContiguous(c, d, count, disp, extent) && Offs(q, false) == Copies(Offs(a, false), count, disp, extent)
    ensures var c' := Grown(c, d, count, disp, extent, q);
            Offs(Append(p, q), false) == Range(c'.trueLb, c'.size) && c'.trueUb == c'.trueLb + c'.size
  {
    OffsAppend(p, q, false);
    ProductAtLeast(count, d.size);
    AppendContiguous(c.size, c.trueLb, c.trueUb, d.size, d.trueLb, count, disp, extent);
    if c.size == 0 {
      assert Offs(p, false) == [] == Range(disp, 0);
    }
    JoinedInterval(c.size, c.trueLb, c.trueUb, count * d.size, FirstByte(d.trueLb, count, disp, extent),
                   LastByte(d.trueUb, count, disp, extent),
                   if c.size == 0 then disp else c.trueLb);
  }

  lemma JoinedInterval(size: nat, lb: int, ub: int, more: nat, lo: int, hi: int, start: int)
    requires if size == 0 then lb == LONG_MAX && ub == LONG_MIN && lo == start && LONG_MIN <= lo && hi <= LONG_MAX
             else lb == start && ub == start + size && lo == start + size
    requires hi == start + size + more && more >= 1
    ensures LMin(lo, lb) == start && LMax(hi, ub) == start + size + more
  {}

  /** A datatype that can be added: what is claimed of predefined ones is true. */
  predicate Addable(a: Prog, d: Content, id: nat, predefined: bool)
  {
    Shape(a, d) && (predefined ==> Basic(a, id, d.size) && d.trueLb == 0 && d.contiguous)
  }

  /**
   * What adding does to the type map.  Unless the one-entry short cut collapses a resized type it is the old one
   * followed by the copies, and the fields agree with it; when it does collapse, it is not.
   */
  predicate Outcome(p: Prog, a: Prog, predefined: bool, addExtent: int, count: nat, disp: int, extent: int, p': Prog,
                    c': Content)
  {
    var collapses := Collapses(a, predefined, addExtent, count, extent);
    && (Offs(p', false) == Offs(p, false) + Copies(Offs(a, false), count, disp, extent) <==> !collapses)
    && (!collapses ==> Shape(p', c') && c'.size > 0)
    && (Regular(p) && Regular(a) ==> (Regular(p') <==> !LeavesGaps(a, predefined, addExtent, count, extent)))
  }

  function PieceOf(a: Prog, d: Content, predefined: bool, addExtent: int, count: nat, disp: int, extent: int): Prog
    requires Sane(a) && a != Nil
  {
    Piece(a, predefined, d.contiguous, d.size, addExtent, count, disp, extent)
  }

  lemma {:induction false} Appended(p: Prog, c: Content, a: Prog, d: Content, id: nat, predefined: bool, addExtent: int,
                                    count: nat, disp: int, extent: int, q: Prog, p': Prog, c': Content)
    requires Shape(p, c) && Fresh(c) && Addable(a, d, id, predefined) && d.size > 0 && count >= 1
             && InRange(d, count, disp, extent)
    requires q == PieceOf(a, d, predefined, addExtent, count, disp, extent) && p' == Append(p, q)
    requires c' == Grown(c, d, count, disp, extent, q)
    ensures Outcome(p, a, predefined, addExtent, count, disp, extent, p', c')
  {
    if d.contiguous { assert Range(d.trueLb, d.size)[0] == d.trueLb; }
    PieceDescribes(a, id, predefined, d.contiguous, d.size, addExtent, count, disp, extent);
    AppendMap(p, q, Copies(Offs(a, false), count, disp, extent));
    if !Collapses(a, predefined, addExtent, count, extent) {
      GrownShape(p, c, a, d, count, disp, extent, q);
    }
  }

  lemma {:induction false} AppendMap(p: Prog, q: Prog, copies: seq<int>)
    ensures Offs(Append(p, q), false) == Offs(p, false) + copies <==> Offs(q, false) == copies
    ensures Regular(p) ==> (Regular(Append(p, q)) <==> Regular(q))
  {
    OffsAppend(p, q, false);
    KeepsAppend(p, q);
    Halves(Offs(p, false), Offs(p, false), Offs(q, false), copies);
  }

  /** The part of opal_datatype_add that appends entries and updates size, true bounds and contiguity. */
  method AppendContent(c: Content, d: Content, id: nat, predefined: bool, addExtent: int, count: nat, disp: int,
                       extent: int, newTrueLb: int, newTrueUb: int, ghost a: Prog)
    returns (c': Content)
    requires d.desc == Flatten(a) && Sane(a) && a != Nil && (predefined ==> Basic(a, id, d.size)) && count >= 1
    requires newTrueLb == FirstByte(d.trueLb, count, disp, extent)
             && newTrueUb == LastByte(d.trueUb, count, disp, extent)
    ensures c' == Grown(c, d, count, disp, extent, PieceOf(a, d, predefined, addExtent, count, disp, extent))
  {
    var moreBytes: nat, moreElems: nat := count * d.size, count * d.nbElems;
    var out := NewEntries(d.desc, id, predefined, d.contiguous, d.size, addExtent, count, disp, extent, a);
    var oldTrueUb := if c.nbElems == 0 then disp else c.trueUb;
    c' := Content(c.desc + out, c.size + moreBytes, c.nbElems + moreElems, LMin(newTrueLb, c.trueLb),
                  LMax(newTrueUb, c.trueUb),
                  c.contiguous && d.contiguous && disp + d.trueLb == oldTrueUb && (d.size == extent || count < 2));
  }

  // ----- The bounds -----

  /** The bounds of a type, which of them the user set, and its alignment. */
  datatype Bounds = Bounds(userLb: bool, userUb: bool, lb: int, ub: int, align: nat)

  /** Without user markers the bounds enclose the bytes and the extent is a multiple of the alignment. */
  predicate Enclosing(b: Bounds, size: nat, trueLb: int, trueUb: int)
  {
    b.align >= 1 && (!b.userLb && !b.userUb && size > 0 ==>
                     b.lb <= trueLb < trueUb <= b.ub && (b.ub - b.lb) % b.align == 0)
  }

  /**
   * The bounds of b after copies of a that lie between newLb and newUb are added.  A bound the user set prevails
   * over one nobody set; an upper bound nobody set is raised to the alignment, and by no more than that.
   */
  predicate BoundsAfter(b: Bounds, a: Bounds, newLb: int, newUb: int, b': Bounds)
  {
    && b'.align >= 1 && b'.align == (if b.align < a.align then a.align else b.align)
    && (b'.userLb <==> b.userLb || a.userLb) && (b'.userUb <==> b.userUb || a.userUb)
    && b'.lb == (if b.userLb == a.userLb then LMin(b.lb, newLb) else if b.userLb then b.lb else newLb)
    && (b'.userUb ==> b'.ub == if b.userUb == a.userUb then LMax(b.ub, newUb) else if b.userUb then b.ub else newUb)
    && (!b'.userUb ==> b'.ub >= LMax(b.ub, newUb))
    && (!b'.userUb && LMax(b.ub, newUb) >= b'.lb ==>
        (b'.ub - b'.lb) % b'.align == 0 && b'.ub < LMax(b.ub, newUb) + b'.align)
  }

  /** Bounds, alignment and the USER flags; newLb and newUb bound the added copies. */
  method UpdateBounds(b: Bounds, a: Bounds, newLb: int, newUb: int) returns (b': Bounds)
    requires b.align >= 1 && a.align >= 1
    ensures BoundsAfter(b, a, newLb, newUb, b')
  {
    var lb, ub := newLb, newUb;
    if a.userLb != b.userLb {
      if b.userLb { lb := b.lb; }
    } else {
      lb := LMin(b.lb, lb);
    }
    if b.userUb != a.userUb {
      if b.userUb { ub := b.ub; }
    } else {
      ub := LMax(b.ub, ub);
    }
    var align := if b.align < a.align then a.align else b.align;
    if !b.userUb && !a.userUb {
      var epsilon := TruncMod(ub - lb, align);
      if epsilon != 0 {
        RoundUp(ub - lb, align);
        ub := ub + (align - epsilon);
      }
    }
    b' := Bounds(b.userLb || a.userLb, b.userUb || a.userUb, lb, ub, align);
  }

  /** The special markers: only their own bound changes. */
  function Marked(b: Bounds, id: nat, disp: int): Bounds
  {
    if id == LB then b.(userLb := true, lb := if b.userLb then LMin(b.lb, disp) else disp)
    else b.(userUb := true, ub := if b.userUb then LMax(b.ub, disp) else disp)
  }

  /** The bounds after several markers of one kind. */
  function MarkedAll(b: Bounds, id: nat, disps: seq<int>): Bounds
  {
    if disps == [] then b else Marked(MarkedAll(b, id, disps[..|disps| - 1]), id, disps[|disps| - 1])
  }

  /** Of several lower markers the least prevails, of several upper ones the greatest, and nothing else changes. */
  lemma {:induction false} MarkersPrevail(b: Bounds, disps: seq<int>)
    requires disps != [] && !b.userLb && !b.userUb
    ensures var lower := MarkedAll(b, LB, disps);
            && lower == b.(userLb := true, lb := lower.lb) && lower.lb in disps
            && forall i :: 0 <= i < |disps| ==> lower.lb <= disps[i]
    ensures var upper := MarkedAll(b, UB, disps);
            && upper == b.(userUb := true, ub := upper.ub) && upper.ub in disps
            && forall i :: 0 <= i < |disps| ==> disps[i] <= upper.ub
  {
    var front, d := disps[..|disps| - 1], disps[|disps| - 1];
    assert disps == front + [d];
    if front != [] { MarkersPrevail(b, front); }
  }

  /** Where the copies begin and end: at the least beginning and the greatest end of any copy. */
  lemma CopiesReach(lo: int, hi: int, count: nat, disp: int, extent: int, k: nat)
    requires k < count
    ensures FirstByte(lo, count, disp, extent) <= disp + k * extent + lo
    ensures disp + k * extent + hi <= LastByte(hi, count, disp, extent)
    ensures FirstByte(lo, count, disp, extent) - lo in {disp, disp + (count - 1) * extent}
    ensures LastByte(hi, count, disp, extent) - hi in {disp, disp + (count - 1) * extent}
  {
    if extent >= 0 {
      assert 0 <= k * extent <= (count - 1) * extent;
    } else {
      assert (count - 1) * extent <= k * extent <= 0;
    }
  }

  /** Bounds that enclose the bytes still do after bytes within newLb and newUb are added. */
  lemma {:induction false} StillEnclosing(b: Bounds, c: Content, a: Bounds, d: Content, count: nat, disp: int,
                                          extent: int, b': Bounds)
    requires Enclosing(b, c.size, c.trueLb, c.trueUb) && Enclosing(a, d.size, d.trueLb, d.trueUb) && Fresh(c)
             && InRange(d, count, disp, extent)
    requires BoundsAfter(b, a, FirstByte(a.lb, count, disp, extent), LastByte(a.ub, count, disp, extent), b')
    ensures d.size == 0 ==> Enclosing(b', c.size, c.trueLb, c.trueUb)
    ensures d.size > 0 ==>
              Enclosing(b', c.size + count * d.size, LMin(FirstByte(d.trueLb, count, disp, extent), c.trueLb),
                        LMax(LastByte(d.trueUb, count, disp, extent), c.trueUb))
  {}

  /** The fields of a type under construction: sound, with the initial true bounds until it is given bytes. */
  predicate Ready(p: Prog, c: Content, b: Bounds, noGaps: bool)
  {
    Shape(p, c) && Fresh(c) && Enclosing(b, c.size, c.trueLb, c.trueUb) && (noGaps ==> c.contiguous)
  }

  /**
   * The description p' and the fields after count copies of another type, q with the fields d and a, joined p with c.
   */
  predicate Result(p: Prog, c: Content, q: Prog, d: Content, a: Bounds, predefined: bool, count: nat, disp: int,
                   extent: int, p': Prog, c': Content, b': Bounds, noGaps: bool)
    requires Sane(q) && q != Nil
  {
    var piece := PieceOf(q, d, predefined, a.ub - a.lb, count, disp, extent);
    && p' == Append(p, piece) && c' == Grown(c, d, count, disp, extent, piece)
    && Outcome(p, q, predefined, a.ub - a.lb, count, disp, extent, p', c')
    && (!Collapses(q, predefined, a.ub - a.lb, count, extent) ==> Ready(p', c', b', noGaps))
    && (noGaps <==> c'.contiguous && c'.size == b'.ub - b'.lb)
  }

  // ----- The number of basic elements -----

  function Elements(p: Prog): nat
  {
    match p
    case Nil => 0
    case Data(_, n, _, _, _, next) => n + Elements(next)
    case Loop(n, _, _, body, _, _, next) => n * Elements(body) + Elements(next)
  }

  lemma {:induction false} ElementsAppend(p: Prog, q: Prog)
    ensures Elements(Append(p, q)) == Elements(p) + Elements(q)
  {
    if p != Nil { ElementsAppend(p.next, q); }
  }

  lemma {:induction false} ElementsShift(p: Prog, d: int)
    ensures Elements(ShiftProg(p, d)) == Elements(p)
  {
    match p
    case Nil =>
    case Data(_, _, _, _, _, next) => ElementsShift(next, d);
    case Loop(_, _, _, body, _, _, next) =>
      ElementsShift(body, d);
      ElementsShift(next, d);
  }

  lemma ElementsOne(t: nat, n: nat, d: int, e: int, c: bool)
    ensures Elements(Data(t, n, d, e, c, Nil)) == n
  {
    assert Elements(Nil) == 0;
  }

  lemma ElementsLoop(n: nat, e: int, c: bool, body: Prog, f: int, size: nat)
    ensures Elements(Loop(n, e, c, body, f, size, Nil)) == n * Elements(body)
  {
    assert Elements(Nil) == 0;
  }

  lemma {:induction false} PieceElements(p: Prog, id: nat, predefined: bool, contiguous: bool, size: nat,
                                         addExtent: int, count: nat, disp: int, extent: int)
    requires Sane(p) && p != Nil && count >= 1 && (predefined ==> Basic(p, id, size))
    ensures Elements(Piece(p, predefined, contiguous, size, addExtent, count, disp, extent)) == count * Elements(p)
  {
    if predefined {
      ElementsOne(id, 1, 0, size, true);
      ElementsOne(id, 1, disp, size, true);
      ElementsOne(id, count, disp, extent, true);
      ElementsLoop(count, extent, false, Data(id, 1, disp, size, true, Nil), disp, size);
    } else if ShortCut(p, addExtent, extent) {
      ElementsOne(p.typ, p.count, p.disp, p.extent, p.contig);
      ElementsOne(p.typ, p.count * count, p.disp + disp, p.extent, p.contig);
    } else {
      ElementsShift(p, disp);
      ElementsLoop(count, extent, contiguous, ShiftProg(p, disp), FirstDisp(p) + disp, size);
    }
  }

  /** nbElems stays the number of basic elements that the description stands for, collapsed or not. */
  lemma GrownElements(p: Prog, c: Content, a: Prog, d: Content, id: nat, predefined: bool, addExtent: int, count: nat,
                      disp: int, extent: int)
    requires Sane(a) && a != Nil && count >= 1 && (predefined ==> Basic(a, id, d.size))
    requires c.nbElems == Elements(p) && d.nbElems == Elements(a)
    ensures var q := PieceOf(a, d, predefined, addExtent, count, disp, extent);
            Grown(c, d, count, disp, extent, q).nbElems == Elements(Append(p, q))
  {
    PieceElements(a, id, predefined, d.contiguous, d.size, addExtent, count, disp, extent);
    ElementsAppend(p, PieceOf(a, d, predefined, addExtent, count, disp, extent));
  }

  // ----- The datatype -----

  /** opal_datatype_t, its fields in two groups: those that describe the bytes, and the bounds. */
  class Datatype {
    var id: nat
    var predefined: bool
    var content: Content
    var bounds: Bounds
    var noGaps: bool
    ghost var prog: Prog

    /** The type map: byte offsets in order. */
    ghost function Map(): seq<int>
      reads this
    {
      Offs(prog, false)
    }

    /** A marker has no bytes and is only added for its bound. */
    predicate IsMarker()
      reads this
    {
      id == LB || id == UB
    }

    ghost predicate Valid()
      reads this
    {
      && Addable(prog, content, id, predefined) && (noGaps ==> content.contiguous)
      && Enclosing(bounds, content.size, content.trueLb, content.trueUb)
    }

    /** A type under construction. */
    ghost predicate Buildable()
      reads this
    {
      !predefined && Ready(prog, content, bounds, noGaps)
    }

    /** opal_datatype_construct. */
    constructor ()
      ensures Buildable() && prog == Nil && content == Content([], 0, 0, LONG_MAX, LONG_MIN, true)
      ensures bounds == Bounds(false, false, LONG_MAX, LONG_MIN, 1) && id == 0
    {
      id, predefined, noGaps := 0, false, false;
      content := Content([], 0, 0, LONG_MAX, LONG_MIN, true);
      bounds, prog := Bounds(false, false, LONG_MAX, LONG_MIN, 1), Nil;
    }

    /** A predefined type, as opal_datatype_init leaves it. */
    constructor Predefined(id: nat, align: nat)
      requires BasicSize(id) >= 1 && id != LB && id != UB && align >= 1 && BasicSize(id) % align == 0
      ensures Valid() && predefined && this.id == id && prog == Data(id, 1, 0, BasicSize(id), true, Nil)
      ensures content == Content(Flatten(prog), BasicSize(id), 1, 0, BasicSize(id), true)
              && bounds == Bounds(false, false, 0, BasicSize(id), align)
    {
      var size := BasicSize(id);
      this.id, predefined, noGaps := id, true, true;
      content := Content([ElemE(id, 1, 0, size, true)], size, 1, 0, size, true);
      bounds, prog := Bounds(false, false, 0, size, align), Data(id, 1, 0, size, true, Nil);
      assert Flatten(Data(id, 1, 0, size, true, Nil)) == [ElemE(id, 1, 0, size, true)] + [];
      OneOffs(Data(id, 1, 0, size, true, Nil));
      StridedOne(Range(0, size), size);
      SpansRange(0, size);
    }

    /** OPAL_DATATYPE_LB and OPAL_DATATYPE_UB. */
    constructor Marker(id: nat)
      requires id == LB || id == UB
      ensures this.id == id && IsMarker()
    {
      this.id, predefined, noGaps := id, true, false;
      content, bounds, prog := Content([], 0, 1, 0, 0, false), Bounds(false, false, 0, 0, 0), Nil;
    }

    /** The extent that is used: -1 stands for that of the added type. */
    function Extent(extentArg: int): int
      reads this
    {
      if extentArg == -1 then bounds.ub - bounds.lb else extentArg
    }

    /**
     * opal_datatype_add.  The description gains the entries of Piece, and unless the one-entry short cut collapses a
     * resized type, the type map of the result is the old one followed by count shifted copies, the true bounds are
     * its least byte and one past its greatest, the size is the number of bytes, and CONTIGUOUS means one ascending
     * interval.  When it does collapse, the type map is wrong.
     */
    method Add(add: Datatype, count: nat, disp: int, extentArg: int)
      requires Buildable() && this != add
      requires !add.IsMarker() ==>
               add.Valid() && (count > 0 ==> InRange(add.content, count, disp, add.Extent(extentArg)))
      modifies `content, `prog, `noGaps, `bounds
      ensures add.IsMarker() || count == 0 || add.content.size == 0 ==>
              Buildable() && content == old(content) && prog == old(prog)
      ensures count == 0 ==> bounds == old(bounds)
      ensures count > 0 && add.IsMarker() ==>
              bounds == Marked(old(bounds), add.id, disp)
              && (noGaps <==> old(noGaps) && bounds.ub - bounds.lb == content.size)
      ensures count > 0 && !add.IsMarker() ==>
                var extent := add.Extent(extentArg);
                BoundsAfter(old(bounds), add.bounds, FirstByte(add.bounds.lb, count, disp, extent),
                            LastByte(add.bounds.ub, count, disp, extent), bounds)
      ensures count > 0 && !add.IsMarker() && add.content.size > 0 ==>
                Result(old(prog), old(content), add.prog, add.content, add.bounds, add.predefined, count, disp,
                       add.Extent(extentArg),
                       prog, content, bounds, noGaps)
    {
      if count == 0 {
        return;
      }
      if add.IsMarker() {
        bounds := Marked(bounds, add.id, disp);
        if bounds.ub - bounds.lb != content.size { noGaps := false; }
      } else {
        AddData(add, count, disp, add.Extent(extentArg));
      }
    }

    /** ... for a type that is not a marker. */
    method AddData(add: Datatype, count: nat, disp: int, extent: int)
      requires Buildable() && add.Valid() && this != add && count > 0 && InRange(add.content, count, disp, extent)
      modifies `content, `prog, `noGaps, `bounds
      ensures BoundsAfter(old(bounds), add.bounds, FirstByte(add.bounds.lb, count, disp, extent),
                          LastByte(add.bounds.ub, count, disp, extent), bounds)
      ensures add.content.size == 0 ==> Buildable() && content == old(content) && prog == old(prog)
      ensures add.content.size > 0 ==>
                Result(old(prog), old(content), add.prog, add.content, add.bounds, add.predefined, count, disp, extent,
                       prog, content, bounds, noGaps)
    {
      bounds, content, noGaps, prog :=
        Joined(bounds, content, noGaps, add.bounds, add.content, add.id, add.predefined, count, disp, extent, prog,
               add.prog);
    }
  }

  /** The fields after count copies of another type are added. */
  /** Any extent is used as it is given, but for -1, which stands for the distance between the bounds. */
  lemma ExtentUsed(d: Datatype, extentArg: int)
    ensures d.Extent(-1) == d.bounds.ub - d.bounds.lb && (extentArg != -1 ==> d.Extent(extentArg) == extentArg)
  {}

  method Joined(b: Bounds, c: Content, noGaps: bool, a: Bounds, d: Content, id: nat, predefined: bool, count: nat,
                disp: int, extent: int, ghost p: Prog, ghost q: Prog)
    returns (b': Bounds, c': Content, noGaps': bool, ghost p': Prog)
    requires Ready(p, c, b, noGaps) && count > 0
    requires Addable(q, d, id, predefined) && Enclosing(a, d.size, d.trueLb, d.trueUb)
             && InRange(d, count, disp, extent)
    ensures BoundsAfter(b, a, FirstByte(a.lb, count, disp, extent), LastByte(a.ub, count, disp, extent), b')
    ensures d.size == 0 ==> Ready(p, c, b', noGaps) && c' == c && noGaps' == noGaps && p' == p
    ensures d.size > 0 ==> Result(p, c, q, d, a, predefined, count, disp, extent, p', c', b', noGaps')
  {
    if d.size > 0 { BoundsOrdered(Offs(q, false), d.trueLb, d.trueUb); }
    var newLb, newUb, newTrueLb, newTrueUb := SpanOf(a, d, count, disp, extent);
    b' := UpdateBounds(b, a, newLb, newUb);
    c', noGaps', p' := c, noGaps, p;
    if d.size > 0 {
      c' := AppendContent(c, d, id, predefined, a.ub - a.lb, count, disp, extent, newTrueLb, newTrueUb, q);
      noGaps' := c'.contiguous && c'.size == b'.ub - b'.lb;
      ghost var piece := PieceOf(q, d, predefined, a.ub - a.lb, count, disp, extent);
      p' := Append(p, piece);
      JoinedResult(b, c, noGaps, a, d, id, predefined, count, disp, extent, p, q, b', piece, p', c', noGaps');
    } else {
      StillEnclosing(b, c, a, d, count, disp, extent, b');
    }
  }

  lemma {:induction false} JoinedResult(b: Bounds, c: Content, noGaps: bool, a: Bounds, d: Content, id: nat,
                                        predefined: bool, count: nat, disp: int, extent: int, p: Prog, q: Prog,
                                        b': Bounds, piece: Prog, p': Prog, c': Content, noGaps': bool)
    requires Ready(p, c, b, noGaps) && count > 0 && d.size > 0
    requires Addable(q, d, id, predefined) && Enclosing(a, d.size, d.trueLb, d.trueUb)
             && InRange(d, count, disp, extent)
    requires BoundsAfter(b, a, FirstByte(a.lb, count, disp, extent), LastByte(a.ub, count, disp, extent), b')
    requires piece == PieceOf(q, d, predefined, a.ub - a.lb, count, disp, extent) && p' == Append(p, piece)
    requires c' == Grown(c, d, count, disp, extent, piece) && (noGaps' <==> c'.contiguous && c'.size == b'.ub - b'.lb)
    ensures Result(p, c, q, d, a, predefined, count, disp, extent, p', c', b', noGaps')
  {
    assert Outcome(p, q, predefined, a.ub - a.lb, count, disp, extent, p', c') by {
      Appended(p, c, q, d, id, predefined, a.ub - a.lb, count, disp, extent, piece, p', c');
    }
    assert Enclosing(b', c'.size, c'.trueLb, c'.trueUb) by {
      GrownEnclosing(b, c, a, d, count, disp, extent, b', piece, c');
    }
    ReadyAfter(p, q, predefined, a.ub - a.lb, count, disp, extent, p', c', b', noGaps');
  }

  lemma GrownEnclosing(b: Bounds, c: Content, a: Bounds, d: Content, count: nat, disp: int, extent: int, b': Bounds,
                       piece: Prog, c': Content)
    requires Enclosing(b, c.size, c.trueLb, c.trueUb) && Enclosing(a, d.size, d.trueLb, d.trueUb) && Fresh(c)
             && InRange(d, count, disp, extent) && d.size > 0
    requires BoundsAfter(b, a, FirstByte(a.lb, count, disp, extent), LastByte(a.ub, count, disp, extent), b')
    requires c' == Grown(c, d, count, disp, extent, piece)
    ensures Enclosing(b', c'.size, c'.trueLb, c'.trueUb)
  {
    StillEnclosing(b, c, a, d, count, disp, extent, b');
  }

  lemma ReadyAfter(p: Prog, q: Prog, predefined: bool, addExtent: int, count: nat, disp: int, extent: int, p': Prog,
                   c': Content, b': Bounds, noGaps: bool)
    requires Outcome(p, q, predefined, addExtent, count, disp, extent, p', c') && (noGaps ==> c'.contiguous)
    requires Enclosing(b', c'.size, c'.trueLb, c'.trueUb)
    ensures !Collapses(q, predefined, addExtent, count, extent) ==> Ready(p', c', b', noGaps)
  {}

  lemma BoundsOrdered(s: seq<int>, lo: int, hi: int)
    requires Spans(s, lo, hi) && |s| >= 1
    ensures lo < hi
  {
    assert lo <= s[0] < hi;
  }

  /** OPAL_DATATYPE_LB_UB_CONT, and the true bounds of the copies. */
  method SpanOf(a: Bounds, d: Content, count: nat, disp: int, extent: int)
    returns (newLb: int, newUb: int, newTrueLb: int, newTrueUb: int)
    requires count > 0 && (d.size > 0 ==> d.trueLb < d.trueUb)
    ensures newLb == FirstByte(a.lb, count, disp, extent) && newUb == LastByte(a.ub, count, disp, extent)
    ensures d.size > 0 ==>
              && newTrueLb == FirstByte(d.trueLb, count, disp, extent)
              && newTrueUb == LastByte(d.trueUb, count, disp, extent)
  {
    var span := extent * (count - 1);
    newLb, newUb := disp + LMin(0, span) + a.lb, disp + LMax(0, span) + a.ub;
    newTrueLb, newTrueUb := newLb - (a.lb - d.trueLb), newUb - (a.ub - d.trueUb);
    if newTrueLb > newTrueUb {
      newTrueLb, newTrueUb := newTrueUb, newTrueLb;
    }
  }

  lemma RoundUp(x: int, a: nat)
    requires a >= 1 && TruncMod(x, a) != 0
    ensures x + (a - TruncMod(x, a)) >= x
    ensures x >= 0 ==> (x + (a - TruncMod(x, a))) % a == 0 && TruncMod(x, a) > 0
  {
    if x >= 0 {
      MultipleMod(x / a + 1, a, x + (a - x % a));
    } else {
      var r := (-x) % a;
    }
  }

  lemma MultipleMod(q: int, a: nat, y: int)
    requires a >= 1 && y == a * q
    ensures y % a == 0
  {
    var t := q - y / a;
    assert a * t == a * q - a * (y / a) == y % a;
    if t >= 1 {
      TimesAtLeast(a, t);
    } else if t <= -1 {
      TimesAtLeast(a, -t);
    }
  }

  lemma TimesAtLeast(a: nat, t: nat)
    requires t >= 1
    ensures a * t >= a
  {}
}
