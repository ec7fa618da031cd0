/** Datatype descriptions: the flat entries the engines walk, the nested program they encode, and its byte offsets. */
module Description {
  import opened Offsets

  const LOOP := 0
  const UINT1 := 9

  /** Sizes of the predefined types, in the order of their identifiers (opal_datatype_internal.h), for LP64. */
  const BASIC_SIZES: seq<nat> :=
    [0, 0, 0, 0, 1, 2, 4, 8, 16, 1, 2, 4, 8, 16, 0, 4, 8, 0, 16, 8, 16, 32, 1, 4, 0]

  function BasicSize(typ: nat): nat
  {
    if typ < |BASIC_SIZES| then BASIC_SIZES[typ] else 0
  }

  /** One slot of the description array (union dt_elem_desc). */
  datatype Entry =
    | ElemE(typ: nat, count: nat, disp: int, extent: int, contig: bool)
    | LoopE(loops: nat, items: nat, extent: int, contig: bool)
    | EndE(items: nat, size: nat, first: int)

  /** The nested program that a flat description encodes. */
  datatype Prog =
    | Nil
    | Data(typ: nat, count: nat, disp: int, extent: int, contig: bool, next: Prog)
    | Loop(loops: nat, extent: int, contig: bool, body: Prog, first: int, size: nat, next: Prog)

  function Flatten(p: Prog): seq<Entry>
  {
    match p
    case Nil => []
    case Data(t, n, d, e, c, next) => [ElemE(t, n, d, e, c)] + Flatten(next)
    case Loop(n, e, c, body, f, s, next) => Bracket(n, e, c, Flatten(body), f, s) + Flatten(next)
  }

  /** A loop body between its two markers; `items` is the distance from one marker to the other. */
  function Bracket(loops: nat, extent: int, contig: bool, body: seq<Entry>, first: int, size: nat): (r: seq<Entry>)
    ensures |r| == |body| + 2
  {
    [LoopE(loops, |body| + 1, extent, contig)] + body + [EndE(|body| + 1, size, first)]
  }

  function Append(p: Prog, q: Prog): Prog
  {
    match p
    case Nil => q
    case Data(t, n, d, e, c, next) => Data(t, n, d, e, c, Append(next, q))
    case Loop(n, e, c, body, f, s, next) => Loop(n, e, c, body, f, s, Append(next, q))
  }

  function DataOffs(typ: nat, count: nat, disp: int, extent: int): seq<int>
  {
    Strided(Range(disp, BasicSize(typ)), extent, count)
  }

  /**
   * The byte offsets of a program, in transfer order.  With `marker` a loop flagged contiguous is
   * read through its end marker, as the engines do; without it, through its body (the type map).
   */
  function Offs(p: Prog, marker: bool): seq<int>
  {
    match p
    case Nil => []
    case Data(t, n, d, e, _, next) => DataOffs(t, n, d, e) + Offs(next, marker)
    case Loop(n, e, c, body, f, s, next) =>
      Strided(if marker && c then Range(f, s) else Offs(body, marker), e, n) + Offs(next, marker)
  }

  /** Every loop flagged contiguous really is `size` contiguous bytes at `first`. */
  predicate Consistent(p: Prog)
  {
    match p
    case Nil => true
    case Data(_, _, _, _, _, next) => Consistent(next)
    case Loop(_, _, c, body, f, s, next) =>
      Consistent(body) && Consistent(next) && (c ==> Offs(body, false) == Range(f, s))
  }

  /** No entry is empty. */
  predicate Sane(p: Prog)
  {
    match p
    case Nil => true
    case Data(t, n, _, _, _, next) => n >= 1 && BasicSize(t) >= 1 && Sane(next)
    case Loop(n, _, _, body, _, s, next) => n >= 1 && s >= 1 && body != Nil && Sane(body) && Sane(next)
  }

  /** ... and entries with several elements leave no gap between them. */
  predicate Regular(p: Prog)
  {
    match p
    case Nil => true
    case Data(t, n, _, e, _, next) =>
      n >= 1 && BasicSize(t) >= 1 && (n > 1 ==> e == BasicSize(t)) && Regular(next)
    case Loop(n, _, _, body, _, s, next) =>
      n >= 1 && s >= 1 && body != Nil && Regular(body) && Regular(next)
  }

  predicate WellFormed(p: Prog)
  {
    Consistent(p) && Sane(p)
  }

  /** Loops run at least once. */
  predicate Positive(p: Prog)
  {
    match p
    case Nil => true
    case Data(_, _, _, _, _, next) => Positive(next)
    case Loop(n, _, _, body, _, _, next) => n >= 1 && Positive(body) && Positive(next)
  }

  /** A single entry of size bytes. */
  predicate OneRun(p: Prog, size: nat)
  {
    p.Data? && p.next == Nil && p.count * BasicSize(p.typ) == size
  }

  /**
   * Nothing is empty, and the body of a loop flagged contiguous is one entry of as many bytes as its end marker says.
   */
  predicate Neat(p: Prog)
  {
    match p
    case Nil => true
    case Data(t, n, _, _, _, next) => n >= 1 && BasicSize(t) >= 1 && Neat(next)
    case Loop(n, _, c, body, _, s, next) => n >= 1 && Neat(body) && Neat(next) && (c ==> OneRun(body, s))
  }

  /** Displacement of the first data entry (GET_FIRST_NON_LOOP). */
  function FirstDisp(p: Prog): int
    requires Sane(p) && p != Nil
  {
    match p
    case Data(_, _, d, _, _, _) => d
    case Loop(_, _, _, body, _, _, _) => FirstDisp(body)
  }

  lemma {:induction false} AppendNil(p: Prog)
    ensures Append(p, Nil) == p
  {
    match p
    case Nil =>
    case Data(_, _, _, _, _, next) => AppendNil(next);
    case Loop(_, _, _, _, _, _, next) => AppendNil(next);
  }

  lemma {:induction false} AppendAssoc(p: Prog, q: Prog, r: Prog)
    ensures Append(Append(p, q), r) == Append(p, Append(q, r))
  {
    match p
    case Nil =>
    case Data(_, _, _, _, _, next) => AppendAssoc(next, q, r);
    case Loop(_, _, _, _, _, _, next) => AppendAssoc(next, q, r);
  }

  lemma ConcatAssoc<T>(a: seq<T>, b: seq<T>, c: seq<T>)
    ensures a + (b + c) == (a + b) + c
  {}

  lemma {:induction false} FlattenAppend(p: Prog, q: Prog)
    ensures Flatten(Append(p, q)) == Flatten(p) + Flatten(q)
  {
    match p
    case Nil =>
    case Data(t, n, d, e, c, next) =>
      FlattenAppend(next, q);
      ConcatAssoc([ElemE(t, n, d, e, c)], Flatten(next), Flatten(q));
    case Loop(n, e, c, body, f, s, next) =>
      FlattenAppend(next, q);
      ConcatAssoc(Bracket(n, e, c, Flatten(body), f, s), Flatten(next), Flatten(q));
  }

  lemma {:induction false} OffsAppend(p: Prog, q: Prog, marker: bool)
    ensures Offs(Append(p, q), marker) == Offs(p, marker) + Offs(q, marker)
  {
    match p
    case Nil =>
    case Data(t, n, d, e, _, next) =>
      OffsAppend(next, q, marker);
      ConcatAssoc(DataOffs(t, n, d, e), Offs(next, marker), Offs(q, marker));
    case Loop(n, e, c, body, f, s, next) =>
      OffsAppend(next, q, marker);
      ConcatAssoc(Strided(if marker && c then Range(f, s) else Offs(body, marker), e, n), Offs(next, marker),
                  Offs(q, marker));
  }

  lemma {:induction false} ConsistentAppend(p: Prog, q: Prog)
    ensures Consistent(Append(p, q)) <==> Consistent(p) && Consistent(q)
  {
    match p
    case Nil =>
    case Data(_, _, _, _, _, next) => ConsistentAppend(next, q);
    case Loop(_, _, _, _, _, _, next) => ConsistentAppend(next, q);
  }

  lemma {:induction false} NeatAppend(p: Prog, q: Prog)
    ensures Neat(Append(p, q)) <==> Neat(p) && Neat(q)
  {
    match p
    case Nil =>
    case Data(_, _, _, _, _, next) => NeatAppend(next, q);
    case Loop(_, _, _, _, _, _, next) => NeatAppend(next, q);
  }

  lemma {:induction false} NeatPositive(p: Prog)
    requires Neat(p)
    ensures Positive(p)
  {
    match p
    case Nil =>
    case Data(_, _, _, _, _, next) => NeatPositive(next);
    case Loop(_, _, _, body, _, _, next) => NeatPositive(body); NeatPositive(next);
  }

  /** On consistent programs the end-marker reading is the type map. */
  lemma {:induction false} MarkerAgrees(p: Prog)
    requires Consistent(p)
    ensures Offs(p, true) == Offs(p, false)
  {
    match p
    case Nil =>
    case Data(_, _, _, _, _, next) => MarkerAgrees(next);
    case Loop(_, _, _, body, _, _, next) => MarkerAgrees(body); MarkerAgrees(next);
  }

  /** Sequences of equal halves are equal half by half. */
  lemma Halves<T>(a: seq<T>, b: seq<T>, x: seq<T>, y: seq<T>)
    requires |a| == |b|
    ensures a + x == b + y <==> a == b && x == y
  {
    if a + x == b + y {
      assert a == (a + x)[..|a|] == (b + y)[..|b|] == b;
      assert x == (a + x)[|a|..] == (b + y)[|b|..] == y;
    }
  }

  lemma {:induction false} StridedExact(u: seq<int>, v: seq<int>, e: int, n: nat)
    requires |u| == |v| && n >= 1
    ensures |Strided(u, e, n)| == |Strided(v, e, n)|
    ensures Strided(u, e, n) == Strided(v, e, n) <==> u == v
  {
    StridedLength(u, e, n);
    StridedLength(v, e, n);
    Halves(u, v, Shift(Strided(u, e, n - 1), e), Shift(Strided(v, e, n - 1), e));
  }

  /** On neat programs the two readings have equal lengths, and they agree exactly on consistent ones. */
  lemma {:induction false} ReadingsAgree(p: Prog)
    requires Neat(p)
    ensures |Offs(p, true)| == |Offs(p, false)|
    ensures Offs(p, true) == Offs(p, false) <==> Consistent(p)
  {
    match p
    case Nil =>
    case Data(t, n, d, e, _, next) =>
      ReadingsAgree(next);
      Halves(DataOffs(t, n, d, e), DataOffs(t, n, d, e), Offs(next, true), Offs(next, false));
    case Loop(n, e, c, body, f, s, next) =>
      ReadingsAgree(next);
      ReadingsAgree(body);
      if c { OneRunLength(body, s); }
      var u := if c then Range(f, s) else Offs(body, true);
      StridedExact(u, Offs(body, false), e, n);
      Halves(Strided(u, e, n), Strided(Offs(body, false), e, n), Offs(next, true), Offs(next, false));
  }

  lemma OneRunLength(p: Prog, size: nat)
    requires OneRun(p, size)
    ensures |Offs(p, false)| == size && Consistent(p)
  {
    StridedLength(Range(p.disp, BasicSize(p.typ)), p.extent, p.count);
    assert Offs(p, false) == DataOffs(p.typ, p.count, p.disp, p.extent) + [];
  }

  /** An entry with one element, or whose extent is its size, is one block. */
  lemma DataDense(typ: nat, count: nat, disp: int, extent: int)
    requires count <= 1 || extent == BasicSize(typ)
    ensures 0 <= count * BasicSize(typ)
    ensures DataOffs(typ, count, disp, extent) == Range(disp, count * BasicSize(typ))
  {
    if count == 1 {
      StridedOne(Range(disp, BasicSize(typ)), extent);
    } else if count > 1 {
      StridedDense(disp, BasicSize(typ), count);
    }
  }

  lemma StridedFirst(s: seq<int>, extent: int, n: nat)
    requires n >= 1 && |s| >= 1
    ensures |Strided(s, extent, n)| >= 1 && Strided(s, extent, n)[0] == s[0]
  {}

  /** The first transferred byte is at the displacement of the first data entry. */
  lemma {:induction false} FirstOffset(p: Prog)
    requires Sane(p) && p != Nil
    ensures |Offs(p, false)| >= 1 && Offs(p, false)[0] == FirstDisp(p)
  {
    match p
    case Data(t, n, d, e, _, _) => StridedFirst(Range(d, BasicSize(t)), e, n);
    case Loop(n, e, _, body, _, _, _) => FirstOffset(body); StridedFirst(Offs(body, false), e, n);
  }

  /** Reading a loop: its start marker, its body and its end marker are where `items` says. */
  lemma {:induction false} LoopCode(desc: seq<Entry>, pos: nat, p: Prog, tail: seq<Entry>)
    requires p.Loop? && pos <= |desc| && desc[pos..] == Flatten(p) + tail
    ensures var b := Flatten(p.body);
            && pos + |b| + 1 < |desc|
            && desc[pos] == LoopE(p.loops, |b| + 1, p.extent, p.contig)
            && desc[pos + |b| + 1] == EndE(|b| + 1, p.size, p.first)
            && desc[pos + 1..] == b + ([EndE(|b| + 1, p.size, p.first)] + (Flatten(p.next) + tail))
  {
    var b := Flatten(p.body);
    var start, end := LoopE(p.loops, |b| + 1, p.extent, p.contig), EndE(|b| + 1, p.size, p.first);
    var all := Flatten(p) + tail;
    assert all == [start] + (b + ([end] + (Flatten(p.next) + tail)));
    assert all[0] == start && all[|b| + 1] == end;
    assert desc[pos..][0] == desc[pos] && desc[pos..][|b| + 1] == desc[pos + |b| + 1];
    assert desc[pos + 1..] == desc[pos..][1..];
  }

  /** GET_FIRST_NON_LOOP: skips the start markers at pos. */
  method GetFirstNonLoop(desc: seq<Entry>, pos: nat, ghost p: Prog) returns (index: nat)
    requires pos <= |desc| && Flatten(p) <= desc[pos..] && Sane(p) && p != Nil
    ensures pos + index < |desc| && desc[pos + index].ElemE? && desc[pos + index].disp == FirstDisp(p)
  {
    index := 0;
    ghost var q := p;
    assert desc[pos..][0] == desc[pos];
    while desc[pos + index].LoopE?
      invariant pos + index < |desc| && Flatten(q) <= desc[pos + index..] && Sane(q) && q != Nil
      invariant desc[pos + index] == Flatten(q)[0]
      invariant FirstDisp(q) == FirstDisp(p)
      decreases |desc| - index
    {
      ghost var tail := desc[pos + index..][|Flatten(q)|..];
      assert desc[pos + index..] == Flatten(q) + tail;
      LoopCode(desc, pos + index, q, tail);
      q := q.body;
      index := index + 1;
      assert q.Data? || q.Loop?;
      assert |Flatten(q)| >= 1;
    }
  }
}
