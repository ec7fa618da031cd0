/** What packing does, as functions: one turn of the packing loop, one buffer, and any sequence of buffers. */
module Packing {
  import opened Offsets
  import opened Description
  import opened Walk

  /** Where packing stands: finished, or at an entry of which `used` elements have been packed. */
  datatype Place = Done | Here(s: Stack, pos: int, used: nat)

  predicate Lively(p: Place)
  {
    p.Here? ==>
      && p.s.Push? && PositiveStack(p.s)
      && (if p.s.k.rest.Data? then p.used <= p.s.k.rest.count else p.used == 0)
  }

  /** How many of count pieces of the given size fit in the space. */
  function Fit(count: nat, size: nat, space: nat): (m: nat)
    ensures m <= count
  {
    if size == 0 || count <= space / size then count else space / size
  }

  lemma FitFacts(count: nat, size: nat, space: nat)
    ensures Fit(count, size, space) * size <= space || size == 0
    ensures Fit(count, size, space) < count ==> space < Fit(count, size, space) * size + size
    ensures count * size <= space ==> Fit(count, size, space) == count
  {
    if size > 0 {
      var q := space / size;
      assert space == q * size + space % size;
      if count <= q {
        assert count * size <= q * size;
      } else {
        assert (q + 1) * size <= count * size;
      }
    }
  }

  lemma FitNone(count: nat, size: nat)
    requires size >= 1
    ensures Fit(count, size, 0) == 0
  {}

  lemma FitOne(count: nat, size: nat)
    requires size >= 1 && count >= 1
    ensures Fit(count, size, size) == 1
  {
    assert size / size == 1;
  }

  /** After whole iterations of a contiguous loop: past it when none is left, else into its body for those left. */
  function AfterLoop(s: Stack, pos: int, left: nat): Place
    requires s.Push? && s.k.rest.Loop?
  {
    if left == 0 then Here(SetRest(s, s.k.rest.next), pos + Len(s.k.rest.body) + 2, 0)
      else Here(Into(s, pos, left), pos + 1, 0)
  }

  /** The bytes a turn packs, whether it then lacks space, and where packing stands after it. */
  datatype Step = Step(x: seq<int>, stuck: bool, next: Place)

  /** One turn of the packing loop with the given space. */
  function TurnOf(p: Place, space: nat): Step
    requires p.Here? && Lively(p)
  {
    var s := p.s;
    match s.k.rest
    case Nil => Step([], false, if AfterEnd(s) == Empty then Done else Here(AfterEnd(s), EndPos(s, p.pos), 0))
    case Data(t, n, d, e, _, next) =>
      var m := Fit(n - p.used, BasicSize(t), space);
      var x := Shift(DataOffs(t, m, d, e), s.l.disp + p.used * e);
      if p.used + m < n then Step(x, true, Here(s, p.pos, p.used + m))
        else Step(x, false, Here(SetRest(s, next), p.pos + 1, 0))
    case Loop(n, e, c, _, f, size, _) =>
      var m := if c then Fit(n, size, space) else 0;
      Step(Shift(Strided(Range(f, size), e, m), s.l.disp), false, AfterLoop(s, p.pos, n - m))
  }

  function Rank(p: Place): nat
  {
    if p.Done? then 0 else Work(p.s)
  }

  lemma {:induction false} DataTurn(p: Place, space: nat)
    requires p.Here? && Lively(p) && p.s.k.rest.Data?
    ensures var t, q := TurnOf(p, space), p.s.k.rest;
            && |t.x| <= space && Lively(t.next) && (!t.stuck ==> Rank(t.next) < Rank(p))
            && (t.stuck ==>
                  t.next.Here? && t.next.s == p.s && t.next.used < q.count && space - |t.x| < BasicSize(q.typ))
  {
    var q := p.s.k.rest;
    var left, size := q.count - p.used, BasicSize(q.typ);
    var m := Fit(left, size, space);
    FitFacts(left, size, space);
    StridedLength(Range(q.disp, size), q.extent, m);
    WorkDecreases(p.s, p.pos, 0);
  }

  lemma {:induction false} LoopTurn(p: Place, space: nat)
    requires p.Here? && Lively(p) && p.s.k.rest.Loop?
    ensures var t := TurnOf(p, space);
            |t.x| <= space && Lively(t.next) && !t.stuck && Rank(t.next) < Rank(p)
  {
    var q := p.s.k.rest;
    var m := if q.contig then Fit(q.loops, q.size, space) else 0;
    FitFacts(q.loops, q.size, space);
    StridedLength(Range(q.first, q.size), q.extent, m);
    WorkDecreases(p.s, p.pos, q.loops - m);
  }

  /** A turn does not overfill, and either lacks space for an element or brings packing nearer its end. */
  lemma {:induction false} TurnFacts(p: Place, space: nat)
    requires p.Here? && Lively(p)
    ensures var t := TurnOf(p, space);
            && |t.x| <= space && Lively(t.next) && (!t.stuck ==> Rank(t.next) < Rank(p))
            && (t.stuck ==> t.next.Here? && Stopped(t.next, space - |t.x|))
  {
    if p.s.k.rest.Data? {
      DataTurn(p, space);
    } else if p.s.k.rest.Loop? {
      LoopTurn(p, space);
    } else {
      WorkDecreases(p.s, p.pos, 0);
    }
  }

  /** Elements of an entry are left, and none of them fits the space. */
  predicate Stopped(p: Place, space: nat)
    requires p.Here? && Lively(p)
  {
    p.s.k.rest.Data? && p.used < p.s.k.rest.count && space < BasicSize(p.s.k.rest.typ)
  }

  /** The bytes packed, and where packing stands then. */
  datatype Filled = Filled(x: seq<int>, next: Place)

  /** Filling one buffer of len bytes. */
  function Fill(p: Place, len: nat): (r: Filled)
    requires Lively(p)
    ensures Lively(r.next) && |r.x| <= len && (r.next.Here? ==> Stopped(r.next, len - |r.x|))
    decreases Rank(p)
  {
    if p.Done? then Filled([], Done)
    else
      TurnFacts(p, len);
      var t := TurnOf(p, len);
      if t.stuck then Filled(t.x, t.next)
      else var r := Fill(t.next, len - |t.x|); Filled(t.x + r.x, r.next)
  }

  /** Filling buffers one after the other; how they are spread over calls makes no difference. */
  function FillAll(p: Place, lens: seq<nat>): (r: Filled)
    requires Lively(p)
    ensures Lively(r.next)
  {
    if lens == [] then Filled([], p)
    else
      var a := FillAll(p, lens[..|lens| - 1]);
      var b := Fill(a.next, lens[|lens| - 1]);
      Filled(a.x + b.x, b.next)
  }

  lemma {:induction false} FillAllSplit(p: Place, a: seq<nat>, b: seq<nat>)
    requires Lively(p)
    ensures var f := FillAll(p, a);
            var g := FillAll(f.next, b);
            FillAll(p, a + b) == Filled(f.x + g.x, g.next)
    decreases |b|
  {
    var f := FillAll(p, a);
    if b == [] {
      assert a + b == a && f.x + [] == f.x;
    } else {
      var b' := b[..|b| - 1];
      FillAllSplit(p, a, b');
      assert (a + b)[..|a + b| - 1] == a + b' && (a + b)[|a + b| - 1] == b[|b| - 1];
      var g := FillAll(f.next, b');
      ConcatAssoc(f.x, g.x, Fill(g.next, b[|b| - 1]).x);
    }
  }

  lemma {:induction false} FillAllDone(p: Place, lens: seq<nat>)
    requires p.Done?
    ensures FillAll(p, lens) == Filled([], Done)
  {
    if lens != [] { FillAllDone(p, lens[..|lens| - 1]); }
  }

  /** Filling one buffer is filling a sequence of one. */
  lemma FillAllOne(p: Place, len: nat)
    requires Lively(p)
    ensures FillAll(p, [len]) == Fill(p, len)
  {
    assert [len][..0] == [];
    assert FillAll(p, []) == Filled([], p);
  }

  // ----- What remains to be packed -----

  /** The offsets left, the loops not yet entered being read as marker says. */
  function Rest(p: Place, marker: bool): seq<int>
    requires Lively(p)
  {
    if p.Done? then []
    else
      match p.s.k.rest
      case Data(t, n, d, e, _, next) =>
        Shift(DataOffs(t, n - p.used, d, e), p.s.l.disp + p.used * e) + Due(SetRest(p.s, next), marker)
      case _ => Due(p.s, marker)
  }

  /** At the beginning of an entry everything it stands for is left. */
  lemma {:induction false} RestAt(s: Stack, pos: int, marker: bool)
    requires s.Push? && PositiveStack(s)
    ensures Lively(Here(s, pos, 0)) && Rest(Here(s, pos, 0), marker) == Due(s, marker)
  {
    if s.k.rest.Data? { DataDue(s, marker); }
  }

  lemma MulSplit(a: int, b: int, e: int)
    ensures (a + b) * e == a * e + b * e
  {}

  /** From p to q exactly x was packed. */
  predicate Keeps(p: Place, x: seq<int>, q: Place, marker: bool)
  {
    Lively(p) && Lively(q) && Rest(p, marker) == x + Rest(q, marker)
  }

  lemma KeepsOn(p: Place, x: seq<int>, q: Place, y: seq<int>, r: Place, marker: bool)
    requires Keeps(p, x, q, marker) && Keeps(q, y, r, marker)
    ensures Keeps(p, x + y, r, marker)
  {
    ConcatAssoc(x, y, Rest(r, marker));
  }

  lemma KeepsJoin(p: Place, t: Step, r: Filled, f: Filled, marker: bool)
    requires Keeps(p, t.x, t.next, marker) && Keeps(t.next, r.x, r.next, marker) && f == Filled(t.x + r.x, r.next)
    ensures Keeps(p, f.x, f.next, marker)
  {
    KeepsOn(p, t.x, t.next, r.x, r.next, marker);
  }

  lemma KeepsNone(p: Place, q: Place, marker: bool)
    requires Lively(p) && Lively(q) && Rest(p, marker) == Rest(q, marker)
    ensures Keeps(p, [], q, marker)
  {
    assert [] + Rest(q, marker) == Rest(q, marker);
  }

  /** What a place in a data entry has left, conv being where its next element is. */
  lemma {:induction false} RestOfEntry(p: Place, conv: int, marker: bool)
    requires p.Here? && Lively(p) && p.s.k.rest.Data? && conv == p.s.l.disp + p.used * p.s.k.rest.extent
    ensures var q := p.s.k.rest;
            Rest(p, marker) == Shift(DataOffs(q.typ, q.count - p.used, q.disp, q.extent), conv)
              + Due(SetRest(p.s, q.next), marker)
  {}

  /** Packing m elements of a data entry, x, leads to h. */
  lemma {:induction false} RestSome(p: Place, m: nat, conv: int, x: seq<int>, h: Place, marker: bool)
    requires p.Here? && Lively(p) && p.s.k.rest.Data? && p.used + m <= p.s.k.rest.count
             && h == Here(p.s, p.pos, p.used + m)
    requires conv == p.s.l.disp + p.used * p.s.k.rest.extent
    requires var q := p.s.k.rest; x == Shift(DataOffs(q.typ, m, q.disp, q.extent), conv)
    ensures Keeps(p, x, h, marker)
  {
    var q, tail := p.s.k.rest, Due(SetRest(p.s, p.s.k.rest.next), marker);
    var conv' := p.s.l.disp + h.used * q.extent;
    assert conv' == conv + m * q.extent by { MulSplit(p.used, m, q.extent); }
    RestOfEntry(p, conv, marker);
    RestOfEntry(h, conv', marker);
    KeepsElements(p, x, h, q, m, q.count - h.used, conv, conv', tail, marker);
  }

  lemma {:induction false} KeepsElements(p: Place, x: seq<int>, h: Place, q: Prog, m: nat, n: nat, conv: int,
                                         conv': int, tail: seq<int>, marker: bool)
    requires Lively(p) && Lively(h) && q.Data? && conv' == conv + m * q.extent
    requires x == Shift(DataOffs(q.typ, m, q.disp, q.extent), conv)
    requires Rest(p, marker) == Shift(DataOffs(q.typ, m + n, q.disp, q.extent), conv) + tail
    requires Rest(h, marker) == Shift(DataOffs(q.typ, n, q.disp, q.extent), conv') + tail
    ensures Keeps(p, x, h, marker)
  {
    ElementsSplit(q, m, n, conv, conv', tail);
  }

  lemma {:induction false} ElementsSplit(q: Prog, m: nat, n: nat, conv: int, conv': int, tail: seq<int>)
    requires q.Data? && conv' == conv + m * q.extent
    ensures Shift(DataOffs(q.typ, m + n, q.disp, q.extent), conv) + tail
         == Shift(DataOffs(q.typ, m, q.disp, q.extent), conv)
           + (Shift(DataOffs(q.typ, n, q.disp, q.extent), conv') + tail)
  {
    var u := Range(q.disp, BasicSize(q.typ));
    LoopSplit(u, q.extent, m, n, conv, conv');
    ConcatAssoc(Shift(Strided(u, q.extent, m), conv), Shift(Strided(u, q.extent, n), conv'), tail);
  }

  /** With no element left the entry is done. */
  lemma {:induction false} RestNone(p: Place, marker: bool)
    requires p.Here? && Lively(p) && p.s.k.rest.Data? && p.used == p.s.k.rest.count
    ensures Keeps(p, [], Here(SetRest(p.s, p.s.k.rest.next), p.pos + 1, 0), marker)
  {
    var q, s' := p.s.k.rest, SetRest(p.s, p.s.k.rest.next);
    assert DataOffs(q.typ, 0, q.disp, q.extent) == [];
    assert Shift([], p.s.l.disp + p.used * q.extent) == [];
    RestAt(s', p.pos + 1, marker);
    assert Rest(p, marker) == [] + Due(s', marker);
  }

  /** A data entry gives up exactly what is packed. */
  lemma {:induction false} DataRest(p: Place, space: nat, marker: bool)
    requires p.Here? && Lively(p) && p.s.k.rest.Data?
    ensures Keeps(p, TurnOf(p, space).x, TurnOf(p, space).next, marker)
  {
    var q := p.s.k.rest;
    var m := Fit(q.count - p.used, BasicSize(q.typ), space);
    ElementsRest(p, m, p.s.l.disp + p.used * q.extent, TurnOf(p, space).x, Here(p.s, p.pos, p.used + m),
                 TurnOf(p, space).next, marker);
  }

  lemma {:induction false} ElementsRest(p: Place, m: nat, conv: int, x: seq<int>, h: Place, next: Place, marker: bool)
    requires p.Here? && Lively(p) && p.s.k.rest.Data? && p.used + m <= p.s.k.rest.count
             && h == Here(p.s, p.pos, p.used + m)
    requires conv == p.s.l.disp + p.used * p.s.k.rest.extent
    requires var q := p.s.k.rest; x == Shift(DataOffs(q.typ, m, q.disp, q.extent), conv)
    requires next == if h.used < h.s.k.rest.count then h else Here(SetRest(h.s, h.s.k.rest.next), h.pos + 1, 0)
    ensures Keeps(p, x, next, marker)
  {
    RestSome(p, m, conv, x, h, marker);
    if next != h { ThenNext(p, x, h, marker); }
  }

  /** The last elements of an entry were packed. */
  lemma {:induction false} ThenNext(p: Place, x: seq<int>, h: Place, marker: bool)
    requires Keeps(p, x, h, marker) && h.Here? && h.s.k.rest.Data? && h.used == h.s.k.rest.count
    ensures Keeps(p, x, Here(SetRest(h.s, h.s.k.rest.next), h.pos + 1, 0), marker)
  {
    RestNone(h, marker);
    KeepsOn(p, x, h, [], Here(SetRest(h.s, h.s.k.rest.next), h.pos + 1, 0), marker);
    assert x + [] == x;
  }

  /** An end marker. */
  lemma {:induction false} EndRest(p: Place, space: nat, marker: bool)
    requires p.Here? && Lively(p) && p.s.k.rest == Nil
    ensures Keeps(p, TurnOf(p, space).x, TurnOf(p, space).next, marker)
  {
    var s' := AfterEnd(p.s);
    EndDue(p.s, marker);
    TurnFacts(p, space);
    if s' != Empty { RestAt(s', EndPos(p.s, p.pos), marker); }
    KeepsNone(p, TurnOf(p, space).next, marker);
  }

  /** A loop of which m iterations are read as marker says. */
  lemma {:induction false} LoopRest(p: Place, m: nat, marker: bool)
    requires p.Here? && Lively(p) && p.s.k.rest.Loop? && m <= p.s.k.rest.loops
             && (m < p.s.k.rest.loops && marker ==> !p.s.k.rest.contig)
    ensures Keeps(p, Shift(LoopOffs(p.s.k.rest, m, marker), p.s.l.disp), AfterLoop(p.s, p.pos, p.s.k.rest.loops - m),
                  marker)
  {
    if m == p.s.k.rest.loops {
      LoopOver(p, Shift(LoopOffs(p.s.k.rest, m, marker), p.s.l.disp), AfterLoop(p.s, p.pos, 0), marker);
    } else {
      LoopInto(p, m, marker);
    }
  }

  /** From the beginning of one entry to the beginning of another. */
  lemma {:induction false} KeepsDue(s: Stack, pos: int, x: seq<int>, s': Stack, pos': int, marker: bool)
    requires s.Push? && PositiveStack(s) && s'.Push? && PositiveStack(s') && Due(s, marker) == x + Due(s', marker)
    ensures Keeps(Here(s, pos, 0), x, Here(s', pos', 0), marker)
  {
    RestAt(s, pos, marker);
    RestAt(s', pos', marker);
  }

  lemma {:induction false} LoopOver(p: Place, x: seq<int>, q: Place, marker: bool)
    requires p.Here? && Lively(p) && p.s.k.rest.Loop? && q == AfterLoop(p.s, p.pos, 0)
    requires x == Shift(LoopOffs(p.s.k.rest, p.s.k.rest.loops, marker), p.s.l.disp)
    ensures Keeps(p, x, q, marker)
  {
    OverDue(p.s, marker);
    KeepsDue(p.s, p.pos, x, q.s, q.pos, marker);
    assert p == Here(p.s, p.pos, 0) && q == Here(q.s, q.pos, 0);
  }

  lemma {:induction false} LoopInto(p: Place, m: nat, marker: bool)
    requires p.Here? && Lively(p) && p.s.k.rest.Loop? && m < p.s.k.rest.loops && (marker ==> !p.s.k.rest.contig)
    ensures Keeps(p, Shift(LoopOffs(p.s.k.rest, m, marker), p.s.l.disp), AfterLoop(p.s, p.pos, p.s.k.rest.loops - m),
                  marker)
  {
    var left := p.s.k.rest.loops - m;
    var x := Shift(LoopOffs(p.s.k.rest, m, marker), p.s.l.disp);
    IntoDue(p.s, p.pos, marker, left);
    KeepsDue(p.s, p.pos, x, Into(p.s, p.pos, left), p.pos + 1, marker);
  }

  lemma {:induction false} NoIterations(p: Prog, marker: bool, d: int)
    requires p.Loop?
    ensures Shift(LoopOffs(p, 0, marker), d) == [] == Shift(Strided(Range(p.first, p.size), p.extent, 0), d)
  {}

  lemma {:induction false} IterationsAgree(q: Prog, m: nat, d: int)
    requires q.Loop? && (m == 0 || (q.contig && Consistent(q)))
    ensures Shift(LoopOffs(q, m, false), d) == Shift(Strided(Range(q.first, q.size), q.extent, m), d)
  {
    if m == 0 { NoIterations(q, false, d); }
  }

  lemma {:induction false} BodyLoop(p: Place, space: nat)
    requires p.Here? && Lively(p) && p.s.k.rest.Loop?
    requires var q := p.s.k.rest; q.contig ==> Consistent(q) || Fit(q.loops, q.size, space) == 0
    ensures Keeps(p, TurnOf(p, space).x, TurnOf(p, space).next, false)
  {
    var q := p.s.k.rest;
    var m := if q.contig then Fit(q.loops, q.size, space) else 0;
    IterationsAgree(q, m, p.s.l.disp);
    LoopGives(p, m, TurnOf(p, space), false);
  }

  lemma {:induction false} LoopGives(p: Place, m: nat, t: Step, marker: bool)
    requires p.Here? && Lively(p) && p.s.k.rest.Loop? && m <= p.s.k.rest.loops
             && (m < p.s.k.rest.loops && marker ==> !p.s.k.rest.contig)
    requires t.x == Shift(LoopOffs(p.s.k.rest, m, marker), p.s.l.disp)
             && t.next == AfterLoop(p.s, p.pos, p.s.k.rest.loops - m)
    ensures Keeps(p, t.x, t.next, marker)
  {
    LoopRest(p, m, marker);
  }

  /** Read through the bodies: right unless iterations of an inconsistent loop are packed through its marker. */
  lemma {:induction false} BodyTurn(p: Place, space: nat)
    requires p.Here? && Lively(p)
    requires var q := p.s.k.rest; q.Loop? && q.contig ==> Consistent(q) || Fit(q.loops, q.size, space) == 0
    ensures Keeps(p, TurnOf(p, space).x, TurnOf(p, space).next, false)
  {
    if p.s.k.rest.Data? {
      DataRest(p, space, false);
    } else if p.s.k.rest.Loop? {
      BodyLoop(p, space);
    } else {
      EndRest(p, space, false);
    }
  }

  lemma {:induction false} MarkerData(p: Place, space: nat)
    requires p.Here? && Lively(p) && p.s.k.rest.Data? && |Rest(p, true)| <= space
    ensures !TurnOf(p, space).stuck
  {
    var q := p.s.k.rest;
    ElementsFit(q, q.count - p.used, p.s.l.disp + p.used * q.extent, Due(SetRest(p.s, q.next), true), space);
  }

  lemma {:induction false} ElementsFit(q: Prog, n: nat, conv: int, tail: seq<int>, space: nat)
    requires q.Data? && |Shift(DataOffs(q.typ, n, q.disp, q.extent), conv) + tail| <= space
    ensures Fit(n, BasicSize(q.typ), space) == n
  {
    StridedLength(Range(q.disp, BasicSize(q.typ)), q.extent, n);
    FitFacts(n, BasicSize(q.typ), space);
  }

  lemma {:induction false} MarkerLoop(p: Place, space: nat)
    requires p.Here? && Lively(p) && p.s.k.rest.Loop? && |Rest(p, true)| <= space
    ensures Keeps(p, TurnOf(p, space).x, TurnOf(p, space).next, true)
  {
    var q := p.s.k.rest;
    var m := if q.contig then q.loops else 0;
    NoIterations(q, true, p.s.l.disp);
    if q.contig { LoopFits(p, space); }
    LoopGives(p, m, TurnOf(p, space), true);
  }

  lemma {:induction false} LoopFits(p: Place, space: nat)
    requires p.Here? && Lively(p) && p.s.k.rest.Loop? && p.s.k.rest.contig && |Rest(p, true)| <= space
    ensures Fit(p.s.k.rest.loops, p.s.k.rest.size, space) == p.s.k.rest.loops
  {
    var q := p.s.k.rest;
    LoopOver(p, Shift(LoopOffs(q, q.loops, true), p.s.l.disp), AfterLoop(p.s, p.pos, 0), true);
    StridedLength(Range(q.first, q.size), q.extent, q.loops);
    FitFacts(q.loops, q.size, space);
  }

  /** Read through the markers: right if everything fits. */
  lemma {:induction false} MarkerTurn(p: Place, space: nat)
    requires p.Here? && Lively(p) && |Rest(p, true)| <= space
    ensures !TurnOf(p, space).stuck && Keeps(p, TurnOf(p, space).x, TurnOf(p, space).next, true)
  {
    if p.s.k.rest.Data? {
      MarkerData(p, space);
      DataRest(p, space, true);
    } else if p.s.k.rest.Loop? {
      MarkerLoop(p, space);
    } else {
      EndRest(p, space, true);
    }
  }

  /** Filling a buffer begins with the turn t. */
  predicate Begins(p: Place, len: nat, t: Step)
  {
    && Lively(p) && |t.x| <= len && Lively(t.next)
    && (t.stuck ==> t.next.Here? && AtElement(t.next) && Fill(p, len) == Filled(t.x, t.next))
    && (!t.stuck ==>
          && Rank(t.next) < Rank(p)
          && Fill(p, len) == Filled(t.x + Fill(t.next, len - |t.x|).x, Fill(t.next, len - |t.x|).next))
  }

  /** Finished, or at an entry with elements left. */
  predicate AtElement(p: Place)
    requires Lively(p)
  {
    p.Here? ==> p.s.k.rest.Data? && p.used < p.s.k.rest.count
  }

  lemma {:induction false} FillStep(p: Place, len: nat)
    requires p.Here? && Lively(p)
    ensures Begins(p, len, TurnOf(p, len))
  {
    TurnFacts(p, len);
  }

  // ----- Descriptions whose loops say how long they are -----

  /** Nothing is empty, and the end marker of a loop flagged contiguous gives the number of bytes of its body. */
  predicate Sized(p: Prog)
  {
    match p
    case Nil => true
    case Data(t, n, _, _, _, next) => n >= 1 && BasicSize(t) >= 1 && Sized(next)
    case Loop(n, _, c, body, _, s, next) =>
      n >= 1 && Sized(body) && Sized(next) && (c ==> s >= 1 && |Offs(body, false)| == s)
  }

  lemma {:induction false} SizedPositive(p: Prog)
    requires Sized(p)
    ensures Positive(p)
  {
    match p
    case Nil =>
    case Data(_, _, _, _, _, next) => SizedPositive(next);
    case Loop(_, _, _, body, _, _, next) => SizedPositive(body); SizedPositive(next);
  }

  lemma {:induction false} NeatSized(p: Prog)
    requires Neat(p)
    ensures Sized(p)
  {
    match p
    case Nil =>
    case Data(_, _, _, _, _, next) => NeatSized(next);
    case Loop(_, _, c, body, _, s, next) =>
      NeatSized(body);
      NeatSized(next);
      if c {
        OneRunLength(body, s);
        assert body.count * BasicSize(body.typ) >= 1;
      }
  }

  predicate SizedStack(s: Stack)
  {
    s.Push? ==> Sized(s.k.rest) && Sized(s.k.body) && SizedStack(s.below)
  }

  predicate SizedPlace(p: Place)
  {
    Lively(p) && (p.Here? ==> SizedStack(p.s))
  }

  lemma {:induction false} TurnSized(p: Place, space: nat)
    requires p.Here? && SizedPlace(p)
    ensures SizedPlace(TurnOf(p, space).next)
  {
    TurnFacts(p, space);
  }

  /** From p to q as many bytes were packed as are missing. */
  predicate Counts(p: Place, n: nat, q: Place)
  {
    Lively(p) && Lively(q) && |Rest(p, false)| == n + |Rest(q, false)|
  }

  lemma CountsOn(p: Place, m: nat, q: Place, n: nat, r: Place)
    requires Counts(p, m, q) && Counts(q, n, r)
    ensures Counts(p, m + n, r)
  {}

  lemma CountsJoin(p: Place, t: Step, r: Filled, f: Filled)
    requires Counts(p, |t.x|, t.next) && Counts(t.next, |r.x|, r.next) && f == Filled(t.x + r.x, r.next)
    ensures Counts(p, |f.x|, f.next)
  {}

  lemma KeepsCounts(p: Place, x: seq<int>, q: Place)
    requires Keeps(p, x, q, false)
    ensures Counts(p, |x|, q)
  {}

  lemma {:induction false} LoopLength(p: Place, space: nat)
    requires p.Here? && SizedPlace(p) && p.s.k.rest.Loop? && p.s.k.rest.contig
    ensures Counts(p, |TurnOf(p, space).x|, TurnOf(p, space).next)
  {
    var q := p.s.k.rest;
    var m := Fit(q.loops, q.size, space);
    LoopRest(p, m, false);
    KeepsCounts(p, Shift(LoopOffs(q, m, false), p.s.l.disp), AfterLoop(p.s, p.pos, q.loops - m));
    StridedLength(Offs(q.body, false), q.extent, m);
    StridedLength(Range(q.first, q.size), q.extent, m);
  }

  /** A turn packs as many bytes as it takes off what is left. */
  lemma {:induction false} TurnLength(p: Place, space: nat)
    requires p.Here? && SizedPlace(p)
    ensures Counts(p, |TurnOf(p, space).x|, TurnOf(p, space).next)
  {
    if p.s.k.rest.Loop? && p.s.k.rest.contig {
      LoopLength(p, space);
    } else {
      BodyTurn(p, space);
      KeepsCounts(p, TurnOf(p, space).x, TurnOf(p, space).next);
    }
  }

  /** While elements are left, so are bytes. */
  lemma {:induction false} StoppedRest(p: Place)
    requires p.Here? && SizedPlace(p) && p.s.k.rest.Data? && p.used < p.s.k.rest.count
    ensures |Rest(p, false)| >= 1
  {
    var q := p.s.k.rest;
    StridedFirst(Range(q.disp, BasicSize(q.typ)), q.extent, q.count - p.used);
  }

  /** Something is left unless packing is done. */
  predicate Unfinished(p: Place)
  {
    Lively(p) && (p.Here? ==> |Rest(p, false)| >= 1)
  }

  lemma {:induction false} SizedTurn(p: Place, len: nat) returns (t: Step)
    requires p.Here? && SizedPlace(p)
    ensures Begins(p, len, t) && SizedPlace(t.next) && Counts(p, |t.x|, t.next) && (t.stuck ==> Unfinished(t.next))
  {
    t := TurnOf(p, len);
    FillStep(p, len);
    TurnSized(p, len);
    TurnLength(p, len);
    if t.stuck { StoppedRest(t.next); }
  }

  lemma {:induction false} FillLength(p: Place, len: nat) returns (f: Filled)
    requires SizedPlace(p)
    ensures f == Fill(p, len) && SizedPlace(f.next) && Counts(p, |f.x|, f.next) && Unfinished(f.next)
    decreases Rank(p)
  {
    if p.Done? {
      f := Filled([], Done);
    } else {
      var t := SizedTurn(p, len);
      f := Filled(t.x, t.next);
      if !t.stuck {
        var r := FillLength(t.next, len - |t.x|);
        f := Filled(t.x + r.x, r.next);
        CountsJoin(p, t, r, f);
      }
    }
  }

  lemma {:induction false} FillAllLength(p: Place, lens: seq<nat>) returns (f: Filled)
    requires SizedPlace(p) && Unfinished(p)
    ensures f == FillAll(p, lens) && SizedPlace(f.next) && Counts(p, |f.x|, f.next) && Unfinished(f.next)
  {
    if lens == [] {
      f := Filled([], p);
    } else {
      var a := FillAllLength(p, lens[..|lens| - 1]);
      var b := FillLength(a.next, lens[|lens| - 1]);
      f := Filled(a.x + b.x, b.next);
      CountsOn(p, |a.x|, a.next, |b.x|, b.next);
    }
  }

  // ----- Consistent descriptions: every run is right -----

  predicate ConsistentStack(s: Stack)
  {
    s.Push? ==> Consistent(s.k.rest) && Consistent(s.k.body) && ConsistentStack(s.below)
  }

  predicate ConsistentPlace(p: Place)
  {
    Lively(p) && (p.Here? ==> ConsistentStack(p.s))
  }

  lemma {:induction false} TurnConsistent(p: Place, space: nat)
    requires p.Here? && ConsistentPlace(p)
    ensures ConsistentPlace(TurnOf(p, space).next)
  {
    TurnFacts(p, space);
  }

  lemma {:induction false} ConsistentTurn(p: Place, len: nat) returns (t: Step)
    requires p.Here? && ConsistentPlace(p)
    ensures Begins(p, len, t) && ConsistentPlace(t.next) && Keeps(p, t.x, t.next, false)
  {
    t := TurnOf(p, len);
    FillStep(p, len);
    TurnConsistent(p, len);
    BodyTurn(p, len);
  }

  lemma {:induction false} FillConsistent(p: Place, len: nat) returns (f: Filled)
    requires ConsistentPlace(p)
    ensures f == Fill(p, len) && ConsistentPlace(f.next) && Keeps(p, f.x, f.next, false)
    decreases Rank(p)
  {
    if p.Done? {
      f := Filled([], Done);
    } else {
      var t := ConsistentTurn(p, len);
      f := Filled(t.x, t.next);
      if !t.stuck {
        var r := FillConsistent(t.next, len - |t.x|);
        f := Filled(t.x + r.x, r.next);
        KeepsJoin(p, t, r, f, false);
      }
    }
  }

  /** Whatever the buffers, what is packed is followed by what is left. */
  lemma {:induction false} FillAllConsistent(p: Place, lens: seq<nat>) returns (f: Filled)
    requires ConsistentPlace(p)
    ensures f == FillAll(p, lens) && ConsistentPlace(f.next) && Keeps(p, f.x, f.next, false)
  {
    f := Filled([], p);
    if lens == [] {
      KeepsNone(p, p, false);
    } else {
      var a := FillAllConsistent(p, lens[..|lens| - 1]);
      var b := FillConsistent(a.next, lens[|lens| - 1]);
      f := Filled(a.x + b.x, b.next);
      KeepsOn(p, a.x, a.next, b.x, b.next, false);
    }
  }

  // ----- Two runs: all at once, and element by element -----

  lemma {:induction false} WholeTurn(p: Place, len: nat) returns (t: Step)
    requires p.Here? && Lively(p) && |Rest(p, true)| <= len
    ensures Begins(p, len, t) && !t.stuck && Keeps(p, t.x, t.next, true)
  {
    t := TurnOf(p, len);
    FillStep(p, len);
    MarkerTurn(p, len);
  }

  /** A buffer that holds everything is packed through the markers. */
  lemma {:induction false} FillWhole(p: Place, len: nat) returns (f: Filled)
    requires Lively(p) && |Rest(p, true)| <= len
    ensures f == Fill(p, len) && f.next == Done && Keeps(p, f.x, Done, true)
    decreases Rank(p)
  {
    f := Filled([], Done);
    if p.Here? {
      var t := WholeTurn(p, len);
      KeepsFits(p, t.x, t.next);
      var r := FillWhole(t.next, len - |t.x|);
      f := Filled(t.x + r.x, Done);
      KeepsJoin(p, t, r, f, true);
    }
  }

  lemma KeepsFits(p: Place, x: seq<int>, q: Place)
    requires Keeps(p, x, q, true)
    ensures |Rest(q, true)| == |Rest(p, true)| - |x|
  {}

  lemma {:induction false} EmptyTurn(p: Place) returns (t: Step)
    requires p.Here? && SizedPlace(p)
    ensures Begins(p, 0, t) && SizedPlace(t.next) && t.x == [] && Keeps(p, t.x, t.next, false)
  {
    t := TurnOf(p, 0);
    var l := p.s.k.rest;
    if l.Loop? && l.contig { FitNone(l.loops, l.size); }
    FillStep(p, 0);
    TurnSized(p, 0);
    BodyTurn(p, 0);
  }

  /** Without space every loop on the way is entered, and nothing is packed. */
  lemma {:induction false} FillNothing(p: Place) returns (q: Place)
    requires SizedPlace(p)
    ensures Fill(p, 0) == Filled([], q) && SizedPlace(q) && Keeps(p, [], q, false) && AtElement(q)
    decreases Rank(p)
  {
    q := Done;
    if p.Here? {
      var t := EmptyTurn(p);
      q := t.next;
      if !t.stuck {
        q := FillNothing(t.next);
        KeepsOn(p, [], t.next, [], q, false);
      }
    }
  }

  lemma {:induction false} ElementTurn(p: Place, size: nat) returns (t: Step)
    requires p.Here? && SizedPlace(p) && AtElement(p) && size == BasicSize(p.s.k.rest.typ)
    ensures Begins(p, size, t) && SizedPlace(t.next) && |t.x| == size && Keeps(p, t.x, t.next, false)
  {
    t := TurnOf(p, size);
    var q := p.s.k.rest;
    FitOne(q.count - p.used, size);
    StridedLength(Range(q.disp, size), q.extent, 1);
    FillStep(p, size);
    TurnSized(p, size);
    BodyTurn(p, size);
  }

  /** With space for one element just that element is packed. */
  lemma {:induction false} FillElement(p: Place) returns (f: Filled)
    requires p.Here? && SizedPlace(p) && AtElement(p)
    ensures f == Fill(p, BasicSize(p.s.k.rest.typ)) && |f.x| >= 1 && SizedPlace(f.next) && Keeps(p, f.x, f.next, false)
            && AtElement(f.next)
  {
    var t := ElementTurn(p, BasicSize(p.s.k.rest.typ));
    f := Filled(t.x, t.next);
    if !t.stuck {
      var r := FillNothing(t.next);
      f := Filled(t.x + [], r);
      KeepsOn(p, t.x, t.next, [], r, false);
    }
  }

  /** Buffers of one element each, for which every loop is read through its body. */
  lemma {:induction false} ByElement(p: Place) returns (lens: seq<nat>)
    requires SizedPlace(p) && AtElement(p)
    ensures FillAll(p, lens).next == Done && Keeps(p, FillAll(p, lens).x, Done, false)
    decreases |Rest(p, false)|
  {
    if p.Done? {
      lens := [];
    } else {
      var size := BasicSize(p.s.k.rest.typ);
      var f := FillElement(p);
      KeepsCounts(p, f.x, f.next);
      var more := ByElement(f.next);
      FillAllOne(p, size);
      FillAllSplit(p, [size], more);
      lens := [size] + more;
      KeepsOn(p, f.x, f.next, FillAll(f.next, more).x, Done, false);
    }
  }

  // ----- Packing count elements of a datatype -----

  function Start(prog: Prog, extent: int, count: nat): Place
  {
    if count == 0 || Offs(prog, false) == [] then Done
    else Here(Push(Code(prog, prog, extent), Level(-1, count, 0), Empty), 0, 0)
  }

  /** The bytes of count elements. */
  function Whole(prog: Prog, extent: int, count: nat, marker: bool): seq<int>
  {
    Strided(Offs(prog, marker), extent, count)
  }

  lemma {:induction false} StartFacts(prog: Prog, extent: int, count: nat)
    requires Sized(prog) && |Offs(prog, true)| == |Offs(prog, false)|
    ensures var p := Start(prog, extent, count);
            && SizedPlace(p) && Rest(p, false) == Whole(prog, extent, count, false)
               && Rest(p, true) == Whole(prog, extent, count, true)
            && (p.Here? ==> |Rest(p, false)| >= 1) && (Consistent(prog) ==> ConsistentPlace(p))
  {
    SizedPositive(prog);
    var s := Push(Code(prog, prog, extent), Level(-1, count, 0), Empty);
    StridedLength(Offs(prog, false), extent, count);
    StridedLength(Offs(prog, true), extent, count);
    if count > 0 {
      FirstDue(prog, extent, count, true);
      FirstDue(prog, extent, count, false);
      RestAt(s, 0, true);
      RestAt(s, 0, false);
    }
  }

  lemma {:induction false} FirstDue(prog: Prog, extent: int, count: nat, marker: bool)
    requires count >= 1
    ensures Due(Push(Code(prog, prog, extent), Level(-1, count, 0), Empty), marker)
            == Whole(prog, extent, count, marker)
  {
    ShiftZero(Offs(prog, marker));
    assert Due(Empty, marker) == [];
  }

  /** What is packed is the next part of total, and all of it once packing is done. */
  predicate Right(f: Filled, total: seq<int>)
  {
    f.x <= total && (f.next.Done? ==> f.x == total)
  }

  lemma {:induction false} StartLively(prog: Prog, extent: int, count: nat)
    requires Sized(prog)
    ensures Lively(Start(prog, extent, count))
  {
    SizedPositive(prog);
  }

  /** Every run of a consistent description is right. */
  lemma {:induction false} AllRight(prog: Prog, extent: int, count: nat, lens: seq<nat>)
    requires Sized(prog) && Consistent(prog)
    ensures Lively(Start(prog, extent, count))
    ensures Right(FillAll(Start(prog, extent, count), lens), Whole(prog, extent, count, false))
  {
    MarkerAgrees(prog);
    StartFacts(prog, extent, count);
    var f := FillAllConsistent(Start(prog, extent, count), lens);
  }

  /** One run packs the bytes that the markers give, another those that the bodies give. */
  lemma {:induction false} BothReadings(prog: Prog, extent: int, count: nat) returns (whole: seq<nat>, single: seq<nat>)
    requires Sized(prog) && |Offs(prog, true)| == |Offs(prog, false)|
    ensures Lively(Start(prog, extent, count))
    ensures FillAll(Start(prog, extent, count), whole) == Filled(Whole(prog, extent, count, true), Done)
    ensures FillAll(Start(prog, extent, count), single) == Filled(Whole(prog, extent, count, false), Done)
  {
    var p := Start(prog, extent, count);
    StartFacts(prog, extent, count);
    var n := |Rest(p, true)|;
    whole := [n];
    var f := FillWhole(p, n);
    FillAllOne(p, n);
    KeepsAll(p, f.x, true);
    var q := FillNothing(p);
    var more := ByElement(q);
    single := [0] + more;
    FillAllOne(p, 0);
    FillAllSplit(p, [0], more);
    KeepsOn(p, [], q, FillAll(q, more).x, Done, false);
    KeepsAll(p, FillAll(p, single).x, false);
  }

  lemma KeepsAll(p: Place, x: seq<int>, marker: bool)
    requires Keeps(p, x, Done, marker)
    ensures x == Rest(p, marker)
  {}
}
