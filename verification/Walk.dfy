/** The machine that both engines run: a position in the flat description and a stack of open loops. */
module Walk {
  import opened Offsets
  import opened Description

  /** dt_stack_t: the start marker of an open loop, iterations left (the current one included), displacement. */
  datatype Level = Level(index: int, count: nat, disp: int)

  /** What a level stands for: the body of its loop, what is left of the current iteration, the loop extent. */
  datatype Code = Code(body: Prog, rest: Prog, extent: int)

  /** The machine stack together with the programs its levels stand for. */
  datatype Stack = Empty | Push(k: Code, l: Level, below: Stack)

  function Levels(s: Stack): seq<Level>
  {
    match s
    case Empty => []
    case Push(_, l, b) => Levels(b) + [l]
  }

  /** Number of entries of p. */
  function Len(p: Prog): nat
  {
    match p
    case Nil => 0
    case Data(_, _, _, _, _, next) => 1 + Len(next)
    case Loop(_, _, _, body, _, _, next) => Len(body) + 2 + Len(next)
  }

  /** The entries of p are at pos, followed by an end marker. */
  predicate At(desc: seq<Entry>, pos: int, p: Prog)
    decreases p
  {
    0 <= pos < |desc| &&
    match p
    case Nil => desc[pos].EndE?
    case Data(t, n, d, e, c, next) => desc[pos] == ElemE(t, n, d, e, c) && At(desc, pos + 1, next)
    case Loop(n, e, c, body, f, s, next) =>
      && pos + Len(body) + 1 < |desc|
      && desc[pos] == LoopE(n, Len(body) + 1, e, c) && desc[pos + Len(body) + 1] == EndE(Len(body) + 1, s, f)
      && At(desc, pos + 1, body) && At(desc, pos + Len(body) + 2, next)
  }

  lemma {:induction false} FlattenLen(p: Prog)
    ensures |Flatten(p)| == Len(p)
  {
    match p
    case Nil =>
    case Data(_, _, _, _, _, next) => FlattenLen(next);
    case Loop(_, _, _, body, _, _, next) => FlattenLen(body); FlattenLen(next);
  }

  /** A flat description holds the program it was flattened from. */
  lemma {:induction false} AtFlatten(desc: seq<Entry>, pos: nat, p: Prog, tail: seq<Entry>)
    requires pos <= |desc| && desc[pos..] == Flatten(p) + tail && |tail| >= 1 && tail[0].EndE?
    ensures At(desc, pos, p)
    decreases p
  {
    match p
    case Nil => assert desc[pos..][0] == desc[pos];
    case Data(t, n, d, e, c, next) =>
      DataCode(desc, pos, p, tail);
      AtFlatten(desc, pos + 1, next, tail);
    case Loop(n, e, c, body, f, s, next) =>
      LoopAt(desc, pos, p, tail);
      AtFlatten(desc, pos + 1, body, [EndE(Len(body) + 1, s, f)] + (Flatten(next) + tail));
      AtFlatten(desc, pos + Len(body) + 2, next, tail);
  }

  lemma {:induction false} DataCode(desc: seq<Entry>, pos: nat, p: Prog, tail: seq<Entry>)
    requires p.Data? && pos <= |desc| && desc[pos..] == Flatten(p) + tail
    ensures pos < |desc| && desc[pos] == ElemE(p.typ, p.count, p.disp, p.extent, p.contig)
    ensures desc[pos + 1..] == Flatten(p.next) + tail
  {
    var all := Flatten(p) + tail;
    assert |desc[pos..]| == |all| && desc[pos..][0] == desc[pos];
    assert desc[pos + 1..] == desc[pos..][1..];
  }

  /** Where the markers of a loop are, and what follows each. */
  lemma {:induction false} LoopAt(desc: seq<Entry>, pos: nat, p: Prog, tail: seq<Entry>)
    requires p.Loop? && pos <= |desc| && desc[pos..] == Flatten(p) + tail
    ensures var n, end := Len(p.body), EndE(Len(p.body) + 1, p.size, p.first);
            && pos + n + 1 < |desc| && desc[pos] == LoopE(p.loops, n + 1, p.extent, p.contig)
               && desc[pos + n + 1] == end
            && desc[pos + 1..] == Flatten(p.body) + ([end] + (Flatten(p.next) + tail))
            && desc[pos + n + 2..] == Flatten(p.next) + tail
  {
    FlattenLen(p.body);
    LoopCode(desc, pos, p, tail);
    AfterBody(desc, pos + 1, Flatten(p.body), EndE(Len(p.body) + 1, p.size, p.first), Flatten(p.next) + tail);
  }

  lemma AfterBody(desc: seq<Entry>, pos: nat, b: seq<Entry>, end: Entry, rest: seq<Entry>)
    requires pos <= |desc| && desc[pos..] == b + ([end] + rest)
    ensures pos + |b| + 1 <= |desc| && desc[pos + |b| + 1..] == rest
  {
    assert desc[pos + |b| + 1..] == desc[pos..][|b| + 1..];
  }

  /** pos is where the innermost level continues. */
  predicate LevelAt(desc: seq<Entry>, k: Code, l: Level, pos: int)
  {
    && At(desc, pos, k.rest) && At(desc, l.index + 1, k.body) && l.count >= 1
    && pos + Len(k.rest) == l.index + 1 + Len(k.body)
  }

  /** ... and every outer level continues after the loop it is in. */
  predicate Layout(desc: seq<Entry>, s: Stack, pos: int)
  {
    match s
    case Empty => false
    case Push(k, l, b) =>
      && LevelAt(desc, k, l, pos)
      && (if b == Empty then l.index == -1
          else && 0 <= l.index < |desc| && desc[l.index].LoopE? && desc[l.index].extent == k.extent
               && Layout(desc, b, l.index + Len(k.body) + 2))
  }

  /** The offsets still to be transferred. */
  function Due(s: Stack, marker: bool): seq<int>
  {
    match s
    case Empty => []
    case Push(k, l, b) => Shift(Offs(k.rest, marker), l.disp) + (Later(k, l, marker) + Due(b, marker))
  }

  /** ... by the later iterations of a level. */
  function Later(k: Code, l: Level, marker: bool): seq<int>
  {
    if l.count == 0 then [] else Shift(Strided(Offs(k.body, marker), k.extent, l.count - 1), l.disp + k.extent)
  }

  /** Number of machine steps left, the termination measure. */
  function Steps(p: Prog): nat
  {
    match p
    case Nil => 1
    case Data(_, _, _, _, _, next) => 1 + Steps(next)
    case Loop(n, _, _, body, _, _, next) => 1 + Times(n, Steps(body)) + Steps(next)
  }

  function Times(n: nat, w: nat): nat
  {
    if n == 0 then 0 else w + Times(n - 1, w)
  }

  function Work(s: Stack): nat
  {
    match s
    case Empty => 0
    case Push(k, l, b) => Steps(k.rest) + (if l.count == 0 then 0 else Times(l.count - 1, Steps(k.body))) + Work(b)
  }

  function SetRest(s: Stack, rest: Prog): Stack
    requires s.Push?
  {
    Push(s.k.(rest := rest), s.l, s.below)
  }

  /** Every step of the machine decreases the work left. */
  lemma {:induction false} WorkDecreases(s: Stack, pos: int, n: nat)
    requires s.Push?
    ensures s.k.rest.Data? || s.k.rest.Loop? ==> Work(SetRest(s, s.k.rest.next)) < Work(s)
    ensures s.k.rest.Loop? && 1 <= n <= s.k.rest.loops ==> Work(Into(s, pos, n)) < Work(s)
    ensures s.k.rest == Nil && s.l.count > 1 ==> Work(Again(s)) < Work(s)
    ensures Work(s.below) < Work(s)
  {
    if s.k.rest.Loop? && 1 <= n <= s.k.rest.loops {
      TimesMonotone(n, s.k.rest.loops, Steps(s.k.rest.body));
    }
  }

  lemma {:induction false} TimesMonotone(m: nat, n: nat, w: nat)
    requires m <= n
    ensures Times(m, w) <= Times(n, w)
    decreases n
  {
    if m > 0 {
      TimesMonotone(m - 1, n - 1, w);
    }
  }

  /** Consuming the first item of the innermost level. */
  lemma {:induction false} DueSplit(s: Stack, marker: bool, first: seq<int>, next: Prog)
    requires s.Push? && Offs(s.k.rest, marker) == first + Offs(next, marker)
    ensures Due(s, marker) == Shift(first, s.l.disp) + Due(SetRest(s, next), marker)
  {
    var tail := Later(s.k, s.l, marker) + Due(s.below, marker);
    ShiftAppend(first, Offs(next, marker), s.l.disp);
    assert Due(SetRest(s, next), marker) == Shift(Offs(next, marker), s.l.disp) + tail;
    ConcatAssoc(Shift(first, s.l.disp), Shift(Offs(next, marker), s.l.disp), tail);
  }

  /** A data entry. */
  lemma {:induction false} StepData(desc: seq<Entry>, s: Stack, pos: int)
    requires Layout(desc, s, pos) && s.k.rest.Data?
    ensures var p := s.k.rest;
            && pos < |desc| && desc[pos] == ElemE(p.typ, p.count, p.disp, p.extent, p.contig)
            && Layout(desc, SetRest(s, p.next), pos + 1)
  {}

  lemma {:induction false} DataDue(s: Stack, marker: bool)
    requires s.Push? && s.k.rest.Data?
    ensures var p := s.k.rest;
            Due(s, marker) == Shift(DataOffs(p.typ, p.count, p.disp, p.extent), s.l.disp)
              + Due(SetRest(s, p.next), marker)
  {
    var p := s.k.rest;
    DueSplit(s, marker, DataOffs(p.typ, p.count, p.disp, p.extent), p.next);
  }

  /** n iterations of a loop, as they are read. */
  function LoopOffs(p: Prog, n: nat, marker: bool): seq<int>
    requires p.Loop?
  {
    Strided(if marker && p.contig then Range(p.first, p.size) else Offs(p.body, marker), p.extent, n)
  }

  lemma {:induction false} LevelOver(desc: seq<Entry>, k: Code, l: Level, pos: int)
    requires LevelAt(desc, k, l, pos) && k.rest.Loop?
    ensures var p := k.rest;
            var b := Len(p.body);
            && pos + b + 1 < |desc| && desc[pos] == LoopE(p.loops, b + 1, p.extent, p.contig)
               && desc[pos + b + 1] == EndE(b + 1, p.size, p.first)
            && LevelAt(desc, k.(rest := p.next), l, pos + b + 2)
  {}

  /** A loop consumed whole. */
  lemma {:induction false} StepOver(desc: seq<Entry>, s: Stack, pos: int)
    requires Layout(desc, s, pos) && s.k.rest.Loop?
    ensures var p := s.k.rest;
            var b := Len(p.body);
            && pos + b + 1 < |desc| && desc[pos] == LoopE(p.loops, b + 1, p.extent, p.contig)
               && desc[pos + b + 1] == EndE(b + 1, p.size, p.first)
            && Layout(desc, SetRest(s, p.next), pos + b + 2)
  {
    LevelOver(desc, s.k, s.l, pos);
  }

  lemma {:induction false} OverDue(s: Stack, marker: bool)
    requires s.Push? && s.k.rest.Loop?
    ensures Due(s, marker)
            == Shift(LoopOffs(s.k.rest, s.k.rest.loops, marker), s.l.disp) + Due(SetRest(s, s.k.rest.next), marker)
  {
    DueSplit(s, marker, LoopOffs(s.k.rest, s.k.rest.loops, marker), s.k.rest.next);
  }

  function Into(s: Stack, pos: int, n: nat): Stack
    requires s.Push? && s.k.rest.Loop?
  {
    var p := s.k.rest;
    Push(Code(p.body, p.body, p.extent), Level(pos, n, s.l.disp + (p.loops - n) * p.extent), SetRest(s, p.next))
  }

  /** Entering a loop with n iterations left, each read through the body. */
  lemma {:induction false} StepInto(desc: seq<Entry>, s: Stack, pos: int, n: nat)
    requires Layout(desc, s, pos) && s.k.rest.Loop? && 1 <= n <= s.k.rest.loops
    ensures Layout(desc, Into(s, pos, n), pos + 1)
  {
    StepIntoAt(desc, s, pos, n, Into(s, pos, n).l.disp);
  }

  lemma {:induction false} StepIntoAt(desc: seq<Entry>, s: Stack, pos: int, n: nat, d: int)
    requires Layout(desc, s, pos) && s.k.rest.Loop? && n >= 1
    ensures var p := s.k.rest;
            Layout(desc, Push(Code(p.body, p.body, p.extent), Level(pos, n, d), SetRest(s, p.next)), pos + 1)
  {
    StepOver(desc, s, pos);
    LevelInto(desc, s.k, s.l, pos, n, d);
    LayoutPush(desc, Code(s.k.rest.body, s.k.rest.body, s.k.rest.extent), Level(pos, n, d), SetRest(s, s.k.rest.next),
               pos + 1);
  }

  lemma {:induction false} LevelInto(desc: seq<Entry>, k: Code, l: Level, pos: int, n: nat, d: int)
    requires LevelAt(desc, k, l, pos) && k.rest.Loop? && n >= 1
    ensures LevelAt(desc, Code(k.rest.body, k.rest.body, k.rest.extent), Level(pos, n, d), pos + 1)
  {}

  lemma {:induction false} LayoutPush(desc: seq<Entry>, k: Code, l: Level, b: Stack, pos: int)
    requires LevelAt(desc, k, l, pos) && b != Empty && 0 <= l.index < |desc| && desc[l.index].LoopE?
             && desc[l.index].extent == k.extent
    requires Layout(desc, b, l.index + Len(k.body) + 2)
    ensures Layout(desc, Push(k, l, b), pos)
  {}

  lemma {:induction false} IntoDue(s: Stack, pos: int, marker: bool, n: nat)
    requires s.Push? && s.k.rest.Loop? && 1 <= n <= s.k.rest.loops && (marker ==> !s.k.rest.contig)
    ensures Due(s, marker)
            == Shift(LoopOffs(s.k.rest, s.k.rest.loops - n, marker), s.l.disp) + Due(Into(s, pos, n), marker)
  {
    var p, t := s.k.rest, Into(s, pos, n);
    var u, after := Offs(p.body, marker), Due(SetRest(s, p.next), marker);
    OverDue(s, marker);
    LoopSplit(u, p.extent, p.loops - n, n, s.l.disp, t.l.disp);
    LoopFirst(u, p.extent, n, t.l.disp);
    Regroup(Shift(Strided(u, p.extent, p.loops - n), s.l.disp), Shift(Strided(u, p.extent, n), t.l.disp),
            Shift(u, t.l.disp), Later(t.k, t.l, marker), after);
  }

  lemma Regroup(a: seq<int>, b: seq<int>, c: seq<int>, d: seq<int>, e: seq<int>)
    requires b == c + d
    ensures (a + b) + e == a + (c + (d + e))
  {
    ConcatAssoc(a, b, e);
    ConcatAssoc(c, d, e);
  }

  /** Entering a loop at its first iteration. */
  lemma {:induction false} IntoAll(s: Stack, pos: int, marker: bool)
    requires s.Push? && s.k.rest.Loop? && s.k.rest.loops >= 1 && (marker ==> !s.k.rest.contig)
    ensures Due(s, marker) == Due(Into(s, pos, s.k.rest.loops), marker)
  {
    IntoDue(s, pos, marker, s.k.rest.loops);
    assert Shift(LoopOffs(s.k.rest, 0, marker), s.l.disp) == [];
  }

  lemma {:induction false} LoopSplit(u: seq<int>, extent: int, m: nat, n: nat, d: int, disp: int)
    requires disp == d + m * extent
    ensures Shift(Strided(u, extent, m + n), d) == Shift(Strided(u, extent, m), d) + Shift(Strided(u, extent, n), disp)
  {
    StridedSplit(u, extent, m, n, disp - d);
    ShiftAppend(Strided(u, extent, m), Shift(Strided(u, extent, n), disp - d), d);
    ShiftShift(Strided(u, extent, n), disp - d, d);
  }

  lemma {:induction false} LoopFirst(u: seq<int>, extent: int, n: nat, disp: int)
    requires n >= 1
    ensures Shift(Strided(u, extent, n), disp) == Shift(u, disp) + Shift(Strided(u, extent, n - 1), disp + extent)
  {
    ShiftAppend(u, Shift(Strided(u, extent, n - 1), extent), disp);
    ShiftShift(Strided(u, extent, n - 1), extent, disp);
  }

  function Again(s: Stack): Stack
    requires s.Push? && s.l.count > 1
  {
    Push(s.k.(rest := s.k.body), Level(s.l.index, s.l.count - 1, s.l.disp + s.k.extent), s.below)
  }

  /** The end marker, with iterations left: back to the first entry of the body. */
  lemma {:induction false} StepAgain(desc: seq<Entry>, s: Stack, pos: int)
    requires Layout(desc, s, pos) && s.k.rest == Nil && s.l.count > 1
    ensures Layout(desc, Again(s), s.l.index + 1)
  {}

  lemma {:induction false} AgainDue(s: Stack, marker: bool)
    requires s.Push? && s.k.rest == Nil && s.l.count > 1
    ensures Due(Again(s), marker) == Due(s, marker)
  {
    var u, t := Offs(s.k.body, marker), Again(s);
    LaterAgain(s.k, s.l, t.l, marker);
    NilDue(s, marker);
    ConcatAssoc(Shift(u, t.l.disp), Later(t.k, t.l, marker), Due(s.below, marker));
  }

  lemma {:induction false} LaterAgain(k: Code, l: Level, l': Level, marker: bool)
    requires l.count > 1 && l' == Level(l.index, l.count - 1, l.disp + k.extent)
    ensures Later(k, l, marker) == Shift(Offs(k.body, marker), l'.disp) + Later(k.(rest := k.body), l', marker)
  {
    var u := Offs(k.body, marker);
    LoopFirst(u, k.extent, l.count - 1, l'.disp);
    assert Later(k, l, marker) == Shift(Strided(u, k.extent, l.count - 1), l'.disp);
    assert Later(k.(rest := k.body), l', marker) == Shift(Strided(u, k.extent, l.count - 2), l'.disp + k.extent);
  }

  lemma {:induction false} NilDue(s: Stack, marker: bool)
    requires s.Push? && s.k.rest == Nil
    ensures Due(s, marker) == Later(s.k, s.l, marker) + Due(s.below, marker)
  {
    assert Offs(Nil, marker) == [] && Shift([], s.l.disp) == [];
  }

  /** The end marker of the last iteration: on with the enclosing level. */
  lemma {:induction false} StepOut(desc: seq<Entry>, s: Stack, pos: int)
    requires Layout(desc, s, pos) && s.k.rest == Nil && s.l.count == 1
    ensures s.below != Empty ==> Layout(desc, s.below, pos + 1)
  {}

  lemma {:induction false} OutDue(s: Stack, marker: bool)
    requires s.Push? && s.k.rest == Nil && s.l.count == 1
    ensures Due(s.below, marker) == Due(s, marker)
  {
    NilDue(s, marker);
    assert Later(s.k, s.l, marker) == [];
  }

  /** At the end of the innermost program the machine is at an end marker. */
  lemma {:induction false} AtEnd(desc: seq<Entry>, s: Stack, pos: int)
    requires Layout(desc, s, pos)
    ensures 0 <= pos < |desc|
    ensures s.k.rest == Nil <==> desc[pos].EndE?
    ensures s.k.rest.Data? <==> desc[pos].ElemE?
    ensures s.k.rest.Loop? <==> desc[pos].LoopE?
  {}

  /** At the beginning everything is to be done, `count` times. */
  lemma {:induction false} StepFirst(desc: seq<Entry>, prog: Prog, count: nat, extent: int, marker: bool)
    requires At(desc, 0, prog) && count >= 1
    ensures var s := Push(Code(prog, prog, extent), Level(-1, count, 0), Empty);
            Layout(desc, s, 0) && Due(s, marker) == Strided(Offs(prog, marker), extent, count)
  {
    ShiftZero(Offs(prog, marker));
    assert Due(Empty, marker) == [];
  }

  /** The count that UPDATE_INTERNAL_COUNTERS reads: it shares its place with the number of loops. */
  function CountOf(e: Entry): nat
  {
    match e
    case ElemE(_, n, _, _, _) => n
    case LoopE(n, _, _, _) => n
    case EndE(i, _, _) => i
  }

  predicate PositiveStack(s: Stack)
  {
    s.Push? ==> Positive(s.k.rest) && Positive(s.k.body) && s.l.count >= 1 && PositiveStack(s.below)
  }

  /** The level of the whole description. */
  function Bottom(s: Stack): Code
    requires s != Empty
  {
    if s.below == Empty then s.k else Bottom(s.below)
  }

  lemma {:induction false} EndExtent(desc: seq<Entry>, s: Stack, pos: int)
    requires Layout(desc, s, pos)
    ensures s.l.index == -1 ==> s.k == Bottom(s)
    ensures s.l.index != -1 ==>
            0 <= s.l.index < |desc| && desc[s.l.index].LoopE? && desc[s.l.index].extent == s.k.extent
  {}

  lemma {:induction false} LevelsTop(s: Stack)
    requires s != Empty
    ensures |Levels(s)| >= 1 && Levels(s)[|Levels(s)| - 1] == s.l && Levels(s)[..|Levels(s)| - 1] == Levels(s.below)
  {}

  /** The invariant of the machine: its stack is that of s, which fits the description. */
  predicate Machine(desc: seq<Entry>, extent: int, pos: int, stack: seq<Level>, s: Stack)
  {
    && s != Empty && stack == Levels(s) && |stack| >= 1 && stack[|stack| - 1] == s.l
    && Layout(desc, s, pos) && PositiveStack(s) && Bottom(s).extent == extent
  }

  lemma {:induction false} MachineFirst(desc: seq<Entry>, prog: Prog, count: nat, extent: int, marker: bool)
    requires At(desc, 0, prog) && Positive(prog) && count >= 1
    ensures var s := Push(Code(prog, prog, extent), Level(-1, count, 0), Empty);
            Machine(desc, extent, 0, [Level(-1, count, 0)], s)
              && Due(s, marker) == Strided(Offs(prog, marker), extent, count)
  {
    StepFirst(desc, prog, count, extent, marker);
    var s := Push(Code(prog, prog, extent), Level(-1, count, 0), Empty);
    assert Levels(s) == [] + [s.l];
    assert Bottom(s) == s.k;
  }

  lemma {:induction false} MachineData(desc: seq<Entry>, extent: int, pos: int, stack: seq<Level>, s: Stack)
    requires Machine(desc, extent, pos, stack, s) && s.k.rest.Data?
    ensures var p := s.k.rest;
            && 0 <= pos < |desc| && desc[pos] == ElemE(p.typ, p.count, p.disp, p.extent, p.contig)
            && Machine(desc, extent, pos + 1, stack, SetRest(s, p.next))
  {
    StepData(desc, s, pos);
    AtEnd(desc, s, pos);
  }

  lemma {:induction false} MachineLoop(desc: seq<Entry>, extent: int, pos: int, stack: seq<Level>, s: Stack)
    requires Machine(desc, extent, pos, stack, s) && s.k.rest.Loop?
    ensures var p := s.k.rest;
            var b := Len(p.body);
            && p.loops >= 1 && 0 <= pos && pos + b + 1 < |desc|
            && desc[pos] == LoopE(p.loops, b + 1, p.extent, p.contig)
               && desc[pos + b + 1] == EndE(b + 1, p.size, p.first)
            && Machine(desc, extent, pos + b + 2, stack, SetRest(s, p.next))
  {
    StepOver(desc, s, pos);
    AtEnd(desc, s, pos);
  }

  lemma {:induction false} MachineAgain(desc: seq<Entry>, extent: int, pos: int, stack: seq<Level>, s: Stack)
    requires Machine(desc, extent, pos, stack, s) && s.k.rest == Nil && s.l.count > 1
    ensures s.l.index >= -1 && (s.l.index == -1 ==> s.k.extent == extent)
    ensures s.l.index != -1 ==> s.l.index < |desc| && desc[s.l.index].LoopE? && desc[s.l.index].extent == s.k.extent
    ensures Machine(desc, extent, s.l.index + 1, stack[..|stack| - 1] + [Again(s).l], Again(s))
  {
    LevelsTop(s);
    EndExtent(desc, s, pos);
    StepAgain(desc, s, pos);
  }

  lemma {:induction false} MachineOut(desc: seq<Entry>, extent: int, pos: int, stack: seq<Level>, s: Stack)
    requires Machine(desc, extent, pos, stack, s) && s.k.rest == Nil && s.l.count == 1
    ensures s.below == Empty <==> |stack| == 1
    ensures s.below != Empty ==> Machine(desc, extent, pos + 1, stack[..|stack| - 1], s.below)
  {
    LevelsTop(s);
    StepOut(desc, s, pos);
    if s.below != Empty {
      LevelsTop(s.below);
    }
  }

  function AfterEnd(s: Stack): Stack
    requires s.Push?
  {
    if s.l.count > 1 then Again(s) else s.below
  }

  function EndPos(s: Stack, pos: int): int
    requires s.Push?
  {
    if s.l.count > 1 then s.l.index + 1 else pos + 1
  }

  lemma {:induction false} EndDue(s: Stack, marker: bool)
    requires s.Push? && s.k.rest == Nil && s.l.count >= 1
    ensures Due(AfterEnd(s), marker) == Due(s, marker) && Work(AfterEnd(s)) < Work(s)
  {
    WorkDecreases(s, 0, 0);
    if s.l.count > 1 {
      AgainDue(s, marker);
    } else {
      OutDue(s, marker);
    }
  }

  /** The end marker: next iteration, back to the enclosing loop, or finished. */
  method EndOfLoop(desc: seq<Entry>, extent: int, pos: nat, stack: seq<Level>, ghost s: Stack)
    returns (finished: bool, pos': nat, stack': seq<Level>, ghost s': Stack)
    requires Machine(desc, extent, pos, stack, s) && s.k.rest == Nil
    ensures s' == AfterEnd(s)
    ensures if finished then s' == Empty else Machine(desc, extent, pos', stack', s') && pos' == EndPos(s, pos)
  {
    var top := stack[|stack| - 1];
    if top.count == 1 {
      MachineOut(desc, extent, pos, stack, s);
      finished, pos', stack', s' := |stack| == 1, pos + 1, stack[..|stack| - 1], s.below;
    } else {
      MachineAgain(desc, extent, pos, stack, s);
      var step := if top.index == -1 then extent else desc[top.index].extent;
      var next := Level(top.index, top.count - 1, top.disp + step);
      assert next == Again(s).l;
      finished, pos', stack', s' := false, top.index + 1, stack[..|stack| - 1] + [next], Again(s);
    }
  }

  /** PUSH_STACK: entering a loop with count iterations left at displacement disp. */
  method EnterLoop(desc: seq<Entry>, extent: int, pos: int, stack: seq<Level>, ghost s: Stack, count: nat, disp: int)
    returns (pos': nat, stack': seq<Level>, ghost s': Stack)
    requires Machine(desc, extent, pos, stack, s) && s.k.rest.Loop? && 1 <= count <= s.k.rest.loops
    requires disp == s.l.disp + (s.k.rest.loops - count) * s.k.rest.extent
    ensures s' == Into(s, pos, count) && Machine(desc, extent, pos', stack', s') && pos' == pos + 1
  {
    StepInto(desc, s, pos, count);
    MachineLoop(desc, extent, pos, stack, s);
    s' := Into(s, pos, count);
    pos', stack' := pos + 1, stack + [Level(pos, count, disp)];
  }

  function AfterControl(s: Stack, pos: int): Stack
    requires s.Push? && !s.k.rest.Data?
  {
    if s.k.rest == Nil then AfterEnd(s) else Into(s, pos, s.k.rest.loops)
  }

  function ControlPos(s: Stack, pos: int): int
    requires s.Push? && !s.k.rest.Data?
  {
    if s.k.rest == Nil then EndPos(s, pos) else pos + 1
  }

  lemma {:induction false} ControlDue(s: Stack, pos: int, marker: bool)
    requires s.Push? && s.l.count >= 1 && !s.k.rest.Data?
    requires s.k.rest.Loop? ==> s.k.rest.loops >= 1 && (marker ==> !s.k.rest.contig)
    ensures Due(AfterControl(s, pos), marker) == Due(s, marker) && Work(AfterControl(s, pos)) < Work(s)
  {
    if s.k.rest == Nil {
      EndDue(s, marker);
    } else {
      IntoAll(s, pos, marker);
      WorkDecreases(s, pos, s.k.rest.loops);
    }
  }

  lemma {:induction false} ControlReady(desc: seq<Entry>, extent: int, pos: int, stack: seq<Level>, s: Stack)
    requires Machine(desc, extent, pos, stack, s)
    ensures s.l.count >= 1 && (s.k.rest.Loop? ==> s.k.rest.loops >= 1 && s.k.rest.contig == desc[pos].contig)
  {}

  /** A step that transfers nothing: an end marker, or entering a loop at its first iteration. */
  method Control(desc: seq<Entry>, extent: int, pos: nat, stack: seq<Level>, ghost s: Stack)
    returns (finished: bool, pos': nat, stack': seq<Level>, ghost s': Stack)
    requires Machine(desc, extent, pos, stack, s) && !s.k.rest.Data?
    ensures s' == AfterControl(s, pos)
    ensures if finished then s' == Empty else Machine(desc, extent, pos', stack', s') && pos' == ControlPos(s, pos)
  {
    AtEnd(desc, s, pos);
    if desc[pos].EndE? {
      finished, pos', stack', s' := EndOfLoop(desc, extent, pos, stack, s);
    } else {
      MachineLoop(desc, extent, pos, stack, s);
      finished := false;
      pos', stack', s' := EnterLoop(desc, extent, pos, stack, s, CountOf(desc[pos]), stack[|stack| - 1].disp);
    }
  }
}
