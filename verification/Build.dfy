/** Datatypes built by calls of opal_datatype_add, then committed and used. */
module Build {
  import opened Offsets
  import opened Description
  import opened TypeAdd
  import opened Packing
  import opened Rewrite
  import opened OptimizeLimits
  import Committed
  import C = Copy

  // ----- Any sequence of calls -----

  /** The arguments of one call. */
  datatype Part = Part(add: Datatype, count: nat, disp: int, extent: int)

  /** A call that neither collapses nor leaves gaps. */
  ghost predicate Clean(part: Part)
    reads part.add
  {
    var a, e := part.add, part.add.Extent(part.extent);
    !a.IsMarker() ==>
      && a.Valid() && Regular(a.prog) && (part.count > 0 ==> InRange(a.content, part.count, part.disp, e))
      && !Collapses(a.prog, a.predefined, a.bounds.ub - a.bounds.lb, part.count, e)
      && !LeavesGaps(a.prog, a.predefined, a.bounds.ub - a.bounds.lb, part.count, e)
  }

  /** The bytes a call should add to the type map. */
  ghost function PartMap(part: Part): seq<int>
    reads part.add
  {
    if part.add.IsMarker() then []
      else Copies(Offs(part.add.prog, false), part.count, part.disp, part.add.Extent(part.extent))
  }

  /** The type map that the calls compose. */
  ghost function Composed(parts: seq<Part>): seq<int>
    reads set i | 0 <= i < |parts| :: parts[i].add
  {
    if parts == [] then [] else Composed(parts[..|parts| - 1]) + PartMap(parts[|parts| - 1])
  }

  lemma {:induction false} NoCopies(s: seq<int>, count: nat, disp: int, extent: int)
    requires s == [] || count == 0
    ensures Copies(s, count, disp, extent) == []
  {
    StridedLength(Shift(s, disp), extent, count);
    assert count * 0 == 0;
  }

  method AddPart(t: Datatype, part: Part)
    requires t.Buildable() && Regular(t.prog) && part.add != t && Clean(part)
    modifies t
    ensures t.Buildable() && Regular(t.prog) && t.Map() == old(t.Map()) + PartMap(part)
  {
    if !part.add.IsMarker() {
      if part.count == 0 || part.add.content.size == 0 {
        NoCopies(Offs(part.add.prog, false), part.count, part.disp, part.add.Extent(part.extent));
      }
    }
    t.Add(part.add, part.count, part.disp, part.extent);
  }

  /** Any sequence of such calls composes the type map, and no entry has gaps. */
  method AddAll(t: Datatype, parts: seq<Part>)
    requires t.Buildable() && Regular(t.prog)
    requires forall i :: 0 <= i < |parts| ==> parts[i].add != t && Clean(parts[i])
    modifies t
    ensures t.Buildable() && Regular(t.prog) && t.Map() == old(t.Map()) + Composed(parts)
    decreases |parts|
  {
    if parts != [] {
      var n := |parts| - 1;
      AddAll(t, parts[..n]);
      ghost var before, part := Composed(parts[..n]), PartMap(parts[n]);
      AddPart(t, parts[n]);
      assert Composed(parts) == before + part;
      ConcatAssoc(old(t.Map()), before, part);
    }
  }

  /** Commit and copy: what was built without gaps is what is transferred. */
  method CopyBuilt(t: Datatype, count: nat, chunk: nat, dst: array<bv8>, dbase: int, src: array<bv8>, sbase: int)
    requires t.Buildable() && Regular(t.prog) && count >= 1 && dst != src && chunk > 0
    requires var o := Strided(t.Map(), t.bounds.ub - t.bounds.lb, count);
             C.InBounds(dst[..], dbase, o) && C.InBounds(src[..], sbase, o)
    modifies dst
    ensures C.Copied(old(dst[..]), dst[..], dbase, src[..], sbase, Strided(t.Map(), t.bounds.ub - t.bounds.lb, count))
  {
    RegularKept(t.prog);
    SqueezeExact(t.prog);
    var c, b := t.content, t.bounds;
    var contig := c.contiguous && c.size > 0;
    Committed.CopyCommitted(c.desc, count, c.size, b.lb, b.ub, c.trueLb, contig, chunk, dst, dbase, src, sbase, t.prog);
  }

  // ----- Calls that do neither -----

  ghost predicate IsByte(byte: Datatype)
    reads byte
  {
    && byte.Valid() && byte.predefined && byte.id == UINT1 && byte.content.size == 1 && byte.content.trueUb == 1
    && byte.bounds.lb == 0 && byte.bounds.ub == 1 && !byte.bounds.userLb && !byte.bounds.userUb
  }

  /** The first byte, with the extent given. */
  method OneByte(byte: Datatype, extent: int) returns (a: Datatype)
    requires IsByte(byte) && 1 <= extent <= 4
    ensures fresh(a) && a.Buildable() && a.id == 0 && a.prog == Data(UINT1, 1, 0, extent, true, Nil)
    ensures a.content.size == 1 && a.content.trueLb == 0 && a.content.trueUb == 1 && a.bounds.lb == 0
            && !a.bounds.userUb
  {
    a := new Datatype();
    a.Add(byte, 1, 0, extent);
  }

  method TwoBytes(byte: Datatype) returns (a: Datatype)
    requires IsByte(byte)
    ensures fresh(a) && a.Buildable() && a.id == 0 && a.prog == Data(UINT1, 2, 0, 1, true, Nil)
    ensures a.content.size == 2 && a.content.trueLb == 0 && a.content.trueUb == 2 && a.bounds.lb == 0
            && !a.bounds.userUb
  {
    a := new Datatype();
    a.Add(byte, 2, 0, 1);
  }

  /** The upper bound moved. */
  method Resize(a: Datatype, ub: int)
    requires a.Buildable() && !a.bounds.userUb && !a.IsMarker()
    modifies a
    ensures a.Valid() && !a.predefined && !a.IsMarker() && a.prog == old(a.prog) && a.content == old(a.content)
    ensures a.bounds == old(a.bounds).(userUb := true, ub := ub)
  {
    var marker := new Datatype.Marker(UB);
    a.Add(marker, 1, ub, 0);
  }

  method AddByte(t: Datatype, byte: Datatype, disp: int)
    requires t.Buildable() && t != byte && IsByte(byte) && 0 <= disp <= 4
    modifies t
    ensures t.Buildable() && t.prog == Append(old(t.prog), Data(UINT1, 1, disp, 1, true, Nil))
  {
    t.Add(byte, 1, disp, 1);
  }

  /** Two copies of it, by the short cut. */
  method Twice(a: Datatype, n: nat, extent: int) returns (t: Datatype)
    requires a.Valid() && !a.predefined && !a.IsMarker() && a.prog == Data(UINT1, n, 0, extent, true, Nil)
             && 1 <= n <= 2 && 1 <= extent <= 4
    requires a.content.trueLb == 0 && a.content.trueUb == n && a.bounds.lb == 0 && a.bounds.ub == extent
    ensures fresh(t) && t.prog == Data(UINT1, 2 * n, 0, extent, true, Nil) && (n == 1 ==> t.Buildable())
  {
    t := new Datatype();
    t.Add(a, 2, 0, -1);
  }

  /** A byte with its upper bound moved to 4, taken twice, then the byte at 2: the type that is squeezed. */
  method BuildGapped() returns (t: Datatype)
    ensures t.prog == GAPPED && t.Buildable() && t.Map() == [0, 4, 2]
  {
    var byte := new Datatype.Predefined(UINT1, 1);
    var a := OneByte(byte, 4);
    Resize(a, 4);
    t := Twice(a, 1, 4);
    AddByte(t, byte, 2);
    SqueezeLoses();
  }

  /** Two bytes with the upper bound moved to 1: two copies, one apart, become four bytes in a row. */
  method CollapseSeen() returns (a: Datatype, t: Datatype)
    ensures a.Valid() && a.Map() == [0, 1] && a.Extent(-1) == 1
    ensures t.Map() == [0, 1, 2, 3] && Copies(a.Map(), 2, 0, a.Extent(-1)) == [0, 1, 1, 2]
  {
    var byte := new Datatype.Predefined(UINT1, 1);
    a := TwoBytes(byte);
    Resize(a, 1);
    t := Twice(a, 2, 1);
    BytesInRow(2);
    BytesInRow(4);
    TwoCopies([0, 1], 1);
  }

  lemma {:induction false} BytesInRow(n: nat)
    ensures Offs(Data(UINT1, n, 0, 1, true, Nil), false) == Range(0, n)
  {
    OneOffs(Data(UINT1, n, 0, 1, true, Nil));
    DataDense(UINT1, n, 0, 1);
  }

  lemma {:induction false} TwoCopies(s: seq<int>, extent: int)
    ensures Copies(s, 2, 0, extent) == s + Shift(s, extent)
  {
    ShiftZero(s);
    StridedOne(s, extent);
  }
}
