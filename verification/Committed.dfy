/**
 * Committing a datatype and then using it: when the engines transfer the type map that was built, and when they do
 * not.
 */
module Committed {
  import opened Offsets
  import opened Description
  import opened Walk
  import opened Wrappers
  import opened Rewrite
  import opened Packing
  import Optimize
  import C = Copy
  import P = Pack

  /** The description the engines walk: the optimised one, or the original if there is no optimised one. */
  method Prepare(entries: seq<Entry>, size: nat, ghost prog: Prog) returns (desc: seq<Entry>)
    requires WellFormed(prog) && entries == Flatten(prog) && size == |Offs(prog, false)|
    ensures At(desc, 0, Opt(prog, EMPTY)) && Rewrites(prog, Opt(prog, EMPTY))
  {
    var full, opt := Optimize.Commit(entries, size, prog);
    desc := if |opt| == 0 then full else opt;
    ghost var res := Opt(prog, EMPTY);
    OptRewrites(prog);
    assert desc[0..] == Flatten(res) + [desc[|desc| - 1]] by {
      if |opt| == 0 { assert prog == Nil && Flatten(res) == []; }
    }
    AtFlatten(desc, 0, res, [desc[|desc| - 1]]);
  }

  // ----- Copying -----

  /**
   * Commit, then copy: the destination receives the bytes of `count` elements as the optimiser takes the type map,
   * and that is the type map that was built if the two are the same set of bytes, as they are when no entry is
   * squeezed.
   */
  method CopyCommitted(entries: seq<Entry>, count: nat, size: nat, lb: int, ub: int, trueLb: int, contig: bool,
                       chunk: nat, dst: array<bv8>, dbase: int, src: array<bv8>, sbase: int, ghost prog: Prog)
    requires WellFormed(prog) && entries == Flatten(prog) && size == |Offs(prog, false)|
    requires count >= 1 && dst != src && chunk > 0 && (contig ==> Offs(prog, false) == Range(trueLb, size))
    requires C.InBounds(dst[..], dbase, Taken(prog, ub - lb, count, contig))
             && C.InBounds(src[..], sbase, Taken(prog, ub - lb, count, contig))
    modifies dst
    ensures C.Copied(old(dst[..]), dst[..], dbase, src[..], sbase, Taken(prog, ub - lb, count, contig))
    ensures C.SameSet(Taken(prog, ub - lb, count, contig), Whole(prog, ub - lb, count, false)) ==>
              C.Copied(old(dst[..]), dst[..], dbase, src[..], sbase, Whole(prog, ub - lb, count, false))
    ensures !Squeezes(prog) ==>
            C.Copied(old(dst[..]), dst[..], dbase, src[..], sbase, Whole(prog, ub - lb, count, false))
  {
    var desc := Prepare(entries, size, prog);
    ghost var res := Opt(prog, EMPTY);
    OptRewrites(prog);
    SqueezeExact(prog);
    NeatPositive(res);
    C.CopyContent(desc, count, size, lb, ub, trueLb, contig, chunk, dst, dbase, src, sbase, res);
  }

  /** The bytes that are copied for the type map of prog. */
  function Taken(prog: Prog, extent: int, count: nat, contig: bool): seq<int>
  {
    Whole(if contig then prog else Squeeze(prog), extent, count, false)
  }

  // ----- Packing -----

  /** The run with these buffers puts the next bytes of the type map that was built into them. */
  ghost predicate RightBytes(prog: Prog, extent: int, count: nat, mem: P.Memory, lens: seq<nat>)
    requires WellFormed(prog) && Lively(Start(Opt(prog, EMPTY), extent, count))
  {
    var f, due := FillAll(Start(Opt(prog, EMPTY), extent, count), lens),
      P.Gather(mem, Whole(prog, extent, count, false));
    P.Gather(mem, f.x) <= due && (f.next.Done? ==> P.Gather(mem, f.x) == due)
  }

  /** A run that packs something else is wrong for some memory. */
  lemma WrongRun(prog: Prog, extent: int, count: nat, lens: seq<nat>)
    requires WellFormed(prog) && Lively(Start(Opt(prog, EMPTY), extent, count))
    requires !(FillAll(Start(Opt(prog, EMPTY), extent, count), lens).x <= Whole(prog, extent, count, false))
    ensures exists mem :: !RightBytes(prog, extent, count, mem, lens)
  {
    var mem := P.GatherApart(FillAll(Start(Opt(prog, EMPTY), extent, count), lens).x,
                             Whole(prog, extent, count, false));
    assert !RightBytes(prog, extent, count, mem, lens);
  }

  /** Equally many bytes that are not the same make no prefix. */
  lemma {:induction false} WholeDiffers(res: Prog, prog: Prog, extent: int, count: nat, marker: bool)
    requires count >= 1 && |Offs(res, marker)| == |Offs(prog, false)| && Offs(res, marker) != Offs(prog, false)
    ensures !(Whole(res, extent, count, marker) <= Whole(prog, extent, count, false))
  {
    StridedExact(Offs(res, marker), Offs(prog, false), extent, count);
  }

  lemma {:induction false} OptReady(prog: Prog, extent: int, count: nat)
    requires WellFormed(prog)
    ensures var res := Opt(prog, EMPTY);
            && Rewrites(prog, res) && Sized(res) && |Offs(res, true)| == |Offs(res, false)| == |Offs(prog, false)|
            && Lively(Start(res, extent, count))
            && (Offs(res, true) == Offs(res, false) <==> !Folds(prog, None))
  {
    OptRewrites(prog);
    NeatSized(Opt(prog, EMPTY));
    ReadingsAgree(Opt(prog, EMPTY));
    StartLively(Opt(prog, EMPTY), extent, count);
  }

  lemma {:induction false} AlwaysRight(prog: Prog, extent: int, count: nat, mem: P.Memory, lens: seq<nat>)
    requires WellFormed(prog) && !Squeezes(prog) && !Folds(prog, None)
    ensures Lively(Start(Opt(prog, EMPTY), extent, count)) && RightBytes(prog, extent, count, mem, lens)
  {
    OptReady(prog, extent, count);
    AllRight(Opt(prog, EMPTY), extent, count, lens);
  }

  /**
   * Packing a committed datatype in any number of calls with any buffers is right for every memory if and only if the
   * optimiser neither squeezes an entry nor folds a first iteration.
   */
  lemma {:induction false} PackExact(prog: Prog, extent: int, count: nat)
    requires WellFormed(prog) && count >= 1
    ensures Lively(Start(Opt(prog, EMPTY), extent, count))
    ensures (forall mem, lens :: RightBytes(prog, extent, count, mem, lens)) <==> !Squeezes(prog) && !Folds(prog, None)
  {
    var res := Opt(prog, EMPTY);
    OptReady(prog, extent, count);
    if !Squeezes(prog) && !Folds(prog, None) {
      forall mem, lens ensures RightBytes(prog, extent, count, mem, lens) {
        AlwaysRight(prog, extent, count, mem, lens);
      }
    } else {
      var whole, single := BothReadings(res, extent, count);
      if Squeezes(prog) {
        WholeDiffers(res, prog, extent, count, true);
        WrongRun(prog, extent, count, whole);
      } else {
        WholeDiffers(res, prog, extent, count, false);
        WrongRun(prog, extent, count, single);
      }
    }
  }

  /**
   * Commit, then pack: the bytes are those of the run with the buffers of all calls, so by PackExact they are the next
   * ones of the type map that was built unless it is squeezed or folded, and all of them once a call returns 1.
   */
  method PackCommitted(entries: seq<Entry>, size: nat, extent: int, count: nat, mem: P.Memory, calls: seq<seq<nat>>,
                       ghost prog: Prog)
    returns (rc: int, packed: seq<bv8>)
    requires WellFormed(prog) && entries == Flatten(prog) && size == |Offs(prog, false)|
    ensures Lively(Start(Opt(prog, EMPTY), extent, count))
    ensures packed == P.Gather(mem, FillAll(Start(Opt(prog, EMPTY), extent, count), P.Buffers(calls)).x)
    ensures calls != [] ==> (rc == 1 <==> FillAll(Start(Opt(prog, EMPTY), extent, count), P.Buffers(calls)).next.Done?)
    ensures !Squeezes(prog) && !Folds(prog, None) ==>
              var due := P.Gather(mem, Whole(prog, extent, count, false));
                packed <= due && (calls != [] && rc == 1 ==> packed == due)
  {
    var desc := Prepare(entries, size, prog);
    OptReady(prog, extent, count);
    var c := new P.Convertor(desc, size, extent, count, mem, Opt(prog, EMPTY));
    rc, packed := P.PackRun(c, calls);
    if !Squeezes(prog) && !Folds(prog, None) { AlwaysRight(prog, extent, count, mem, P.Buffers(calls)); }
  }
}
