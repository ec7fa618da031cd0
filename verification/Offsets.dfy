/** Sequences of byte displacements: intervals, translation and strided repetition. */
module Offsets {

  /** The n consecutive displacements that start at `start`. */
  function Range(start: int, n: nat): (r: seq<int>)
    ensures |r| == n
  {
    seq(n, i => start + i)
  }

  /** Every displacement of s moved by d. */
  function Shift(s: seq<int>, d: int): (r: seq<int>)
    ensures |r| == |s|
    ensures forall i :: 0 <= i < |s| ==> r[i] == s[i] + d
  {
    seq(|s|, i requires 0 <= i < |s| => s[i] + d)
  }

  /** n copies of s, each `extent` further than the one before. */
  function Strided(s: seq<int>, extent: int, n: nat): seq<int>
  {
    if n == 0 then [] else s + Shift(Strided(s, extent, n - 1), extent)
  }

  lemma ShiftAppend(a: seq<int>, b: seq<int>, d: int)
    ensures Shift(a + b, d) == Shift(a, d) + Shift(b, d)
  {}

  lemma ShiftShift(s: seq<int>, d: int, e: int)
    ensures Shift(Shift(s, d), e) == Shift(s, d + e)
  {}

  lemma ShiftZero(s: seq<int>)
    ensures Shift(s, 0) == s
  {}

  lemma ShiftRange(start: int, n: nat, d: int)
    ensures Shift(Range(start, n), d) == Range(start + d, n)
  {}

  lemma RangeSplit(start: int, m: nat, n: nat)
    ensures Range(start, m) + Range(start + m, n) == Range(start, m + n)
  {}

  /** Translating a strided repetition translates its unit. */
  lemma {:induction false} StridedShift(s: seq<int>, extent: int, n: nat, d: int)
    ensures Shift(Strided(s, extent, n), d) == Strided(Shift(s, d), extent, n)
  {
    if n > 0 {
      var t := Strided(s, extent, n - 1);
      ShiftAppend(s, Shift(t, extent), d);
      ShiftShift(t, extent, d);
      ShiftShift(t, d, extent);
      StridedShift(s, extent, n - 1, d);
    }
  }

  lemma MulPred(m: int, e: int)
    ensures m * e == (m - 1) * e + e
  {}

  /** m repetitions followed by n more. */
  lemma {:induction false} StridedSplit(s: seq<int>, extent: int, m: nat, n: nat, d: int)
    requires d == m * extent
    ensures Strided(s, extent, m + n) == Strided(s, extent, m) + Shift(Strided(s, extent, n), d)
  {
    var b := Strided(s, extent, n);
    if m == 0 {
      ShiftZero(b);
    } else {
      MulPred(m, extent);
      StridedSplit(s, extent, m - 1, n, d - extent);
      var a := Strided(s, extent, m - 1);
      ShiftAppend(a, Shift(b, d - extent), extent);
      ShiftShift(b, d - extent, extent);
      assert s + (Shift(a, extent) + Shift(b, d)) == (s + Shift(a, extent)) + Shift(b, d);
    }
  }

  lemma {:induction false} StridedLength(s: seq<int>, extent: int, n: nat)
    ensures |Strided(s, extent, n)| == n * |s|
  {
    if n > 0 {
      StridedLength(s, extent, n - 1);
      MulPred(n, |s|);
    }
  }

  /** Blocks laid end to end form one block. */
  lemma {:induction false} StridedDense(start: int, size: nat, n: nat)
    ensures 0 <= n * size
    ensures Strided(Range(start, size), size, n) == Range(start, n * size)
  {
    if n > 0 {
      StridedDense(start, size, n - 1);
      ShiftRange(start, (n - 1) * size, size);
      RangeSplit(start, size, (n - 1) * size);
      MulPred(n, size);
    }
  }

  lemma StridedOne(s: seq<int>, extent: int)
    ensures Strided(s, extent, 1) == s
  {
    assert Strided(s, extent, 0) == [];
  }
}
