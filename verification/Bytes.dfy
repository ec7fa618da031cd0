/** Bytes on a stream. */
module Bytes {

  type byte = x: int | 0 <= x < 256

  /** All pieces, one after the other. */
  function Flat(vs: seq<seq<byte>>): seq<byte> { if vs == [] then [] else vs[0] + Flat(vs[1..]) }

  lemma {:induction false} FlatAppend(vs: seq<seq<byte>>, v: seq<byte>)
    ensures Flat(vs + [v]) == Flat(vs) + v
  {
    if vs == [] {
      assert vs + [v] == [v] && [v][1..] == [];
    } else {
      assert (vs + [v])[1..] == vs[1..] + [v];
      FlatAppend(vs[1..], v);
      assert vs[0] + (Flat(vs[1..]) + v) == (vs[0] + Flat(vs[1..])) + v;
    }
  }

  lemma {:induction false} FlatJoin(a: seq<seq<byte>>, b: seq<seq<byte>>)
    ensures Flat(a + b) == Flat(a) + Flat(b)
  {
    if a == [] {
      assert a + b == b;
    } else {
      assert (a + b)[0] == a[0] && (a + b)[1..] == a[1..] + b;
      FlatJoin(a[1..], b);
      Assoc(a[0], Flat(a[1..]), Flat(b));
    }
  }

  lemma Assoc<T>(a: seq<T>, b: seq<T>, c: seq<T>)
    ensures (a + b) + c == a + (b + c)
  {}
}
