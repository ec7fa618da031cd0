/** opal_list_transfer, opal_list_join and opal_list_splice: moving a range between circular doubly linked lists. */
module ListSplice {

  /** opal_list_next and opal_list_prev of all items and sentinels. */
  datatype Links = Links(next: map<nat, nat>, prev: map<nat, nat>)

  ghost predicate Link(l: Links, x: nat, y: nat) { x in l.next && y in l.prev && l.next[x] == y && l.prev[y] == x }

  /** Neighbours in c are linked both ways. */
  ghost predicate Path(l: Links, c: seq<nat>)
  {
    forall i :: 0 <= i < |c| - 1 ==> Link(l, c[i], c[i + 1])
  }

  predicate Distinct(c: seq<nat>) { forall i, j :: 0 <= i < j < |c| ==> c[i] != c[j] }

  function Last(c: seq<nat>): nat requires c != [] { c[|c| - 1] }

  ghost predicate Ring(l: Links, c: seq<nat>)
  {
    c != [] && Distinct(c) && Path(l, c) && Link(l, Last(c), c[0])
  }

  // ----- Pieces of rings -----

  lemma PathJoin(l: Links, a: seq<nat>, b: seq<nat>)
    requires a != [] && b != []
    ensures Path(l, a + b) <==> Path(l, a) && Path(l, b) && Link(l, Last(a), b[0])
  {
    var c := a + b;
    if Path(l, c) {
      assert c[|a| - 1] == Last(a) && c[|a|] == b[0];
      forall i | 0 <= i < |a| - 1 ensures Link(l, a[i], a[i + 1]) { assert Link(l, c[i], c[i + 1]); }
      forall i | 0 <= i < |b| - 1 ensures Link(l, b[i], b[i + 1]) { assert Link(l, c[|a| + i], c[|a| + i + 1]); }
      assert Link(l, c[|a| - 1], c[|a| - 1 + 1]);
    }
    if Path(l, a) && Path(l, b) && Link(l, Last(a), b[0]) {
      forall i | 0 <= i < |c| - 1 ensures Link(l, c[i], c[i + 1]) {
        if i >= |a| { assert Link(l, b[i - |a|], b[i - |a| + 1]); }
      }
    }
  }

  lemma DistinctParts(a: seq<nat>, b: seq<nat>)
    ensures Distinct(a + b) <==>
            Distinct(a) && Distinct(b) && forall i, j :: 0 <= i < |a| && 0 <= j < |b| ==> a[i] != b[j]
  {
    var c := a + b;
    assert forall i :: 0 <= i < |a| ==> c[i] == a[i];
    assert forall j :: 0 <= j < |b| ==> c[|a| + j] == b[j];
  }

  /** A ring may be read from any point. */
  lemma Rotate(l: Links, a: seq<nat>, b: seq<nat>)
    requires Ring(l, a + b)
    ensures Ring(l, b + a)
  {
    if a == [] || b == [] {
      assert b + a == a + b;
    } else {
      PathJoin(l, a, b);
      PathJoin(l, b, a);
      DistinctParts(a, b);
      DistinctParts(b, a);
    }
  }

  /** Two pieces close to a ring. */
  lemma RingOfTwo(l: Links, a: seq<nat>, b: seq<nat>)
    requires a != [] && b != [] && Distinct(a + b)
    ensures Ring(l, a + b) <==> Path(l, a) && Path(l, b) && Link(l, Last(a), b[0]) && Link(l, Last(b), a[0])
  {
    PathJoin(l, a, b);
  }

  lemma RingOfThree(l: Links, a: seq<nat>, b: seq<nat>, c: seq<nat>)
    requires a != [] && b != [] && c != [] && Distinct(a + b + c)
    ensures Ring(l, a + b + c) <==>
            Path(l, a) && Path(l, b) && Path(l, c) && Link(l, Last(a), b[0]) && Link(l, Last(b), c[0])
              && Link(l, Last(c), a[0])
  {
    PathJoin(l, a, b);
    PathJoin(l, a + b, c);
  }

  // ----- The transfer -----

  /** The stores of opal_list_transfer when pos is not the end of the range. */
  method Transfer(l: Links, pos: nat, begin: nat, end: nat) returns (l': Links)
    requires {pos, begin, end} <= l.prev.Keys && {l.prev[pos], l.prev[begin], l.prev[end]} <= l.next.Keys
    ensures pos == end ==> l' == l
    ensures pos != end ==> l' == Moved(l, pos, begin, end)
  {
    l' := l;
    if pos != end {
      l' := l'.(next := l'.next[l'.prev[end] := pos]);
      l' := l'.(next := l'.next[l'.prev[begin] := end]);
      l' := l'.(next := l'.next[l'.prev[pos] := begin]);
      var tmp := l'.prev[pos];
      l' := l'.(prev := l'.prev[pos := l'.prev[end]]);
      l' := l'.(prev := l'.prev[end := l'.prev[begin]]);
      l' := l'.(prev := l'.prev[begin := tmp]);
    }
  }

  function Moved(l: Links, pos: nat, begin: nat, end: nat): Links
    requires {pos, begin, end} <= l.prev.Keys
  {
    var e, b, p := l.prev[end], l.prev[begin], l.prev[pos];
    Links(l.next[e := pos][b := end][p := begin], l.prev[pos := e][end := (if begin == pos then e else b)][begin := p])
  }

  ghost predicate Apart(a: seq<nat>, b: seq<nat>) { forall i, j :: 0 <= i < |a| && 0 <= j < |b| ==> a[i] != b[j] }

  /** Inside c nothing changed. */
  lemma PathKept(l: Links, l': Links, c: seq<nat>)
    requires Path(l, c)
    requires forall i :: 0 <= i < |c| - 1 ==> c[i] in l.next ==> c[i] in l'.next && l'.next[c[i]] == l.next[c[i]]
    requires forall i :: 0 < i < |c| ==> c[i] in l.prev ==> c[i] in l'.prev && l'.prev[c[i]] == l.prev[c[i]]
    ensures Path(l', c)
  {
    forall i | 0 <= i < |c| - 1 ensures Link(l', c[i], c[i + 1]) { assert Link(l, c[i], c[i + 1]); }
  }

  /** The pieces of the rings involved, with what Moved does to their ends. */
  lemma PiecesKept(l: Links, m: seq<nat>, d: seq<nat>, e: seq<nat>, b: nat, p: nat)
    requires m != [] && d != [] && e != [] && Distinct(m + d + e) && Path(l, m) && Path(l, d) && Path(l, e)
    requires {m[0], d[0], e[0]} <= l.prev.Keys && l.prev[d[0]] == Last(m) && l.prev[m[0]] == b && l.prev[e[0]] == p
    requires (b == Last(d) && p == Last(e)) || (b == Last(e) && p == Last(d))
    ensures var l' := Moved(l, e[0], m[0], d[0]);
            && Path(l', m) && Path(l', d) && Path(l', e)
            && Link(l', Last(m), e[0]) && Link(l', b, d[0]) && Link(l', p, m[0])
  {
    DistinctParts(m + d, e);
    DistinctParts(m, d);
    var l' := Moved(l, e[0], m[0], d[0]);
    Ends(m, d, e);
    PathKept(l, l', m);
    PathKept(l, l', d);
    PathKept(l, l', e);
  }

  /** First and last items of the pieces are where they are and nowhere else. */
  lemma Ends(m: seq<nat>, d: seq<nat>, e: seq<nat>)
    requires m != [] && d != [] && e != [] && Distinct(m) && Distinct(d) && Distinct(e)
    requires forall i, j :: 0 <= i < |m| && 0 <= j < |d| ==> m[i] != d[j]
    requires forall i, j :: 0 <= i < |m + d| && 0 <= j < |e| ==> (m + d)[i] != e[j]
    ensures forall i :: 0 <= i < |m| - 1 ==> m[i] != Last(m) && m[i] != Last(d) && m[i] != Last(e)
    ensures forall i :: 0 <= i < |d| - 1 ==> d[i] != Last(m) && d[i] != Last(d) && d[i] != Last(e)
    ensures forall i :: 0 <= i < |e| - 1 ==> e[i] != Last(m) && e[i] != Last(d) && e[i] != Last(e)
    ensures forall i :: 0 < i < |m| ==> m[i] != m[0] && m[i] != d[0] && m[i] != e[0]
    ensures forall i :: 0 < i < |d| ==> d[i] != m[0] && d[i] != d[0] && d[i] != e[0]
    ensures forall i :: 0 < i < |e| ==> e[i] != m[0] && e[i] != d[0] && e[i] != e[0]
    ensures Last(m) != Last(d) && Last(m) != Last(e) && Last(d) != Last(e) && m[0] != d[0] && m[0] != e[0]
            && d[0] != e[0]
  {
    assert forall i :: 0 <= i < |m| ==> (m + d)[i] == m[i];
    assert forall i :: 0 <= i < |d| ==> (m + d)[|m| + i] == d[i];
  }

  /** The range m moves before pos in its own ring. */
  lemma WithinRing(l: Links, m: seq<nat>, d: seq<nat>, e: seq<nat>)
    requires m != [] && d != [] && e != [] && Ring(l, m + d + e)
    ensures {m[0], d[0], e[0]} <= l.prev.Keys && {l.prev[m[0]], l.prev[d[0]], l.prev[e[0]]} <= l.next.Keys
    ensures Ring(Moved(l, e[0], m[0], d[0]), d + m + e)
  {
    RingOfThree(l, m, d, e);
    PiecesKept(l, m, d, e, Last(e), Last(d));
    DistinctSwap(m, d, e);
    RingOfThree(Moved(l, e[0], m[0], d[0]), d, m, e);
  }

  lemma DistinctSwap(m: seq<nat>, d: seq<nat>, e: seq<nat>)
    requires Distinct(m + d + e)
    ensures Distinct(d + m + e)
  {
    DistinctParts(m + d, e);
    DistinctParts(m, d);
    DistinctParts(d, m);
    var a, b := m + d, d + m;
    forall i, j | 0 <= i < |b| && 0 <= j < |e| ensures b[i] != e[j] {
      assert b[i] == a[if i < |d| then |m| + i else i - |d|];
    }
    DistinctParts(d + m, e);
  }

  /** The range m moves before pos in another ring. */
  lemma BetweenRings(l: Links, m: seq<nat>, d: seq<nat>, e: seq<nat>)
    requires m != [] && d != [] && e != [] && Ring(l, m + d) && Ring(l, e) && Distinct(m + d + e)
    ensures {m[0], d[0], e[0]} <= l.prev.Keys && {l.prev[m[0]], l.prev[d[0]], l.prev[e[0]]} <= l.next.Keys
    ensures Ring(Moved(l, e[0], m[0], d[0]), d) && Ring(Moved(l, e[0], m[0], d[0]), m + e)
  {
    DistinctParts(m + d, e);
    DistinctParts(m, d);
    RingOfTwo(l, m, d);
    PiecesKept(l, m, d, e, Last(d), Last(e));
    var md := m + d;
    forall i, j | 0 <= i < |m| && 0 <= j < |e| ensures m[i] != e[j] { assert md[i] == m[i]; }
    DistinctParts(m, e);
    RingOfTwo(Moved(l, e[0], m[0], d[0]), m, e);
  }

  /** Rings that share nothing with the ones involved stay as they are. */
  lemma OtherRing(l: Links, m: seq<nat>, d: seq<nat>, e: seq<nat>, c: seq<nat>)
    requires Known(l, m, d, e) && Ring(l, c) && Apart(c, m) && Apart(c, d) && Apart(c, e)
    ensures Ring(Moved(l, e[0], m[0], d[0]), c)
  {
    var l' := Moved(l, e[0], m[0], d[0]);
    PathKept(l, l', c);
    assert Link(l, Last(c), c[0]);
  }

  // ----- Lists with a sentinel -----

  /** The item at the front of b, or the sentinel. */
  function Head(b: seq<nat>, s: nat): nat { if b == [] then s else b[0] }

  lemma ApartParts(c: seq<nat>, a: seq<nat>, b: seq<nat>)
    ensures Apart(c, a + b) <==> Apart(c, a) && Apart(c, b)
  {
    var ab := a + b;
    assert forall i :: 0 <= i < |a| ==> ab[i] == a[i];
    assert forall i :: 0 <= i < |b| ==> ab[|a| + i] == b[i];
  }

  /** Apart from a list, apart from every piece of it. */
  lemma ApartPieces(c: seq<nat>, s: nat, p: seq<nat>, q: seq<nat>, r: seq<nat>, t: seq<nat>)
    requires Apart(c, [s] + (p + q + r + t))
    ensures Apart(c, [s]) && Apart(c, p) && Apart(c, q) && Apart(c, r) && Apart(c, t)
  {
    ApartParts(c, [s], p + q + r + t);
    ApartParts(c, p + q + r, t);
    ApartParts(c, p + q, r);
    ApartParts(c, p, q);
  }

  lemma ApartAround(c: seq<nat>, s: nat, y: seq<nat>, x: seq<nat>)
    requires Apart(c, [s]) && Apart(c, y) && Apart(c, x)
    ensures Apart(c, y + [s] + x)
  {
    ApartParts(c, y, [s]);
    ApartParts(c, y + [s], x);
  }

  /** What RingOfThree or RingOfTwo says about the items whose prev is read. */
  ghost predicate Known(l: Links, m: seq<nat>, d: seq<nat>, e: seq<nat>)
  {
    && m != [] && d != [] && e != [] && {m[0], d[0], e[0]} <= l.prev.Keys && l.prev[d[0]] == Last(m)
    && ((l.prev[m[0]] == Last(d) && l.prev[e[0]] == Last(e)) || (l.prev[m[0]] == Last(e) && l.prev[e[0]] == Last(d)))
  }

  /** The list as three pieces, and back. */
  lemma Turned(l: Links, u: seq<nat>, v: seq<nat>, m: seq<nat>, d: seq<nat>, e: seq<nat>)
    requires Ring(l, u + v) && v + u == m + d + e && m != [] && d != [] && e != []
    ensures Known(l, m, d, e) && {l.prev[m[0]], l.prev[d[0]], l.prev[e[0]]} <= l.next.Keys && d[0] != e[0]
    ensures Ring(Moved(l, e[0], m[0], d[0]), d + m + e)
  {
    Rotate(l, u, v);
    RingOfThree(l, m, d, e);
    DistinctHeads(m, d, e);
    WithinRing(l, m, d, e);
  }

  /** In one list, to a place before the range. */
  lemma SpliceBefore(l: Links, s: nat, x1: seq<nat>, x2: seq<nat>, m: seq<nat>, y: seq<nat>)
    requires Ring(l, [s] + (x1 + x2 + m + y)) && x2 != [] && m != []
    ensures Known(l, m, y + [s] + x1, x2) && {l.prev[x2[0]], l.prev[m[0]], l.prev[Head(y, s)]} <= l.next.Keys
            && x2[0] != Head(y, s)
    ensures Ring(Moved(l, x2[0], m[0], Head(y, s)), [s] + (x1 + m + x2 + y))
  {
    var d := y + [s] + x1;
    assert [s] + (x1 + x2 + m + y) == ([s] + x1 + x2) + (m + y);
    assert (m + y) + ([s] + x1 + x2) == m + d + x2;
    Turned(l, [s] + x1 + x2, m + y, m, d, x2);
    var l' := Moved(l, x2[0], m[0], d[0]);
    assert d + m + x2 == y + ([s] + x1 + m + x2);
    Rotate(l', y, [s] + x1 + m + x2);
    assert ([s] + x1 + m + x2) + y == [s] + (x1 + m + x2 + y);
  }

  /** In one list, to a place behind the range. */
  lemma SpliceAfter(l: Links, s: nat, x: seq<nat>, m: seq<nat>, y1: seq<nat>, y2: seq<nat>)
    requires Ring(l, [s] + (x + m + y1 + y2)) && y1 != [] && m != []
    ensures Known(l, m, y1, y2 + [s] + x) && {l.prev[Head(y2, s)], l.prev[m[0]], l.prev[y1[0]]} <= l.next.Keys
            && Head(y2, s) != y1[0]
    ensures Ring(Moved(l, Head(y2, s), m[0], y1[0]), [s] + (x + y1 + m + y2))
  {
    var e := y2 + [s] + x;
    assert [s] + (x + m + y1 + y2) == ([s] + x) + (m + y1 + y2);
    assert (m + y1 + y2) + ([s] + x) == m + y1 + e;
    Turned(l, [s] + x, m + y1 + y2, m, y1, e);
    var l' := Moved(l, e[0], m[0], y1[0]);
    assert y1 + m + e == (y1 + m + y2) + ([s] + x);
    Rotate(l', y1 + m + y2, [s] + x);
    assert ([s] + x) + (y1 + m + y2) == [s] + (x + y1 + m + y2);
  }

  lemma DistinctHeads(m: seq<nat>, d: seq<nat>, e: seq<nat>)
    requires m != [] && d != [] && e != [] && Distinct(m + d + e)
    ensures m[0] != d[0] && m[0] != e[0] && d[0] != e[0]
  {
    var all := m + d + e;
    assert all[0] == m[0] && all[|m|] == d[0] && all[|m| + |d|] == e[0];
  }

  /** From one list to another. */
  lemma SpliceAcross(l: Links, s: nat, a: seq<nat>, b: seq<nat>, t: nat, x: seq<nat>, m: seq<nat>, y: seq<nat>)
    requires Ring(l, [s] + (a + b)) && Ring(l, [t] + (x + m + y)) && Apart([s] + (a + b), [t] + (x + m + y)) && m != []
    ensures Known(l, m, y + [t] + x, b + [s] + a)
    ensures {l.prev[Head(b, s)], l.prev[m[0]], l.prev[Head(y, t)]} <= l.next.Keys && Head(b, s) != Head(y, t)
    ensures var l' := Moved(l, Head(b, s), m[0], Head(y, t)); Ring(l', [s] + (a + m + b)) && Ring(l', [t] + (x + y))
  {
    var d, e := y + [t] + x, b + [s] + a;
    assert [t] + (x + m + y) == ([t] + x) + (m + y) && (m + y) + ([t] + x) == m + d;
    Rotate(l, [t] + x, m + y);
    assert [s] + (a + b) == ([s] + a) + b && b + ([s] + a) == e;
    Rotate(l, [s] + a, b);
    AcrossDistinct(s, a, b, t, x, m, y);
    BetweenRings(l, m, d, e);
    RingOfTwo(l, m, d);
    DistinctHeads(m, d, e);
    AcrossBack(Moved(l, e[0], m[0], d[0]), s, a, b, t, x, m, y);
  }

  lemma AcrossBack(l: Links, s: nat, a: seq<nat>, b: seq<nat>, t: nat, x: seq<nat>, m: seq<nat>, y: seq<nat>)
    requires Ring(l, y + [t] + x) && Ring(l, m + (b + [s] + a))
    ensures Ring(l, [s] + (a + m + b)) && Ring(l, [t] + (x + y))
  {
    assert y + [t] + x == y + ([t] + x) && ([t] + x) + y == [t] + (x + y);
    Rotate(l, y, [t] + x);
    assert m + (b + [s] + a) == (m + b) + ([s] + a) && ([s] + a) + (m + b) == [s] + (a + m + b);
    Rotate(l, m + b, [s] + a);
  }

  lemma AcrossDistinct(s: nat, a: seq<nat>, b: seq<nat>, t: nat, x: seq<nat>, m: seq<nat>, y: seq<nat>)
    requires Distinct(m + (y + [t] + x)) && Distinct(b + [s] + a) && Apart([s] + (a + b), [t] + (x + m + y))
    ensures Distinct(m + (y + [t] + x) + (b + [s] + a))
  {
    var c1, c2, e, md := [s] + (a + b), [t] + (x + m + y), b + [s] + a, m + (y + [t] + x);
    forall i, j | 0 <= i < |md| && 0 <= j < |e| ensures md[i] != e[j] {
      var i' := if i < |m| then 1 + |x| + i else if i < |m| + |y| then 1 + |x| + i else if i == |m| + |y| then 0
        else i - |m| - |y|;
      var j' := if j < |b| then 1 + |a| + j else if j == |b| then 0 else j - |b|;
      assert md[i] == c2[i'] && e[j] == c1[j'];
    }
    DistinctParts(md, e);
  }

  // ----- All lists -----

  type Contents = map<nat, seq<nat>>

  /** The list with sentinel s is a ring of its contents. */
  ghost predicate ListOk(l: Links, cs: Contents, s: nat) { s in cs ==> Ring(l, [s] + cs[s]) }

  /** Different lists share nothing. */
  ghost predicate Separate(cs: Contents, s: nat, t: nat)
  {
    s in cs && t in cs && s != t ==> Apart([s] + cs[s], [t] + cs[t])
  }

  ghost predicate Sound(l: Links, cs: Contents)
  {
    (forall s :: ListOk(l, cs, s)) && (forall s, t :: Separate(cs, s, t))
  }

  /** The range m of list t, and the place in list s it goes to; in one list the place is outside the range. */
  ghost predicate Ready(cs: Contents, s: nat, a: seq<nat>, b: seq<nat>, t: nat, x: seq<nat>, m: seq<nat>, y: seq<nat>)
  {
    && s in cs && t in cs && cs[t] == x + m + y
    && (if s == t then x + y == a + b else cs[s] == a + b)
  }

  function Spliced(cs: Contents, s: nat, a: seq<nat>, b: seq<nat>, t: nat, x: seq<nat>, m: seq<nat>,
                   y: seq<nat>): Contents
  {
    cs[t := x + y][s := a + m + b]
  }

  /** The two lists after the transfer. */
  lemma MovedLists(l: Links, cs: Contents, s: nat, a: seq<nat>, b: seq<nat>, t: nat, x: seq<nat>, m: seq<nat>,
                   y: seq<nat>)
    requires Sound(l, cs) && Ready(cs, s, a, b, t, x, m, y) && m != [] && (s == t ==> |a| != |x|)
    ensures {Head(b, s), m[0], Head(y, t)} <= l.prev.Keys
            && {l.prev[Head(b, s)], l.prev[m[0]], l.prev[Head(y, t)]} <= l.next.Keys
    ensures Head(b, s) != Head(y, t)
    ensures var l' := Moved(l, Head(b, s), m[0], Head(y, t));
            Ring(l', [s] + (a + m + b)) && (s != t ==> Ring(l', [t] + (x + y)))
    ensures exists d, e :: Parts(l, cs, s, t, b, y, m, d, e)
  {
    assert ListOk(l, cs, s) && ListOk(l, cs, t) && Separate(cs, s, t);
    if s != t {
      SpliceAcross(l, s, a, b, t, x, m, y);
      assert Parts(l, cs, s, t, b, y, m, y + [t] + x, b + [s] + a) by { PartsAcross(l, cs, s, a, b, t, x, m, y); }
    } else if |a| < |x| {
      var x2 := x[|a|..];
      SplitLeft(a, b, x, y);
      assert x + m + y == a + x2 + m + y && a + m + x2 + y == a + m + b;
      SpliceBefore(l, s, a, x2, m, y);
      assert Parts(l, cs, s, t, b, y, m, y + [s] + a, x2) by { PartsBefore(l, cs, s, a, x2, m, y, b); }
    } else {
      var y1 := a[|x|..];
      SplitRight(a, b, x, y);
      assert x + m + y == x + m + y1 + b && x + y1 + m + b == a + m + b;
      SpliceAfter(l, s, x, m, y1, b);
      assert Parts(l, cs, s, t, b, y, m, y1, b + [s] + x) by { PartsAfter(l, cs, s, x, m, y1, b, y); }
    }
  }

  lemma SplitLeft(a: seq<nat>, b: seq<nat>, x: seq<nat>, y: seq<nat>)
    requires x + y == a + b && |a| < |x|
    ensures x == a + x[|a|..] && b == x[|a|..] + y
  {
    assert (x + y)[..|a|] == (a + b)[..|a|] == a;
    assert (x + y)[|a|..] == (a + b)[|a|..] == b;
    assert (x + y)[..|a|] == x[..|a|] && (x + y)[|a|..] == x[|a|..] + y;
  }

  lemma SplitRight(a: seq<nat>, b: seq<nat>, x: seq<nat>, y: seq<nat>)
    requires x + y == a + b && |a| > |x|
    ensures a == x + a[|x|..] && y == a[|x|..] + b
  {
    assert (x + y)[..|x|] == x && (x + y)[|x|..] == y;
    assert (a + b)[..|x|] == a[..|x|] && (a + b)[|x|..] == a[|x|..] + b;
  }

  /** The pieces that the transfer turns, and that other lists share nothing with them. */
  ghost predicate Parts(l: Links, cs: Contents, s: nat, t: nat, b: seq<nat>, y: seq<nat>, m: seq<nat>, d: seq<nat>,
                        e: seq<nat>)
  {
    && Known(l, m, d, e) && e[0] == Head(b, s) && d[0] == Head(y, t)
    && forall c :: s in cs && t in cs && Apart(c, [s] + cs[s]) && Apart(c, [t] + cs[t]) ==>
       Apart(c, m) && Apart(c, d) && Apart(c, e)
  }

  lemma PartsAcross(l: Links, cs: Contents, s: nat, a: seq<nat>, b: seq<nat>, t: nat, x: seq<nat>, m: seq<nat>,
                    y: seq<nat>)
    requires Ready(cs, s, a, b, t, x, m, y) && s != t && Known(l, m, y + [t] + x, b + [s] + a)
    ensures Parts(l, cs, s, t, b, y, m, y + [t] + x, b + [s] + a)
  {
    forall c | Apart(c, [s] + cs[s]) && Apart(c, [t] + cs[t])
      ensures Apart(c, m) && Apart(c, y + [t] + x) && Apart(c, b + [s] + a) {
      assert a + b == a + b + [] + [] && x + m + y == x + m + y + [];
      ApartPieces(c, s, a, b, [], []);
      ApartPieces(c, t, x, m, y, []);
      ApartAround(c, t, y, x);
      ApartAround(c, s, b, a);
    }
  }

  lemma PartsBefore(l: Links, cs: Contents, s: nat, a: seq<nat>, x2: seq<nat>, m: seq<nat>, y: seq<nat>, b: seq<nat>)
    requires s in cs && cs[s] == a + x2 + m + y && Known(l, m, y + [s] + a, x2) && b == x2 + y
    ensures Parts(l, cs, s, s, b, y, m, y + [s] + a, x2)
  {
    forall c | Apart(c, [s] + cs[s]) ensures Apart(c, m) && Apart(c, y + [s] + a) && Apart(c, x2) {
      ApartPieces(c, s, a, x2, m, y);
      ApartAround(c, s, y, a);
    }
  }

  lemma PartsAfter(l: Links, cs: Contents, s: nat, x: seq<nat>, m: seq<nat>, y1: seq<nat>, b: seq<nat>, y: seq<nat>)
    requires s in cs && cs[s] == x + m + y1 + b && Known(l, m, y1, b + [s] + x) && y == y1 + b
    ensures Parts(l, cs, s, s, b, y, m, y1, b + [s] + x)
  {
    forall c | Apart(c, [s] + cs[s]) ensures Apart(c, m) && Apart(c, y1) && Apart(c, b + [s] + x) {
      ApartPieces(c, s, x, m, y1, b);
      ApartAround(c, s, b, x);
    }
  }

  lemma ApartSym(a: seq<nat>, b: seq<nat>)
    ensures Apart(a, b) <==> Apart(b, a)
  {}

  /** A list apart from both is apart from what they become. */
  lemma ApartSpliced(c: seq<nat>, cs: Contents, s: nat, a: seq<nat>, b: seq<nat>, t: nat, x: seq<nat>, m: seq<nat>,
                     y: seq<nat>)
    requires Ready(cs, s, a, b, t, x, m, y) && Apart(c, [s] + cs[s]) && Apart(c, [t] + cs[t])
    ensures Apart(c, [s] + (a + m + b)) && Apart(c, [t] + (x + y))
  {
    assert x + m + y == x + m + y + [];
    ApartPieces(c, t, x, m, y, []);
    if s != t {
      assert a + b == a + b + [] + [];
      ApartPieces(c, s, a, b, [], []);
    } else {
      ApartParts(c, x, y);
      ApartParts(c, a, b);
    }
    ApartParts(c, a, m);
    ApartParts(c, a + m, b);
    ApartParts(c, [s], a + m + b);
    ApartParts(c, x, y);
    ApartParts(c, [t], x + y);
  }

  /** The two lists stay apart: the range leaves one and joins the other. */
  lemma ApartTwo(s: nat, a: seq<nat>, b: seq<nat>, t: nat, x: seq<nat>, m: seq<nat>, y: seq<nat>)
    requires Apart([s] + (a + b), [t] + (x + m + y)) && Distinct([t] + (x + m + y))
    ensures Apart([s] + (a + m + b), [t] + (x + y))
  {
    var c1, c2, c1', c2' := [s] + (a + b), [t] + (x + m + y), [s] + (a + m + b), [t] + (x + y);
    forall i, j | 0 <= i < |c1'| && 0 <= j < |c2'| ensures c1'[i] != c2'[j] {
      var j' := if j <= |x| then j else j + |m|;
      assert c2'[j] == c2[j'];
      if i <= |a| {
        assert c1'[i] == c1[i];
      } else if i <= |a| + |m| {
        assert c1'[i] == m[i - 1 - |a|] == c2[|x| + i - |a|];
      } else {
        assert c1'[i] == c1[i - |m|];
      }
    }
  }

  lemma SplicedApart(l: Links, cs: Contents, s: nat, a: seq<nat>, b: seq<nat>, t: nat, x: seq<nat>, m: seq<nat>,
                     y: seq<nat>, u: nat, v: nat)
    requires Sound(l, cs) && Ready(cs, s, a, b, t, x, m, y)
    ensures Separate(Spliced(cs, s, a, b, t, x, m, y), u, v)
  {
    assert Separate(cs, u, s) && Separate(cs, u, t) && Separate(cs, v, s) && Separate(cs, v, t) && Separate(cs, u, v)
      && Separate(cs, s, t) && ListOk(l, cs, t);
    if u in cs && v in cs && u != v {
      if u != s && u != t {
        ApartSpliced([u] + cs[u], cs, s, a, b, t, x, m, y);
      } else if v != s && v != t {
        ApartSpliced([v] + cs[v], cs, s, a, b, t, x, m, y);
        ApartSym([v] + cs[v], [s] + (a + m + b));
        ApartSym([v] + cs[v], [t] + (x + y));
      } else {
        ApartTwo(s, a, b, t, x, m, y);
        ApartSym([s] + (a + m + b), [t] + (x + y));
      }
    }
  }

  /** All lists are sound after the transfer. */
  lemma SplicedSound(l: Links, cs: Contents, s: nat, a: seq<nat>, b: seq<nat>, t: nat, x: seq<nat>, m: seq<nat>,
                     y: seq<nat>)
    requires Sound(l, cs) && Ready(cs, s, a, b, t, x, m, y) && m != [] && (s == t ==> |a| != |x|)
    ensures {Head(b, s), m[0], Head(y, t)} <= l.prev.Keys
            && {l.prev[Head(b, s)], l.prev[m[0]], l.prev[Head(y, t)]} <= l.next.Keys
    ensures Head(b, s) != Head(y, t) && Sound(Moved(l, Head(b, s), m[0], Head(y, t)), Spliced(cs, s, a, b, t, x, m, y))
  {
    MovedLists(l, cs, s, a, b, t, x, m, y);
    var l', cs' := Moved(l, Head(b, s), m[0], Head(y, t)), Spliced(cs, s, a, b, t, x, m, y);
    var d, e :| Parts(l, cs, s, t, b, y, m, d, e);
    forall u ensures ListOk(l', cs', u) {
      if u in cs && u != s && u != t {
        assert ListOk(l, cs, u) && Separate(cs, u, s) && Separate(cs, u, t);
        OtherRing(l, m, d, e, [u] + cs[u]);
      }
    }
    forall u, v ensures Separate(cs', u, v) { SplicedApart(l, cs, s, a, b, t, x, m, y, u, v); }
  }

  /** The counting loop of opal_list_splice. */
  method Count(l: Links, first: nat, last: nat, ghost m: seq<nat>, ghost d: seq<nat>) returns (n: nat)
    requires m != [] && d != [] && Ring(l, m + d) && first == m[0] && last == d[0]
    ensures n == |m|
  {
    ghost var c := m + d;
    assert c[|m|] == d[0];
    n := 0;
    var tmp := first;
    while tmp != last
      invariant n <= |m| && tmp == c[n]
      decreases |m| - n
    {
      assert Link(l, c[n], c[n + 1]);
      tmp := l.next[tmp];
      n := n + 1;
    }
  }

  class Lists {
    var links: Links
    var length: map<nat, nat>
    /** The items of each list, by its sentinel. */
    ghost var contents: Contents

    /** Every list is a ring linked both ways, the lists share nothing, and the stored lengths are right. */
    ghost predicate Valid()
      reads this
    {
      Sound(links, contents) && forall s :: s in contents ==> s in length && length[s] == |contents[s]|
    }

    constructor (links: Links, length: map<nat, nat>, ghost contents: Contents)
      requires Sound(links, contents) && forall s :: s in contents ==> s in length && length[s] == |contents[s]|
      ensures Valid() && this.contents == contents
    {
      this.links, this.length, this.contents := links, length, contents;
    }

    /** opal_list_join: all items of another list go before pos. */
    method Join(s: nat, pos: nat, t: nat, ghost a: seq<nat>, ghost b: seq<nat>)
      requires Valid() && s in contents && t in contents && s != t && contents[s] == a + b && pos == Head(b, s)
      modifies this
      ensures Valid() && contents == old(contents)[t := []][s := a + old(contents)[t] + b]
    {
      ghost var m := contents[t];
      ghost var none: seq<nat> := [];
      assert none + m + none == m && none + none == none;
      if length[t] != 0 {
        assert ListOk(links, contents, t) && ([t] + m)[1] == m[0] && Link(links, ([t] + m)[0], ([t] + m)[1]);
        links := MoveRange(links, contents, s, pos, t, links.next[t], t, a, b, [], m, []);
        length := length[s := length[s] + length[t]];
        length := length[t := 0];
        contents := Spliced(contents, s, a, b, t, [], m, []);
      } else {
        assert a + m + b == a + b;
        assert contents == contents[t := []][s := a + m + b];
      }
    }

    /** opal_list_splice: the items from first up to last, m, go before pos. */
    method Splice(s: nat, pos: nat, t: nat, first: nat, last: nat,
        ghost a: seq<nat>, ghost b: seq<nat>, ghost x: seq<nat>, ghost m: seq<nat>, ghost y: seq<nat>)
      requires Valid() && Ready(contents, s, a, b, t, x, m, y)
      requires pos == Head(b, s) && first == Head(m + y, t) && last == Head(y, t)
      modifies this
      ensures Valid() && contents == Spliced(old(contents), s, a, b, t, x, m, y)
    {
      if first != last {
        RangeRing(links, contents, t, x, m, y);
        var change := Count(links, first, last, m, y + [t] + x);
        links := MoveRange(links, contents, s, pos, t, first, last, a, b, x, m, y);
        length := length[s := length[s] + change];
        length := length[t := length[t] - change];
        contents := Spliced(contents, s, a, b, t, x, m, y);
        assert s == t ==> |a + m + b| == |x + y| + |m|;
      } else {
        EmptyRange(links, contents, t, x, m, y);
        assert x + m + y == x + y && a + m + b == a + b;
        assert contents == Spliced(contents, s, a, b, t, x, m, y);
      }
    }
  }

  lemma RangeRing(l: Links, cs: Contents, t: nat, x: seq<nat>, m: seq<nat>, y: seq<nat>)
    requires Sound(l, cs) && t in cs && cs[t] == x + m + y && Head(m + y, t) != Head(y, t)
    ensures m != [] && Ring(l, m + (y + [t] + x)) && (y + [t] + x)[0] == Head(y, t)
  {
    assert ListOk(l, cs, t);
    assert m == [] ==> m + y == y;
    assert [t] + (x + m + y) == ([t] + x) + (m + y);
    Rotate(l, [t] + x, m + y);
    assert (m + y) + ([t] + x) == m + (y + [t] + x);
  }

  lemma RangeEnds(l: Links, cs: Contents, t: nat, x: seq<nat>, m: seq<nat>, y: seq<nat>)
    requires Sound(l, cs) && t in cs && cs[t] == x + m + y && m != []
    ensures Head(m + y, t) != Head(y, t)
  {
    assert ListOk(l, cs, t);
    var c := [t] + (x + m + y);
    assert c[0] == t && c[1 + |x|] == m[0];
    if y != [] { assert c[1 + |x| + |m|] == y[0]; }
  }

  lemma EmptyRange(l: Links, cs: Contents, t: nat, x: seq<nat>, m: seq<nat>, y: seq<nat>)
    requires Sound(l, cs) && t in cs && cs[t] == x + m + y && Head(m + y, t) == Head(y, t)
    ensures m == []
  {
    if m != [] { RangeEnds(l, cs, t, x, m, y); }
  }

  /** The transfer, between lists or within one. */
  method MoveRange(l: Links, ghost cs: Contents, s: nat, pos: nat, ghost t: nat, first: nat, last: nat,
      ghost a: seq<nat>, ghost b: seq<nat>, ghost x: seq<nat>, ghost m: seq<nat>, ghost y: seq<nat>)
    returns (l': Links)
    requires Sound(l, cs) && Ready(cs, s, a, b, t, x, m, y) && m != []
    requires pos == Head(b, s) && first == m[0] && last == Head(y, t)
    ensures Sound(l', Spliced(cs, s, a, b, t, x, m, y))
  {
    if s == t && |a| == |x| {
      SameSplit(a, b, x, y);
      AtPlace(l, cs, t, x, m, y);
      assert Spliced(cs, s, a, b, t, x, m, y) == cs;
    } else {
      SplicedSound(l, cs, s, a, b, t, x, m, y);
    }
    l' := Transfer(l, pos, first, last);
  }

  lemma SameSplit(a: seq<nat>, b: seq<nat>, x: seq<nat>, y: seq<nat>)
    requires x + y == a + b && |a| == |x|
    ensures a == x && b == y
  {
    assert (x + y)[..|x|] == x && (a + b)[..|a|] == a && (x + y)[|x|..] == y && (a + b)[|a|..] == b;
  }

  /** The links that the transfer looks at are there. */
  lemma AtPlace(l: Links, cs: Contents, t: nat, x: seq<nat>, m: seq<nat>, y: seq<nat>)
    requires Sound(l, cs) && t in cs && cs[t] == x + m + y && m != []
    ensures {m[0], Head(y, t)} <= l.prev.Keys && {l.prev[m[0]], l.prev[Head(y, t)]} <= l.next.Keys
  {
    assert ListOk(l, cs, t);
    var d := y + [t] + x;
    assert [t] + (x + m + y) == ([t] + x) + (m + y);
    Rotate(l, [t] + x, m + y);
    assert (m + y) + ([t] + x) == m + d;
    RingOfTwo(l, m, d);
  }
}
