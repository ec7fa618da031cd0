/** opal_graph_dijkstra: distances by a work queue that is sorted again after every step. */
module ShortestPaths {

  /** DISTANCE_INFINITY, and the range of uint32_t. */
  const INFINITY: nat := 0x7fff_ffff
  const UINT32: nat := 0x1_0000_0000

  type Weight = w: nat | w < UINT32

  datatype Edge = Edge(end: nat, weight: Weight)

  /** vertex_distance_from_t. */
  datatype Item = Item(v: nat, w: nat)

  /** The adjacency lists; vertices are numbered in the order of the list. */
  type Graph = seq<seq<Edge>>

  function First(es: seq<Edge>, v: nat): Weight
  {
    if es == [] then INFINITY else if es[0].end == v then es[0].weight else First(es[1..], v)
  }

  /** What opal_graph_adjacent returns for two vertices of the graph. */
  function Adjacent(g: Graph, u: nat, v: nat): Weight
    requires u < |g|
  {
    if u == v then 0 else First(g[u], v)
  }

  /** The first edge of the list that ends at v, if there is one. */
  ghost predicate FirstEdge(es: seq<Edge>, v: nat, i: int)
  {
    0 <= i < |es| && es[i].end == v && forall j :: 0 <= j < i ==> es[j].end != v
  }

  lemma {:induction false} FirstExact(es: seq<Edge>, v: nat)
    ensures (forall i :: 0 <= i < |es| ==> es[i].end != v) ==> First(es, v) == INFINITY
    ensures forall i :: FirstEdge(es, v, i) ==> First(es, v) == es[i].weight
  {
    if es != [] {
      var rest := es[1..];
      FirstExact(rest, v);
      assert (forall i :: 0 <= i < |es| ==> es[i].end != v) ==> forall i :: 0 <= i < |rest| ==> rest[i].end != v;
      forall i | FirstEdge(es, v, i) ensures First(es, v) == es[i].weight {
        if i > 0 {
          assert es[0].end != v && rest[i - 1] == es[i];
          assert forall j :: 0 <= j < i - 1 ==> rest[j] == es[j + 1];
          assert FirstEdge(rest, v, i - 1);
        }
      }
    }
  }

  lemma {:induction false} SomeFirst(es: seq<Edge>, v: nat, k: nat) returns (i: nat)
    requires k < |es| && es[k].end == v
    ensures i <= k && FirstEdge(es, v, i)
  {
    i := 0;
    while es[i].end != v
      invariant i <= k && forall j :: 0 <= j < i ==> es[j].end != v
      decreases k - i
    {
      i := i + 1;
    }
  }

  /**
   * Which weight is used: none from a vertex to itself, that of the first edge in the list of u that ends at v, and
   * infinity if there is no such edge.
   */
  lemma AdjacentExact(g: Graph, u: nat, v: nat)
    requires u < |g|
    ensures u == v ==> Adjacent(g, u, v) == 0
    ensures u != v && (forall i :: 0 <= i < |g[u]| ==> g[u][i].end != v) ==> Adjacent(g, u, v) == INFINITY
    ensures u != v && (exists i :: 0 <= i < |g[u]| && g[u][i].end == v) ==>
              exists i :: FirstEdge(g[u], v, i) && Adjacent(g, u, v) == g[u][i].weight
  {
    FirstExact(g[u], v);
    if exists i :: 0 <= i < |g[u]| && g[u][i].end == v {
      var k :| 0 <= k < |g[u]| && g[u][k].end == v;
      var i := SomeFirst(g[u], v, k);
    }
  }

  /** The comparison the code makes, with 32-bit addition. */
  predicate Improves(cur: nat, weight: nat, known: nat) { (cur + weight) % UINT32 < known }

  /** It is the comparison meant, for all distances, exactly when the weight is at most 0x80000000. */
  lemma ImprovesExactly(weight: Weight)
    ensures (forall cur, known :: 0 <= cur <= INFINITY && 0 <= known <= INFINITY ==>
               (Improves(cur, weight, known) <==> cur + weight < known))
            <==> weight <= UINT32 - 1 - INFINITY
  {
    if weight > UINT32 - 1 - INFINITY {
      assert Improves(INFINITY, weight, INFINITY) && !(INFINITY + weight < INFINITY);
    }
  }

  // ----- Paths -----

  predicate Path(g: Graph, s: nat, p: seq<nat>)
  {
    |p| > 0 && p[0] == s && forall i :: 0 <= i < |p| ==> p[i] < |g|
  }

  function Length(g: Graph, p: seq<nat>): nat
    requires forall i :: 0 <= i < |p| ==> p[i] < |g|
  {
    if |p| <= 1 then 0 else Length(g, p[..|p| - 1]) + Adjacent(g, p[|p| - 2], p[|p| - 1])
  }

  /** p is a path to v of length w. */
  ghost predicate PathTo(g: Graph, s: nat, p: seq<nat>, v: nat, w: nat)
  {
    Path(g, s, p) && p[|p| - 1] == v && Length(g, p) == w
  }

  /** No path to v is shorter than w. */
  ghost predicate Least(g: Graph, s: nat, v: nat, w: nat)
  {
    forall p :: Path(g, s, p) && p[|p| - 1] == v ==> w <= Length(g, p)
  }

  /** The distance of an item is right: the least length of a path, or infinity if that is less. */
  ghost predicate Final(g: Graph, s: nat, e: Item)
  {
    e.v < |g| && e.w <= INFINITY && Least(g, s, e.v, e.w) && (e.w == INFINITY || exists p :: PathTo(g, s, p, e.v, e.w))
  }

  /** A right distance is at least every bound on the paths. */
  lemma FinalAtLeast(g: Graph, s: nat, e: Item, w: nat)
    requires Final(g, s, e) && Least(g, s, e.v, w) && w <= INFINITY
    ensures w <= e.w
  {
    if e.w != INFINITY {
      var p :| PathTo(g, s, p, e.v, e.w);
      assert w <= Length(g, p);
    }
  }

  lemma Longer(g: Graph, s: nat, p: seq<nat>, v: nat)
    requires Path(g, s, p) && v < |g|
    ensures Path(g, s, p + [v]) && (p + [v])[|p|] == v
            && Length(g, p + [v]) == Length(g, p) + Adjacent(g, p[|p| - 1], v)
  {
    assert (p + [v])[..|p|] == p;
  }

  // ----- The work queue and its runs -----

  ghost predicate Has(q: seq<Item>, v: nat) { exists i :: 0 <= i < |q| && q[i].v == v }

  ghost predicate Covers(g: Graph, q: seq<Item>) { forall v :: 0 <= v < |g| ==> Has(q, v) }

  predicate Sorted(q: seq<Item>) { forall i, j :: 0 <= i < j < |q| ==> q[i].w <= q[j].w }

  predicate Distinct(q: seq<Item>) { forall i, j :: 0 <= i < j < |q| ==> q[i].v != q[j].v }

  /** The same items in another order. */
  ghost predicate Permuted(q: seq<Item>, r: seq<Item>) { multiset(q) == multiset(r) }

  function Initial(g: Graph, s: nat): seq<Item>
  {
    seq(|g|, (i: nat) => Item(i, if i == s then 0 else INFINITY))
  }

  /** What the inner loop makes of an item when cur is settled. */
  function Relaxed(g: Graph, cur: Item, e: Item): Item
    requires cur.v < |g|
  {
    var weight := Adjacent(g, cur.v, e.v);
    if Improves(cur.w, weight, e.w) then Item(e.v, (weight + cur.w) % UINT32) else e
  }

  /** The waiting items, relaxed. */
  function Waiting(g: Graph, q: seq<Item>, k: nat): seq<Item>
    requires k < |q| && q[k].v < |g|
  {
    seq(|q| - k - 1, (j: nat) requires j < |q| - k - 1 => Relaxed(g, q[k], q[k + 1 + j]))
  }

  ghost predicate Starts(g: Graph, s: nat, q: seq<Item>) { Permuted(Initial(g, s), q) && Sorted(q) }

  /** One turn of the outer loop: the items behind the k-th are relaxed and then sorted, ties in any order. */
  ghost predicate Turned(g: Graph, q: seq<Item>, k: nat, q': seq<Item>)
  {
    && k < |q| == |q'| && q[k].v < |g| && q'[..k + 1] == q[..k + 1]
    && Permuted(Waiting(g, q, k), q'[k + 1..]) && Sorted(q'[k + 1..])
  }

  /** The queues of a run, one for each number of turns. */
  ghost predicate Run(g: Graph, s: nat, qs: seq<seq<Item>>)
  {
    && s < |g| && |qs| == |g| + 1 && Starts(g, s, qs[0])
    && forall k :: 0 <= k < |g| ==> Turned(g, qs[k], k, qs[k + 1])
  }

  ghost predicate Right(g: Graph, s: nat, q: seq<Item>) { forall i :: 0 <= i < |q| ==> Final(g, s, q[i]) }

  /**
   * A heavy edge: u, at distance w, is no further than v, it can be reached at that distance without v, and 32 bits
   * do not hold w and the weight of the edge.
   */
  ghost predicate HeavyEdge(g: Graph, s: nat, u: nat, v: nat, w: nat)
  {
    && u < |g| && v < |g| && Final(g, s, Item(u, w)) && Least(g, s, v, w) && w + Adjacent(g, u, v) >= UINT32
    && (w == INFINITY || exists p :: PathTo(g, s, p, u, w) && v !in p)
  }

  ghost predicate Heavy(g: Graph, s: nat) { exists u, v, w :: HeavyEdge(g, s, u, v, w) }

  // ----- What holds in every run -----

  lemma OnceOnly(q: seq<Item>, e: Item)
    requires Distinct(q)
    ensures multiset(q)[e] <= 1
  {
    if e in q {
      var a :| 0 <= a < |q| && q[a] == e;
      assert q == q[..a] + ([e] + q[a + 1..]);
      assert e !in q[..a] && e !in q[a + 1..];
      assert multiset(q) == multiset(q[..a]) + (multiset{e} + multiset(q[a + 1..]));
    }
  }

  lemma PermutedDistinct(q: seq<Item>, r: seq<Item>)
    requires Permuted(q, r) && Distinct(q)
    ensures Distinct(r)
  {
    forall i, j | 0 <= i < j < |r| ensures r[i].v != r[j].v {
      if r[i].v == r[j].v {
        var e := r[i];
        PermutedHas(q, r, i);
        PermutedHas(q, r, j);
        assert r == r[..j] + r[j..];
        assert e == r[..j][i] && e == r[j..][0];
        assert multiset(r) == multiset(r[..j]) + multiset(r[j..]);
        OnceOnly(q, e);
        assert false;
      }
    }
  }

  lemma PermutedHas(q: seq<Item>, r: seq<Item>, i: nat)
    requires Permuted(q, r) && i < |r|
    ensures exists j :: 0 <= j < |q| && q[j] == r[i]
  {
    assert r[i] in multiset(r);
    assert r[i] in q;
  }

  /** A queue with every vertex once, the reference vertex in front. */
  ghost predicate Shaped(g: Graph, s: nat, q: seq<Item>)
  {
    && |q| == |g| && s < |g| && q[0] == Item(s, 0) && Distinct(q) && Covers(g, q)
    && forall i :: 0 <= i < |q| ==> q[i].v < |g| && q[i].w <= INFINITY
  }

  /** What waits is no further than the edges from what is settled allow. */
  predicate Loose(g: Graph, q: seq<Item>, k: nat)
    requires forall i :: 0 <= i < |q| ==> q[i].v < |g|
  {
    forall i, j :: 0 <= i < k <= j < |q| ==> q[j].w <= q[i].w + Adjacent(g, q[i].v, q[j].v)
  }

  lemma RelaxedBound(g: Graph, cur: Item, e: Item)
    requires cur.v < |g|
    ensures var r := Relaxed(g, cur, e); r.v == e.v && r.w <= e.w && r.w <= cur.w + Adjacent(g, cur.v, e.v)
  {
    var d := cur.w + Adjacent(g, cur.v, e.v);
    assert d % UINT32 <= d;
  }

  lemma StartShaped(g: Graph, s: nat, q: seq<Item>)
    requires s < |g| && Starts(g, s, q)
    ensures Shaped(g, s, q) && forall i :: 0 <= i < |q| ==> q[i].w == if q[i].v == s then 0 else INFINITY
  {
    var q0 := Initial(g, s);
    assert |multiset(q0)| == |q0| && |multiset(q)| == |q|;
    PermutedDistinct(q0, q);
    forall i | 0 <= i < |q| ensures q[i].v < |g| && q[i].w == if q[i].v == s then 0 else INFINITY {
      PermutedHas(q0, q, i);
    }
    forall v | 0 <= v < |g| ensures Has(q, v) {
      PermutedHas(q, q0, v);
      assert q0[v].v == v;
    }
    assert Has(q, s);
  }

  /** Where the waiting items come from, and where they go. */
  lemma TurnedFrom(g: Graph, q: seq<Item>, k: nat, q': seq<Item>, j: nat) returns (m: nat)
    requires Turned(g, q, k, q') && k < j < |q'|
    ensures k < m < |q| && q'[j] == Relaxed(g, q[k], q[m])
  {
    var was, now := Waiting(g, q, k), q'[k + 1..];
    PermutedHas(was, now, j - k - 1);
    var i :| 0 <= i < |was| && was[i] == now[j - k - 1];
    m := k + 1 + i;
  }

  lemma TurnedTo(g: Graph, q: seq<Item>, k: nat, q': seq<Item>, m: nat) returns (j: nat)
    requires Turned(g, q, k, q') && k < m < |q|
    ensures k < j < |q'| && q'[j] == Relaxed(g, q[k], q[m])
  {
    var was, now := Waiting(g, q, k), q'[k + 1..];
    PermutedHas(now, was, m - k - 1);
    var i :| 0 <= i < |now| && now[i] == was[m - k - 1];
    j := k + 1 + i;
  }

  lemma TurnedDistinct(g: Graph, q: seq<Item>, k: nat, q': seq<Item>)
    requires Distinct(q) && Turned(g, q, k, q')
    ensures Distinct(q')
  {
    var was, now := Waiting(g, q, k), q'[k + 1..];
    forall i, j | 0 <= i < j < |was| ensures was[i].v != was[j].v {
      RelaxedBound(g, q[k], q[k + 1 + i]);
      RelaxedBound(g, q[k], q[k + 1 + j]);
    }
    PermutedDistinct(was, now);
    forall i, j | 0 <= i < j < |q'| ensures q'[i].v != q'[j].v {
      if i > k {
        assert q'[i] == now[i - k - 1] && q'[j] == now[j - k - 1];
      } else {
        assert q'[i] == q'[..k + 1][i] == q[i];
        if j > k { var m := TurnedFrom(g, q, k, q', j); } else { assert q'[j] == q'[..k + 1][j]; }
      }
    }
  }

  lemma TurnedKeeps(g: Graph, q: seq<Item>, k: nat, q': seq<Item>, i: nat)
    requires Turned(g, q, k, q') && i <= k
    ensures q'[i] == q[i]
  {
    assert q'[i] == q'[..k + 1][i];
  }

  lemma TurnedShaped(g: Graph, s: nat, q: seq<Item>, k: nat, q': seq<Item>)
    requires Shaped(g, s, q) && Turned(g, q, k, q')
    ensures Shaped(g, s, q')
  {
    TurnedDistinct(g, q, k, q');
    TurnedKeeps(g, q, k, q', 0);
    forall j | 0 <= j < |q'| ensures q'[j].v < |g| && q'[j].w <= INFINITY {
      if j > k {
        var m := TurnedFrom(g, q, k, q', j);
        RelaxedBound(g, q[k], q[m]);
      } else {
        TurnedKeeps(g, q, k, q', j);
      }
    }
    forall v | 0 <= v < |g| ensures Has(q', v) {
      assert Has(q, v);
      var m :| 0 <= m < |q| && q[m].v == v;
      if m > k { var j := TurnedTo(g, q, k, q', m); } else { TurnedKeeps(g, q, k, q', m); }
    }
  }

  lemma TurnedLoose(g: Graph, s: nat, q: seq<Item>, k: nat, q': seq<Item>)
    requires Shaped(g, s, q) && Shaped(g, s, q') && Loose(g, q, k) && Turned(g, q, k, q')
    ensures Loose(g, q', k + 1)
  {
    forall i, j | 0 <= i < k + 1 <= j < |q'| ensures q'[j].w <= q'[i].w + Adjacent(g, q'[i].v, q'[j].v) {
      var m := TurnedFrom(g, q, k, q', j);
      RelaxedBound(g, q[k], q[m]);
      TurnedKeeps(g, q, k, q', i);
    }
  }

  lemma {:induction false} RunShaped(g: Graph, s: nat, qs: seq<seq<Item>>, k: nat)
    requires Run(g, s, qs) && k <= |g|
    ensures Shaped(g, s, qs[k]) && Loose(g, qs[k], k) && Sorted(qs[k][k..])
  {
    if k == 0 {
      StartShaped(g, s, qs[0]);
    } else {
      RunShaped(g, s, qs, k - 1);
      assert Turned(g, qs[k - 1], k - 1, qs[k]);
      TurnedShaped(g, s, qs[k - 1], k - 1, qs[k]);
      TurnedLoose(g, s, qs[k - 1], k - 1, qs[k]);
    }
  }

  /** A settled item stays. */
  lemma {:induction false} Stays(g: Graph, s: nat, qs: seq<seq<Item>>, i: nat, k: nat, m: nat)
    requires Run(g, s, qs) && i <= k <= m <= |g| && i < |g|
    ensures |qs[m]| == |qs[k]| == |g| && qs[m][i] == qs[k][i]
    decreases m
  {
    RunShaped(g, s, qs, m);
    if k < m {
      Stays(g, s, qs, i, k, m - 1);
      assert Turned(g, qs[m - 1], m - 1, qs[m]);
      TurnedKeeps(g, qs[m - 1], m - 1, qs[m], i);
    }
  }

  /** The distance of a vertex never grows. */
  lemma {:induction false} Shrinks(g: Graph, s: nat, qs: seq<seq<Item>>, k: nat, a: nat, m: nat) returns (b: nat)
    requires Run(g, s, qs) && k <= m <= |g| && |qs[k]| == |g| && a < |g|
    ensures |qs[m]| == |g| && b < |g| && qs[m][b].v == qs[k][a].v && qs[m][b].w <= qs[k][a].w
    decreases m
  {
    b := a;
    if k < m {
      var c := Shrinks(g, s, qs, k, a, m - 1);
      var q, q' := qs[m - 1], qs[m];
      assert Turned(g, q, m - 1, q');
      if c < m {
        TurnedKeeps(g, q, m - 1, q', c);
        b := c;
      } else {
        b := TurnedTo(g, q, m - 1, q', c);
        RelaxedBound(g, q[m - 1], q[c]);
      }
    }
  }

  /** Where a vertex that is settled after the i-th waits when that one is settled. */
  lemma Later(g: Graph, s: nat, qs: seq<seq<Item>>, i: nat, j: nat) returns (a: nat)
    requires Run(g, s, qs) && i < j < |g| && |qs[|g|]| == |g|
    ensures |qs[i]| == |g| && qs[i][i] == qs[|g|][i] && i < a < |g| && qs[i][a].v == qs[|g|][j].v
  {
    RunShaped(g, s, qs, i);
    RunShaped(g, s, qs, |g|);
    Stays(g, s, qs, i, i, |g|);
    assert Has(qs[i], qs[|g|][j].v);
    a :| 0 <= a < |g| && qs[i][a].v == qs[|g|][j].v;
    if a <= i { Stays(g, s, qs, a, i, |g|); }
  }

  // ----- A sum that wraps is never made good -----

  /** If a run gives right distances, no sum wrapped on an edge to a vertex that is no nearer. */
  lemma NoWrap(g: Graph, s: nat, qs: seq<seq<Item>>, k: nat, a: nat)
    requires Run(g, s, qs) && Right(g, s, qs[|g|]) && k < a < |g| && |qs[k]| == |g| && qs[k][k].v < |g|
    requires qs[k][k].w <= INFINITY && Least(g, s, qs[k][a].v, qs[k][k].w)
    ensures qs[k][k].w + Adjacent(g, qs[k][k].v, qs[k][a].v) < UINT32
  {
    var cur, e := qs[k][k], qs[k][a];
    var d := cur.w + Adjacent(g, cur.v, e.v);
    if d >= UINT32 {
      assert d % UINT32 == d - UINT32 < cur.w;
      assert Relaxed(g, cur, e).w < cur.w && Relaxed(g, cur, e).v == e.v;
      assert Turned(g, qs[k], k, qs[k + 1]);
      var j := TurnedTo(g, qs[k], k, qs[k + 1], a);
      var b := Shrinks(g, s, qs, k + 1, j, |g|);
      FinalAtLeast(g, s, qs[|g|][b], cur.w);
      assert false;
    }
  }

  /** The same, by the order in which the vertices were settled. */
  lemma SettledBefore(g: Graph, s: nat, qs: seq<seq<Item>>, i: nat, j: nat)
    requires Run(g, s, qs) && |qs[|g|]| == |g| && Right(g, s, qs[|g|]) && i < j < |g|
    requires qs[|g|][i].v < |g| && Least(g, s, qs[|g|][j].v, qs[|g|][i].w)
    ensures qs[|g|][i].w + Adjacent(g, qs[|g|][i].v, qs[|g|][j].v) < UINT32
  {
    assert Final(g, s, qs[|g|][i]);
    var a := Later(g, s, qs, i, j);
    NoWrap(g, s, qs, i, a);
  }

  /** Heavy edges both ways between vertices that are equally far: every run is wrong. */
  lemma BothWays(g: Graph, s: nat, qs: seq<seq<Item>>, u: nat, v: nat, w: nat)
    requires Run(g, s, qs) && u < |g| && v < |g| && u != v && Final(g, s, Item(u, w)) && Final(g, s, Item(v, w))
    requires w + Adjacent(g, u, v) >= UINT32 && w + Adjacent(g, v, u) >= UINT32
    ensures !Right(g, s, qs[|g|])
  {
    var q := qs[|g|];
    RunShaped(g, s, qs, |g|);
    if Right(g, s, q) {
      assert Has(q, u) && Has(q, v);
      var i :| 0 <= i < |q| && q[i].v == u;
      var j :| 0 <= j < |q| && q[j].v == v;
      FinalUnique(g, s, q[i], Item(u, w));
      FinalUnique(g, s, q[j], Item(v, w));
      if i < j { SettledBefore(g, s, qs, i, j); } else { SettledBefore(g, s, qs, j, i); }
      assert false;
    }
  }

  lemma FinalUnique(g: Graph, s: nat, e: Item, f: Item)
    requires Final(g, s, e) && Final(g, s, f) && e.v == f.v
    ensures e == f
  {
    FinalAtLeast(g, s, e, f.w);
    FinalAtLeast(g, s, f, e.w);
  }

  // ----- Without a heavy edge every run is right -----

  /** v is among the first k. */
  ghost predicate Within(q: seq<Item>, k: nat, v: nat) { k <= |q| && exists i :: 0 <= i < k && q[i].v == v }

  /** The distance of e is that of a path through the first k. */
  ghost predicate Via(g: Graph, s: nat, q: seq<Item>, k: nat, e: Item)
  {
    e.w == INFINITY || exists p :: PathTo(g, s, p, e.v, e.w) && forall i :: 0 <= i < |p| - 1 ==> Within(q, k, p[i])
  }

  /** The first k are final, none further than the others; the others are the best over one more edge from them. */
  ghost predicate Good(g: Graph, s: nat, q: seq<Item>, k: nat)
  {
    && Shaped(g, s, q) && Loose(g, q, k) && k <= |q| && Sorted(q[k..])
    && (forall i :: 0 <= i < k ==> Final(g, s, q[i]))
    && (forall j :: k <= j < |q| ==> Via(g, s, q, k, q[j]))
    && (forall i, j :: 0 <= i < j < |q| && i < k ==> q[i].w <= q[j].w)
  }

  lemma StartGood(g: Graph, s: nat, q: seq<Item>)
    requires s < |g| && Starts(g, s, q)
    ensures Good(g, s, q, 0)
  {
    StartShaped(g, s, q);
    assert q[0..] == q;
    assert PathTo(g, s, [s], s, 0);
    forall j | 0 <= j < |q| ensures Via(g, s, q, 0, q[j]) {}
  }

  /** A path that ends outside the first k is no shorter than anything waiting. */
  lemma {:induction false} Outside(g: Graph, s: nat, q: seq<Item>, k: nat, m: nat, p: seq<nat>)
    requires Good(g, s, q, k) && Within(q, k, s) && Path(g, s, p) && !Within(q, k, p[|p| - 1])
    requires forall j :: k <= j < |q| ==> m <= q[j].w
    ensures m <= Length(g, p)
    decreases |p|
  {
    var n := |p| - 1;
    if n > 0 {
      var front, u, v := p[..n], p[n - 1], p[n];
      assert Path(g, s, front) && front[|front| - 1] == u;
      if Within(q, k, u) {
        var i :| 0 <= i < k && q[i].v == u;
        assert Has(q, v);
        var j :| 0 <= j < |q| && q[j].v == v;
        assert Final(g, s, q[i]);
      } else {
        Outside(g, s, q, k, m, front);
      }
    }
  }

  /** No path to a waiting vertex is shorter than the first waiting distance. */
  lemma Settle(g: Graph, s: nat, q: seq<Item>, k: nat, m: nat)
    requires Good(g, s, q, k) && 0 < k <= m < |q|
    ensures Least(g, s, q[m].v, q[k].w)
  {
    assert q[0].v == s;
    forall j | k <= j < |q| ensures q[k].w <= q[j].w { assert q[k..][0] == q[k] && q[k..][j - k] == q[j]; }
    forall p | Path(g, s, p) && p[|p| - 1] == q[m].v ensures q[k].w <= Length(g, p) {
      Outside(g, s, q, k, q[k].w, p);
    }
  }

  lemma FirstFinal(g: Graph, s: nat, q: seq<Item>, k: nat)
    requires Good(g, s, q, k) && k < |q|
    ensures Final(g, s, q[k])
  {
    assert Via(g, s, q, k, q[k]);
    if k > 0 { Settle(g, s, q, k, k); }
  }

  /** A path through the first k, unless the distance is infinite. */
  lemma ViaPath(g: Graph, s: nat, q: seq<Item>, k: nat, e: Item) returns (p: seq<nat>)
    requires Via(g, s, q, k, e) && e.w != INFINITY
    ensures PathTo(g, s, p, e.v, e.w) && forall i :: 0 <= i < |p| - 1 ==> Within(q, k, p[i])
  {
    p :| PathTo(g, s, p, e.v, e.w) && forall i :: 0 <= i < |p| - 1 ==> Within(q, k, p[i]);
  }

  /** Without a heavy edge the sum fits. */
  lemma Fits(g: Graph, s: nat, q: seq<Item>, k: nat, m: nat)
    requires Good(g, s, q, k) && k < m < |q| && !Heavy(g, s)
    ensures q[k].w + Adjacent(g, q[k].v, q[m].v) < UINT32
  {
    var cur, v := q[k], q[m].v;
    FirstFinal(g, s, q, k);
    if k > 0 {
      Settle(g, s, q, k, m);
      if cur.w != INFINITY {
        var p := ViaPath(g, s, q, k, cur);
        Avoids(q, k, m, p);
      }
      assert !HeavyEdge(g, s, cur.v, v, cur.w);
    }
  }

  lemma Avoids(q: seq<Item>, k: nat, m: nat, p: seq<nat>)
    requires Distinct(q) && k < m < |q| && |p| > 0 && p[|p| - 1] == q[k].v
             && forall i :: 0 <= i < |p| - 1 ==> Within(q, k, p[i])
    ensures q[m].v !in p
  {
    forall i | 0 <= i < |p| ensures p[i] != q[m].v {
      if i < |p| - 1 { assert Within(q, k, p[i]); }
    }
  }

  lemma WithinNow(g: Graph, q: seq<Item>, k: nat, q': seq<Item>, v: nat)
    requires Turned(g, q, k, q') && (Within(q, k, v) || v == q[k].v)
    ensures Within(q', k + 1, v)
  {
    var i :| 0 <= i <= k && q[i].v == v;
    TurnedKeeps(g, q, k, q', i);
  }

  lemma StillVia(g: Graph, s: nat, q: seq<Item>, k: nat, q': seq<Item>, e: Item)
    requires Turned(g, q, k, q') && Via(g, s, q, k, e)
    ensures Via(g, s, q', k + 1, e)
  {
    if e.w != INFINITY {
      var p := ViaPath(g, s, q, k, e);
      forall i | 0 <= i < |p| - 1 ensures Within(q', k + 1, p[i]) { WithinNow(g, q, k, q', p[i]); }
    }
  }

  /** The path to the vertex being settled, and one edge more. */
  lemma NowVia(g: Graph, s: nat, q: seq<Item>, k: nat, q': seq<Item>, e: Item)
    requires Turned(g, q, k, q') && Via(g, s, q, k, q[k]) && q[k].w != INFINITY && e.v < |g|
    requires e.w == q[k].w + Adjacent(g, q[k].v, e.v)
    ensures Via(g, s, q', k + 1, e)
  {
    var p := ViaPath(g, s, q, k, q[k]);
    Longer(g, s, p, e.v);
    var p' := p + [e.v];
    forall i | 0 <= i < |p'| - 1 ensures Within(q', k + 1, p'[i]) {
      assert p'[i] == p[i];
      WithinNow(g, q, k, q', p[i]);
    }
    assert PathTo(g, s, p', e.v, e.w);
  }

  lemma RelaxedPlain(g: Graph, cur: Item, e: Item)
    requires cur.v < |g| && cur.w + Adjacent(g, cur.v, e.v) < UINT32
    ensures var d := cur.w + Adjacent(g, cur.v, e.v); Relaxed(g, cur, e) == if d < e.w then Item(e.v, d) else e
  {}

  lemma ViaOfEither(g: Graph, s: nat, q: seq<Item>, k: nat, q': seq<Item>, e: Item)
    requires Turned(g, q, k, q') && Via(g, s, q, k, q[k]) && Via(g, s, q, k, e) && e.v < |g| && e.w <= INFINITY
    ensures var d := q[k].w + Adjacent(g, q[k].v, e.v); Via(g, s, q', k + 1, if d < e.w then Item(e.v, d) else e)
  {
    var d := q[k].w + Adjacent(g, q[k].v, e.v);
    if d < e.w { NowVia(g, s, q, k, q', Item(e.v, d)); } else { StillVia(g, s, q, k, q', e); }
  }

  /** The relaxed item has a path through what is settled now. */
  lemma RelaxedVia(g: Graph, s: nat, q: seq<Item>, k: nat, m: nat, q': seq<Item>)
    requires Good(g, s, q, k) && k < m < |q| && !Heavy(g, s) && Turned(g, q, k, q')
    ensures Via(g, s, q', k + 1, Relaxed(g, q[k], q[m])) && q[k].w <= Relaxed(g, q[k], q[m]).w
  {
    var cur, e := q[k], q[m];
    Fits(g, s, q, k, m);
    RelaxedPlain(g, cur, e);
    assert q[k..][0] == cur && q[k..][m - k] == e;
    assert Via(g, s, q, k, cur) && Via(g, s, q, k, e) && e.v < |g| && e.w <= INFINITY;
    ViaOfEither(g, s, q, k, q', e);
  }

  lemma TurnedGood(g: Graph, s: nat, q: seq<Item>, k: nat, q': seq<Item>)
    requires Good(g, s, q, k) && !Heavy(g, s) && Turned(g, q, k, q')
    ensures Good(g, s, q', k + 1)
  {
    TurnedShaped(g, s, q, k, q');
    TurnedLoose(g, s, q, k, q');
    FirstFinal(g, s, q, k);
    forall i | 0 <= i <= k ensures q'[i] == q[i] && Final(g, s, q'[i]) { TurnedKeeps(g, q, k, q', i); }
    forall j | k < j < |q'| ensures Via(g, s, q', k + 1, q'[j]) && q[k].w <= q'[j].w {
      var m := TurnedFrom(g, q, k, q', j);
      RelaxedVia(g, s, q, k, m, q');
    }
    forall i, j | 0 <= i < j < |q'| && i < k + 1 ensures q'[i].w <= q'[j].w {
      if i < k && j > k { assert q[i].w <= q[k].w; }
    }
  }

  lemma {:induction false} LightGood(g: Graph, s: nat, qs: seq<seq<Item>>, k: nat)
    requires Run(g, s, qs) && k <= |g| && !Heavy(g, s)
    ensures Good(g, s, qs[k], k)
  {
    if k == 0 {
      StartGood(g, s, qs[0]);
    } else {
      LightGood(g, s, qs, k - 1);
      assert Turned(g, qs[k - 1], k - 1, qs[k]);
      TurnedGood(g, s, qs[k - 1], k - 1, qs[k]);
    }
  }

  // ----- With a heavy edge some run is wrong -----

  /** e may stand before f: it is nearer, or as near, and preferred if f is. */
  predicate Precedes(e: Item, f: Item, first: set<nat>)
  {
    e.w < f.w || (e.w == f.w && (f.v in first ==> e.v in first))
  }

  predicate Ordered(q: seq<Item>, first: set<nat>) { forall i, j :: 0 <= i < j < |q| ==> Precedes(q[i], q[j], first) }

  function Inserted(q: seq<Item>, e: Item, first: set<nat>): seq<Item>
  {
    if q == [] || Precedes(q[|q| - 1], e, first) then q + [e] else Inserted(q[..|q| - 1], e, first) + [q[|q| - 1]]
  }

  /** The items by distance, and among equals those of `first` in front. */
  function Arranged(q: seq<Item>, first: set<nat>): seq<Item>
  {
    if q == [] then [] else Inserted(Arranged(q[..|q| - 1], first), q[|q| - 1], first)
  }

  lemma {:induction false} InsertedFacts(q: seq<Item>, e: Item, first: set<nat>)
    requires Ordered(q, first)
    ensures Ordered(Inserted(q, e, first), first) && Permuted(q + [e], Inserted(q, e, first))
  {
    if q == [] || Precedes(q[|q| - 1], e, first) {
      assert forall i :: 0 <= i < |q| ==> Precedes(q[i], e, first);
    } else {
      var n := |q| - 1;
      var front, last := q[..n], q[n];
      InsertedFacts(front, e, first);
      PushedBack(front, last, e, Inserted(front, e, first), first);
      assert q == front + [last];
    }
  }

  lemma PushedBack(front: seq<Item>, last: Item, e: Item, r: seq<Item>, first: set<nat>)
    requires Ordered(front + [last], first) && Ordered(r, first) && Permuted(front + [e], r)
             && !Precedes(last, e, first)
    ensures Ordered(r + [last], first) && Permuted(front + [last] + [e], r + [last])
  {
    assert multiset(r + [last]) == multiset(front) + multiset{e} + multiset{last};
    forall i | 0 <= i < |r| ensures Precedes(r[i], last, first) {
      FromEither(front, e, r, i);
      if r[i] != e {
        var j :| 0 <= j < |front| && front[j] == r[i];
        assert Precedes((front + [last])[j], (front + [last])[|front|], first);
      }
    }
  }

  lemma FromEither(q: seq<Item>, e: Item, r: seq<Item>, i: nat)
    requires Permuted(q + [e], r) && i < |r|
    ensures r[i] == e || exists j :: 0 <= j < |q| && q[j] == r[i]
  {
    PermutedHas(q + [e], r, i);
  }

  lemma {:induction false} ArrangedFacts(q: seq<Item>, first: set<nat>)
    ensures Ordered(Arranged(q, first), first) && Sorted(Arranged(q, first)) && Permuted(q, Arranged(q, first))
  {
    if q != [] {
      var n := |q| - 1;
      ArrangedFacts(q[..n], first);
      InsertedFacts(Arranged(q[..n], first), q[n], first);
      assert q == q[..n] + [q[n]];
    }
  }

  /** A run that prefers the vertices of `first` whenever it can. */
  lemma PreferredRun(g: Graph, s: nat, first: set<nat>) returns (qs: seq<seq<Item>>)
    requires s < |g|
    ensures Run(g, s, qs) && forall k :: 0 <= k <= |g| && |qs[k]| == |g| ==> Ordered(qs[k][k..], first)
  {
    var q := Arranged(Initial(g, s), first);
    ArrangedFacts(Initial(g, s), first);
    StartShaped(g, s, q);
    assert q[0..] == q;
    qs := [q];
    var n := 0;
    while n < |g|
      invariant n <= |g| && |qs| == n + 1 && q == qs[n] && Shaped(g, s, q) && Starts(g, s, qs[0])
      invariant Partial(g, qs, first)
    {
      var q' := NextQueue(g, q, n, first);
      TurnedShaped(g, s, q, n, q');
      PartialNext(g, qs, first, q');
      qs, q, n := qs + [q'], q', n + 1;
    }
  }

  /** The queues of the first turns of such a run. */
  ghost predicate Partial(g: Graph, qs: seq<seq<Item>>, first: set<nat>)
  {
    && (forall k :: 0 <= k < |qs| - 1 ==> Turned(g, qs[k], k, qs[k + 1]))
    && (forall k :: 0 <= k < |qs| && k <= |qs[k]| ==> Ordered(qs[k][k..], first))
  }

  lemma PartialNext(g: Graph, qs: seq<seq<Item>>, first: set<nat>, q': seq<Item>)
    requires |qs| > 0 && Partial(g, qs, first)
    requires var n := |qs| - 1; Turned(g, qs[n], n, q') && Ordered(q'[n + 1..], first)
    ensures Partial(g, qs + [q'], first)
  {
    var r := qs + [q'];
    forall k | 0 <= k < |r| - 1 ensures Turned(g, r[k], k, r[k + 1]) {
      if k < |qs| - 1 { assert r[k] == qs[k] && r[k + 1] == qs[k + 1]; }
    }
    forall k | 0 <= k < |r| && k <= |r[k]| ensures Ordered(r[k][k..], first) {
      if k < |qs| { assert r[k] == qs[k]; }
    }
  }

  lemma NextQueue(g: Graph, q: seq<Item>, k: nat, first: set<nat>) returns (q': seq<Item>)
    requires k < |q| && q[k].v < |g|
    ensures Turned(g, q, k, q') && Ordered(q'[k + 1..], first)
  {
    var was := Waiting(g, q, k);
    var now := Arranged(was, first);
    ArrangedFacts(was, first);
    assert |multiset(was)| == |was| && |multiset(now)| == |now|;
    q' := q[..k + 1] + now;
    assert q'[..k + 1] == q[..k + 1] && q'[k + 1..] == now;
  }

  lemma Position(g: Graph, q: seq<Item>, v: nat) returns (i: nat)
    requires Covers(g, q) && v < |g|
    ensures i < |q| && q[i].v == v
  {
    assert Has(q, v);
    i :| 0 <= i < |q| && q[i].v == v;
  }

  /** A vertex of the path waits at a distance no larger than the path, unless its end is settled. */
  lemma {:induction false} OnTheWay(g: Graph, s: nat, q: seq<Item>, k: nat, p: seq<nat>) returns (b: nat)
    requires Shaped(g, s, q) && Loose(g, q, k) && 0 < k < |q|
             && (forall i :: 0 <= i < k ==> Least(g, s, q[i].v, q[i].w))
    requires Path(g, s, p) && q[k].v !in p && !Within(q, k, p[|p| - 1])
    ensures k < b < |q| && q[b].v in p && q[b].w <= Length(g, p)
    decreases |p|
  {
    var n := |p| - 1;
    assert q[0].v == s;
    var front, x, y := p[..n], p[n], p[n - 1];
    assert Path(g, s, front) && front[|front| - 1] == y;
    if Within(q, k, y) {
      var i :| 0 <= i < k && q[i].v == y;
      b := Position(g, q, x);
      assert q[i].w <= Length(g, front);
    } else {
      b := OnTheWay(g, s, q, k, front);
    }
  }

  /** In a preferring run that gives right distances, u is settled before v. */
  lemma PreferredFirst(g: Graph, s: nat, qs: seq<seq<Item>>, p: seq<nat>, i: nat, j: nat, w: nat)
    requires Run(g, s, qs) && Right(g, s, qs[|g|]) && |qs[|g|]| == |g| && i < |g| && j < |g| && i != j
    requires Least(g, s, qs[|g|][j].v, w) && w <= INFINITY && qs[|g|][i].v in p && qs[|g|][j].v !in p
    requires w == INFINITY || PathTo(g, s, p, qs[|g|][i].v, w)
    requires forall k :: 0 <= k <= |g| && |qs[k]| == |g| ==> Ordered(qs[k][k..], set x | x in p)
    ensures i < j
  {
    if j < i {
      var u, v := qs[|g|][i].v, qs[|g|][j].v;
      var q := qs[j];
      RunShaped(g, s, qs, j);
      var a := Later(g, s, qs, j, i);
      assert Final(g, s, qs[|g|][j]);
      FinalAtLeast(g, s, q[j], w);
      var b := a;
      if w != INFINITY {
        forall h | 0 <= h < j ensures Least(g, s, q[h].v, q[h].w) {
          Stays(g, s, qs, h, j, |g|);
          assert Final(g, s, qs[|g|][h]);
        }
        b := OnTheWay(g, s, q, j, p);
      }
      assert false;
    }
  }

  lemma HeavyWrong(g: Graph, s: nat, u: nat, v: nat, w: nat) returns (qs: seq<seq<Item>>)
    requires s < |g| && HeavyEdge(g, s, u, v, w)
    ensures Run(g, s, qs) && !Right(g, s, qs[|g|])
  {
    var p := [u];
    if w != INFINITY { p :| PathTo(g, s, p, u, w) && v !in p; }
    qs := PreferredRun(g, s, set x | x in p);
    var q := qs[|g|];
    RunShaped(g, s, qs, |g|);
    if Right(g, s, q) {
      assert Has(q, u) && Has(q, v);
      var i :| 0 <= i < |q| && q[i].v == u;
      var j :| 0 <= j < |q| && q[j].v == v;
      FinalUnique(g, s, q[i], Item(u, w));
      PreferredFirst(g, s, qs, p, i, j, w);
      SettledBefore(g, s, qs, i, j);
      assert false;
    }
  }

  /** Every order of ties gives right distances exactly when there is no heavy edge. */
  lemma DijkstraExact(g: Graph, s: nat)
    requires s < |g|
    ensures (forall qs :: Run(g, s, qs) ==> Right(g, s, qs[|g|])) <==> !Heavy(g, s)
  {
    if Heavy(g, s) {
      var u, v, w :| HeavyEdge(g, s, u, v, w);
      var qs := HeavyWrong(g, s, u, v, w);
    } else {
      forall qs | Run(g, s, qs) ensures Right(g, s, qs[|g|]) { LightGood(g, s, qs, |g|); }
    }
  }

  // ----- The same without mention of paths -----

  /** u, at distance w, is no further than v, and 32 bits do not hold w and the weight of the edge. */
  ghost predicate Oversized(g: Graph, s: nat, u: nat, v: nat, w: nat)
  {
    u < |g| && v < |g| && Final(g, s, Item(u, w)) && Least(g, s, v, w) && w + Adjacent(g, u, v) >= UINT32
  }

  lemma {:induction false} PrefixShorter(g: Graph, s: nat, p: seq<nat>, i: nat)
    requires Path(g, s, p) && i < |p|
             && forall u, v :: 0 <= u < |g| && 0 <= v < |g| && u != v ==> Adjacent(g, u, v) >= 1
    ensures Path(g, s, p[..i + 1])
    ensures Length(g, p[..i + 1]) + (if p[i] != p[|p| - 1] then 1 else 0) <= Length(g, p)
    decreases |p|
  {
    var n := |p| - 1;
    if i == n {
      assert p[..i + 1] == p;
    } else {
      var front := p[..n];
      PrefixShorter(g, s, front, i);
      assert front[..i + 1] == p[..i + 1];
    }
  }

  /** When no edge has weight 0, the way on which u is reached need not be mentioned. */
  lemma HeavyWhenPositive(g: Graph, s: nat, u: nat, v: nat, w: nat)
    requires forall x, y :: 0 <= x < |g| && 0 <= y < |g| && x != y ==> Adjacent(g, x, y) >= 1
    ensures HeavyEdge(g, s, u, v, w) <==> Oversized(g, s, u, v, w)
  {
    if Oversized(g, s, u, v, w) && w != INFINITY {
      var p :| PathTo(g, s, p, u, w);
      forall i | 0 <= i < |p| ensures p[i] != v {
        PrefixShorter(g, s, p, i);
      }
    }
  }

  /** With weight 0 it must: 2 is only reached through 1, which is as far, so the heavy edge back is never used. */
  const FREE: Graph := [[Edge(1, 1)], [Edge(2, 0)], [Edge(1, UINT32 - 1)]]

  lemma {:induction false} FreePaths(p: seq<nat>)
    requires Path(FREE, 0, p)
    ensures p[|p| - 1] != 0 ==> Length(FREE, p) >= 1
    ensures 1 !in p && p[|p| - 1] == 2 ==> Length(FREE, p) >= INFINITY
    decreases |p|
  {
    var n := |p| - 1;
    if n > 0 {
      assert Path(FREE, 0, p[..n]);
      FreePaths(p[..n]);
    }
  }

  lemma FreeNotHeavy()
    ensures Oversized(FREE, 0, 2, 1, 1) && !Heavy(FREE, 0)
  {
    forall p | Path(FREE, 0, p) ensures p[|p| - 1] != 0 ==> 1 <= Length(FREE, p) { FreePaths(p); }
    Longer(FREE, 0, [0], 1);
    Longer(FREE, 0, [0, 1], 2);
    assert [0] + [1] == [0, 1] && [0, 1] + [2] == [0, 1, 2];
    assert PathTo(FREE, 0, [0, 1], 1, 1) && PathTo(FREE, 0, [0, 1, 2], 2, 1);
    assert Final(FREE, 0, Item(1, 1)) && Final(FREE, 0, Item(2, 1));
    forall u, v, w ensures !HeavyEdge(FREE, 0, u, v, w) { FreeHeavy(u, v, w); }
  }

  lemma FreeHeavy(u: nat, v: nat, w: nat)
    requires Final(FREE, 0, Item(1, 1)) && Final(FREE, 0, Item(2, 1))
    ensures !HeavyEdge(FREE, 0, u, v, w)
  {
    if u == 2 && Final(FREE, 0, Item(2, w)) {
      FinalUnique(FREE, 0, Item(2, w), Item(2, 1));
      forall p | PathTo(FREE, 0, p, 2, 1) ensures 1 in p { FreePaths(p); }
    }
  }

  // ----- The algorithm -----

  /** The inner loop: all waiting items are relaxed in place. */
  method RelaxAll(q: array<Item>, k: nat, g: Graph, cur: Item)
    requires k <= q.Length && cur.v < |g|
    modifies q
    ensures forall i :: 0 <= i < k ==> q[i] == old(q[i])
    ensures forall i :: k <= i < q.Length ==> q[i] == Relaxed(g, cur, old(q[i]))
  {
    var i := k;
    while i < q.Length
      invariant k <= i <= q.Length
      invariant forall j :: 0 <= j < k || i <= j < q.Length ==> q[j] == old(q[j])
      invariant forall j :: k <= j < i ==> q[j] == Relaxed(g, cur, old(q[j]))
    {
      var weight := Adjacent(g, cur.v, q[i].v);
      if (cur.w + weight) % UINT32 < q[i].w {
        q[i] := Item(q[i].v, (weight + cur.w) % UINT32);
      }
      i := i + 1;
    }
  }

  /** qsort of the waiting items by distance. */
  method SortFrom(q: array<Item>, k: nat)
    requires k <= q.Length
    modifies q
    ensures q[..k] == old(q[..k]) && Sorted(q[k..]) && Permuted(old(q[k..]), q[k..])
  {
    var was := q[k..];
    var r := Arranged(was, {});
    ArrangedFacts(was, {});
    assert |multiset(was)| == |was| && |multiset(r)| == |r|;
    forall i | k <= i < q.Length { q[i] := r[i - k]; }
    assert q[k..] == r;
  }

  /** One turn of the outer loop. */
  method Turn(g: Graph, q: array<Item>, k: nat)
    requires k < q.Length && q[k].v < |g|
    modifies q
    ensures Turned(g, old(q[..]), k, q[..])
  {
    ghost var was := q[..];
    RelaxAll(q, k + 1, g, q[k]);
    assert q[k + 1..] == Waiting(g, was, k);
    assert q[..k + 1] == was[..k + 1];
    SortFrom(q, k + 1);
    assert q[..][..k + 1] == q[..k + 1] && q[..][k + 1..] == q[k + 1..];
  }

  /**
   * opal_graph_dijkstra; a reference vertex that is not in the graph gives an empty answer.  Every other vertex is
   * reported once; without a heavy edge nearest first and with its right distance.
   */
  method Dijkstra(g: Graph, s: nat) returns (r: seq<Item>, ghost qs: seq<seq<Item>>)
    ensures s >= |g| ==> r == []
    ensures s < |g| ==> Run(g, s, qs) && |qs[|g|]| == |g| && r == qs[|g|][1..]
    ensures s < |g| ==> |r| == |g| - 1 && Distinct(r) && !Has(r, s) && forall v :: 0 <= v < |g| && v != s ==> Has(r, v)
    ensures s < |g| && !Heavy(g, s) ==> Sorted(r) && Right(g, s, r)
  {
    qs := [];
    if s >= |g| {
      return [], [];
    }
    var q := new Item[|g|](i => Item(i, if i == s then 0 else INFINITY));
    assert q[0..] == Initial(g, s);
    SortFrom(q, 0);
    assert q[0..] == q[..];
    StartShaped(g, s, q[..]);
    qs := [q[..]];
    var k := 0;
    while k < |g|
      invariant k <= |g| == q.Length && |qs| == k + 1 && qs[k] == q[..] && Shaped(g, s, q[..]) && Starts(g, s, qs[0])
      invariant forall i :: 0 <= i < k ==> Turned(g, qs[i], i, qs[i + 1])
    {
      ghost var was := q[..];
      Turn(g, q, k);
      TurnedShaped(g, s, was, k, q[..]);
      qs := qs + [q[..]];
      k := k + 1;
    }
    r := q[1..];
    Answer(g, s, qs, r);
  }

  lemma Answer(g: Graph, s: nat, qs: seq<seq<Item>>, r: seq<Item>)
    requires Run(g, s, qs) && |qs[|g|]| == |g| && r == qs[|g|][1..]
    ensures |r| == |g| - 1 && Distinct(r) && !Has(r, s) && forall v :: 0 <= v < |g| && v != s ==> Has(r, v)
    ensures !Heavy(g, s) ==> Sorted(r) && Right(g, s, r)
  {
    var q := qs[|g|];
    RunShaped(g, s, qs, |g|);
    forall v | 0 <= v < |g| && v != s ensures Has(r, v) {
      assert Has(q, v);
      var i :| 0 <= i < |q| && q[i].v == v;
      assert r[i - 1].v == v;
    }
    if !Heavy(g, s) { LightGood(g, s, qs, |g|); }
  }

  // ----- Too large a weight -----

  /** Nothing leads from vertex 0; vertices 1 and 2 are joined both ways by the heaviest edges. */
  const HEAVY: Graph := [[], [Edge(2, UINT32 - 1)], [Edge(1, UINT32 - 1)]]

  lemma {:induction false} NoWay(p: seq<nat>)
    requires Path(HEAVY, 0, p) && p[|p| - 1] != 0
    ensures Length(HEAVY, p) >= INFINITY
    decreases |p|
  {
    var n := |p| - 1;
    assert Path(HEAVY, 0, p[..n]);
    if p[n - 1] != 0 { NoWay(p[..n]); }
  }

  lemma Unreachable(v: nat)
    requires 0 < v < 3
    ensures Final(HEAVY, 0, Item(v, INFINITY))
  {
    forall p | Path(HEAVY, 0, p) && p[|p| - 1] == v ensures Length(HEAVY, p) >= INFINITY { NoWay(p); }
  }

  /** No path leads to either, and in every order one of them is reported at another distance. */
  method HeavySeen() returns (r: seq<Item>)
    ensures Final(HEAVY, 0, Item(1, INFINITY)) && Final(HEAVY, 0, Item(2, INFINITY))
    ensures |r| == 2 && !Right(HEAVY, 0, r)
  {
    ghost var qs;
    r, qs := Dijkstra(HEAVY, 0);
    Unreachable(1);
    Unreachable(2);
    BothWays(HEAVY, 0, qs, 1, 2, INFINITY);
    RunShaped(HEAVY, 0, qs, 3);
    ghost var q := qs[3];
    assert PathTo(HEAVY, 0, [0], 0, 0);
    ghost var i :| 0 <= i < |q| && !Final(HEAVY, 0, q[i]);
    assert r[i - 1] == q[i];
  }
}
