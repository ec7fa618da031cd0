/** visit and evaluate_assignment of btl_tcp2_proc.c: the best matching of interfaces, by trying all of them. */
module Assignment {

  /** Number of connected pairs, then sum of their qualities. */
  datatype Score = Score(card: int, weight: int)

  predicate Beats(s: Score, t: Score) { s.card > t.card || (s.card == t.card && s.weight > t.weight) }

  // ----- Assignments -----

  /** Every label from 1 to n is given once. */
  ghost predicate Full(p: seq<nat>)
  {
    && (forall i :: 0 <= i < |p| ==> 1 <= p[i] <= |p|)
    && (forall l :: 1 <= l <= |p| ==> l in p)
  }

  /** Labels 1 to level are given, the other places are 0. */
  ghost predicate Partial(a: seq<nat>, level: nat)
  {
    && level + Zeros(a) == |a|
    && (forall i :: 0 <= i < |a| ==> a[i] <= level)
    && (forall l :: 1 <= l <= level ==> l in a)
  }

  function Zeros(a: seq<nat>): nat
  {
    if a == [] then 0 else (if a[|a| - 1] == 0 then 1 else 0) + Zeros(a[..|a| - 1])
  }

  lemma {:induction false} ZerosSet(a: seq<nat>, k: nat, v: nat)
    requires k < |a| && a[k] == 0 && v > 0
    ensures Zeros(a[k := v]) == Zeros(a) - 1
  {
    var n := |a| - 1;
    if k == n {
      assert a[k := v][..n] == a[..n];
    } else {
      assert a[k := v][..n] == a[..n][k := v];
      ZerosSet(a[..n], k, v);
    }
  }

  lemma {:induction false} NoZeros(a: seq<nat>, i: nat)
    requires i < |a| && Zeros(a) == 0
    ensures a[i] != 0
  {
    if i < |a| - 1 { NoZeros(a[..|a| - 1], i); }
  }

  /** p gives the labels that a gives. */
  predicate Extends(p: seq<nat>, a: seq<nat>)
  {
    |p| == |a| && forall i :: 0 <= i < |a| ==> a[i] != 0 ==> p[i] == a[i]
  }

  lemma PlacedNext(a: seq<nat>, level: nat, k: nat)
    requires Partial(a, level) && k < |a| && a[k] == 0
    ensures Partial(a[k := level + 1], level + 1)
  {
    var b := a[k := level + 1];
    ZerosSet(a, k, level + 1);
    forall l | 1 <= l <= level + 1 ensures l in b {
      if l <= level {
        assert l in a;
        var i :| 0 <= i < |a| && a[i] == l;
        assert b[i] == l;
      } else {
        assert b[k] == l;
      }
    }
  }

  /** With all labels given, the assignment is complete, and it is the only one that extends itself. */
  lemma Completed(a: seq<nat>)
    requires Partial(a, |a|)
    ensures Full(a) && forall p :: Full(p) && Extends(p, a) ==> p == a
  {
    forall i | 0 <= i < |a| ensures a[i] != 0 { NoZeros(a, i); }
  }

  /** The next label has a place in every complete assignment that extends a. */
  lemma NextLabel(a: seq<nat>, level: nat, p: seq<nat>) returns (i: nat)
    requires Partial(a, level) && level < |a| && Full(p) && Extends(p, a)
    ensures i < |a| && a[i] == 0 && Extends(p, a[i := level + 1])
  {
    assert level + 1 in p;
    i :| 0 <= i < |p| && p[i] == level + 1;
  }

  // ----- Scores -----

  type Weights = seq<seq<int>>

  predicate Square(w: Weights, n: nat) { |w| == n && forall i :: 0 <= i < n ==> |w[i]| == n }

  function ScoreOf(w: Weights, p: seq<nat>, n: nat): Score
    requires Square(w, |p|) && n <= |p| && forall i :: 0 <= i < |p| ==> 1 <= p[i] <= |p|
  {
    if n == 0 then Score(0, 0) else
      var s, q := ScoreOf(w, p, n - 1), w[n - 1][p[n - 1] - 1];
      if q > 0 then Score(s.card + 1, s.weight + q) else s
  }

  /** The interfaces whose partner under p can be reached, and what each of them gains. */
  function Picked(w: Weights, p: seq<nat>, n: nat): set<nat>
    requires Square(w, |p|) && n <= |p| && forall i :: 0 <= i < |p| ==> 1 <= p[i] <= |p|
  {
    set i | 0 <= i < n && w[i][p[i] - 1] > 0
  }

  function Gains(w: Weights, p: seq<nat>): seq<nat>
    requires Square(w, |p|) && forall i :: 0 <= i < |p| ==> 1 <= p[i] <= |p|
  {
    seq(|p|, i requires 0 <= i < |p| => if w[i][p[i] - 1] > 0 then w[i][p[i] - 1] else 0)
  }

  function Sum(s: seq<nat>): nat { if s == [] then 0 else s[0] + Sum(s[1..]) }

  lemma {:induction false} SumLast(s: seq<nat>, x: nat)
    ensures Sum(s + [x]) == Sum(s) + x
  {
    if s == [] {
      assert s + [x] == [x] && [x][1..] == [];
    } else {
      assert (s + [x])[0] == s[0] && (s + [x])[1..] == s[1..] + [x];
      SumLast(s[1..], x);
    }
  }

  /** The score counts the pairs of positive weight and adds up their weights. */
  lemma {:induction false} ScoreExact(w: Weights, p: seq<nat>, n: nat)
    requires Square(w, |p|) && n <= |p| && forall i :: 0 <= i < |p| ==> 1 <= p[i] <= |p|
    ensures ScoreOf(w, p, n) == Score(|Picked(w, p, n)|, Sum(Gains(w, p)[..n]))
  {
    if n > 0 {
      ScoreExact(w, p, n - 1);
      PickedNext(w, p, n - 1);
      GainsNext(w, p, n - 1);
    }
  }

  lemma PickedNext(w: Weights, p: seq<nat>, n: nat)
    requires Square(w, |p|) && n < |p| && forall i :: 0 <= i < |p| ==> 1 <= p[i] <= |p|
    ensures |Picked(w, p, n + 1)| == |Picked(w, p, n)| + (if w[n][p[n] - 1] > 0 then 1 else 0)
  {
    var was, now := Picked(w, p, n), Picked(w, p, n + 1);
    assert now == if w[n][p[n] - 1] > 0 then was + {n} else was;
  }

  lemma GainsNext(w: Weights, p: seq<nat>, n: nat)
    requires Square(w, |p|) && n < |p| && forall i :: 0 <= i < |p| ==> 1 <= p[i] <= |p|
    ensures Sum(Gains(w, p)[..n + 1]) == Sum(Gains(w, p)[..n]) + (if w[n][p[n] - 1] > 0 then w[n][p[n] - 1] else 0)
  {
    var g := Gains(w, p);
    assert g[..n + 1] == g[..n] + [g[n]];
    SumLast(g[..n], g[n]);
  }

  class Search {
    const weights: Weights
    var best: seq<nat>
    var max: Score
    /** The assignments evaluated so far. */
    ghost var seen: set<seq<nat>>

    /** The best of all assignments seen, if any. */
    ghost predicate Valid()
      reads this
    {
      && Square(weights, |weights|)
      && (forall p :: p in seen ==> |p| == |weights| && Full(p) && !Beats(ScoreOf(weights, p, |p|), max))
      && (if seen == {} then max == Score(-1, -1)
          else exists p :: p in seen && ScoreOf(weights, p, |p|) == max && Chosen(p))
    }

    /** best_assignment holds p, counted from 0. */
    predicate Chosen(p: seq<nat>)
      reads this
    {
      |best| == |p| && forall i :: 0 <= i < |p| ==> best[i] + 1 == p[i]
    }

    constructor (weights: Weights)
      requires Square(weights, |weights|)
      ensures Valid() && seen == {} && this.weights == weights
    {
      this.weights := weights;
      best, max, seen := [], Score(-1, -1), {};
    }

    /** evaluate_assignment. */
    method Evaluate(a: array<nat>)
      requires Valid() && a.Length == |weights| && Full(a[..])
      modifies this
      ensures Valid() && seen == old(seen) + {a[..]}
    {
      ghost var p := a[..];
      var s := Rate(weights, a);
      if Beats(s, max) {
        best := seq(a.Length, j requires 0 <= j < a.Length && a[j] > 0 reads a => a[j] - 1);
        max := s;
        assert Chosen(p);
      }
      seen := seen + {p};
      assert p in seen;
    }

    /** visit from level on: every complete assignment with the next label at k is evaluated, and a is restored. */
    method Visit(k: nat, level: nat, a: array<nat>)
      requires Valid() && a.Length == |weights| && k < a.Length && Partial(a[..], level) && a[k] == 0
      modifies this, a
      ensures Valid() && a[..] == old(a[..]) && old(seen) <= seen
      ensures forall p :: Full(p) && Extends(p, old(a[..])[k := level + 1]) ==> p in seen
      decreases a.Length - level, 0
    {
      ghost var before: seq<nat> := a[..];
      PlacedNext(before, level, k);
      ghost var b: seq<nat> := before[k := level + 1];
      a[k] := level + 1;
      assert a[..] == b;
      if level + 1 == a.Length {
        Completed(b);
        Evaluate(a);
      } else {
        VisitAll(level + 1, a);
      }
      a[k] := 0;
      assert a[..] == b[k := 0] == before;
    }

    /** The loop of visit: the next label at every free place in turn. */
    method VisitAll(level: nat, a: array<nat>)
      requires Valid() && a.Length == |weights| && Partial(a[..], level) && level < a.Length
      modifies this, a
      ensures Valid() && a[..] == old(a[..]) && old(seen) <= seen
      ensures forall p :: Full(p) && Extends(p, old(a[..])) ==> p in seen
      decreases a.Length - level, 1
    {
      ghost var b: seq<nat> := a[..];
      var i := 0;
      while i < a.Length
        invariant i <= a.Length && Valid() && a[..] == b && old(seen) <= seen
        invariant forall p, j :: 0 <= j < i && b[j] == 0 && Full(p) && Extends(p, b[j := level + 1]) ==> p in seen
      {
        if a[i] == 0 {
          ghost var was := seen;
          Visit(i, level, a);
        }
        i := i + 1;
      }
      forall p | Full(p) && Extends(p, b) ensures p in seen {
        var j := NextLabel(b, level, p);
      }
    }

    /** visit(0, -1, n, a) on a cleared array: all complete assignments are evaluated and the best one is kept. */
    method Run(a: array<nat>)
      requires Valid() && seen == {} && a.Length == |weights| > 0 && forall i :: 0 <= i < a.Length ==> a[i] == 0
      modifies this, a
      ensures Valid() && a[..] == old(a[..])
      ensures forall p :: Full(p) && |p| == |weights| ==> p in seen
    {
      a[0] := 0;
      assert a[..] == old(a[..]);
      Cleared(a[..]);
      VisitAll(0, a);
      a[0] := 0;
      assert a[..] == old(a[..]);
    }
  }

  lemma {:induction false} Cleared(a: seq<nat>)
    requires forall i :: 0 <= i < |a| ==> a[i] == 0
    ensures Partial(a, 0)
  {
    if a != [] { Cleared(a[..|a| - 1]); }
  }

  /** The sum over all interfaces. */
  method Rate(weights: Weights, a: array<nat>) returns (s: Score)
    requires Square(weights, a.Length) && forall i :: 0 <= i < a.Length ==> 1 <= a[i] <= a.Length
    ensures s == ScoreOf(weights, a[..], a.Length) && s.card >= 0 && s.weight >= 0
  {
    ghost var p := a[..];
    s := Score(0, 0);
    var i := 0;
    while i < a.Length
      invariant i <= a.Length && s == ScoreOf(weights, p, i) && s.card >= 0 && s.weight >= 0
    {
      assert a[i] == p[i];
      var q := weights[i][a[i] - 1];
      if q > 0 {
        s := Score(s.card + 1, s.weight + q);
      }
      i := i + 1;
    }
  }

  /** b joins more reachable pairs than p, or as many with at least the same total weight. */
  predicate AtLeast(w: Weights, b: seq<nat>, p: seq<nat>)
    requires Square(w, |b|) && |p| == |b|
    requires forall i :: 0 <= i < |b| ==> 1 <= b[i] <= |b| && 1 <= p[i] <= |b|
  {
    var m, n := |Picked(w, b, |b|)|, |Picked(w, p, |b|)|;
    m > n || (m == n && Sum(Gains(w, b)) >= Sum(Gains(w, p)))
  }

  ghost predicate Best(w: Weights, b: seq<nat>)
    requires Square(w, |b|) && Full(b)
  {
    forall p :: Full(p) && |p| == |b| ==> AtLeast(w, b, p)
  }

  /** The answer is a complete assignment, and no complete assignment is better. */
  lemma Optimal(s: Search)
    requires s.Valid() && |s.weights| > 0 && forall p :: Full(p) && |p| == |s.weights| ==> p in s.seen
    ensures exists b :: Full(b) && |b| == |s.weights| && s.Chosen(b) && Best(s.weights, b)
  {
    var n := |s.weights|;
    var p := seq(n, i => i + 1);
    forall l | 1 <= l <= n ensures l in p { assert p[l - 1] == l; }
    assert Full(p) && p in s.seen;
    var b :| b in s.seen && ScoreOf(s.weights, b, n) == s.max && s.Chosen(b);
    forall q | Full(q) && |q| == n ensures AtLeast(s.weights, b, q) {
      ScoreExact(s.weights, b, n);
      ScoreExact(s.weights, q, n);
      assert Gains(s.weights, b)[..n] == Gains(s.weights, b) && Gains(s.weights, q)[..n] == Gains(s.weights, q);
    }
  }
}
