/**
 * The slots of a linear-probing table as a ring: distances along it, what makes a key findable, and how removing
 * an element repairs the cluster behind it.
 */
module HashSlots {

  datatype Slot<K, V> = Free | Used(key: K, value: V)

  // ----- The ring -----

  /** How many steps forward from a to b, wrapping around. */
  function Dist(a: nat, b: nat, cap: nat): nat requires a < cap && b < cap
  {
    if b >= a then b - a else b - a + cap
  }

  function Step(i: nat, cap: nat): nat requires i < cap { if i + 1 == cap then 0 else i + 1 }

  function Home<K>(hash: K -> nat, k: K, cap: nat): (i: nat)
    requires cap > 0
    ensures i < cap
  {
    hash(k) % cap
  }

  /** From j forward to q the ring passes p, whatever point a distances are taken from. */
  lemma Between(a: nat, r: nat, j: nat, p: nat, q: nat, cap: nat)
    requires a < cap && r < cap && j < cap && p < cap && q < cap
    requires Dist(a, j, cap) < Dist(a, q, cap) && Dist(r, j, cap) < Dist(r, p, cap) < Dist(r, q, cap)
    ensures Dist(a, p, cap) < Dist(a, q, cap)
  {}

  /** From p forward to q, where q is nearer to r than p, the ring passes everything further from r than p. */
  lemma Around(a: nat, r: nat, p: nat, e: nat, q: nat, cap: nat)
    requires a < cap && r < cap && p < cap && e < cap && q < cap
    requires Dist(a, p, cap) < Dist(a, q, cap) && Dist(r, q, cap) < Dist(r, p, cap) < Dist(r, e, cap)
    ensures Dist(a, e, cap) < Dist(a, q, cap)
  {}

  lemma DistStep(a: nat, i: nat, cap: nat)
    requires a < cap && i < cap && Dist(a, i, cap) + 1 < cap
    ensures Dist(a, Step(i, cap), cap) == Dist(a, i, cap) + 1
  {}

  lemma DistSame(a: nat, i: nat, j: nat, cap: nat)
    requires a < cap && i < cap && j < cap && Dist(a, i, cap) == Dist(a, j, cap)
    ensures i == j
  {}

  // ----- Findable keys -----

  /** A free slot j lies on the way from the home of the key in slot q to q. */
  ghost predicate Gap<K, V>(t: seq<Slot<K, V>>, hash: K -> nat, q: nat, j: nat)
  {
    && q < |t| && j < |t| && t[q].Used? && t[j].Free?
    && var a := Home(hash, t[q].key, |t|); Dist(a, j, |t|) < Dist(a, q, |t|)
  }

  ghost predicate NoGaps<K, V>(t: seq<Slot<K, V>>, hash: K -> nat)
  {
    forall q, j :: 0 <= q < |t| && 0 <= j < |t| ==> !Gap(t, hash, q, j)
  }

  /** The used slots hold exactly the entries of m, each once. */
  ghost predicate Holds<K, V>(t: seq<Slot<K, V>>, m: map<K, V>)
  {
    && (forall i :: 0 <= i < |t| && t[i].Used? ==> t[i].key in m && m[t[i].key] == t[i].value)
    && (forall k :: k in m ==> exists i :: 0 <= i < |t| && t[i] == Used(k, m[k]))
    && (forall i, j :: 0 <= i < j < |t| && t[i].Used? && t[j].Used? ==> t[i].key != t[j].key)
  }

  lemma {:induction false} Pigeons<K, V>(t: seq<Slot<K, V>>, keys: set<K>)
    requires forall i :: 0 <= i < |t| ==> t[i].Used? && t[i].key in keys
    requires forall i, j :: 0 <= i < j < |t| ==> t[i].key != t[j].key
    ensures |t| <= |keys|
  {
    if t != [] {
      var n := |t| - 1;
      Pigeons(t[..n], keys - {t[n].key});
    }
  }

  /** Fewer entries than slots: one is free, so every probe ends. */
  lemma FreeSlot<K, V>(t: seq<Slot<K, V>>, m: map<K, V>) returns (e: nat)
    requires Holds(t, m) && |m| < |t|
    ensures e < |t| && t[e].Free?
  {
    if forall i :: 0 <= i < |t| ==> t[i].Used? {
      Pigeons(t, m.Keys);
    }
    e :| e < |t| && t[e].Free?;
  }

  // ----- Probing -----

  /** Slots from home a up to i, not including i, are used by other keys. */
  ghost predicate Passed<K, V>(t: seq<Slot<K, V>>, a: nat, i: nat, k: K)
  {
    && a < |t| && i < |t|
    && forall j :: 0 <= j < |t| && Dist(a, j, |t|) < Dist(a, i, |t|) ==> t[j].Used? && t[j].key != k
  }

  lemma PassedStep<K, V>(t: seq<Slot<K, V>>, a: nat, i: nat, k: K)
    requires Passed(t, a, i, k) && t[i].Used? && t[i].key != k && Dist(a, i, |t|) + 1 < |t|
    ensures Passed(t, a, Step(i, |t|), k)
  {
    DistStep(a, i, |t|);
    forall j | 0 <= j < |t| && Dist(a, j, |t|) < Dist(a, Step(i, |t|), |t|) ensures t[j].Used? && t[j].key != k {
      if Dist(a, j, |t|) == Dist(a, i, |t|) { DistSame(a, i, j, |t|); }
    }
  }

  /** A probe that ends at a free slot has shown that the key is absent. */
  lemma NotFound<K, V>(t: seq<Slot<K, V>>, hash: K -> nat, m: map<K, V>, k: K, i: nat)
    requires |t| > 0 && NoGaps(t, hash) && Holds(t, m) && Passed(t, Home(hash, k, |t|), i, k) && t[i].Free?
    ensures k !in m
  {
    if k in m {
      var q :| 0 <= q < |t| && t[q] == Used(k, m[k]);
      assert !Gap(t, hash, q, i);
      DistSame(Home(hash, k, |t|), q, i, |t|);
    }
  }

  // ----- Setting -----

  lemma Fill<K, V>(t: seq<Slot<K, V>>, hash: K -> nat, m: map<K, V>, k: K, v: V, i: nat)
    requires |t| > 0 && NoGaps(t, hash) && Holds(t, m) && Passed(t, Home(hash, k, |t|), i, k) && t[i].Free? && k !in m
    ensures NoGaps(t[i := Used(k, v)], hash) && Holds(t[i := Used(k, v)], m[k := v])
  {
    var t', m' := t[i := Used(k, v)], m[k := v];
    forall q, j | 0 <= q < |t| && 0 <= j < |t| ensures !Gap(t', hash, q, j) {
      assert !Gap(t, hash, q, j);
    }
    forall k' | k' in m' ensures exists p :: 0 <= p < |t'| && t'[p] == Used(k', m'[k']) {
      if k' == k {
        assert t'[i] == Used(k, v);
      } else {
        var p :| 0 <= p < |t| && t[p] == Used(k', m[k']);
        assert t'[p] == Used(k', m[k']);
      }
    }
  }

  lemma Replace<K, V>(t: seq<Slot<K, V>>, hash: K -> nat, m: map<K, V>, k: K, v: V, i: nat)
    requires NoGaps(t, hash) && Holds(t, m) && i < |t| && t[i].Used? && t[i].key == k
    ensures NoGaps(t[i := Used(k, v)], hash) && Holds(t[i := Used(k, v)], m[k := v])
  {
    var t', m' := t[i := Used(k, v)], m[k := v];
    forall q, j | 0 <= q < |t| && 0 <= j < |t| ensures !Gap(t', hash, q, j) {
      assert !Gap(t, hash, q, j);
    }
    forall k' | k' in m' ensures exists p :: 0 <= p < |t'| && t'[p] == Used(k', m'[k']) {
      if k' == k {
        assert t'[i] == Used(k, v);
      } else {
        var p :| 0 <= p < |t| && t[p] == Used(k', m[k']);
        assert t'[p] == Used(k', m[k']);
      }
    }
  }

  // ----- Removing -----

  /**
   * The repair has scanned n slots from the removed one, r: a free slot on some key's way is one of those, and the
   * key is still to be scanned.
   */
  ghost predicate Repairing<K, V>(t: seq<Slot<K, V>>, hash: K -> nat, r: nat, n: nat)
  {
    && r < |t|
    && forall q, j :: 0 <= q < |t| && 0 <= j < |t| && Gap(t, hash, q, j) ==> Dist(r, j, |t|) < n <= Dist(r, q, |t|)
  }

  lemma Opened<K, V>(t: seq<Slot<K, V>>, hash: K -> nat, r: nat)
    requires NoGaps(t, hash) && r < |t| && t[r].Used?
    ensures Repairing(t[r := Free], hash, r, 1)
  {
    var t' := t[r := Free];
    forall q, j | 0 <= q < |t| && 0 <= j < |t| && Gap(t', hash, q, j) ensures Dist(r, j, |t|) < 1 <= Dist(r, q, |t|) {
      assert !Gap(t, hash, q, j);
      assert j == r && q != r;
    }
  }

  lemma Dropped<K, V>(t: seq<Slot<K, V>>, m: map<K, V>, r: nat)
    requires Holds(t, m) && r < |t| && t[r].Used?
    ensures Holds(t[r := Free], m - {t[r].key}) && t[r].key in m && |m - {t[r].key}| == |m| - 1
  {
    var k, t' := t[r].key, t[r := Free];
    var m' := m - {k};
    forall k' | k' in m' ensures exists p :: 0 <= p < |t'| && t'[p] == Used(k', m'[k']) {
      var p :| 0 <= p < |t| && t[p] == Used(k', m[k']);
      assert t'[p] == Used(k', m'[k']);
    }
    assert m'.Keys == m.Keys - {k};
  }

  /** The element scanned is where it should be. */
  lemma InPlace<K, V>(t: seq<Slot<K, V>>, hash: K -> nat, r: nat, i: nat)
    requires i < |t| && r < |t| && Repairing(t, hash, r, Dist(r, i, |t|)) && t[i].Used?
    requires forall j :: 0 <= j < |t| ==> !Gap(t, hash, i, j)
    ensures Repairing(t, hash, r, Dist(r, i, |t|) + 1)
  {
    var n := Dist(r, i, |t|);
    forall q, j | 0 <= q < |t| && 0 <= j < |t| && Gap(t, hash, q, j)
      ensures Dist(r, j, |t|) < n + 1 <= Dist(r, q, |t|) {
      if Dist(r, q, |t|) == n { DistSame(r, q, i, |t|); }
    }
  }

  /** The element scanned moves down to the first free slot on its way. */
  lemma MovedDown<K, V>(t: seq<Slot<K, V>>, hash: K -> nat, r: nat, i: nat, p: nat, e: nat)
    requires i < |t| && p < |t| && e < |t| && r < |t| && Repairing(t, hash, r, Dist(r, i, |t|)) && Gap(t, hash, i, p)
    requires t[e].Free? && Dist(r, i, |t|) < Dist(r, e, |t|)
    requires var a := Home(hash, t[i].key, |t|);
             forall j :: 0 <= j < |t| && Dist(a, j, |t|) < Dist(a, p, |t|) ==> t[j].Used?
    ensures Repairing(t[p := t[i]][i := Free], hash, r, Dist(r, i, |t|) + 1)
  {
    var cap, n, t' := |t|, Dist(r, i, |t|), t[p := t[i]][i := Free];
    forall q, j | 0 <= q < |t'| && 0 <= j < |t'| && Gap(t', hash, q, j)
      ensures Dist(r, j, cap) < n + 1 <= Dist(r, q, cap) {
      if q != p {
        assert q != i && t'[q] == t[q];
        if j != i {
          assert Gap(t, hash, q, j);
        } else if Dist(r, q, cap) < n {
          Around(Home(hash, t[q].key, cap), r, i, e, q, cap);
          assert Gap(t, hash, q, e);
        }
        if Dist(r, q, cap) == n { DistSame(r, q, i, cap); }
      }
    }
  }

  lemma MovedHolds<K, V>(t: seq<Slot<K, V>>, m: map<K, V>, i: nat, p: nat)
    requires Holds(t, m) && i < |t| && p < |t| && t[i].Used? && t[p].Free?
    ensures Holds(t[p := t[i]][i := Free], m)
  {
    var t' := t[p := t[i]][i := Free];
    forall k | k in m ensures exists s :: 0 <= s < |t'| && t'[s] == Used(k, m[k]) {
      var s :| 0 <= s < |t| && t[s] == Used(k, m[k]);
      if s == i { assert t'[p] == Used(k, m[k]); } else { assert t'[s] == Used(k, m[k]); }
    }
  }

  /** The scan has reached a free slot: the whole table is findable again. */
  lemma Repaired<K, V>(t: seq<Slot<K, V>>, hash: K -> nat, r: nat, i: nat)
    requires i < |t| && r < |t| && Repairing(t, hash, r, Dist(r, i, |t|)) && t[i].Free?
    ensures NoGaps(t, hash)
  {
    forall q, j | 0 <= q < |t| && 0 <= j < |t| ensures !Gap(t, hash, q, j) {
      if Gap(t, hash, q, j) {
        if Dist(r, q, |t|) == Dist(r, i, |t|) { DistSame(r, q, i, |t|); }
        Between(Home(hash, t[q].key, |t|), r, j, i, q, |t|);
        assert Gap(t, hash, q, i);
      }
    }
  }
}
