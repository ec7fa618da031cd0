/** opal_hash_table.c: the linear-probing table itself, over any key type with a hash. */
module HashTable {
  import opened Wrappers
  import opened HashSlots

  /** opal_hash_round_capacity_up: the next number that is 1 modulo 30. */
  function RoundUp(capacity: nat): (r: nat)
    ensures capacity < r <= capacity + 30 && r % 30 == 1
  {
    (capacity + 29) / 30 * 30 + 1
  }

  lemma ScaledDown(cap: nat, numer: nat, denom: nat)
    requires 0 < cap && numer < denom
    ensures cap * numer / denom < cap
  {
    assert cap * numer < cap * denom;
    Divided(cap * numer, cap, denom);
  }

  lemma ScaledUp(cap: nat, numer: nat, denom: nat)
    requires 0 < denom <= numer
    ensures cap * numer / denom >= cap
  {
    assert cap * numer >= cap * denom;
    Divided(cap * numer, cap, denom);
  }

  lemma Divided(x: nat, cap: nat, denom: nat)
    requires denom > 0
    ensures x < cap * denom ==> x / denom < cap
    ensures x >= cap * denom ==> x / denom >= cap
  {
    var q := x / denom;
    assert x == denom * q + x % denom;
    if q >= cap { assert denom * q >= denom * cap; } else { assert denom * (q + 1) <= denom * cap; }
  }

  /** A capacity in proportion to the base. */
  function Scaled(base: nat, numer: nat, denom: nat): nat
    requires denom > 0
  {
    RoundUp(base * numer / denom)
  }

  /** How many entries a table of this capacity takes before it grows. */
  function TriggerOf(capacity: nat, densityNumer: nat, densityDenom: nat): nat
    requires densityDenom > 0
  {
    capacity * densityNumer / densityDenom
  }

  /** The capacity for a base scaled up, which is the estimate or the old capacity, and its growth trigger. */
  method Capacity(base: nat, numer: nat, denom: nat, densityNumer: nat, densityDenom: nat)
    returns (capacity: nat, trigger: nat)
    requires 0 < denom <= numer && 0 < densityNumer < densityDenom
    ensures capacity == Scaled(base, numer, denom) > base
    ensures trigger == TriggerOf(capacity, densityNumer, densityDenom) < capacity
  {
    ScaledUp(base, numer, denom);
    capacity := Scaled(base, numer, denom);
    ScaledDown(capacity, densityNumer, densityDenom);
    trigger := TriggerOf(capacity, densityNumer, densityDenom);
  }

  /** opal_hash_table_get_next_elt: the first used slot from start on, or the capacity. */
  method NextUsed<K, V>(slots: seq<Slot<K, V>>, start: nat) returns (i: nat)
    requires start <= |slots|
    ensures start <= i <= |slots| && (i < |slots| ==> slots[i].Used?)
    ensures forall j :: start <= j < i ==> slots[j].Free?
  {
    i := start;
    while i < |slots| && slots[i].Free?
      invariant start <= i <= |slots| && forall j :: start <= j < i ==> slots[j].Free?
    {
      i := i + 1;
    }
  }

  class HashTable<K(==, !new), V> {
    const hash: K -> nat
    const densityNumer: nat
    const densityDenom: nat
    const growthNumer: nat
    const growthDenom: nat
    var table: array<Slot<K, V>>
    var size: nat
    var trigger: nat
    /** The finite map the table stands for. */
    ghost var m: map<K, V>

    /** Every key can be found from its home slot, the slots hold exactly the map, and a slot is free. */
    ghost predicate Valid()
      reads this, table
    {
      && 0 < densityNumer < densityDenom && 0 < growthDenom <= growthNumer
      && NoGaps(table[..], hash) && Holds(table[..], m) && size == |m| < table.Length
      && trigger == TriggerOf(table.Length, densityNumer, densityDenom) < table.Length
    }

    /** opal_hash_table_init2. */
    constructor (hash: K -> nat, estimate: nat, densityNumer: nat, densityDenom: nat, growthNumer: nat,
                 growthDenom: nat)
      requires 0 < densityNumer < densityDenom && 0 < growthDenom <= growthNumer
      ensures Valid() && m == map[] && fresh(table) && this.hash == hash
              && table.Length == Scaled(estimate, densityDenom, densityNumer)
      ensures trigger == TriggerOf(table.Length, densityNumer, densityDenom)
    {
      this.hash := hash;
      this.densityNumer, this.densityDenom := densityNumer, densityDenom;
      this.growthNumer, this.growthDenom := growthNumer, growthDenom;
      var capacity, atMost := Capacity(estimate, densityDenom, densityNumer, densityNumer, densityDenom);
      table := new Slot<K, V>[capacity](_ => Free);
      size := 0;
      trigger := atMost;
      m := map[];
    }

    /** A table with the given slots. */
    constructor From(hash: K -> nat, slots: seq<Slot<K, V>>, size: nat, trigger: nat, ghost m: map<K, V>)
      requires NoGaps(slots, hash) && Holds(slots, m) && size == |m| < |slots| && trigger == |slots| / 2
      ensures Valid() && fresh(table) && this.hash == hash && this.m == m
      ensures table[..] == slots && this.size == size && this.trigger == trigger
      ensures densityNumer == 1 && densityDenom == 2
    {
      this.hash := hash;
      densityNumer, densityDenom, growthNumer, growthDenom := 1, 2, 2, 1;
      table := new Slot<K, V>[|slots|](i requires 0 <= i < |slots| => slots[i]);
      this.size, this.trigger, this.m := size, trigger, m;
      new;
      assert table[..] == slots;
    }

    /** The loop of every lookup: the slot of the key, or the free slot where the search ends. */
    method Probe(key: K) returns (i: nat, found: bool)
      requires Valid()
      ensures i < table.Length && found == (key in m)
      ensures found ==> table[i] == Used(key, m[key])
      ensures !found ==> table[i].Free? && Passed(table[..], Home(hash, key, table.Length), i, key)
    {
      ghost var t, a := table[..], Home(hash, key, table.Length);
      ghost var e := FreeSlot(t, m);
      i := Home(hash, key, table.Length);
      while true
        invariant Passed(t, a, i, key) && Dist(a, i, |t|) <= Dist(a, e, |t|)
        decreases Dist(a, e, |t|) - Dist(a, i, |t|)
      {
        if table[i].Free? {
          NotFound(t, hash, m, key, i);
          return i, false;
        } else if table[i].key == key {
          return i, true;
        }
        if Dist(a, i, |t|) == Dist(a, e, |t|) { DistSame(a, i, e, |t|); }
        DistStep(a, i, |t|);
        PassedStep(t, a, i, key);
        i := Step(i, table.Length);
      }
    }

    /** opal_hash_table_get_value_*. */
    method Get(key: K) returns (r: Option<V>)
      requires Valid()
      ensures r == if key in m then Some(m[key]) else None
    {
      var i, found := Probe(key);
      r := if found then Some(table[i].value) else None;
    }

    /** opal_hash_grow: every entry is found again in a larger table. */
    method Grow()
      requires 0 < densityNumer < densityDenom && 0 < growthDenom <= growthNumer
      requires Holds(table[..], m) && size == |m| <= table.Length && table.Length > 0
      modifies this`table, this`trigger
      ensures Valid() && fresh(table) && table.Length > old(table.Length)
      ensures table.Length == Scaled(old(table.Length), growthNumer, growthDenom)
    {
      var capacity, atMost := Capacity(table.Length, growthNumer, growthDenom, densityNumer, densityDenom);
      var larger := new Slot<K, V>[capacity](_ => Free);
      Rehash(table, larger, hash, m);
      table := larger;
      trigger := atMost;
    }

    /**
     * opal_hash_table_set_value_*; granted says whether memory for a larger table is given when it is needed.  The
     * entry is stored in either case.  Without memory the last free slot may be used up, and then, and only then,
     * the table is no longer one that searches end in.
     */
    method Set(key: K, value: V, granted: bool) returns (ok: bool)
      requires Valid()
      modifies this, table
      ensures m == old(m)[key := value] && NoGaps(table[..], hash) && Holds(table[..], m) && size == |m| <= table.Length
      ensures if granted && key !in old(m) && old(size) + 1 >= old(trigger)
              then fresh(table) && table.Length == Scaled(old(table.Length), growthNumer, growthDenom)
              else table == old(table)
      ensures Valid() <==> granted || key in old(m) || old(size) + 1 < old(table.Length)
      ensures ok <==> granted || key in old(m) || old(size) + 1 < old(trigger)
    {
      var i, found := Probe(key);
      ghost var t := table[..];
      if found {
        Replace(t, hash, m, key, value, i);
      } else {
        Fill(t, hash, m, key, value, i);
        size := size + 1;
      }
      table[i] := Used(key, value);
      assert table[..] == t[i := Used(key, value)];
      m := m[key := value];
      ok := true;
      if !found && size >= trigger {
        if granted {
          Grow();
        } else {
          ok := false;
        }
      }
    }

    /** opal_hash_table_remove_elt_at. */
    method RemoveAt(i: nat)
      requires Valid() && i < table.Length && table[i].Used?
      modifies this`size, this`m, table
      ensures Valid() && m == old(m) - {old(table[i].key)}
    {
      Dropped(table[..], m, i);
      ghost var t, m' := table[..], m - {table[i].key};
      ghost var e := FreeSlot(t, m);
      Opened(t, hash, i);
      table[i] := Free;
      assert table[..] == t[i := Free];
      Repair(table, hash, i, m', e);
      m := m';
      size := size - 1;
    }

    /** opal_hash_table_remove_value_*. */
    method Remove(key: K) returns (ok: bool)
      requires Valid()
      modifies this`size, this`m, table
      ensures Valid() && ok == (key in old(m)) && m == old(m) - {key}
    {
      var i;
      i, ok := Probe(key);
      if ok {
        RemoveAt(i);
      } else {
        assert m == m - {key};
      }
    }

    /** opal_hash_table_remove_all. */
    method RemoveAll()
      requires Valid()
      modifies this`size, this`m, table
      ensures Valid() && m == map[]
    {
      var i := 0;
      while i < table.Length
        invariant i <= table.Length && forall j :: 0 <= j < i ==> table[j].Free?
      {
        table[i] := Free;
        i := i + 1;
      }
      size := 0;
      m := map[];
    }
  }

  /** A table for no elements has one slot; one entry that is stored without memory to grow leaves none free. */
  method FullAtOnce<K(==, !new), V>(hash: K -> nat, key: K, value: V) returns (t: HashTable<K, V>, ok: bool)
    ensures !ok && t.m == map[key := value] && t.table.Length == 1 && t.table[0] == Used(key, value) && !t.Valid()
  {
    t := new HashTable<K, V>(hash, 0, 1, 2, 2, 1);
    ok := t.Set(key, value, false);
    assert |map[key := value]| == 1;
    assert key in t.m;
  }

  /** One entry goes to the first free slot from its home on. */
  method PutNew<K(==, !new), V>(table: array<Slot<K, V>>, hash: K -> nat, key: K, value: V, ghost m: map<K, V>)
    requires table.Length > 0 && NoGaps(table[..], hash) && Holds(table[..], m) && |m| < table.Length && key !in m
    modifies table
    ensures NoGaps(table[..], hash) && Holds(table[..], m[key := value])
  {
    var i := FindFree(table, hash, key, m);
    Fill(table[..], hash, m, key, value, i);
    ghost var was := table[..];
    table[i] := Used(key, value);
    assert table[..] == was[i := Used(key, value)];
  }

  /** The copying loop of opal_hash_grow. */
  method Rehash<K(==, !new), V>(table: array<Slot<K, V>>, larger: array<Slot<K, V>>, hash: K -> nat, ghost m: map<K, V>)
    requires Holds(table[..], m) && |m| < larger.Length && table != larger
    requires forall i :: 0 <= i < larger.Length ==> larger[i].Free?
    modifies larger
    ensures NoGaps(larger[..], hash) && Holds(larger[..], m)
  {
    ghost var done: map<K, V>, t := map[], table[..];
    var j := 0;
    while j < table.Length
      invariant j <= table.Length && NoGaps(larger[..], hash) && Holds(larger[..], done) && table[..] == t
      invariant CopiedUpTo(t, j, done, m)
    {
      if table[j].Used? {
        assert t[j] == table[j];
        CopiedFits(t, j, done, m);
        PutNew(larger, hash, table[j].key, table[j].value, done);
        CopiedNext(t, j, done, m);
        done := done[t[j].key := t[j].value];
      }
      j := j + 1;
    }
    CopiedAll(t, done, m);
  }

  lemma CopiedNext<K, V>(t: seq<Slot<K, V>>, j: nat, done: map<K, V>, m: map<K, V>)
    requires Holds(t, m) && CopiedUpTo(t, j, done, m) && j < |t| && t[j].Used?
    ensures CopiedUpTo(t, j + 1, done[t[j].key := t[j].value], m)
  {}

  /** The entries of the first j old slots, and no others, have been copied. */
  ghost predicate CopiedUpTo<K, V>(t: seq<Slot<K, V>>, j: nat, done: map<K, V>, m: map<K, V>)
  {
    && j <= |t|
    && (forall i :: 0 <= i < j && t[i].Used? ==> t[i].key in done)
    && (forall k :: k in done ==> k in m && done[k] == m[k])
    && (forall i :: j <= i < |t| && t[i].Used? ==> t[i].key !in done)
  }

  lemma CopiedFits<K, V>(t: seq<Slot<K, V>>, j: nat, done: map<K, V>, m: map<K, V>)
    requires Holds(t, m) && CopiedUpTo(t, j, done, m) && j < |t| && t[j].Used?
    ensures t[j].key !in done && |done| <= |m|
  {
    Smaller(done.Keys, m.Keys);
  }

  lemma Smaller<K>(a: set<K>, b: set<K>)
    requires a <= b
    ensures |a| <= |b|
  {
    assert b == a + (b - a);
  }

  lemma CopiedAll<K, V>(t: seq<Slot<K, V>>, done: map<K, V>, m: map<K, V>)
    requires Holds(t, m) && CopiedUpTo(t, |t|, done, m)
    ensures done == m
  {
    forall k | k in m ensures k in done {
      var i :| 0 <= i < |t| && t[i] == Used(k, m[k]);
      assert t[i].key in done;
    }
  }

  /** The first free slot from the key's home on. */
  method FindFree<K(==, !new), V>(table: array<Slot<K, V>>, hash: K -> nat, key: K, ghost m: map<K, V>) returns (i: nat)
    requires table.Length > 0 && Holds(table[..], m) && |m| < table.Length && key !in m
    ensures i < table.Length && table[i].Free? && Passed(table[..], Home(hash, key, table.Length), i, key)
  {
    ghost var t, a := table[..], Home(hash, key, table.Length);
    ghost var e := FreeSlot(t, m);
    i := Home(hash, key, table.Length);
    while table[i].Used?
      invariant Passed(t, a, i, key) && Dist(a, i, |t|) <= Dist(a, e, |t|)
      decreases Dist(a, e, |t|) - Dist(a, i, |t|)
    {
      if Dist(a, i, |t|) == Dist(a, e, |t|) { DistSame(a, i, e, |t|); }
      DistStep(a, i, |t|);
      PassedStep(t, a, i, key);
      i := Step(i, table.Length);
    }
  }

  /** Where the element in slot i belongs: i, if its way there is all used, or the first free slot on the way. */
  method FindPlace<K(==, !new), V>(table: array<Slot<K, V>>, hash: K -> nat, i: nat) returns (p: nat)
    requires i < table.Length && table[i].Used?
    ensures p < table.Length
    ensures var a := Home(hash, table[i].key, table.Length);
            && Dist(a, p, table.Length) <= Dist(a, i, table.Length)
            && forall j :: 0 <= j < table.Length && Dist(a, j, table.Length) < Dist(a, p, table.Length) ==>
               table[j].Used?
    ensures p != i ==> table[p].Free?
  {
    ghost var cap := table.Length;
    ghost var a := Home(hash, table[i].key, cap);
    p := Home(hash, table[i].key, table.Length);
    while p != i && table[p].Used?
      invariant p < cap && Dist(a, p, cap) <= Dist(a, i, cap)
      invariant forall j :: 0 <= j < cap && Dist(a, j, cap) < Dist(a, p, cap) ==> table[j].Used?
      decreases Dist(a, i, cap) - Dist(a, p, cap)
    {
      if Dist(a, p, cap) == Dist(a, i, cap) { DistSame(a, p, i, cap); }
      DistStep(a, p, cap);
      forall j | 0 <= j < cap && Dist(a, j, cap) < Dist(a, Step(p, cap), cap) ensures table[j].Used? {
        if Dist(a, j, cap) == Dist(a, p, cap) { DistSame(a, j, p, cap); }
      }
      p := Step(p, table.Length);
    }
  }

  /** The elements behind the removed slot r are put where they belong, up to the next free slot. */
  method Repair<K(==, !new), V>(table: array<Slot<K, V>>, hash: K -> nat, r: nat, ghost m: map<K, V>, ghost e: nat)
    requires r < table.Length && e < table.Length && r != e && table[e].Free?
    requires Repairing(table[..], hash, r, 1) && Holds(table[..], m)
    modifies table
    ensures NoGaps(table[..], hash) && Holds(table[..], m)
  {
    var i: nat := Step(r, table.Length);
    while table[i].Used?
      invariant i < table.Length && Repairing(table[..], hash, r, Dist(r, i, table.Length)) && Holds(table[..], m)
      invariant table[e].Free? && Dist(r, i, table.Length) <= Dist(r, e, table.Length)
      decreases Dist(r, e, table.Length) - Dist(r, i, table.Length)
    {
      if Dist(r, i, table.Length) == Dist(r, e, table.Length) { DistSame(r, i, e, table.Length); }
      DistStep(r, i, table.Length);
      RepairOne(table, hash, r, i, m, e);
      i := Step(i, table.Length);
    }
    Repaired(table[..], hash, r, i);
  }

  method RepairOne<K(==, !new), V>(table: array<Slot<K, V>>, hash: K -> nat, r: nat, i: nat, ghost m: map<K, V>,
                                   ghost e: nat)
    requires r < table.Length && i < table.Length && e < table.Length && table[i].Used? && table[e].Free?
    requires Repairing(table[..], hash, r, Dist(r, i, table.Length)) && Holds(table[..], m)
             && Dist(r, i, table.Length) < Dist(r, e, table.Length)
    modifies table
    ensures Repairing(table[..], hash, r, Dist(r, i, table.Length) + 1) && Holds(table[..], m) && table[e].Free?
  {
    var p := FindPlace(table, hash, i);
    ghost var t := table[..];
    if p == i {
      InPlace(t, hash, r, i);
    } else {
      DistApart(Home(hash, t[i].key, |t|), p, i, |t|);
      MovedDown(t, hash, r, i, p, e);
      MovedHolds(t, m, i, p);
      assert p != e by { assert Gap(t, hash, i, p); }
      table[p] := table[i];
      table[i] := Free;
      assert table[..] == t[p := t[i]][i := Free];
    }
  }

  lemma DistApart(a: nat, i: nat, j: nat, cap: nat)
    requires a < cap && i < cap && j < cap && i != j
    ensures Dist(a, i, cap) != Dist(a, j, cap)
  {}
}
