/** opal_proc_table_*: a hash table of hash tables, keyed by process name.  The inner tables are held by value. */
module ProcTable {
  import opened Wrappers
  import opened HashSlots
  import opened HashTable

  datatype Name = Name(jobid: nat, vpid: nat)

  /** The contents of an opal_hash_table_t with 32-bit keys, which hash to themselves. */
  datatype Table<V> = Table(slots: seq<Slot<nat, V>>, size: nat, trigger: nat)

  function Same(k: nat): nat { k }

  /** The table is sound and stands for the map m. */
  ghost predicate Sound<V>(t: Table<V>, m: map<nat, V>)
  {
    NoGaps(t.slots, Same) && Holds(t.slots, m) && t.size == |m| < |t.slots| && t.trigger == |t.slots| / 2
  }

  /** ... except that no slot need be free. */
  ghost predicate Nearly<V>(t: Table<V>, m: map<nat, V>)
  {
    NoGaps(t.slots, Same) && Holds(t.slots, m) && t.size == |m| <= |t.slots|
  }

  // ----- One level, through the table object -----

  /** The capacity of a new table with the default density, and its growth trigger. */
  function NewCapacity(estimate: nat): nat { RoundUp(estimate * 2 / 1) }

  method Make<V>(estimate: nat) returns (t: Table<V>)
    ensures Sound(t, map[]) && |t.slots| == NewCapacity(estimate) && t.trigger == NewCapacity(estimate) / 2
  {
    var h := new HashTable<nat, V>(Same, estimate, 1, 2, 2, 1);
    t := Table(h.table[..], h.size, h.trigger);
  }

  method Find<V>(t: Table<V>, key: nat, ghost m: map<nat, V>) returns (r: Option<V>)
    requires Sound(t, m)
    ensures r == if key in m then Some(m[key]) else None
  {
    var h := new HashTable<nat, V>.From(Same, t.slots, t.size, t.trigger, m);
    r := h.Get(key);
  }

  method Store<V>(t: Table<V>, key: nat, value: V, granted: bool, ghost m: map<nat, V>) returns (t': Table<V>, ok: bool)
    requires Sound(t, m)
    ensures Nearly(t', m[key := value])
    ensures Sound(t', m[key := value]) <==> granted || key in m || t.size + 1 < |t.slots|
    ensures ok <==> granted || key in m || t.size + 1 < t.trigger
  {
    var h := new HashTable<nat, V>.From(Same, t.slots, t.size, t.trigger, m);
    ok := h.Set(key, value, granted);
    t' := Table(h.table[..], h.size, h.trigger);
  }

  method Drop<V>(t: Table<V>, key: nat, ghost m: map<nat, V>) returns (t': Table<V>, ok: bool)
    requires Sound(t, m)
    ensures Sound(t', m - {key}) && ok == (key in m)
  {
    var h := new HashTable<nat, V>.From(Same, t.slots, t.size, t.trigger, m);
    ok := h.Remove(key);
    t' := Table(h.table[..], h.size, h.trigger);
  }

  // ----- Two levels -----

  /** Inner tables are sound and never empty. */
  ghost predicate InnerOk<V>(index: map<nat, Table<V>>, view: map<nat, map<nat, V>>, j: nat)
  {
    (j in index <==> j in view) && (j in index ==> Sound(index[j], view[j]) && view[j] != map[])
  }

  ghost predicate Inner<V>(index: map<nat, Table<V>>, view: map<nat, map<nat, V>>)
  {
    forall j :: InnerOk(index, view, j)
  }

  ghost predicate Nested<V>(jobs: Table<Table<V>>, index: map<nat, Table<V>>, view: map<nat, map<nat, V>>)
  {
    Sound(jobs, index) && Inner(index, view)
  }

  /** The map on names that two levels of maps stand for. */
  function Lookup<V>(view: map<nat, map<nat, V>>, n: Name): Option<V>
  {
    if n.jobid in view && n.vpid in view[n.jobid] then Some(view[n.jobid][n.vpid]) else None
  }

  lemma InnerPut<V>(index: map<nat, Table<V>>, view: map<nat, map<nat, V>>, j: nat, inner: Table<V>, held: map<nat, V>)
    requires Inner(index, view) && Sound(inner, held) && held != map[]
    ensures Inner(index[j := inner], view[j := held])
  {
    var index', view' := index[j := inner], view[j := held];
    forall x ensures InnerOk(index', view', x) {
      assert InnerOk(index, view, x);
    }
  }

  lemma InnerDrop<V>(index: map<nat, Table<V>>, view: map<nat, map<nat, V>>, j: nat)
    requires Inner(index, view)
    ensures Inner(index - {j}, view - {j})
  {
    var index', view' := index - {j}, view - {j};
    forall x ensures InnerOk(index', view', x) {
      assert InnerOk(index, view, x);
    }
  }

  lemma LookupPut<V>(view: map<nat, map<nat, V>>, n: Name, value: V, x: Name)
    ensures Lookup(view[n.jobid := Held(view, n.jobid)[n.vpid := value]], x) == if x == n then Some(value)
            else Lookup(view, x)
  {}

  function Without<V>(view: map<nat, map<nat, V>>, n: Name): map<nat, map<nat, V>>
    requires n.jobid in view
  {
    var held := view[n.jobid] - {n.vpid};
    if |held| == 0 then view - {n.jobid} else view[n.jobid := held]
  }

  lemma LookupWithout<V>(view: map<nat, map<nat, V>>, n: Name, x: Name)
    requires n.jobid in view
    ensures Lookup(Without(view, n), x) == if x == n then None else Lookup(view, x)
  {
    var held := view[n.jobid] - {n.vpid};
    assert x.jobid == n.jobid && x != n ==> (x.vpid in held <==> x.vpid in view[n.jobid]);
  }

  /** What a job holds. */
  function Held<V>(view: map<nat, map<nat, V>>, j: nat): map<nat, V> { if j in view then view[j] else map[] }

  /** Whether memory is given for a new inner table, for growing the outer table, and for growing the inner one. */
  datatype Memory = Memory(make: bool, outer: bool, inner: bool)

  /** The job has an inner table after the call: it had one, or the new one was entered without an error. */
  predicate Listed<V>(jobs: Table<Table<V>>, known: bool, memory: Memory)
  {
    known || (memory.make && (memory.outer || jobs.size + 1 < jobs.trigger))
  }

  /** The new inner table is released although its entry was stored. */
  predicate Dangles<V>(jobs: Table<Table<V>>, known: bool, memory: Memory)
  {
    !known && memory.make && !(memory.outer || jobs.size + 1 < jobs.trigger)
  }

  /** Storing in the inner table of the job, which is new if the job had none, leaves it with a free slot. */
  ghost predicate InnerRoom<V>(index: map<nat, Table<V>>, view: map<nat, map<nat, V>>, vpids: nat, n: Name,
                               granted: bool)
  {
    granted || if n.jobid in index && n.jobid in view then n.vpid in view[n.jobid]
      || index[n.jobid].size + 1 < |index[n.jobid].slots|
               else 1 < NewCapacity(vpids)
  }

  /** ... without an error. */
  ghost predicate InnerStored<V>(index: map<nat, Table<V>>, view: map<nat, map<nat, V>>, vpids: nat, n: Name,
                                 granted: bool)
  {
    granted || if n.jobid in index && n.jobid in view then n.vpid in view[n.jobid]
      || index[n.jobid].size + 1 < index[n.jobid].trigger
               else 1 < NewCapacity(vpids) / 2
  }

  /** The inner table of the job, entered in the outer table if it is new. */
  method Enter<V>(jobs: Table<Table<V>>, vpids: nat, j: nat, memory: Memory, ghost index: map<nat, Table<V>>,
                  ghost view: map<nat, map<nat, V>>)
    returns (ok: bool, inner: Table<V>, jobs': Table<Table<V>>, ghost index': map<nat, Table<V>>,
             ghost released: set<nat>)
    requires Nested(jobs, index, view)
    ensures ok == Listed(jobs, j in index, memory) && released == if Dangles(jobs, j in index, memory) then {j} else {}
    ensures ok ==> Sound(jobs', index') && index' == index[j := inner] && Sound(inner, Held(view, j))
    ensures ok && j in index ==> inner == index[j]
    ensures ok && j !in index ==>
            inner.size == 0 && |inner.slots| == NewCapacity(vpids) && inner.trigger == NewCapacity(vpids) / 2
    ensures !ok && released == {} ==> jobs' == jobs && index' == index
    ensures !ok && released != {} ==> Nearly(jobs', index') && index' == index[j := inner]
  {
    assert InnerOk(index, view, j);
    ok, jobs', index', released := true, jobs, index, {};
    var found := Find(jobs, j, index);
    if found.Some? {
      inner := found.value;
      assert index == index[j := inner];
    } else {
      inner := Make(vpids);
      if !memory.make {
        ok := false;
        return;
      }
      jobs', ok := Store(jobs, j, inner, memory.outer, index);
      index' := index[j := inner];
      if !ok { released := {j}; }
    }
  }

  /**
   * opal_proc_table_set_value.  When the outer table cannot grow, the inner table is released although its entry has
   * been stored; when the inner table cannot grow, it may lose its last free slot.
   */
  method SetValue<V>(jobs: Table<Table<V>>, vpids: nat, n: Name, value: V, memory: Memory,
                     ghost index: map<nat, Table<V>>, ghost view: map<nat, map<nat, V>>)
    returns (ok: bool, jobs': Table<Table<V>>, ghost index': map<nat, Table<V>>, ghost view': map<nat, map<nat, V>>,
             ghost released: set<nat>)
    requires Nested(jobs, index, view)
    ensures var listed := Listed(jobs, n.jobid in index, memory);
            && released == (if Dangles(jobs, n.jobid in index, memory) then {n.jobid} else {})
            && (ok <==> listed && InnerStored(index, view, vpids, n, memory.inner))
            && (forall x :: Lookup(view', x) == if x == n && listed then Some(value) else Lookup(view, x))
            && (Nested(jobs', index', view') && released == {} <==>
                if listed then InnerRoom(index, view, vpids, n, memory.inner) else !memory.make)
  {
    var inner;
    assert InnerOk(index, view, n.jobid);
    ok, inner, jobs', index', released := Enter(jobs, vpids, n.jobid, memory, index, view);
    view' := view;
    if ok {
      ok, jobs', index', view' := StoreIn(jobs', n, value, memory.inner, inner, index, view);
    } else if released != {} {
      view' := view[n.jobid := map[]];
      assert !InnerOk(index', view', n.jobid);
    }
  }

  /** The value goes into the inner table of the job. */
  method StoreIn<V>(jobs: Table<Table<V>>, n: Name, value: V, granted: bool, inner: Table<V>,
                    ghost index: map<nat, Table<V>>, ghost view: map<nat, map<nat, V>>)
    returns (ok: bool, jobs': Table<Table<V>>, ghost index': map<nat, Table<V>>, ghost view': map<nat, map<nat, V>>)
    requires Inner(index, view) && Sound(jobs, index[n.jobid := inner]) && Sound(inner, Held(view, n.jobid))
    ensures ok <==> granted || n.vpid in Held(view, n.jobid) || inner.size + 1 < inner.trigger
    ensures Nested(jobs', index', view') <==> granted || n.vpid in Held(view, n.jobid) || inner.size + 1 < |inner.slots|
    ensures forall x :: Lookup(view', x) == if x == n then Some(value) else Lookup(view, x)
  {
    ghost var held := Held(view, n.jobid);
    var inner', again;
    inner', ok := Store(inner, n.vpid, value, granted, held);
    jobs', again := Store(jobs, n.jobid, inner', true, index[n.jobid := inner]);
    assert index[n.jobid := inner][n.jobid := inner'] == index[n.jobid := inner'];
    index', view' := index[n.jobid := inner'], view[n.jobid := held[n.vpid := value]];
    PutInner(jobs', index, view, n, inner', value);
    forall x ensures Lookup(view', x) == if x == n then Some(value) else Lookup(view, x) {
      LookupPut(view, n, value, x);
    }
  }

  /** With another inner table for the job the two levels are sound exactly when it is. */
  lemma PutInner<V>(jobs: Table<Table<V>>, index: map<nat, Table<V>>, view: map<nat, map<nat, V>>, n: Name,
                    inner: Table<V>, value: V)
    requires Inner(index, view) && Sound(jobs, index[n.jobid := inner])
    ensures var held := Held(view, n.jobid)[n.vpid := value];
            Nested(jobs, index[n.jobid := inner], view[n.jobid := held]) <==> Sound(inner, held)
  {
    var held := Held(view, n.jobid)[n.vpid := value];
    assert n.vpid in held;
    if Sound(inner, held) {
      InnerPut(index, view, n.jobid, inner, held);
    } else {
      assert !InnerOk(index[n.jobid := inner], view[n.jobid := held], n.jobid);
    }
  }

  /** The inner table after a removal goes back, or goes altogether when it is empty. */
  method PutBack<V>(jobs: Table<Table<V>>, n: Name, inner: Table<V>, ghost index: map<nat, Table<V>>,
                    ghost view: map<nat, map<nat, V>>)
    returns (jobs': Table<Table<V>>, ghost index': map<nat, Table<V>>)
    requires Nested(jobs, index, view) && n.jobid in view && Sound(inner, view[n.jobid] - {n.vpid})
    ensures Nested(jobs', index', Without(view, n))
  {
    if inner.size == 0 {
      var rest, _ := Drop(jobs, n.jobid, index);
      jobs', index' := rest, index - {n.jobid};
      InnerDrop(index, view, n.jobid);
    } else {
      assert InnerOk(index, view, n.jobid);
      var again;
      jobs', again := Store(jobs, n.jobid, inner, true, index);
      index' := index[n.jobid := inner];
      InnerPut(index, view, n.jobid, inner, view[n.jobid] - {n.vpid});
    }
  }

  /** opal_proc_table_remove_value. */
  method RemoveValue<V>(jobs: Table<Table<V>>, n: Name, ghost index: map<nat, Table<V>>, ghost view: map<nat,
                        map<nat, V>>)
    returns (jobs': Table<Table<V>>, ok: bool, ghost index': map<nat, Table<V>>, ghost view': map<nat, map<nat, V>>)
    requires Nested(jobs, index, view)
    ensures Nested(jobs', index', view') && ok == Lookup(view, n).Some?
    ensures forall x :: Lookup(view', x) == if x == n then None else Lookup(view, x)
  {
    jobs', ok, index', view' := jobs, false, index, view;
    assert InnerOk(index, view, n.jobid);
    var found := Find(jobs, n.jobid, index);
    if found.Some? {
      var inner;
      inner, ok := Drop(found.value, n.vpid, view[n.jobid]);
      if ok {
        jobs', index' := PutBack(jobs, n, inner, index, view);
        view' := Without(view, n);
        forall x ensures Lookup(view', x) == if x == n then None else Lookup(view, x) { LookupWithout(view, n, x); }
      }
    }
  }

  // ----- Iteration -----

  /** A place in the iteration: a used outer slot and a used slot of its inner table. */
  datatype Node = Node(outer: nat, inner: nat)

  ghost predicate Occupied<V>(jobs: Table<Table<V>>, p: Node)
  {
    && p.outer < |jobs.slots| && jobs.slots[p.outer].Used?
    && p.inner < |jobs.slots[p.outer].value.slots| && jobs.slots[p.outer].value.slots[p.inner].Used?
  }

  ghost function NameAt<V>(jobs: Table<Table<V>>, p: Node): Name
    requires Occupied(jobs, p)
  {
    Name(jobs.slots[p.outer].key, jobs.slots[p.outer].value.slots[p.inner].key)
  }

  predicate Earlier(p: Node, q: Node) { p.outer < q.outer || (p.outer == q.outer && p.inner < q.inner) }

  /** The inner table in a used outer slot holds something. */
  lemma InnerUsed<V>(jobs: Table<Table<V>>, index: map<nat, Table<V>>, view: map<nat, map<nat, V>>, a: nat)
    returns (b: nat)
    requires Nested(jobs, index, view) && a < |jobs.slots| && jobs.slots[a].Used?
    ensures Occupied(jobs, Node(a, b))
  {
    var j := jobs.slots[a].key;
    assert InnerOk(index, view, j);
    assert index[j] == jobs.slots[a].value;
    var k :| k in view[j];
    b :| b < |index[j].slots| && index[j].slots[b] == Used(k, view[j][k]);
  }

  /**
   * The search shared by opal_proc_table_get_first_key and _get_next_key: the first place in an outer slot from a on.
   */
  method FirstFrom<V>(jobs: Table<Table<V>>, a: nat, ghost index: map<nat, Table<V>>, ghost view: map<nat, map<nat, V>>)
    returns (r: Option<Node>)
    requires Nested(jobs, index, view) && a <= |jobs.slots|
    ensures r.Some? ==> Occupied(jobs, r.value) && a <= r.value.outer
    ensures forall p :: Occupied(jobs, p) && a <= p.outer ==> r.Some? && !Earlier(p, r.value)
  {
    var i := NextUsed(jobs.slots, a);
    if i == |jobs.slots| {
      return None;
    }
    ghost var b := InnerUsed(jobs, index, view, i);
    assert Occupied(jobs, Node(i, b));
    var k := NextUsed(jobs.slots[i].value.slots, 0);
    if k == |jobs.slots[i].value.slots| {
      return None;
    }
    return Some(Node(i, k));
  }

  /** opal_proc_table_get_next_key. */
  method NextKey<V>(jobs: Table<Table<V>>, at: Node, ghost index: map<nat, Table<V>>, ghost view: map<nat, map<nat, V>>)
    returns (r: Option<Node>)
    requires Nested(jobs, index, view) && Occupied(jobs, at)
    ensures r.Some? ==> Occupied(jobs, r.value) && Earlier(at, r.value)
    ensures forall p :: Occupied(jobs, p) && Earlier(at, p) ==> r.Some? && !Earlier(p, r.value)
  {
    var slots := jobs.slots[at.outer].value.slots;
    var k := NextUsed(slots, at.inner + 1);
    if k < |slots| {
      return Some(Node(at.outer, k));
    }
    r := FirstFrom(jobs, at.outer + 1, index, view);
  }

  lemma NamesDiffer<V>(jobs: Table<Table<V>>, index: map<nat, Table<V>>, view: map<nat, map<nat, V>>, p: Node, q: Node)
    requires Nested(jobs, index, view) && Occupied(jobs, p) && Occupied(jobs, q) && NameAt(jobs, p) == NameAt(jobs, q)
    ensures p == q
  {
    var j := jobs.slots[p.outer].key;
    assert InnerOk(index, view, j);
    assert index[j] == jobs.slots[p.outer].value;
  }

  /** A name is in the map exactly when it is at some place. */
  lemma NamePlaced<V>(jobs: Table<Table<V>>, index: map<nat, Table<V>>, view: map<nat, map<nat, V>>, n: Name)
    requires Nested(jobs, index, view) && Lookup(view, n).Some?
    ensures exists p :: Occupied(jobs, p) && NameAt(jobs, p) == n
  {
    assert InnerOk(index, view, n.jobid);
    var a :| 0 <= a < |jobs.slots| && jobs.slots[a] == Used(n.jobid, index[n.jobid]);
    var b :| 0 <= b < |index[n.jobid].slots| && index[n.jobid].slots[b] == Used(n.vpid, view[n.jobid][n.vpid]);
    assert Occupied(jobs, Node(a, b)) && NameAt(jobs, Node(a, b)) == n;
  }

  lemma PlacedName<V>(jobs: Table<Table<V>>, index: map<nat, Table<V>>, view: map<nat, map<nat, V>>, p: Node)
    requires Nested(jobs, index, view) && Occupied(jobs, p)
    ensures Lookup(view, NameAt(jobs, p)).Some?
  {
    var j := jobs.slots[p.outer].key;
    assert InnerOk(index, view, j);
    assert index[j] == jobs.slots[p.outer].value;
  }

  /** The names of the places before the cursor, each once. */
  ghost predicate Visited<V>(jobs: Table<Table<V>>, names: seq<Name>, places: seq<Node>)
  {
    && |names| == |places|
    && (forall i :: 0 <= i < |places| ==> Occupied(jobs, places[i]) && names[i] == NameAt(jobs, places[i]))
    && (forall i, j :: 0 <= i < j < |places| ==> Earlier(places[i], places[j]))
  }

  /** Walking the iterator from the first key to the end meets every name exactly once. */
  method VisitAll<V>(jobs: Table<Table<V>>, ghost index: map<nat, Table<V>>, ghost view: map<nat, map<nat, V>>)
    returns (names: seq<Name>)
    requires Nested(jobs, index, view)
    ensures forall i, j :: 0 <= i < j < |names| ==> names[i] != names[j]
    ensures forall n :: n in names <==> Lookup(view, n).Some?
  {
    names := [];
    ghost var places: seq<Node> := [];
    var at := FirstFrom(jobs, 0, index, view);
    while at.Some?
      invariant at.Some? ==> Occupied(jobs, at.value) && forall i :: 0 <= i < |places| ==> Earlier(places[i], at.value)
      invariant Visited(jobs, names, places)
      invariant forall p :: Occupied(jobs, p) && p !in places ==> at.Some? && !Earlier(p, at.value)
      decreases at.Some?, if at.Some? then |jobs.slots| - at.value.outer
                else 0, if at.Some? then |jobs.slots[at.value.outer].value.slots| - at.value.inner else 0
    {
      var here := at.value;
      names := names + [Name(jobs.slots[here.outer].key, jobs.slots[here.outer].value.slots[here.inner].key)];
      places := places + [here];
      at := NextKey(jobs, here, index, view);
    }
    VisitedAll(jobs, index, view, names, places);
  }

  lemma VisitedAll<V>(jobs: Table<Table<V>>, index: map<nat, Table<V>>, view: map<nat, map<nat, V>>, names: seq<Name>,
                      places: seq<Node>)
    requires Nested(jobs, index, view) && Visited(jobs, names, places) && forall p :: Occupied(jobs, p) ==> p in places
    ensures forall i, j :: 0 <= i < j < |names| ==> names[i] != names[j]
    ensures forall n :: n in names <==> Lookup(view, n).Some?
  {
    forall i, j | 0 <= i < j < |names| ensures names[i] != names[j] {
      if names[i] == names[j] { NamesDiffer(jobs, index, view, places[i], places[j]); }
    }
    forall n ensures n in names <==> Lookup(view, n).Some? {
      if n in names {
        var i :| 0 <= i < |names| && names[i] == n;
        PlacedName(jobs, index, view, places[i]);
      }
      if Lookup(view, n).Some? {
        NamePlaced(jobs, index, view, n);
        var p :| Occupied(jobs, p) && NameAt(jobs, p) == n;
        var i :| 0 <= i < |places| && places[i] == p;
        assert names[i] == n;
      }
    }
  }

  class ProcTable<V> {
    const vpids: nat
    var jobs: Table<Table<V>>
    /** The inner tables by job, and what each of them holds. */
    ghost var index: map<nat, Table<V>>
    ghost var view: map<nat, map<nat, V>>
    /** The jobs whose inner table has been released while the outer table still has its entry. */
    ghost var released: set<nat>

    ghost predicate Valid()
      reads this
    {
      Nested(jobs, index, view) && released == {}
    }

    /** opal_proc_table_init. */
    constructor (jobids: nat, vpids: nat)
      ensures Valid() && (forall n :: Lookup(view, n) == None) && index == map[]
      ensures this.vpids == vpids && jobs.size == 0 && jobs.trigger == NewCapacity(jobids) / 2
    {
      this.vpids := vpids;
      var empty := Make<Table<V>>(jobids);
      jobs := empty;
      index, view, released := map[], map[], {};
    }

    /** opal_proc_table_get_value. */
    method Get(n: Name) returns (r: Option<V>)
      requires Valid()
      ensures r == Lookup(view, n)
    {
      assert InnerOk(index, view, n.jobid);
      var inner := Find(jobs, n.jobid, index);
      if inner.None? {
        return None;
      }
      r := Find(inner.value, n.vpid, view[n.jobid]);
    }

    /** opal_proc_table_set_value: stored unless an error comes first, and exactly when the table stays usable. */
    method Set(n: Name, value: V, memory: Memory) returns (ok: bool)
      requires Valid()
      modifies this
      ensures var listed := Listed(old(jobs), n.jobid in old(index), memory);
              && (released != {} <==> Dangles(old(jobs), n.jobid in old(index), memory)) && released <= {n.jobid}
              && (ok <==> listed && InnerStored(old(index), old(view), vpids, n, memory.inner))
              && (forall x :: Lookup(view, x) == if x == n && listed then Some(value) else Lookup(old(view), x))
              && (Valid() <==> if listed then InnerRoom(old(index), old(view), vpids, n, memory.inner)
                  else !memory.make)
    {
      ok, jobs, index, view, released := SetValue(jobs, vpids, n, value, memory, index, view);
    }

    /** opal_proc_table_remove_value. */
    method Remove(n: Name) returns (ok: bool)
      requires Valid()
      modifies `jobs, `index, `view
      ensures Valid() && ok == old(Lookup(view, n)).Some?
      ensures forall x :: Lookup(view, x) == if x == n then None else old(Lookup(view, x))
    {
      jobs, ok, index, view := RemoveValue(jobs, n, index, view);
    }
  }

  /** A table for no jobs cannot take one without growing: if it may not, the entry is left with a released table. */
  method DanglingSeen<V>(vpids: nat, n: Name, value: V, inner: bool) returns (t: ProcTable<V>, ok: bool)
    ensures !ok && t.released == {n.jobid} && !t.Valid()
  {
    t := new ProcTable<V>(0, vpids);
    ok := t.Set(n, value, Memory(true, false, inner));
  }
}
