/** opal_tree.c: adding children by pointers, and writing a subtree to a buffer and reading it back. */
module TreeSerial {
  import opened Wrappers

  // ----- Trees and their serial form -----

  /** An item with its first child and its next sibling. */
  datatype Forest<D> = Nil | Cons(data: D, kids: Forest<D>, next: Forest<D>)

  function Size<D>(f: Forest<D>): nat { if f.Nil? then 0 else 1 + Size(f.kids) + Size(f.next) }

  function Append<D>(f: Forest<D>, g: Forest<D>): Forest<D>
  {
    if f.Nil? then g else Cons(f.data, f.kids, Append(f.next, g))
  }

  /** What the buffer holds: the three delimiters, and whatever the item codec writes. */
  datatype Unit = Open | Close | End | Raw(value: nat)

  function Ser<D>(enc: D -> seq<Unit>, f: Forest<D>): seq<Unit>
  {
    if f.Nil? then [] else [Open] + enc(f.data) + Ser(enc, f.kids) + [Close] + Ser(enc, f.next)
  }

  /** The item codec reads back what it wrote, and no more. */
  ghost predicate RoundTrips<D(!new)>(enc: D -> seq<Unit>, dec: seq<Unit> -> (D, nat))
  {
    forall x, rest :: dec(enc(x) + rest) == (x, |enc(x)|)
  }

  /** One item with its descendants. */
  function SerOne<D>(enc: D -> seq<Unit>, d: D, kids: Forest<D>): seq<Unit>
  {
    [Open] + enc(d) + Ser(enc, kids) + [Close]
  }

  lemma SerFirst<D>(enc: D -> seq<Unit>, f: Forest<D>, buf: seq<Unit>)
    requires f.Cons?
    ensures buf + Ser(enc, f) == (buf + SerOne(enc, f.data, f.kids)) + Ser(enc, f.next)
    ensures Ser(enc, Cons(f.data, f.kids, Nil)) == SerOne(enc, f.data, f.kids)
  {}

  /** One pass of the loop in add_tree_item2buf. */
  method AddItem<D>(enc: D -> seq<Unit>, item: Forest<D>, buf: seq<Unit>, depth: nat) returns (buf': seq<Unit>)
    requires item.Cons? && depth > 0
    ensures buf' == buf + SerOne(enc, item.data, item.kids)
    decreases item, 0
  {
    buf' := buf + [Open] + enc(item.data);
    if item.kids.Cons? {
      buf' := AddToBuffer(enc, item.kids, buf', depth + 1);
    }
    buf' := buf' + [Close];
  }

  /** add_tree_item2buf: at depth 1 the item alone, below it the item and its later siblings. */
  method AddToBuffer<D>(enc: D -> seq<Unit>, item: Forest<D>, buf: seq<Unit>, depth: nat) returns (buf': seq<Unit>)
    requires item.Cons? && depth > 0
    ensures buf' == buf + if depth == 1 then SerOne(enc, item.data, item.kids) else Ser(enc, item)
    decreases item, 1
  {
    SerFirst(enc, item, buf);
    buf' := AddItem(enc, item, buf, depth);
    var f := item.next;
    while f.Cons? && 1 < depth
      invariant f < item && (depth == 1 ==> buf' == buf + SerOne(enc, item.data, item.kids))
      invariant depth > 1 ==> buf' + Ser(enc, f) == buf + Ser(enc, item)
      decreases f
    {
      SerFirst(enc, f, buf');
      buf' := AddItem(enc, f, buf', depth);
      f := f.next;
    }
  }

  /** opal_tree_serialize. */
  method Serialize<D>(enc: D -> seq<Unit>, item: Forest<D>, buf: seq<Unit>) returns (buf': seq<Unit>)
    requires item.Cons?
    ensures buf' == buf + SerOne(enc, item.data, item.kids) + [End]
  {
    buf' := AddToBuffer(enc, item, buf, 1);
    buf' := buf' + [End];
  }

  // ----- Items and their links -----

  /** opal_tree_item_t. */
  datatype Item<D> = Item(data: D, parent: nat, ancestors: int, prev: Option<nat>, next: Option<nat>,
                          first: Option<nat>, last: Option<nat>, numKids: nat)

  /** The items by number, the container's count, and the next number to give out. */
  datatype Store<D> = Store(items: map<nat, Item<D>>, count: nat, nextId: nat)

  type Kids = map<nat, seq<nat>>

  function At(ks: seq<nat>, i: int): Option<nat> { if 0 <= i < |ks| then Some(ks[i]) else None }

  /** What an item says about its children. */
  ghost predicate ItemOk<D>(m: map<nat, Item<D>>, kids: Kids, p: nat)
  {
    (p in m <==> p in kids) &&
    (p in m ==> m[p].numKids == |kids[p]| && m[p].first == At(kids[p], 0) && m[p].last == At(kids[p], |kids[p]| - 1))
  }

  /** What the i-th child of p says about its parent and its neighbours. */
  ghost predicate KidOk<D>(m: map<nat, Item<D>>, kids: Kids, p: nat, i: nat)
  {
    p in kids && i < |kids[p]| && p in m ==>
      var c := kids[p][i];
      c in m && m[c].parent == p && m[c].ancestors == m[p].ancestors + 1 && m[c].next == At(kids[p], i + 1)
        && m[c].prev == At(kids[p], i - 1)
  }

  /** The links of all items spell the ordered children. */
  ghost predicate Linked<D>(st: Store<D>, kids: Kids)
  {
    && (forall p :: ItemOk(st.items, kids, p))
    && (forall p, i :: KidOk(st.items, kids, p, i))
    && (forall p :: p in st.items ==> p < st.nextId)
  }

  /** The children after c has been added to p. */
  function Added(kids: Kids, p: nat, c: nat): Kids
    requires p in kids
  {
    kids[c := []][p := kids[p] + [c]]
  }

  /** The stores of opal_tree_add_child, in order, for a newly constructed item c. */
  function Link<D>(st: Store<D>, p: nat, c: nat, d: D): Store<D>
    requires p in st.items && (st.items[p].numKids > 0 ==> st.items[p].last.Some? && st.items[p].last.value in st.items)
  {
    var q := st.items[p];
    var child := Item(d, p, q.ancestors + 1, if q.numKids > 0 then q.last else None, None, None, None, 0);
    var m := st.items[c := child];
    var m1 := if q.numKids > 0 then m[q.last.value := m[q.last.value].(next := Some(c))] else m;
    var q' := m1[p].(first := if q.numKids > 0 then q.first else Some(c), last := Some(c), numKids := q.numKids + 1);
    Store(m1[p := q'], st.count + 1, st.nextId)
  }

  lemma LinkReady<D>(st: Store<D>, kids: Kids, p: nat)
    requires Linked(st, kids) && p in st.items
    ensures p in kids && (st.items[p].numKids > 0 ==>
                          st.items[p].last.Some? && st.items[p].last.value in st.items && st.items[p].last.value != p)
  {
    assert ItemOk(st.items, kids, p);
    if st.items[p].numKids > 0 { assert KidOk(st.items, kids, p, |kids[p]| - 1); }
  }

  lemma LinkItem<D>(st: Store<D>, kids: Kids, p: nat, c: nat, d: D, x: nat)
    requires Linked(st, kids) && p in st.items && c == st.nextId - 1 && c !in st.items
    ensures p in kids && (st.items[p].numKids > 0 ==> st.items[p].last.Some? && st.items[p].last.value in st.items)
    ensures ItemOk(Link(st, p, c, d).items, Added(kids, p, c), x)
  {
    LinkReady(st, kids, p);
    assert ItemOk(st.items, kids, p) && ItemOk(st.items, kids, x) && ItemOk(st.items, kids, c);
  }

  lemma LinkKid<D>(st: Store<D>, kids: Kids, p: nat, c: nat, d: D, x: nat, i: nat)
    requires Linked(st, kids) && p in st.items && c == st.nextId - 1 && c !in st.items
    ensures p in kids && (st.items[p].numKids > 0 ==> st.items[p].last.Some? && st.items[p].last.value in st.items)
    ensures KidOk(Link(st, p, c, d).items, Added(kids, p, c), x, i)
  {
    LinkReady(st, kids, p);
    assert ItemOk(st.items, kids, p) && ItemOk(st.items, kids, x) && ItemOk(st.items, kids, c);
    assert KidOk(st.items, kids, x, i);
    var n := |kids[p]|;
    if n > 0 { assert KidOk(st.items, kids, p, n - 1); }
  }

  /** opal_tree_add_child: the new item is linked in as the last child, and the container counts it. */
  method AddChild<D>(st: Store<D>, p: nat, d: D, ghost kids: Kids) returns (st': Store<D>, c: nat)
    requires Linked(st, kids) && p in st.items
    ensures p in kids && Linked(st', Added(kids, p, c)) && c == st.nextId && st'.nextId == st.nextId + 1
            && st'.count == st.count + 1
    ensures c in st'.items && st'.items[c].data == d
            && forall x :: x in st.items ==> x in st'.items && st'.items[x].data == st.items[x].data
  {
    c := st.nextId;
    var st1 := st.(nextId := st.nextId + 1);
    assert Linked(st1, kids);
    LinkReady(st1, kids, p);
    st' := Link(st1, p, c, d);
    forall x ensures ItemOk(st'.items, Added(kids, p, c), x) { LinkItem(st1, kids, p, c, d, x); }
    forall x, i ensures KidOk(st'.items, Added(kids, p, c), x, i) { LinkKid(st1, kids, p, c, d, x, i); }
  }

  // ----- Reading back -----

  /** The items ids, with their descendants, all numbered from lo to hi, are the forest f. */
  ghost predicate Spells<D>(m: map<nat, Item<D>>, kids: Kids, ids: seq<nat>, f: Forest<D>, lo: nat, hi: nat)
    decreases f
  {
    match f
    case Nil => ids == []
    case Cons(d, k, n) =>
      && ids != [] && lo <= ids[0] < hi && ids[0] in m && ids[0] in kids && m[ids[0]].data == d
      && Spells(m, kids, kids[ids[0]], k, lo, hi) && Spells(m, kids, ids[1..], n, lo, hi)
  }

  /** Nothing about the items from lo to hi changed. */
  ghost predicate Same<D>(m: map<nat, Item<D>>, kids: Kids, m': map<nat, Item<D>>, kids': Kids, lo: nat, hi: nat)
  {
    forall x :: lo <= x < hi && x in m && x in kids ==>
      x in m' && x in kids' && m'[x].data == m[x].data && kids'[x] == kids[x]
  }

  lemma {:induction false} SpellsSame<D>(m: map<nat, Item<D>>, kids: Kids, m': map<nat, Item<D>>, kids': Kids,
                                         ids: seq<nat>, f: Forest<D>, lo: nat, hi: nat, lo': nat, hi': nat)
    requires Spells(m, kids, ids, f, lo, hi) && Same(m, kids, m', kids', lo, hi) && lo' <= lo && hi <= hi'
    ensures Spells(m', kids', ids, f, lo', hi')
    decreases f
  {
    if f.Cons? {
      SpellsSame(m, kids, m', kids', kids[ids[0]], f.kids, lo, hi, lo', hi');
      SpellsSame(m, kids, m', kids', ids[1..], f.next, lo, hi, lo', hi');
    }
  }

  lemma {:induction false} SpellsAppend<D>(m: map<nat, Item<D>>, kids: Kids, ids: seq<nat>, f: Forest<D>,
                                           ids2: seq<nat>, g: Forest<D>, lo: nat, hi: nat)
    requires Spells(m, kids, ids, f, lo, hi) && Spells(m, kids, ids2, g, lo, hi)
    ensures Spells(m, kids, ids + ids2, Append(f, g), lo, hi)
    decreases f
  {
    if f.Nil? {
      assert ids + ids2 == ids2;
    } else {
      SpellsAppend(m, kids, ids[1..], f.next, ids2, g, lo, hi);
      assert (ids + ids2)[1..] == ids[1..] + ids2;
    }
  }

  lemma {:induction false} AppendNil<D>(f: Forest<D>)
    ensures Append(f, Nil) == f
  {
    if f.Cons? { AppendNil(f.next); }
  }

  lemma {:induction false} AppendStep<D>(f: Forest<D>, d: D, k: Forest<D>, n: Forest<D>)
    ensures Append(Append(f, Cons(d, k, Nil)), n) == Append(f, Cons(d, k, n))
    ensures Size(Append(f, Cons(d, k, Nil))) == Size(f) + 1 + Size(k)
    decreases f
  {
    if f.Cons? { AppendStep(f.next, d, k, n); }
  }

  /** Since st0, p got one more child, c, with data d and the children f; nothing else changed. */
  ghost predicate Built<D>(st0: Store<D>, kids0: Kids, st: Store<D>, kids: Kids, p: nat, d: D, f: Forest<D>)
  {
    var c := st0.nextId;
    && Linked(st, kids) && st0.nextId < st.nextId && st.count == st0.count + 1 + Size(f)
    && p in kids0 && p in kids && kids[p] == kids0[p] + [c]
    && c in st.items && c in kids && st.items[c].data == d && Spells(st.items, kids, kids[c], f, c + 1, st.nextId)
    && Unchanged(st0.items, kids0, st.items, kids, p, c)
  }

  /** Items before c keep their data, and, but for p, their children. */
  ghost predicate Unchanged<D>(m: map<nat, Item<D>>, kids: Kids, m': map<nat, Item<D>>, kids': Kids, p: nat, c: nat)
  {
    forall x :: x < c && x in m && x in kids ==>
      x in m' && x in kids' && m'[x].data == m[x].data && (x != p ==> kids'[x] == kids[x])
  }

  lemma BuiltFirst<D>(st0: Store<D>, kids0: Kids, st: Store<D>, p: nat, d: D)
    requires Linked(st0, kids0) && p in st0.items && p in kids0 && Linked(st, Added(kids0, p, st0.nextId))
             && st.nextId == st0.nextId + 1 && st.count == st0.count + 1
    requires st0.nextId in st.items && st.items[st0.nextId].data == d
             && forall x :: x in st0.items ==> x in st.items && st.items[x].data == st0.items[x].data
    ensures Built(st0, kids0, st, Added(kids0, p, st0.nextId), p, d, Nil)
  {
    assert ItemOk(st0.items, kids0, p);
  }

  /** Another child of c has been read. */
  lemma BuiltNext<D>(st0: Store<D>, kids0: Kids, st: Store<D>, kids: Kids, p: nat, d: D, f: Forest<D>, st': Store<D>,
                     kids': Kids, d2: D, k2: Forest<D>)
    requires Linked(st0, kids0) && p in st0.items && Built(st0, kids0, st, kids, p, d, f)
             && Built(st, kids, st', kids', st0.nextId, d2, k2)
    ensures Built(st0, kids0, st', kids', p, d, Append(f, Cons(d2, k2, Nil)))
  {
    var c, c2 := st0.nextId, st.nextId;
    var lo, hi := c + 1, st'.nextId;
    AppendStep(f, d2, k2, Nil);
    assert c2 !in st.items;
    SpellsSame(st.items, kids, st'.items, kids', kids[c], f, lo, st.nextId, lo, hi);
    SpellsSame(st'.items, kids', st'.items, kids', kids'[c2], k2, c2 + 1, hi, lo, hi);
    assert [c2][1..] == [];
    assert Spells(st'.items, kids', [c2], Cons(d2, k2, Nil), lo, hi);
    SpellsAppend(st'.items, kids', kids[c], f, [c2], Cons(d2, k2, Nil), lo, hi);
    assert p < c;
  }

  /** What is still to be read at each point of the loop: before the item, among its children, behind it. */
  ghost predicate Ahead<D>(enc: D -> seq<Unit>, phase: int, level: int, curr: Unit, s: seq<Unit>, d: D, rest: Forest<D>,
                           tail: seq<Unit>)
  {
    match phase
    case 0 => level == 0 && curr == Open && s == enc(d) + (Ser(enc, rest) + [Close] + tail)
    case 1 => level == 1 && [curr] + s == Ser(enc, rest) + [Close] + tail
    case _ => level == 0 && [curr] + s == tail
  }

  lemma AheadKid<D>(enc: D -> seq<Unit>, curr: Unit, s: seq<Unit>, d: D, rest: Forest<D>, tail: seq<Unit>)
    requires Ahead(enc, 1, 1, curr, s, d, rest, tail)
    ensures rest.Cons? ==>
              && curr == Open
              && s == enc(rest.data) + (Ser(enc, rest.kids) + [Close] + (Ser(enc, rest.next) + [Close] + tail))
    ensures rest.Nil? ==> curr == Close && s == tail
  {
    if rest.Cons? {
      assert [curr] + s == [Open]
        + (enc(rest.data) + (Ser(enc, rest.kids) + [Close] + (Ser(enc, rest.next) + [Close] + tail)));
    } else {
      assert [curr] + s == [Close] + tail;
    }
    assert ([curr] + s)[0] == curr && ([curr] + s)[1..] == s;
  }

  /** After the next unit has been taken, what is ahead is the same. */
  lemma TakeNext<D>(enc: D -> seq<Unit>, s: seq<Unit>, d: D, rest: Forest<D>, tail: seq<Unit>)
    requires s == Ser(enc, rest) + [Close] + tail
    ensures s != [] && s[0] != End && Ahead(enc, 1, 1, s[0], s[1..], d, rest, tail)
  {
    assert s == [s[0]] + s[1..];
    AheadKid(enc, s[0], s[1..], d, rest, tail);
  }

  /** The item itself is read and added. */
  method ReadData<D(!new)>(ghost enc: D -> seq<Unit>, dec: seq<Unit> -> (D, nat), st: Store<D>, p: nat, s: seq<Unit>,
                           ghost kids: Kids, ghost d: D, ghost more: seq<Unit>)
    returns (st': Store<D>, c: nat, s': seq<Unit>)
    requires RoundTrips(enc, dec) && Linked(st, kids) && p in st.items && s == enc(d) + more
    ensures c == st.nextId && p in kids && Built(st, kids, st', Added(kids, p, c), p, d, Nil) && s' == more
  {
    var (data, n) := dec(s);
    s' := s[n..];
    st', c := AddChild(st, p, data, kids);
    BuiltFirst(st, kids, st', p, d);
  }

  /**
   * deserialize_add_tree_item: below depth 1 one child of p is read, whose opening delimiter has been taken already;
   * at depth 1 it is read up to the end mark.
   */
  method ReadItem<D(!new)>(ghost enc: D -> seq<Unit>, dec: seq<Unit> -> (D, nat), st: Store<D>, p: nat, curr0: Unit,
                           s0: seq<Unit>, depth: nat,
      ghost kids: Kids, ghost d: D, ghost k: Forest<D>, ghost tail: seq<Unit>)
    returns (st': Store<D>, s: seq<Unit>, ghost kids': Kids)
    requires RoundTrips(enc, dec) && Linked(st, kids) && p in st.items && curr0 == Open && depth > 0
    requires s0 == enc(d) + (Ser(enc, k) + [Close] + tail) && (depth == 1 ==> tail != [] && tail[0] == End)
    ensures Built(st, kids, st', kids', p, d, k) && s == if depth == 1 then tail[1..] else tail
    decreases k, 1
  {
    var curr, level, c := curr0, 0, p;
    ghost var phase, done, rest := 0, Nil, k;
    st', s, kids' := st, s0, kids;
    while curr != End
      invariant 0 <= phase <= 2 && Ahead(enc, phase, level, curr, s, d, rest, tail) && (phase == 2 <==> curr == End)
      invariant phase == 0 ==> st' == st && kids' == kids && rest == k && done == Nil
      invariant phase == 1 ==>
                  && c == st.nextId && Built(st, kids, st', kids', p, d, done) && Append(done, rest) == k
                  && (rest == k || rest < k)
      invariant phase == 2 ==> depth == 1 && Built(st, kids, st', kids', p, d, k)
      decreases 2 - phase, rest
    {
      level := if curr == Open then level + 1 else level - 1;
      if level == 0 {
        AheadKid(enc, curr, s, d, rest, tail);
        AppendNil(done);
        if 1 < depth {
          return;
        }
        phase := 2;
      } else if level == 1 {
        st', c, s := ReadData(enc, dec, st', p, s, kids', d, Ser(enc, rest) + [Close] + tail);
        kids', phase := Added(kids', p, c), 1;
        TakeNext(enc, s, d, rest, tail);
      } else {
        AheadKid(enc, curr, s, d, rest, tail);
        ghost var was, wasKids := st', kids';
        st', s, kids' := ReadItem(enc, dec, st', c, curr, s, depth + 1, kids', rest.data, rest.kids,
                                  Ser(enc, rest.next) + [Close] + tail);
        BuiltNext(st, kids, was, wasKids, p, d, done, st', kids', rest.data, rest.kids);
        AppendStep(done, rest.data, rest.kids, rest.next);
        done, rest := Append(done, Cons(rest.data, rest.kids, Nil)), rest.next;
        level := level - 1;
        TakeNext(enc, s, d, rest, tail);
      }
      curr, s := s[0], s[1..];
    }
  }

  /** opal_tree_deserialize: the stream of one subtree is consumed, and the subtree is the new last child of p. */
  method Deserialize<D(!new)>(ghost enc: D -> seq<Unit>, dec: seq<Unit> -> (D, nat), st: Store<D>, p: nat,
                              buf: seq<Unit>, ghost kids: Kids, ghost d: D, ghost k: Forest<D>, ghost after: seq<Unit>)
    returns (st': Store<D>, rest: seq<Unit>, ghost kids': Kids)
    requires RoundTrips(enc, dec) && Linked(st, kids) && p in st.items && buf == SerOne(enc, d, k) + [End] + after
    ensures Built(st, kids, st', kids', p, d, k) && rest == after
  {
    ghost var tail := [End] + after;
    assert buf == [Open] + (enc(d) + (Ser(enc, k) + [Close] + tail));
    assert buf[0] == Open && buf[1..] == enc(d) + (Ser(enc, k) + [Close] + tail);
    st', rest, kids' := ReadItem(enc, dec, st, p, buf[0], buf[1..], 1, kids, d, k, tail);
  }

  /** Written and read back, as opal_tree_copy_subtree does it: the copy under p has the same shape, order and data. */
  method Copy<D(!new)>(enc: D -> seq<Unit>, dec: seq<Unit> -> (D, nat), item: Forest<D>, st: Store<D>, p: nat,
                       ghost kids: Kids)
    returns (st': Store<D>, ghost kids': Kids)
    requires RoundTrips(enc, dec) && Linked(st, kids) && p in st.items && item.Cons?
    ensures Built(st, kids, st', kids', p, item.data, item.kids)
  {
    var buf := Serialize(enc, item, []);
    assert buf == SerOne(enc, item.data, item.kids) + [End] + [];
    var rest;
    st', rest, kids' := Deserialize(enc, dec, st, p, buf, kids, item.data, item.kids, []);
  }
}
