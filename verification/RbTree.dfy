/** opal_rb_tree.c: search, insertion and deletion on the whole tree. */
module RbTree {
  import opened Wrappers
  import opened RbShape
  import opened RbBalance
  import opened RbSteps
  import RbInsert
  import RbDelete

  // ----- The comparison function -----

  /** comp is a total preorder, given by signs. */
  ghost predicate Ordering<K(!new)>(comp: (K, K) -> int)
  {
    && (forall a, b :: comp(a, b) < 0 <==> comp(b, a) > 0)
    && (forall a, b, c :: comp(a, b) <= 0 && comp(b, c) <= 0 ==> comp(a, c) <= 0)
  }

  predicate Sorted<K, V>(comp: (K, K) -> int, s: seq<(K, V)>)
  {
    forall i, j :: 0 <= i < j < |s| ==> comp(s[i].0, s[j].0) <= 0
  }

  /** key is after everything in s; before everything in s; not after anything in s. */
  predicate AllLess<K, V>(comp: (K, K) -> int, s: seq<(K, V)>, key: K)
  {
    forall k :: 0 <= k < |s| ==> comp(key, s[k].0) > 0
  }
  predicate AllMore<K, V>(comp: (K, K) -> int, s: seq<(K, V)>, key: K)
  {
    forall k :: 0 <= k < |s| ==> comp(key, s[k].0) < 0
  }
  predicate NoneLess<K, V>(comp: (K, K) -> int, s: seq<(K, V)>, key: K)
  {
    forall k :: 0 <= k < |s| ==> comp(key, s[k].0) <= 0
  }

  /** In sorted contents, a node is not before its left subtree nor after its right one. */
  lemma NodeBounds<K(!new), V>(comp: (K, K) -> int, c: Context<K, V>, l: Tree<K, V>, i: Info<K, V>, r: Tree<K, V>)
    requires Sorted(comp, Pairs(Plug(c, Node(l, i, r))))
    ensures forall k :: 0 <= k < |Pairs(l)| ==> comp(Pairs(l)[k].0, i.key) <= 0
    ensures forall k :: 0 <= k < |Pairs(r)| ==> comp(i.key, Pairs(r)[k].0) <= 0
  {
    var s, e := Pairs(Plug(c, Node(l, i, r))), (i.key, i.value);
    PlugPairs(c, Node(l, i, r));
    var b, pl, pr := |Before(c)|, Pairs(l), Pairs(r);
    assert s == Before(c) + (pl + [e] + pr) + After(c);
    assert s[b + |pl|] == e;
    forall k | 0 <= k < |pl| ensures comp(pl[k].0, i.key) <= 0 { assert s[b + k] == pl[k]; }
    forall k | 0 <= k < |pr| ensures comp(i.key, pr[k].0) <= 0 { assert s[b + |pl| + 1 + k] == pr[k]; }
  }

  lemma RightBounds<K(!new), V>(comp: (K, K) -> int, key: K, at: K, s: seq<(K, V)>)
    requires Ordering(comp) && comp(key, at) <= 0 && forall k :: 0 <= k < |s| ==> comp(at, s[k].0) <= 0
    ensures NoneLess(comp, s, key) && (comp(key, at) < 0 ==> AllMore(comp, s, key))
  {
    forall k | 0 <= k < |s| ensures comp(key, s[k].0) <= 0 && (comp(key, at) < 0 ==> comp(key, s[k].0) < 0) {
      Follow(comp, key, at, s[k].0);
    }
  }

  lemma JoinBounds<K, V>(comp: (K, K) -> int, key: K, a: seq<(K, V)>, b: seq<(K, V)>)
    ensures NoneLess(comp, a + b, key) <==> NoneLess(comp, a, key) && NoneLess(comp, b, key)
    ensures AllMore(comp, a + b, key) <==> AllMore(comp, a, key) && AllMore(comp, b, key)
    ensures AllLess(comp, a + b, key) <==> AllLess(comp, a, key) && AllLess(comp, b, key)
  {
    var s := a + b;
    assert forall k :: 0 <= k < |a| ==> s[k] == a[k];
    assert forall k :: 0 <= k < |b| ==> s[|a| + k] == b[k];
  }

  lemma GoLeft<K(!new), V>(comp: (K, K) -> int, key: K, c: Context<K, V>, l: Tree<K, V>, i: Info<K, V>, r: Tree<K, V>)
    requires Ordering(comp) && Sorted(comp, Pairs(Plug(c, Node(l, i, r)))) && comp(key, i.key) <= 0
    ensures NoneLess(comp, After(c), key) ==> NoneLess(comp, After(In(L, i, r, c)), key)
    ensures comp(key, i.key) < 0 && AllMore(comp, After(c), key) ==> AllMore(comp, After(In(L, i, r, c)), key)
  {
    var e := [(i.key, i.value)];
    NodeBounds(comp, c, l, i, r);
    RightBounds(comp, key, i.key, Pairs(r));
    JoinBounds(comp, key, e, Pairs(r));
    JoinBounds(comp, key, e + Pairs(r), After(c));
  }

  lemma GoRight<K(!new), V>(comp: (K, K) -> int, key: K, c: Context<K, V>, l: Tree<K, V>, i: Info<K, V>, r: Tree<K, V>)
    requires Ordering(comp) && Sorted(comp, Pairs(Plug(c, Node(l, i, r)))) && comp(key, i.key) > 0
             && AllLess(comp, Before(c), key)
    ensures AllLess(comp, Before(In(R, i, l, c)), key)
  {
    NodeBounds(comp, c, l, i, r);
    var pl := Pairs(l);
    forall k | 0 <= k < |pl| ensures comp(key, pl[k].0) > 0 { Follow(comp, key, pl[k].0, i.key); }
    assert Before(In(R, i, l, c)) == Before(c) + (pl + [(i.key, i.value)]);
  }

  lemma Follow<K(!new)>(comp: (K, K) -> int, a: K, b: K, c: K)
    requires Ordering(comp) && comp(b, c) <= 0
    ensures comp(a, b) <= 0 ==> comp(a, c) <= 0
    ensures comp(a, b) < 0 ==> comp(a, c) < 0
    ensures comp(a, c) > 0 ==> comp(a, b) > 0
  {
    assert comp(a, c) >= 0 <==> comp(c, a) <= 0;
    assert comp(a, b) < 0 <==> comp(b, a) > 0;
    assert comp(c, a) <= 0 ==> comp(b, a) <= 0;
  }

  // ----- Search -----

  /** opal_rb_tree_find_node: a node with an equal key, or nill when there is none. */
  method FindNode<K(!new), V>(m: Store<K, V>, comp: (K, K) -> int, key: K, ghost tree: Tree<K, V>)
    returns (node: nat, ghost c: Context<K, V>, ghost t: Tree<K, V>)
    requires Ordering(comp) && Good(m, Top, tree) && Sorted(comp, Pairs(tree))
    ensures Good(m, c, t) && Plug(c, t) == tree && node == Id(t)
    ensures AllLess(comp, Before(c), key) && AllMore(comp, After(c), key)
    ensures t.Node? ==> comp(key, t.info.key) == 0
  {
    c, t := Top, tree;
    node := m[ROOT].left;
    while node != NILL
      invariant Good(m, c, t) && Plug(c, t) == tree && node == Id(t)
      invariant AllLess(comp, Before(c), key) && AllMore(comp, After(c), key)
      decreases t
    {
      ghost var l, i, r := t.left, t.info, t.right;
      assert t == Node(l, i, r);
      var compvalue := comp(key, m[node].key);
      if compvalue == 0 {
        return;
      }
      if compvalue < 0 {
        GoLeft(comp, key, c, l, i, r);
        FocusUp(m, L, i, l, r, c);
        node := m[node].left;
        c, t := In(L, i, r, c), l;
      } else {
        GoRight(comp, key, c, l, i, r);
        FocusUp(m, R, i, r, l, c);
        node := m[node].right;
        c, t := In(R, i, l, c), r;
      }
    }
  }

  /** An equal key in the contents can only be in the hole that the search ended at. */
  lemma Absent<K(!new), V>(comp: (K, K) -> int, key: K, c: Context<K, V>, t: Tree<K, V>)
    requires AllLess(comp, Before(c), key) && AllMore(comp, After(c), key) && t.Leaf?
    ensures forall k :: 0 <= k < |Pairs(Plug(c, t))| ==> comp(key, Pairs(Plug(c, t))[k].0) != 0
  {
    PlugPairs(c, t);
  }

  // ----- Insertion -----

  function Hole<K, V>(c: Context<K, V>): Side { if c.Top? then L else c.side }

  lemma ContextSet<K, V>(m: Store<K, V>, c: Context<K, V>, h: nat, h': nat)
    requires TidyContext(c) && SpellsContext(m, c, h)
    ensures Up(c) in m && SpellsContext(m[Up(c) := SetKid(m[Up(c)], Hole(c), h')], c, h')
  {
    if c.In? {
      var m' := m[Up(c) := SetKid(m[Up(c)], Hole(c), h')];
      SentinelFreeContext(c);
      SpellsFrame(m, m', {c.info.id}, c.other, c.info.id);
      ContextFrame(m, m', {c.info.id}, c.up, c.info.id);
    }
  }

  /** A new leaf node in an empty hole. */
  lemma LeafLinked<K, V>(m: Store<K, V>, c: Context<K, V>, i: Info<K, V>)
    requires Good(m, c, Leaf) && i.id > ROOT && i.id !in ContextIds(c)
    ensures Up(c) in m
    ensures var m1 := m[i.id := CellOf(i, L, NILL, NILL, Up(c))];
            Good(m1[Up(c) := SetKid(m1[Up(c)], Hole(c), i.id)], c, Node(Leaf, i, Leaf))
  {
    var m1: Store<K, V> := m[i.id := CellOf(i, L, NILL, NILL, Up(c))];
    ContextFrame(m, m1, {i.id}, c, NILL);
    SentinelsSame(m, m1, {i.id});
    ContextSet(m1, c, NILL, i.id);
    SentinelFreeContext(c);
    var m2: Store<K, V> := m1[Up(c) := SetKid(m1[Up(c)], Hole(c), i.id)];
    assert Sentinels(m2) && i.id in m2 && m2[i.id] == CellOf(i, L, NILL, NILL, Up(c));
    var t := Node(Leaf, i, Leaf);
    assert Ids(t) == {i.id} && Ids(t) !! ContextIds(c);
    assert Tidy(t) && Spells(m2, t, Up(c));
  }

  /** btree_insert: the new node goes to the left of the first key that is not less. */
  method Attach<K(!new), V>(m: Store<K, V>, comp: (K, K) -> int, node: nat, key: K, value: V, ghost tree: Tree<K, V>)
    returns (m': Store<K, V>, ghost c: Context<K, V>)
    requires Ordering(comp) && Good(m, Top, tree) && Sorted(comp, Pairs(tree)) && node > ROOT && node !in Ids(tree)
    ensures Good(m', c, Node(Leaf, Info(node, Red, key, value), Leaf)) && Plug(c, Leaf) == tree
    ensures AllLess(comp, Before(c), key) && NoneLess(comp, After(c), key)
  {
    c := Top;
    ghost var t := tree;
    var parent := ROOT;
    var n := m[parent].left;
    while n != NILL
      invariant Good(m, c, t) && Plug(c, t) == tree && n == Id(t) && parent == Up(c)
      invariant c.In? ==> (c.side == L <==> comp(key, c.info.key) <= 0) && parent in m && m[parent].key == c.info.key
      invariant AllLess(comp, Before(c), key) && NoneLess(comp, After(c), key)
      decreases t
    {
      ghost var l, i, r := t.left, t.info, t.right;
      assert t == Node(l, i, r);
      parent := n;
      if comp(key, m[n].key) <= 0 {
        GoLeft(comp, key, c, l, i, r);
        FocusUp(m, L, i, l, r, c);
        n := m[n].left;
        c, t := In(L, i, r, c), l;
      } else {
        GoRight(comp, key, c, l, i, r);
        FocusUp(m, R, i, r, l, c);
        n := m[n].right;
        c, t := In(R, i, l, c), r;
      }
    }
    PlugIds(c, t);
    LeafLinked(m, c, Info(node, Red, key, value));
    SentinelFreeContext(c);
    var side := if parent == ROOT || comp(key, m[parent].key) <= 0 then L else R;
    m' := m[node := Cell(Red, key, value, NILL, NILL, parent)];
    m' := m'[parent := SetKid(m'[parent], side, node)];
  }

  // ----- Deletion -----

  /** btree_successor of a node with a right child: the leftmost node of that subtree. */
  method Successor<K, V>(m: Store<K, V>, first: nat, ghost base: Context<K, V>, ghost r: Tree<K, V>)
    returns (d: nat, ghost c: Context<K, V>, ghost t: Tree<K, V>)
    requires Good(m, base, r) && r.Node? && first == r.info.id
    ensures Good(m, Nest(c, base), t) && Plug(c, t) == r && t.Node? && t.left.Leaf? && d == t.info.id && Before(c) == []
  {
    d, c, t := first, Top, r;
    while m[d].left != NILL
      invariant Good(m, Nest(c, base), t) && Plug(c, t) == r && t.Node? && d == t.info.id && Before(c) == []
      decreases t
    {
      SentinelFree(t.left);
      FocusUp(m, L, t.info, t.left, t.right, Nest(c, base));
      d := m[d].left;
      c, t := In(L, t.info, t.right, c), t.left;
    }
    SentinelFree(t.left);
  }

  /** The only child of a node, or nothing. */
  ghost function OnlyChild<K, V>(t: Tree<K, V>): Tree<K, V> requires t.Node?
  {
    if t.left.Leaf? then t.right else t.left
  }

  lemma ChildMoves<K, V>(m: Store<K, V>, c: Context<K, V>, t: Tree<K, V>, k: Tree<K, V>)
    requires Good(m, c, t) && t.Node? && k == OnlyChild(t)
    ensures Id(k) in m && Id(k) != t.info.id && Id(k) != Up(c) && t.info.id != Up(c) && Id(k) != ROOT
    ensures var m1 := m[Id(k) := m[Id(k)].(parent := Up(c))];
            Sentinels(m1) && Spells(m1, k, Up(c)) && SpellsContext(m1, c, t.info.id)
  {
    SentinelFreeContext(c);
    ColourRead(m, k, t.info.id);
    var m1 := m[Id(k) := m[Id(k)].(parent := Up(c))];
    if k.Node? { Reparent(m, k, t.info.id, Up(c)); }
    ContextFrame(m, m1, {Id(k)}, c, t.info.id);
  }

  lemma ChildLinked<K, V>(m: Store<K, V>, c: Context<K, V>, d: nat, k: Tree<K, V>)
    requires Sentinels(m) && Spells(m, k, Up(c)) && SpellsContext(m, c, d) && TidyContext(c) && Tidy(k)
             && Ids(k) !! ContextIds(c)
    requires d > ROOT && (c.In? ==> d != Id(c.other)) && Id(k) in m && m[Id(k)].parent == Up(c) && Id(k) != Up(c)
    ensures Up(c) in m && Good(Relink(m, Up(c), d, Id(k)), c, k) && Relink(m, Up(c), d, Id(k))[Id(k)].parent == Up(c)
  {
    SentinelFree(k);
    SentinelFreeContext(c);
    ContextRelink(m, c, d, Id(k));
    SpellsFrame(m, Relink(m, Up(c), d, Id(k)), {Up(c)}, k, Up(c));
  }

  /** A node with at most one child is taken out, its child put in its place. */
  method Splice<K, V>(m: Store<K, V>, d: nat, ghost c: Context<K, V>, ghost t: Tree<K, V>)
    returns (m': Store<K, V>, y: nat)
    requires Good(m, c, t) && t.Node? && (t.left.Leaf? || t.right.Leaf?) && d == t.info.id
    ensures Good(m', c, OnlyChild(t)) && y == Id(OnlyChild(t)) && m'[y].parent == Up(c)
    ensures d in m' && m'[d] == m[d]
  {
    ghost var k := OnlyChild(t);
    SentinelFree(t.left);
    ChildMoves(m, c, t, k);
    y := if m[d].left == NILL then m[d].right else m[d].left;
    m' := m[y := m[y].(parent := m[d].parent)];
    ChildLinked(m', c, d, k);
    SentinelFreeContext(c);
    var p := m'[y].parent;
    if p == ROOT {
      m' := m'[ROOT := m'[ROOT].(left := y)];
    } else if d == m'[p].left {
      m' := m'[p := m'[p].(left := y)];
    } else {
      m' := m'[p := m'[p].(right := y)];
    }
  }

  /** The successor's entry goes to p, wherever below p the hole is. */
  lemma CopyEntry<K, V>(m: Store<K, V>, c: Context<K, V>, p: Info<K, V>, lp: Tree<K, V>, up: Context<K, V>,
                        k: Tree<K, V>, p': Info<K, V>)
    requires Good(m, Nest(c, In(R, p, lp, up)), k) && p'.id == p.id && p'.color == p.color
    ensures p.id in m
    ensures var m' := m[p.id := m[p.id].(key := p'.key, value := p'.value)];
            Good(m', Nest(c, In(R, p', lp, up)), k) && m'[NILL] == m[NILL]
  {
    Zip(m, c, In(R, p, lp, up), k);
    FocusUp(m, R, p, Plug(c, k), lp, up);
    Restamp(m, up, Node(lp, p, Plug(c, k)), p');
    var m' := m[p.id := m[p.id].(key := p'.key, value := p'.value)];
    assert m[p.id].color == p.color;
    assert m' == m[p.id := m[p.id].(color := p'.color, key := p'.key, value := p'.value)];
    FocusUp(m', R, p', Plug(c, k), lp, up);
    Zip(m', c, In(R, p', lp, up), k);
    SentinelsSame(m, m', {p.id});
  }

  /** The fix-up, when a black node was taken out. */
  method Rebalance<K, V>(m: Store<K, V>, y: nat, color: Color, ghost c: Context<K, V>, ghost t: Tree<K, V>)
    returns (m': Store<K, V>, ghost whole: Tree<K, V>)
    requires t.Node? && (t.left.Leaf? || t.right.Leaf?) && color == t.info.color && RedBlack(Plug(c, t))
    requires Good(m, c, OnlyChild(t)) && y == Id(OnlyChild(t)) && m[y].parent == Up(c)
    ensures Good(m', Top, whole) && RedBlack(whole) && Alike(whole, Plug(c, OnlyChild(t)))
  {
    ghost var k, h := OnlyChild(t), Height(t);
    ghost var s := if t.left.Leaf? then R else L;
    UnplugBalanced(c, t);
    assert t == Make(s, t.info, k, Leaf);
    Shorten(s, t.info, k, c, h);
    m', whole := m, Plug(c, k);
    if color == Black {
      m', whole := RbDelete.Fixup(m, y, c, k, h - 1);
    } else {
      PlugBalanced(c, k, h);
      Whole(m, c, k);
    }
  }

  function Without<T>(s: seq<T>, k: nat): seq<T> requires k < |s| { s[..k] + s[k + 1..] }

  lemma WithoutSorted<K, V>(comp: (K, K) -> int, s: seq<(K, V)>, k: nat)
    requires k < |s| && Sorted(comp, s)
    ensures Sorted(comp, Without(s, k))
  {}

  lemma WithSorted<K(!new), V>(comp: (K, K) -> int, a: seq<(K, V)>, e: (K, V), b: seq<(K, V)>)
    requires Ordering(comp) && Sorted(comp, a + b) && AllLess(comp, a, e.0) && NoneLess(comp, b, e.0)
    ensures Sorted(comp, a + [e] + b)
  {
    var s, s' := a + b, a + [e] + b;
    forall i, j | 0 <= i < j < |s'| ensures comp(s'[i].0, s'[j].0) <= 0 {
      if i != |a| && j != |a| {
        var i', j' := if i < |a| then i else i - 1, if j < |a| then j else j - 1;
        assert s'[i] == s[i'] && s'[j] == s[j'];
      }
    }
  }

  /** The last statement of an insertion: the root is painted black. */
  method BlackRoot<K, V>(m: Store<K, V>, ghost c: Context<K, V>, ghost t: Tree<K, V>, ghost h: nat)
    returns (m': Store<K, V>, ghost whole: Tree<K, V>)
    requires Good(m, c, t) && RedHole(c, t, h) && ParentBlack(c)
    ensures Good(m', Top, whole) && RedBlack(whole) && Alike(whole, Plug(c, t))
  {
    Whole(m, c, t);
    ghost var w := Plug(c, t);
    if c.In? {
      RootBlack(c, t, h);
      PlugBalanced(c, t, h);
    }
    m' := Coloured(m, m[ROOT].left, Black);
    whole := Node(w.left, Painted(w.info, Black), w.right);
    PaintHere(m, Top, L, w.info, w.left, w.right, Black);
    HeightUnique(whole, if c.In? then Height(w) else h + 1);
  }

  /** Deletion of a node with at most one child. */
  method DeleteHere<K, V>(m: Store<K, V>, d: nat, ghost c: Context<K, V>, ghost t: Tree<K, V>)
    returns (m': Store<K, V>, ghost whole: Tree<K, V>)
    requires Good(m, c, t) && t.Node? && (t.left.Leaf? || t.right.Leaf?) && d == t.info.id && RedBlack(Plug(c, t))
    ensures Good(m', Top, whole) && RedBlack(whole)
    ensures Pairs(whole) == Before(c) + (Pairs(t.left) + Pairs(t.right)) + After(c)
    ensures Ids(whole) == Ids(Plug(c, t)) - {d}
  {
    var y;
    m', y := Splice(m, d, c, t);
    m', whole := Rebalance(m', y, m'[d].color, c, t);
    PlugPairs(c, OnlyChild(t));
    PlugIds(c, OnlyChild(t));
    PlugIds(c, t);
    assert Pairs(OnlyChild(t)) == Pairs(t.left) + Pairs(t.right);
  }

  /** Taking the leftmost node out of a subtree takes the first entry out. */
  lemma FirstOut<K, V>(c: Context<K, V>, t: Tree<K, V>)
    requires t.Node? && t.left.Leaf? && Before(c) == []
    ensures Pairs(Plug(c, t)) == [(t.info.key, t.info.value)] + Pairs(Plug(c, OnlyChild(t)))
  {
    PlugPairs(c, t);
    PlugPairs(c, OnlyChild(t));
    var e := [(t.info.key, t.info.value)];
    assert Pairs(t) == e + Pairs(t.right);
    assert [] + (e + Pairs(t.right)) + After(c) == e + ([] + Pairs(t.right) + After(c));
  }

  /** Colours do not depend on keys. */
  lemma Relabel<K, V>(c: Context<K, V>, t: Tree<K, V>, i: Info<K, V>)
    requires t.Node? && RedBlack(Plug(c, t)) && i.color == t.info.color
    ensures RedBlack(Plug(c, Node(t.left, i, t.right)))
  {
    UnplugBalanced(c, t);
    PlugBalanced(c, Node(t.left, i, t.right), Height(t));
  }

  lemma {:induction false} NestIds<K, V>(c: Context<K, V>, base: Context<K, V>)
    ensures ContextIds(Nest(c, base)) == ContextIds(c) + ContextIds(base)
  {
    if c.In? { NestIds(c.up, base); }
  }

  lemma OwnCell<K, V>(m: Store<K, V>, c: Context<K, V>, t: Tree<K, V>)
    requires Good(m, c, t) && t.Node?
    ensures t.info.id in m && m[t.info.id].key == t.info.key && m[t.info.id].value == t.info.value
            && m[t.info.id].color == t.info.color
    ensures t.info.id > ROOT && t.info.id !in Ids(OnlyChild(t)) && t.info.id !in ContextIds(c)
            && Ids(t) !! ContextIds(c) && NILL !in ContextIds(c)
  {
    SentinelFreeContext(c);
  }

  lemma ChildOutside<K, V>(m: Store<K, V>, c: Context<K, V>, t: Tree<K, V>)
    requires Good(m, c, t) && t.Node?
    ensures Id(OnlyChild(t)) !in ContextIds(c)
  {
    SentinelFreeContext(c);
    var k := OnlyChild(t);
    assert k.Node? ==> k.info.id in Ids(t);
  }

  lemma NestedIds<K, V>(cd: Context<K, V>, p: Info<K, V>, l: Tree<K, V>, c: Context<K, V>)
    ensures ContextIds(Nest(cd, In(R, p, l, c))) == ContextIds(cd) + Ids(l) + {p.id} + ContextIds(c)
  {
    NestIds(cd, In(R, p, l, c));
  }

  lemma BelowPairs<K, V>(c: Context<K, V>, l: Tree<K, V>, p': Info<K, V>, cd: Context<K, V>, td: Tree<K, V>)
    requires td.Node? && td.left.Leaf? && Before(cd) == [] && p'.key == td.info.key && p'.value == td.info.value
    ensures Pairs(Plug(c, Node(l, p', Plug(cd, OnlyChild(td)))))
            == Before(c) + (Pairs(l) + Pairs(Plug(cd, td))) + After(c)
  {
    var k, e := OnlyChild(td), [(p'.key, p'.value)];
    FirstOut(cd, td);
    PlugPairs(c, Node(l, p', Plug(cd, k)));
    Rejoin(Pairs(l), e, Pairs(Plug(cd, k)), []);
    assert Pairs(l) + e + Pairs(Plug(cd, k)) == Pairs(l) + (e + Pairs(Plug(cd, k)));
  }

  lemma BelowIds<K, V>(c: Context<K, V>, l: Tree<K, V>, p: Info<K, V>, p': Info<K, V>, cd: Context<K, V>,
                       td: Tree<K, V>)
    requires td.Node? && td.left.Leaf? && p'.id == p.id
             && td.info.id !in ContextIds(cd) + Ids(l) + {p.id} + ContextIds(c)
    requires td.info.id !in Ids(OnlyChild(td))
    ensures var d, w := td.info.id, Plug(c, Node(l, p, Plug(cd, td)));
            d in Ids(w) && Ids(Plug(c, Node(l, p', Plug(cd, OnlyChild(td))))) == Ids(w) - {d}
  {
    var k, d := OnlyChild(td), td.info.id;
    assert Ids(td) == Ids(k) + {d};
    PlugIds(cd, td);
    PlugIds(cd, k);
    PlugIds(c, Node(l, p', Plug(cd, k)));
    PlugIds(c, Node(l, p, Plug(cd, td)));
  }

  /** Deletion of a node with two children: its successor's entry moves up and the successor's node goes. */
  method DeleteBelow<K, V>(m: Store<K, V>, p: nat, ghost c: Context<K, V>, ghost t: Tree<K, V>)
    returns (m': Store<K, V>, d: nat, ghost whole: Tree<K, V>)
    requires Good(m, c, t) && t.Node? && t.right.Node? && p == t.info.id && RedBlack(Plug(c, t))
    ensures Good(m', Top, whole) && RedBlack(whole)
    ensures Pairs(whole) == Before(c) + (Pairs(t.left) + Pairs(t.right)) + After(c)
    ensures d in Ids(Plug(c, t)) && Ids(whole) == Ids(Plug(c, t)) - {d}
  {
    ghost var l, pi, r := t.left, t.info, t.right;
    FocusUp(m, R, pi, r, l, c);
    ghost var cd, td;
    d, cd, td := Successor(m, m[p].right, In(R, pi, l, c), r);
    ChildOutside(m, Nest(cd, In(R, pi, l, c)), td);
    NestedIds(cd, pi, l, c);
    OwnCell(m, Nest(cd, In(R, pi, l, c)), td);
    ghost var pi' := pi.(key := td.info.key, value := td.info.value);
    var y;
    m', y := Splice(m, d, Nest(cd, In(R, pi, l, c)), td);
    CopyEntry(m', cd, pi, l, c, OnlyChild(td), pi');
    m' := m'[p := m'[p].(key := m'[d].key, value := m'[d].value)];
    Relabel(c, t, pi');
    PlugNest(cd, In(R, pi', l, c), td);
    assert Plug(Nest(cd, In(R, pi', l, c)), td) == Plug(c, Node(l, pi', r));
    m', whole := Rebalance(m', y, m'[d].color, Nest(cd, In(R, pi', l, c)), td);
    PlugNest(cd, In(R, pi', l, c), OnlyChild(td));
    BelowPairs(c, l, pi', cd, td);
    BelowIds(c, l, pi, pi', cd, td);
  }

  // ----- The tree object -----

  /** s' is s with (key, value) put before everything that is not less. */
  ghost predicate AddedFirst<K, V>(comp: (K, K) -> int, s: seq<(K, V)>, s': seq<(K, V)>, key: K, value: V)
  {
    exists k :: 0 <= k <= |s| && s' == s[..k] + [(key, value)] + s[k..] && AllLess(comp, s[..k], key)
      && NoneLess(comp, s[k..], key)
  }

  /** s' is s without one entry that compares equal to key. */
  ghost predicate RemovedOne<K, V>(comp: (K, K) -> int, s: seq<(K, V)>, s': seq<(K, V)>, key: K)
  {
    exists k :: 0 <= k < |s| && comp(key, s[k].0) == 0 && s' == Without(s, k)
  }

  ghost predicate Missing<K, V>(comp: (K, K) -> int, s: seq<(K, V)>, key: K)
  {
    forall k :: 0 <= k < |s| ==> comp(key, s[k].0) != 0
  }

  /** What a store that spells a search tree satisfies. */
  ghost predicate Search<K, V>(comp: (K, K) -> int, m: Store<K, V>, t: Tree<K, V>)
  {
    Good(m, Top, t) && RedBlack(t) && Sorted(comp, Pairs(t))
  }

  lemma AddedBetween<K, V>(comp: (K, K) -> int, a: seq<(K, V)>, b: seq<(K, V)>, key: K, value: V)
    requires AllLess(comp, a, key) && NoneLess(comp, b, key)
    ensures AddedFirst(comp, a + b, a + [(key, value)] + b, key, value)
  {
    var s := a + b;
    assert s[..|a|] == a && s[|a|..] == b;
  }

  lemma InsertedPairs<K, V>(c: Context<K, V>, n: nat, key: K, value: V)
    ensures Pairs(Plug(c, Leaf)) == Before(c) + After(c)
    ensures Pairs(Plug(c, Node(Leaf, Info(n, Red, key, value), Leaf))) == Before(c) + [(key, value)] + After(c)
    ensures Ids(Plug(c, Node(Leaf, Info(n, Red, key, value), Leaf))) == Ids(Plug(c, Leaf)) + {n}
  {
    var t := Node(Leaf, Info(n, Red, key, value), Leaf);
    PlugPairs(c, Leaf);
    PlugPairs(c, t);
    PlugIds(c, Leaf);
    PlugIds(c, t);
    assert Pairs(t) == [(key, value)];
  }

  lemma Inserted<K(!new), V>(comp: (K, K) -> int, c: Context<K, V>, n: nat, key: K, value: V)
    requires Ordering(comp) && Sorted(comp, Pairs(Plug(c, Leaf))) && AllLess(comp, Before(c), key)
             && NoneLess(comp, After(c), key)
    ensures var was, w := Plug(c, Leaf), Plug(c, Node(Leaf, Info(n, Red, key, value), Leaf));
            AddedFirst(comp, Pairs(was), Pairs(w), key, value) && Sorted(comp, Pairs(w)) && Ids(w) == Ids(was) + {n}
  {
    InsertedPairs(c, n, key, value);
    WithSorted(comp, Before(c), (key, value), After(c));
    AddedBetween(comp, Before(c), After(c), key, value);
  }

  /** Insertion on the store. */
  method Add<K(!new), V>(m: Store<K, V>, comp: (K, K) -> int, node: nat, key: K, value: V, ghost tree: Tree<K, V>)
    returns (m': Store<K, V>, ghost whole: Tree<K, V>)
    requires Ordering(comp) && Search(comp, m, tree) && node > ROOT && node !in Ids(tree)
    ensures Search(comp, m', whole) && Ids(whole) == Ids(tree) + {node}
    ensures AddedFirst(comp, Pairs(tree), Pairs(whole), key, value)
  {
    ghost var c, t, h;
    m', c := Attach(m, comp, node, key, value, tree);
    Inserted(comp, c, node, key, value);
    UnplugBalanced(c, Leaf);
    m', c, t, h := RbInsert.Fixup(m', node, c, Node(Leaf, Info(node, Red, key, value), Leaf), 0);
    m', whole := BlackRoot(m', c, t, h);
  }

  lemma Cut<T>(b: seq<T>, l: seq<T>, e: T, r: seq<T>, a: seq<T>, s: seq<T>)
    requires s == b + (l + [e] + r) + a
    ensures |b| + |l| < |s| && s[|b| + |l|] == e && b + (l + r) + a == Without(s, |b| + |l|)
  {
    var k := |b| + |l|;
    assert s == (b + l) + [e] + (r + a);
    assert s[..k] == b + l && s[k + 1..] == r + a;
  }

  lemma Removed<K, V>(comp: (K, K) -> int, key: K, c: Context<K, V>, t: Tree<K, V>)
    requires t.Node? && Sorted(comp, Pairs(Plug(c, t))) && comp(key, t.info.key) == 0
    ensures var s, s' := Pairs(Plug(c, t)), Before(c) + (Pairs(t.left) + Pairs(t.right)) + After(c);
            Sorted(comp, s') && RemovedOne(comp, s, s', key) && !Missing(comp, s, key)
  {
    var s, k := Pairs(Plug(c, t)), |Before(c)| + |Pairs(t.left)|;
    PlugPairs(c, t);
    Cut(Before(c), Pairs(t.left), (t.info.key, t.info.value), Pairs(t.right), After(c), s);
    WithoutSorted(comp, s, k);
    assert comp(key, s[k].0) == 0;
  }

  /** Deletion on the store. */
  method Remove<K(!new), V>(m: Store<K, V>, comp: (K, K) -> int, key: K, ghost tree: Tree<K, V>)
    returns (m': Store<K, V>, freed: Option<nat>, ghost whole: Tree<K, V>)
    requires Ordering(comp) && Search(comp, m, tree)
    ensures Search(comp, m', whole) && (freed == None <==> Missing(comp, Pairs(tree), key))
    ensures freed == None ==> whole == tree && m' == m
    ensures freed.Some? ==>
              && freed.value in Ids(tree) && Ids(whole) == Ids(tree) - {freed.value}
              && RemovedOne(comp, Pairs(tree), Pairs(whole), key)
  {
    ghost var c, t;
    var p;
    p, c, t := FindNode(m, comp, key, tree);
    if p == NILL {
      SentinelFree(t);
      Absent(comp, key, c, t);
      return m, None, tree;
    }
    Removed(comp, key, c, t);
    OwnCell(m, c, t);
    var d := p;
    SentinelFree(t.left);
    SentinelFree(t.right);
    if m[p].left == NILL || m[p].right == NILL {
      PlugIds(c, t);
      m', whole := DeleteHere(m, p, c, t);
    } else {
      m', d, whole := DeleteBelow(m, p, c, t);
    }
    freed := Some(d);
  }

  class RedBlackTree<K(!new), V> {
    const comp: (K, K) -> int
    var mem: Store<K, V>
    var size: nat
    ghost var tree: Tree<K, V>

    /** Linked both ways, coloured by the rules, sorted, and counted. */
    ghost predicate Valid()
      reads this
    {
      Ordering(comp) && Search(comp, mem, tree) && size == |Pairs(tree)|
    }

    /** The entries in order. */
    ghost function Contents(): seq<(K, V)>
      reads this
    {
      Pairs(tree)
    }

    /** opal_rb_tree_init; the sentinels' keys and values are never read. */
    constructor (comp: (K, K) -> int, key: K, value: V)
      requires Ordering(comp)
      ensures Valid() && Contents() == [] && this.comp == comp
    {
      this.comp := comp;
      mem := map[NILL := Cell(Black, key, value, NILL, NILL, NILL), ROOT := Cell(Black, key, value, NILL, NILL, NILL)];
      size := 0;
      tree := Leaf;
    }

    /** opal_rb_tree_find_with the tree's own comparison: the value of an entry with an equal key, if there is one. */
    method Find(key: K) returns (r: Option<V>)
      requires Valid()
      ensures r.None? <==> Missing(comp, Contents(), key)
      ensures r.Some? ==> exists k :: 0 <= k < |Contents()| && comp(key, Contents()[k].0) == 0
                                   && Contents()[k].1 == r.value
    {
      ghost var c, t;
      var node;
      node, c, t := FindNode(mem, comp, key, tree);
      if node == NILL {
        SentinelFree(t);
        Absent(comp, key, c, t);
        return None;
      }
      PlugPairs(c, t);
      Cut(Before(c), Pairs(t.left), (t.info.key, t.info.value), Pairs(t.right), After(c), Contents());
      OwnCell(mem, c, t);
      return Some(mem[node].value);
    }

    /** opal_rb_tree_insert with the node the free list gave, if any: the pair goes before all equal keys. */
    method Insert(node: Option<nat>, key: K, value: V) returns (ok: bool)
      requires Valid() && (node.Some? ==> node.value > ROOT && node.value !in Ids(tree))
      modifies this
      ensures Valid() && ok == node.Some?
      ensures !ok ==> Contents() == old(Contents()) && mem == old(mem) && tree == old(tree)
      ensures ok ==>
                AddedFirst(comp, old(Contents()), Contents(), key, value) && Ids(tree) == old(Ids(tree)) + {node.value}
    {
      if node.None? {
        return false;
      }
      var m;
      ghost var whole;
      m, whole := Add(mem, comp, node.value, key, value, tree);
      mem, tree, size := m, whole, size + 1;
      return true;
    }

    /** opal_rb_tree_delete: one entry with an equal key goes, and a node goes back to the free list. */
    method Delete(key: K) returns (freed: Option<nat>)
      requires Valid()
      modifies this
      ensures Valid() && (freed == None <==> Missing(comp, old(Contents()), key))
      ensures freed == None ==> mem == old(mem) && tree == old(tree)
      ensures freed.Some? ==> RemovedOne(comp, old(Contents()), Contents(), key)
      ensures freed.Some? ==> freed.value in old(Ids(tree)) && Ids(tree) == old(Ids(tree)) - {freed.value}
    {
      var m;
      ghost var whole;
      m, freed, whole := Remove(mem, comp, key, tree);
      mem, tree := m, whole;
      if freed.Some? {
        size := size - 1;
      }
    }
  }
}
