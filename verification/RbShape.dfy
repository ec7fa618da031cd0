/**
 * The nodes of opal_rb_tree.c as cells of a store, the ordered trees they spell, and trees with a hole.  The hole
 * is where the fix-up loops are working: a context says what surrounds it.
 */
module RbShape {

  datatype Color = Red | Black

  datatype Side = L | R

  function Other(s: Side): Side { if s == L then R else L }

  /** The two sentinels: nill, and the node whose left child is the real root. */
  const NILL: nat := 0
  const ROOT: nat := 1

  /** opal_rb_tree_node_t. */
  datatype Cell<K, V> = Cell(color: Color, key: K, value: V, left: nat, right: nat, parent: nat)

  type Store<K, V> = map<nat, Cell<K, V>>

  function Kid<K, V>(c: Cell<K, V>, s: Side): nat { if s == L then c.left else c.right }

  function SetKid<K, V>(c: Cell<K, V>, s: Side, n: nat): Cell<K, V>
  {
    if s == L then c.(left := n) else c.(right := n)
  }

  // ----- Trees and contexts -----

  /** A node without its links. */
  datatype Info<K, V> = Info(id: nat, color: Color, key: K, value: V)

  datatype Tree<K, V> = Leaf | Node(left: Tree<K, V>, info: Info<K, V>, right: Tree<K, V>)

  /** A tree with a hole: the hole is the child on one side of info, whose other child is other. */
  datatype Context<K, V> = Top | In(side: Side, info: Info<K, V>, other: Tree<K, V>, up: Context<K, V>)

  function Depth<K, V>(c: Context<K, V>): nat { if c.Top? then 0 else 1 + Depth(c.up) }

  /** The node with child t on side s and child o on the other side. */
  function Make<K, V>(s: Side, i: Info<K, V>, t: Tree<K, V>, o: Tree<K, V>): Tree<K, V>
  {
    if s == L then Node(t, i, o) else Node(o, i, t)
  }

  function Plug<K, V>(c: Context<K, V>, t: Tree<K, V>): Tree<K, V>
  {
    match c
    case Top => t
    case In(s, i, o, up) => Plug(up, Make(s, i, t, o))
  }

  /** The context c inside the context base. */
  function Nest<K, V>(c: Context<K, V>, base: Context<K, V>): Context<K, V>
  {
    match c
    case Top => base
    case In(s, i, o, up) => In(s, i, o, Nest(up, base))
  }

  function Id<K, V>(t: Tree<K, V>): nat { if t.Leaf? then NILL else t.info.id }
  function Up<K, V>(c: Context<K, V>): nat { if c.Top? then ROOT else c.info.id }

  function Ids<K, V>(t: Tree<K, V>): set<nat>
  {
    match t
    case Leaf => {}
    case Node(l, i, r) => Ids(l) + {i.id} + Ids(r)
  }

  function ContextIds<K, V>(c: Context<K, V>): set<nat>
  {
    match c
    case Top => {}
    case In(_, i, o, up) => Ids(o) + {i.id} + ContextIds(up)
  }

  /** No node occurs twice, and the sentinels are not nodes. */
  ghost predicate Tidy<K, V>(t: Tree<K, V>)
  {
    match t
    case Leaf => true
    case Node(l, i, r) => i.id > ROOT && i.id !in Ids(l) && i.id !in Ids(r) && Ids(l) !! Ids(r) && Tidy(l) && Tidy(r)
  }

  ghost predicate TidyContext<K, V>(c: Context<K, V>)
  {
    match c
    case Top => true
    case In(_, i, o, up) =>
      && i.id > ROOT && i.id !in Ids(o) && i.id !in ContextIds(up) && Ids(o) !! ContextIds(up)
      && Tidy(o) && TidyContext(up)
  }

  // ----- The store spells a tree -----

  /** The cell of node i under parent p. */
  function CellOf<K, V>(i: Info<K, V>, s: Side, kid: nat, other: nat, p: nat): Cell<K, V>
  {
    if s == L then Cell(i.color, i.key, i.value, kid, other, p) else Cell(i.color, i.key, i.value, other, kid, p)
  }

  ghost predicate Spells<K, V>(m: Store<K, V>, t: Tree<K, V>, p: nat)
  {
    match t
    case Leaf => true
    case Node(l, i, r) =>
      i.id in m && m[i.id] == CellOf(i, L, Id(l), Id(r), p) && Spells(m, l, i.id) && Spells(m, r, i.id)
  }

  ghost predicate SpellsContext<K, V>(m: Store<K, V>, c: Context<K, V>, h: nat)
  {
    match c
    case Top => ROOT in m && m[ROOT].left == h
    case In(s, i, o, up) =>
      i.id in m && m[i.id] == CellOf(i, s, h, Id(o), Up(up)) && Spells(m, o, i.id) && SpellsContext(m, up, i.id)
  }

  /** The store spells the tree t in the context c. */
  ghost predicate Focus<K, V>(m: Store<K, V>, c: Context<K, V>, t: Tree<K, V>)
  {
    && Tidy(t) && TidyContext(c) && Ids(t) !! ContextIds(c)
    && Spells(m, t, Up(c)) && SpellsContext(m, c, Id(t))
  }

  /** nill is black and leads nowhere, and the root's parent is black. */
  ghost predicate Sentinels<K, V>(m: Store<K, V>)
  {
    && NILL in m && m[NILL].color == Black && m[NILL].left == NILL && m[NILL].right == NILL
    && ROOT in m && m[ROOT].color == Black && m[ROOT].right == NILL
  }

  lemma SpellsMake<K, V>(m: Store<K, V>, s: Side, i: Info<K, V>, t: Tree<K, V>, o: Tree<K, V>, p: nat)
    ensures Spells(m, Make(s, i, t, o), p) <==>
            i.id in m && m[i.id] == CellOf(i, s, Id(t), Id(o), p) && Spells(m, t, i.id) && Spells(m, o, i.id)
  {}

  lemma TidyMake<K, V>(s: Side, i: Info<K, V>, t: Tree<K, V>, o: Tree<K, V>)
    ensures Tidy(Make(s, i, t, o)) <==>
            i.id > ROOT && i.id !in Ids(t) && i.id !in Ids(o) && Ids(t) !! Ids(o) && Tidy(t) && Tidy(o)
    ensures Ids(Make(s, i, t, o)) == Ids(t) + {i.id} + Ids(o)
  {}

  // ----- Moving the focus -----

  lemma FocusUp<K, V>(m: Store<K, V>, s: Side, i: Info<K, V>, t: Tree<K, V>, o: Tree<K, V>, up: Context<K, V>)
    ensures Focus(m, In(s, i, o, up), t) <==> Focus(m, up, Make(s, i, t, o))
  {}

  lemma {:induction false} Zip<K, V>(m: Store<K, V>, c: Context<K, V>, base: Context<K, V>, t: Tree<K, V>)
    ensures Focus(m, Nest(c, base), t) <==> Focus(m, base, Plug(c, t))
    decreases c
  {
    match c
    case Top =>
    case In(s, i, o, up) =>
      FocusUp(m, s, i, t, o, Nest(up, base));
      Zip(m, up, base, Make(s, i, t, o));
  }

  lemma {:induction false} NestTop<K, V>(c: Context<K, V>)
    ensures Nest(c, Top) == c
  {
    if c.In? { NestTop(c.up); }
  }

  lemma {:induction false} PlugNest<K, V>(c: Context<K, V>, base: Context<K, V>, t: Tree<K, V>)
    ensures Plug(Nest(c, base), t) == Plug(base, Plug(c, t))
    decreases c
  {
    if c.In? { PlugNest(c.up, base, Make(c.side, c.info, t, c.other)); }
  }

  /** From anywhere in the tree to the whole of it. */
  lemma Whole<K, V>(m: Store<K, V>, c: Context<K, V>, t: Tree<K, V>)
    ensures Focus(m, c, t) <==> Focus(m, Top, Plug(c, t))
  {
    NestTop(c);
    Zip(m, c, Top, t);
  }

  // ----- Changes of the store -----

  /** Nothing outside s changed. */
  ghost predicate Same<K, V>(m: Store<K, V>, m': Store<K, V>, s: set<nat>)
  {
    forall i :: i in m && i !in s ==> i in m' && m'[i] == m[i]
  }

  lemma {:induction false} SpellsFrame<K, V>(m: Store<K, V>, m': Store<K, V>, s: set<nat>, t: Tree<K, V>, p: nat)
    requires Same(m, m', s) && Ids(t) !! s && Spells(m, t, p)
    ensures Spells(m', t, p)
  {
    if t.Node? {
      SpellsFrame(m, m', s, t.left, t.info.id);
      SpellsFrame(m, m', s, t.right, t.info.id);
    }
  }

  lemma {:induction false} ContextFrame<K, V>(m: Store<K, V>, m': Store<K, V>, s: set<nat>, c: Context<K, V>, h: nat)
    requires Same(m, m', s) && ContextIds(c) !! s && ROOT !in s && SpellsContext(m, c, h)
    ensures SpellsContext(m', c, h)
  {
    if c.In? {
      SpellsFrame(m, m', s, c.other, c.info.id);
      ContextFrame(m, m', s, c.up, c.info.id);
    }
  }

  /** The parent link of a subtree changes with its root's cell alone. */
  lemma Reparent<K, V>(m: Store<K, V>, t: Tree<K, V>, p: nat, p': nat)
    requires Tidy(t) && t.Node? && Spells(m, t, p)
    ensures Spells(m[t.info.id := m[t.info.id].(parent := p')], t, p')
  {
    var m' := m[t.info.id := m[t.info.id].(parent := p')];
    SpellsFrame(m, m', {t.info.id}, t.left, t.info.id);
    SpellsFrame(m, m', {t.info.id}, t.right, t.info.id);
  }

  /** The parent of the hole, whichever side the hole is on, gets a new child. */
  function Relink<K, V>(m: Store<K, V>, p: nat, h: nat, h': nat): Store<K, V>
    requires p in m
  {
    if m[p].left == h then m[p := m[p].(left := h')] else m[p := m[p].(right := h')]
  }

  lemma ContextRelink<K, V>(m: Store<K, V>, c: Context<K, V>, h: nat, h': nat)
    requires TidyContext(c) && SpellsContext(m, c, h) && (c.In? ==> h != Id(c.other))
    ensures Up(c) in m && SpellsContext(Relink(m, Up(c), h, h'), c, h')
  {
    if c.In? {
      var m' := Relink(m, c.info.id, h, h');
      SpellsFrame(m, m', {c.info.id}, c.other, c.info.id);
      ContextFrame(m, m', {c.info.id}, c.up, c.info.id);
    }
  }

  /** A node keeps its place and gets another colour, key or value. */
  lemma Restamp<K, V>(m: Store<K, V>, c: Context<K, V>, t: Tree<K, V>, i: Info<K, V>)
    requires Focus(m, c, t) && t.Node? && i.id == t.info.id
    ensures i.id in m
    ensures Focus(m[i.id := m[i.id].(color := i.color, key := i.key, value := i.value)], c, Node(t.left, i, t.right))
  {
    var m' := m[i.id := m[i.id].(color := i.color, key := i.key, value := i.value)];
    SpellsFrame(m, m', {i.id}, t.left, i.id);
    SpellsFrame(m, m', {i.id}, t.right, i.id);
    ContextFrame(m, m', {i.id}, c, i.id);
  }

  // ----- In-order contents -----

  function Pairs<K, V>(t: Tree<K, V>): seq<(K, V)>
  {
    match t
    case Leaf => []
    case Node(l, i, r) => Pairs(l) + [(i.key, i.value)] + Pairs(r)
  }

  /** What comes before the hole, and after it. */
  function Before<K, V>(c: Context<K, V>): seq<(K, V)>
  {
    match c
    case Top => []
    case In(s, i, o, up) => if s == L then Before(up) else Before(up) + (Pairs(o) + [(i.key, i.value)])
  }

  function After<K, V>(c: Context<K, V>): seq<(K, V)>
  {
    match c
    case Top => []
    case In(s, i, o, up) => if s == L then ([(i.key, i.value)] + Pairs(o)) + After(up) else After(up)
  }

  lemma {:induction false} PlugPairs<K, V>(c: Context<K, V>, t: Tree<K, V>)
    ensures Pairs(Plug(c, t)) == Before(c) + Pairs(t) + After(c)
    decreases c
  {
    match c
    case Top =>
    case In(s, i, o, up) =>
      PlugPairs(up, Make(s, i, t, o));
      var e := [(i.key, i.value)];
      if s == L {
        Rejoin(Before(up), Pairs(t), e + Pairs(o), After(up));
        assert Pairs(t) + e + Pairs(o) == Pairs(t) + (e + Pairs(o));
      } else {
        Rejoin(Before(up), Pairs(o) + e, Pairs(t), After(up));
      }
  }

  lemma Rejoin<T>(a: seq<T>, b: seq<T>, c: seq<T>, d: seq<T>)
    ensures a + (b + c) + d == a + b + (c + d) == (a + b) + c + d
  {}

  /** The same contents, kept in the same nodes. */
  ghost predicate Alike<K, V>(t: Tree<K, V>, t': Tree<K, V>) { Pairs(t) == Pairs(t') && Ids(t) == Ids(t') }

  lemma {:induction false} PlugIds<K, V>(c: Context<K, V>, t: Tree<K, V>)
    ensures Ids(Plug(c, t)) == Ids(t) + ContextIds(c)
    decreases c
  {
    match c
    case Top =>
    case In(s, i, o, up) =>
      PlugIds(up, Make(s, i, t, o));
      TidyMake(s, i, t, o);
  }

  /** Alike in the hole, alike in the whole. */
  lemma PlugAlike<K, V>(c: Context<K, V>, t: Tree<K, V>, t': Tree<K, V>)
    requires Alike(t, t')
    ensures Alike(Plug(c, t), Plug(c, t'))
  {
    PlugPairs(c, t);
    PlugPairs(c, t');
    PlugIds(c, t);
    PlugIds(c, t');
  }
}
