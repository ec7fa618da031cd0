/** The pointer steps of opal_rb_tree.c: rotations, and one turn of each fix-up loop. */
module RbSteps {
  import opened RbShape
  import opened RbBalance

  /** The store with its sentinels spells t in c. */
  ghost predicate Good<K, V>(m: Store<K, V>, c: Context<K, V>, t: Tree<K, V>)
  {
    Sentinels(m) && Focus(m, c, t)
  }

  // ----- Rotation -----

  /** The pieces of a rotation after the subtree b and the parent of x have been relinked. */
  ghost predicate Loose<K, V>(m: Store<K, V>, c: Context<K, V>, h: nat, a: Tree<K, V>, x: nat, b: Tree<K, V>,
                              d: Tree<K, V>, y: nat)
  {
    Spells(m, a, x) && Spells(m, b, x) && Spells(m, d, y) && SpellsContext(m, c, h)
  }

  /** Two nodes, one below the other, share nothing with each other or with what is around them. */
  ghost predicate Apart<K, V>(x: nat, a: Tree<K, V>, y: nat, b: Tree<K, V>, d: Tree<K, V>, out: set<nat>)
  {
    && x > ROOT && y > ROOT && x != y && Tidy(a) && Tidy(b) && Tidy(d)
    && {x, y} !! Ids(a) && {x, y} !! Ids(b) && {x, y} !! Ids(d) && {x, y} !! out
    && Ids(a) !! Ids(b) && Ids(a) !! Ids(d) && Ids(b) !! Ids(d)
    && Ids(a) !! out && Ids(b) !! out && Ids(d) !! out
  }

  lemma TwoApart<K, V>(s: Side, x: Info<K, V>, a: Tree<K, V>, y: Info<K, V>, b: Tree<K, V>, d: Tree<K, V>,
                       out: set<nat>)
    requires Tidy(Make(s, x, a, Make(s, y, b, d))) && Ids(Make(s, x, a, Make(s, y, b, d))) !! out
    ensures Apart(x.id, a, y.id, b, d, out)
  {
    TidyMake(s, x, a, Make(s, y, b, d));
    TidyMake(s, y, b, d);
  }

  lemma TwoCells<K, V>(m: Store<K, V>, p: nat, s: Side, x: Info<K, V>, a: Tree<K, V>, y: Info<K, V>, b: Tree<K, V>,
                       d: Tree<K, V>)
    requires Spells(m, Make(s, x, a, Make(s, y, b, d)), p)
    ensures Spells(m, a, x.id) && Spells(m, b, y.id) && Spells(m, d, y.id)
    ensures x.id in m && y.id in m && m[x.id] == CellOf(x, s, Id(a), y.id, p)
            && m[y.id] == CellOf(y, s, Id(b), Id(d), x.id)
  {
    SpellsMake(m, s, x, a, Make(s, y, b, d), p);
    SpellsMake(m, s, y, b, d, x.id);
  }

  lemma SentinelsSame<K, V>(m: Store<K, V>, m': Store<K, V>, s: set<nat>)
    requires Sentinels(m) && Same(m, m', s) && NILL !in s && ROOT !in s
    ensures Sentinels(m') && m'[NILL] == m[NILL]
  {}

  lemma MiddleMoves<K, V>(m: Store<K, V>, c: Context<K, V>, s: Side, x: Info<K, V>, a: Tree<K, V>, y: Info<K, V>,
                          b: Tree<K, V>, d: Tree<K, V>)
    requires Good(m, c, Make(s, x, a, Make(s, y, b, d)))
    ensures b.Node? ==> b.info.id in m
    ensures var m' := if b.Node? then m[b.info.id := m[b.info.id].(parent := x.id)] else m;
            && Loose(m', c, x.id, a, x.id, b, d, y.id) && x.id in m' && y.id in m' && m'[x.id] == m[x.id]
               && m'[y.id] == m[y.id]
            && Sentinels(m') && m'[NILL] == m[NILL]
  {
    TwoApart(s, x, a, y, b, d, ContextIds(c));
    TwoCells(m, Up(c), s, x, a, y, b, d);
    SentinelFree(b);
    if b.Node? {
      var n := b.info.id;
      var m' := m[n := m[n].(parent := x.id)];
      Reparent(m, b, y.id, x.id);
      SpellsFrame(m, m', {n}, a, x.id);
      SpellsFrame(m, m', {n}, d, y.id);
      ContextFrame(m, m', {n}, c, x.id);
      SentinelsSame(m, m', {n});
    }
  }

  lemma ParentMoves<K, V>(m: Store<K, V>, c: Context<K, V>, a: Tree<K, V>, x: nat, b: Tree<K, V>, d: Tree<K, V>, y: nat)
    requires Loose(m, c, x, a, x, b, d, y) && TidyContext(c) && Sentinels(m) && Apart(x, a, y, b, d, ContextIds(c))
             && x in m && y in m
    ensures Up(c) in m
    ensures var m' := Relink(m, Up(c), x, y);
            && Loose(m', c, y, a, x, b, d, y) && m'[x] == m[x] && m'[y] == m[y]
            && Sentinels(m') && m'[NILL] == m[NILL]
  {
    var m' := Relink(m, Up(c), x, y);
    ContextRelink(m, c, x, y);
    SentinelFree(a);
    SentinelFree(b);
    SentinelFree(d);
    SentinelFreeContext(c);
    SpellsFrame(m, m', {Up(c)}, a, x);
    SpellsFrame(m, m', {Up(c)}, b, x);
    SpellsFrame(m, m', {Up(c)}, d, y);
  }

  lemma {:induction false} SentinelFree<K, V>(t: Tree<K, V>)
    requires Tidy(t)
    ensures NILL !in Ids(t) && ROOT !in Ids(t)
  {
    if t.Node? {
      SentinelFree(t.left);
      SentinelFree(t.right);
    }
  }

  lemma {:induction false} SentinelFreeContext<K, V>(c: Context<K, V>)
    requires TidyContext(c)
    ensures NILL !in ContextIds(c) && ROOT !in ContextIds(c)
  {
    if c.In? {
      SentinelFree(c.other);
      SentinelFreeContext(c.up);
    }
  }

  lemma NodesMove<K, V>(m: Store<K, V>, m': Store<K, V>, c: Context<K, V>, s: Side, x: Info<K, V>, a: Tree<K, V>,
                        y: Info<K, V>, b: Tree<K, V>, d: Tree<K, V>)
    requires Loose(m, c, y.id, a, x.id, b, d, y.id) && Same(m, m', {x.id, y.id}) && x.id in m' && y.id in m'
    requires {x.id, y.id} !! Ids(a) && {x.id, y.id} !! Ids(b) && {x.id, y.id} !! Ids(d) && {x.id, y.id} !! ContextIds(c)
             && x.id > ROOT && y.id > ROOT
    requires m'[x.id] == CellOf(x, s, Id(a), Id(b), y.id) && m'[y.id] == CellOf(y, s, x.id, Id(d), Up(c))
    requires Sentinels(m) && TidyContext(c) && Tidy(Make(s, x, a, Make(s, y, b, d)))
             && Ids(Make(s, x, a, Make(s, y, b, d))) !! ContextIds(c)
    ensures Good(m', c, Make(s, y, Make(s, x, a, b), d)) && m'[NILL] == m[NILL]
  {
    var xy := {x.id, y.id};
    SpellsFrame(m, m', xy, a, x.id);
    SpellsFrame(m, m', xy, b, x.id);
    SpellsFrame(m, m', xy, d, y.id);
    ContextFrame(m, m', xy, c, y.id);
    SpellsMake(m', s, x, a, b, y.id);
    SpellsMake(m', s, y, Make(s, x, a, b), d, Up(c));
    SentinelsSame(m, m', xy);
    StillTidy(c, s, x, a, y, b, d);
  }

  lemma StillTidy<K, V>(c: Context<K, V>, s: Side, x: Info<K, V>, a: Tree<K, V>, y: Info<K, V>, b: Tree<K, V>,
                        d: Tree<K, V>)
    requires Tidy(Make(s, x, a, Make(s, y, b, d)))
    ensures Tidy(Make(s, y, Make(s, x, a, b), d))
            && Ids(Make(s, y, Make(s, x, a, b), d)) == Ids(Make(s, x, a, Make(s, y, b, d)))
  {
    TidyMake(s, y, b, d);
    TidyMake(s, x, a, Make(s, y, b, d));
    TidyMake(s, x, a, b);
    TidyMake(s, y, Make(s, x, a, b), d);
  }

  /** The last part of a rotation: x and y change places below p. */
  method Swing<K, V>(m: Store<K, V>, x: nat, y: nat, p: nat, s: Side) returns (m': Store<K, V>)
    requires x in m && y in m && x != y && Kid(m[x], Other(s)) == y
    ensures Same(m, m', {x, y}) && x in m' && y in m'
    ensures m'[y] == SetKid(m[y].(parent := p), s, x)
    ensures m'[x] == SetKid(m[x].(parent := y), Other(s), Kid(m[y], s))
  {
    m' := m[y := m[y].(parent := p)];
    m' := m'[x := m'[x].(parent := y)];
    m' := m'[x := SetKid(m'[x], Other(s), Kid(m'[y], s))];
    m' := m'[y := SetKid(m'[y], s, x)];
  }

  /** The first part: the middle subtree and the parent are relinked. */
  method Unhook<K, V>(m: Store<K, V>, x: nat, y: nat, s: Side, ghost c: Context<K, V>,
      ghost xi: Info<K, V>, ghost a: Tree<K, V>, ghost yi: Info<K, V>, ghost b: Tree<K, V>, ghost d: Tree<K, V>)
    returns (m': Store<K, V>)
    requires Good(m, c, Make(s, xi, a, Make(s, yi, b, d))) && x == xi.id && y == yi.id
    ensures Apart(x, a, y, b, d, ContextIds(c))
    ensures Loose(m', c, y, a, x, b, d, y) && x in m' && y in m'
    ensures m'[x] == CellOf(xi, s, Id(a), y, Up(c)) && m'[y] == CellOf(yi, s, Id(b), Id(d), x)
    ensures Sentinels(m') && m'[NILL] == m[NILL]
  {
    TwoApart(s, xi, a, yi, b, d, ContextIds(c));
    TwoCells(m, Up(c), s, xi, a, yi, b, d);
    MiddleMoves(m, c, s, xi, a, yi, b, d);
    var z := Kid(m[y], s);
    m' := m;
    if z != NILL {
      m' := m'[z := m'[z].(parent := x)];
    }
    assert Loose(m', c, x, a, x, b, d, y);
    ParentMoves(m', c, a, x, b, d, y);
    m' := Relink(m', m'[x].parent, x, y);
  }

  /** left_rotate for s == L, right_rotate for s == R: x goes below its child on the other side. */
  method Rotate<K, V>(m: Store<K, V>, x: nat, s: Side, ghost c: Context<K, V>,
      ghost xi: Info<K, V>, ghost a: Tree<K, V>, ghost yi: Info<K, V>, ghost b: Tree<K, V>, ghost d: Tree<K, V>)
    returns (m': Store<K, V>)
    requires Good(m, c, Make(s, xi, a, Make(s, yi, b, d))) && x == xi.id
    ensures Good(m', c, Make(s, yi, Make(s, xi, a, b), d))
    ensures m'[NILL] == m[NILL]
  {
    TwoCells(m, Up(c), s, xi, a, yi, b, d);
    var y := Kid(m[x], Other(s));
    var mid := Unhook(m, x, y, s, c, xi, a, yi, b, d);
    m' := Swing(mid, x, y, mid[x].parent, s);
    NodesMove(mid, m', c, s, xi, a, yi, b, d);
  }

  // ----- Painting -----

  function Coloured<K, V>(m: Store<K, V>, n: nat, col: Color): Store<K, V> requires n in m
  {
    m[n := m[n].(color := col)]
  }

  // ----- Painting the hole's neighbours -----

  lemma PaintHere<K, V>(m: Store<K, V>, c: Context<K, V>, s: Side, i: Info<K, V>, t: Tree<K, V>, o: Tree<K, V>,
                        col: Color)
    requires Good(m, c, Make(s, i, t, o))
    ensures i.id in m && Good(Coloured(m, i.id, col), c, Make(s, Painted(i, col), t, o))
    ensures Coloured(m, i.id, col)[NILL] == m[NILL]
  {
    TidyMake(s, i, t, o);
    SpellsMake(m, s, i, t, o, Up(c));
    Restamp(m, c, Make(s, i, t, o), Painted(i, col));
    SentinelsSame(m, Coloured(m, i.id, col), {i.id});
  }

  lemma PaintParent<K, V>(m: Store<K, V>, s: Side, i: Info<K, V>, o: Tree<K, V>, up: Context<K, V>, t: Tree<K, V>,
                          col: Color)
    requires Good(m, In(s, i, o, up), t)
    ensures i.id in m && Good(Coloured(m, i.id, col), In(s, Painted(i, col), o, up), t)
    ensures Coloured(m, i.id, col)[NILL] == m[NILL]
  {
    FocusUp(m, s, i, t, o, up);
    PaintHere(m, up, s, i, t, o, col);
    FocusUp(Coloured(m, i.id, col), s, Painted(i, col), t, o, up);
  }

  lemma PaintOther<K, V>(m: Store<K, V>, s: Side, i: Info<K, V>, o: Tree<K, V>, up: Context<K, V>, t: Tree<K, V>,
                         col: Color)
    requires Good(m, In(s, i, o, up), t) && o.Node?
    ensures o.info.id in m
            && Good(Coloured(m, o.info.id, col), In(s, i, Node(o.left, Painted(o.info, col), o.right), up), t)
    ensures Coloured(m, o.info.id, col)[NILL] == m[NILL]
  {
    var o' := Node(o.left, Painted(o.info, col), o.right);
    Sibling(m, s, i, o, up, t);
    PaintHere(m, In(Other(s), i, t, up), L, o.info, o.left, o.right, col);
    Sibling(Coloured(m, o.info.id, col), s, i, o', up, t);
  }

  /** The hole and its sibling may change roles. */
  lemma Sibling<K, V>(m: Store<K, V>, s: Side, i: Info<K, V>, o: Tree<K, V>, up: Context<K, V>, t: Tree<K, V>)
    ensures Focus(m, In(s, i, o, up), t) <==> Focus(m, In(Other(s), i, t, up), o)
  {
    FocusUp(m, s, i, t, o, up);
    FocusUp(m, Other(s), i, o, t, up);
  }

  lemma PaintGrand<K, V>(m: Store<K, V>, s1: Side, p: Info<K, V>, o: Tree<K, V>, s: Side, g: Info<K, V>, u: Tree<K, V>,
                         up: Context<K, V>, t: Tree<K, V>, col: Color)
    requires Good(m, In(s1, p, o, In(s, g, u, up)), t)
    ensures g.id in m && Good(Coloured(m, g.id, col), In(s1, p, o, In(s, Painted(g, col), u, up)), t)
  {
    FocusUp(m, s1, p, t, o, In(s, g, u, up));
    PaintParent(m, s, g, u, up, Make(s1, p, t, o), col);
    FocusUp(Coloured(m, g.id, col), s1, p, t, o, In(s, Painted(g, col), u, up));
  }

  lemma PaintUncle<K, V>(m: Store<K, V>, s1: Side, p: Info<K, V>, o: Tree<K, V>, s: Side, g: Info<K, V>, u: Tree<K, V>,
                         up: Context<K, V>, t: Tree<K, V>, col: Color)
    requires Good(m, In(s1, p, o, In(s, g, u, up)), t) && u.Node?
    ensures u.info.id in m
    ensures Good(Coloured(m, u.info.id, col), In(s1, p, o, In(s, g, Node(u.left, Painted(u.info, col), u.right), up)),
                 t)
  {
    FocusUp(m, s1, p, t, o, In(s, g, u, up));
    PaintOther(m, s, g, u, up, Make(s1, p, t, o), col);
    FocusUp(Coloured(m, u.info.id, col), s1, p, t, o, In(s, g, Node(u.left, Painted(u.info, col), u.right), up));
  }

  // ----- What the loop reads -----

  lemma ColourRead<K, V>(m: Store<K, V>, t: Tree<K, V>, p: nat)
    requires Sentinels(m) && Spells(m, t, p)
    ensures Id(t) in m && (m[Id(t)].color == Black <==> IsBlack(t)) && (t.Node? ==> m[Id(t)].parent == p)
  {}

  /** Parent, grandparent, side and uncle of the node in the hole. */
  lemma Around<K, V>(m: Store<K, V>, s1: Side, p: Info<K, V>, o: Tree<K, V>, s: Side, g: Info<K, V>, u: Tree<K, V>,
                     up: Context<K, V>, t: Tree<K, V>)
    requires Good(m, In(s1, p, o, In(s, g, u, up)), t) && t.Node?
    ensures t.info.id in m && m[t.info.id].parent == p.id
    ensures p.id in m && m[p.id].color == p.color && m[p.id].parent == g.id && Kid(m[p.id], s1) == t.info.id
    ensures g.id in m && Kid(m[g.id], s) == p.id && Kid(m[g.id], Other(s)) == Id(u)
    ensures p.id == m[g.id].left <==> s == L
    ensures t.info.id == Kid(m[p.id], Other(s)) <==> s1 == Other(s)
    ensures Id(u) in m && (m[Id(u)].color == Black <==> IsBlack(u))
  {
    assert SpellsContext(m, In(s, g, u, up), p.id) && TidyContext(In(s, g, u, up));
    ColourRead(m, u, g.id);
  }

  lemma ParentRead<K, V>(m: Store<K, V>, c: Context<K, V>, t: Tree<K, V>)
    requires Good(m, c, t) && t.Node?
    ensures t.info.id in m && m[t.info.id].parent == Up(c) && Up(c) in m
            && (m[Up(c)].color == Black <==> ParentBlack(c))
  {}
}
