/** btree_delete_fixup: supplying the black node that a deletion took away. */
module RbDelete {
  import opened RbShape
  import opened RbBalance
  import opened RbSteps

  // ----- The pointer work of each case -----

  /** Red sibling. */
  method LiftRed<K, V>(m: Store<K, V>, p: nat, w: nat, s: Side, ghost pi: Info<K, V>, ghost wi: Info<K, V>,
      ghost b: Tree<K, V>, ghost d: Tree<K, V>, ghost up: Context<K, V>, ghost t: Tree<K, V>)
    returns (m': Store<K, V>)
    requires Good(m, In(s, pi, Make(s, wi, b, d), up), t) && p == pi.id && w == wi.id
    ensures Good(m', In(s, Painted(pi, Red), b, In(s, Painted(wi, Black), d, up)), t) && m'[NILL] == m[NILL]
  {
    ghost var p', w' := Painted(pi, Red), Painted(wi, Black);
    PaintOther(m, s, pi, Make(s, wi, b, d), up, t, Black);
    m' := Coloured(m, w, Black);
    PaintParent(m', s, pi, Make(s, w', b, d), up, t, Red);
    m' := Coloured(m', p, Red);
    FocusUp(m', s, p', t, Make(s, w', b, d), up);
    m' := Rotate(m', p, s, up, p', t, w', b, d);
    FocusUp(m', s, w', Make(s, p', t, b), d, up);
    FocusUp(m', s, p', t, b, In(s, w', d, up));
  }

  /** Black sibling, red child on the near side. */
  method TurnNear<K, V>(m: Store<K, V>, w: nat, n: nat, s: Side, ghost pi: Info<K, V>, ghost wi: Info<K, V>,
                        ghost ni: Info<K, V>,
      ghost b: Tree<K, V>, ghost d: Tree<K, V>, ghost c: Tree<K, V>, ghost up: Context<K, V>, ghost t: Tree<K, V>)
    returns (m': Store<K, V>)
    requires Good(m, In(s, pi, Make(s, wi, Make(s, ni, b, d), c), up), t) && w == wi.id && n == ni.id
    ensures Good(m', In(s, pi, Make(s, Painted(ni, Black), b, Make(s, Painted(wi, Red), d, c)), up), t)
            && m'[NILL] == m[NILL]
  {
    ghost var o, k := Other(s), In(Other(s), pi, t, up);
    ghost var w', n' := Painted(wi, Red), Painted(ni, Black);
    Sibling(m, s, pi, Make(s, wi, Make(s, ni, b, d), c), up, t);
    FocusUp(m, s, wi, Make(s, ni, b, d), c, k);
    PaintHere(m, In(s, wi, c, k), s, ni, b, d, Black);
    m' := Coloured(m, n, Black);
    PaintParent(m', s, wi, c, k, Make(s, n', b, d), Red);
    m' := Coloured(m', w, Red);
    FocusUp(m', s, w', Make(s, n', b, d), c, k);
    assert Make(s, w', Make(s, n', b, d), c) == Make(o, w', c, Make(o, n', d, b));
    m' := Rotate(m', w, Other(s), k, w', c, n', d, b);
    assert Make(o, n', Make(o, w', c, d), b) == Make(s, n', b, Make(s, w', d, c));
    Sibling(m', s, pi, Make(s, n', b, Make(s, w', d, c)), up, t);
  }

  /** Black sibling, red child on the far side. */
  method LiftFar<K, V>(m: Store<K, V>, p: nat, w: nat, f: nat, s: Side, ghost pi: Info<K, V>, ghost wi: Info<K, V>,
      ghost b: Tree<K, V>, ghost c: Tree<K, V>, ghost up: Context<K, V>, ghost t: Tree<K, V>)
    returns (m': Store<K, V>)
    requires Good(m, In(s, pi, Make(s, wi, b, c), up), t) && p == pi.id && w == wi.id && f == Id(c) && c.Node?
    requires p in m && m[p].color == pi.color
    ensures Good(m', up, Make(s, Painted(wi, pi.color), Make(s, Painted(pi, Black), t, b),
                              Node(c.left, Painted(c.info, Black), c.right)))
  {
    ghost var p', w' := Painted(pi, Black), Painted(wi, pi.color);
    ghost var c', k := Node(c.left, Painted(c.info, Black), c.right), In(Other(s), p', t, up);
    PaintOther(m, s, pi, Make(s, wi, b, c), up, t, pi.color);
    m' := Coloured(m, w, m[p].color);
    PaintParent(m', s, pi, Make(s, w', b, c), up, t, Black);
    m' := Coloured(m', p, Black);
    Sibling(m', s, p', Make(s, w', b, c), up, t);
    FocusUp(m', Other(s), w', c, b, k);
    PaintHere(m', In(Other(s), w', b, k), L, c.info, c.left, c.right, Black);
    m' := Coloured(m', f, Black);
    FocusUp(m', Other(s), w', c', b, k);
    Sibling(m', s, p', Make(s, w', b, c'), up, t);
    FocusUp(m', s, p', t, Make(s, w', b, c'), up);
    m' := Rotate(m', p, s, up, p', t, w', b, c');
  }

  // ----- The contents stay -----

  lemma RedAlike<K, V>(s: Side, p: Info<K, V>, t: Tree<K, V>, w: Info<K, V>, b: Tree<K, V>, d: Tree<K, V>,
                       up: Context<K, V>)
    ensures Alike(Plug(In(s, Painted(p, Red), b, In(s, Painted(w, Black), d, up)), t),
                  Plug(In(s, p, Make(s, w, b, d), up), t))
  {
    RotateAlike(s, p, t, w, b, d);
    assert Alike(Make(s, Painted(p, Red), t, b), Make(s, p, t, b));
    PlugAlike(up, Make(s, p, t, Make(s, w, b, d)), Make(s, Painted(w, Black), Make(s, Painted(p, Red), t, b), d));
  }

  lemma PassAlike<K, V>(s: Side, p: Info<K, V>, t: Tree<K, V>, w: Info<K, V>, b: Tree<K, V>, d: Tree<K, V>,
                        up: Context<K, V>)
    ensures Alike(Plug(up, Make(s, p, t, Make(s, Painted(w, Red), b, d))), Plug(In(s, p, Make(s, w, b, d), up), t))
  {
    assert Alike(Make(s, Painted(w, Red), b, d), Make(s, w, b, d));
    PlugAlike(up, Make(s, p, t, Make(s, w, b, d)), Make(s, p, t, Make(s, Painted(w, Red), b, d)));
  }

  lemma NearAlike<K, V>(s: Side, p: Info<K, V>, t: Tree<K, V>, w: Info<K, V>, n: Info<K, V>, b: Tree<K, V>,
                        d: Tree<K, V>, c: Tree<K, V>, up: Context<K, V>)
    ensures Alike(Plug(In(s, p, Make(s, Painted(n, Black), b, Make(s, Painted(w, Red), d, c)), up), t),
                  Plug(In(s, p, Make(s, w, Make(s, n, b, d), c), up), t))
  {
    var o1, o2 := Make(s, w, Make(s, n, b, d), c), Make(s, Painted(n, Black), b, Make(s, Painted(w, Red), d, c));
    SiblingAlike(s, w, n, b, d, c);
    assert Alike(Make(s, p, t, o1), Make(s, p, t, o2));
    PlugAlike(up, Make(s, p, t, o1), Make(s, p, t, o2));
  }

  /** The rotation of the sibling and its near child, with their new colours. */
  lemma SiblingAlike<K, V>(s: Side, w: Info<K, V>, n: Info<K, V>, b: Tree<K, V>, d: Tree<K, V>, c: Tree<K, V>)
    ensures Alike(Make(s, w, Make(s, n, b, d), c), Make(s, Painted(n, Black), b, Make(s, Painted(w, Red), d, c)))
  {
    var o := Other(s);
    RotateAlike(o, w, c, n, d, b);
    assert Make(s, w, Make(s, n, b, d), c) == Make(o, w, c, Make(o, n, d, b));
    assert Make(o, n, Make(o, w, c, d), b) == Make(s, n, b, Make(s, w, d, c));
    assert Alike(Make(s, Painted(w, Red), d, c), Make(s, w, d, c));
  }

  lemma FarAlike<K, V>(s: Side, p: Info<K, V>, t: Tree<K, V>, w: Info<K, V>, b: Tree<K, V>, c: Tree<K, V>,
                       up: Context<K, V>)
    requires c.Node?
    ensures Alike(Plug(up,
                       Make(s, Painted(w, p.color), Make(s, Painted(p, Black), t, b),
                            Node(c.left, Painted(c.info, Black), c.right))), Plug(In(s, p, Make(s, w, b, c), up), t))
  {
    var c' := Node(c.left, Painted(c.info, Black), c.right);
    RotateAlike(s, p, t, w, b, c);
    assert Alike(c', c) && Alike(Make(s, Painted(p, Black), t, b), Make(s, p, t, b));
    PlugAlike(up, Make(s, p, t, Make(s, w, b, c)), Make(s, Painted(w, p.color), Make(s, Painted(p, Black), t, b), c'));
  }

  // ----- Where the root is -----

  /** The root of the whole does not depend on the hole, unless the hole is the whole. */
  lemma {:induction false} RootId<K, V>(c: Context<K, V>, t: Tree<K, V>, t': Tree<K, V>)
    requires c.In? || Id(t) == Id(t')
    ensures Id(Plug(c, t)) == Id(Plug(c, t'))
    decreases c
  {
    if c.In? { RootId(c.up, Make(c.side, c.info, t, c.other), Make(c.side, c.info, t', c.other)); }
  }

  lemma {:induction false} RootOutside<K, V>(c: Context<K, V>, t: Tree<K, V>)
    requires c.In?
    ensures Id(Plug(c, t)) in ContextIds(c)
    decreases c
  {
    if c.up.In? { RootOutside(c.up, Make(c.side, c.info, t, c.other)); }
  }

  // ----- The loop -----

  /** The loop's state: the store spells t in c, and the hole lacks one black node. */
  ghost predicate Short<K, V>(m: Store<K, V>, x: nat, c: Context<K, V>, t: Tree<K, V>, h: nat)
  {
    Good(m, c, t) && ShortHole(c, t, h) && x == Id(t) && x in m && m[x].parent == Up(c)
  }

  /** The parent's cell, and which side the hole is on, even when the hole is nill. */
  lemma SideRead<K, V>(m: Store<K, V>, s: Side, p: Info<K, V>, o: Tree<K, V>, up: Context<K, V>, t: Tree<K, V>)
    requires Good(m, In(s, p, o, up), t) && o.Node?
    ensures p.id in m && m[p.id].color == p.color && Kid(m[p.id], Other(s)) == o.info.id
            && (Id(t) == m[p.id].left <==> s == L)
  {
    FocusUp(m, s, p, t, o, up);
  }

  /** The sibling's cell and its children's colours. */
  lemma KidsRead<K, V>(m: Store<K, V>, s: Side, p: Info<K, V>, w: Info<K, V>, b: Tree<K, V>, c: Tree<K, V>,
                       up: Context<K, V>, t: Tree<K, V>)
    requires Good(m, In(s, p, Make(s, w, b, c), up), t)
    ensures w.id in m && m[w.id].color == w.color && Kid(m[w.id], s) == Id(b) && Kid(m[w.id], Other(s)) == Id(c)
    ensures Id(b) in m && (m[Id(b)].color == Black <==> IsBlack(b))
    ensures Id(c) in m && (m[Id(c)].color == Black <==> IsBlack(c))
  {
    SpellsMake(m, s, w, b, c, p.id);
    ColourRead(m, b, w.id);
    ColourRead(m, c, w.id);
  }

  /** The cached root is the root, or it is the red parent that a rotation has just put below the root. */
  ghost predicate RootKnown<K, V>(root: nat, c: Context<K, V>, t: Tree<K, V>)
  {
    root == Id(Plug(c, t)) || (c.In? && root == c.info.id && c.info.color == Red)
  }

  function Near<K, V>(t: Tree<K, V>, s: Side): Tree<K, V> requires t.Node? { if s == L then t.left else t.right }

  /** The hole keeps its parent link when it is nill, because nill is not touched. */
  lemma StillShort<K, V>(m: Store<K, V>, m': Store<K, V>, x: nat, c: Context<K, V>, c': Context<K, V>, t: Tree<K, V>,
                         h: nat)
    requires Short(m, x, c, t, h) && Good(m', c', t) && ShortHole(c', t, h) && m'[NILL] == m[NILL] && Up(c) == Up(c')
    ensures Short(m', x, c', t, h)
  {
    ColourRead(m', t, Up(c'));
  }

  /** If the sibling is red, a rotation gives the hole a black one. */
  method BlackSibling<K, V>(m: Store<K, V>, x: nat, s: Side, ghost root: nat, ghost c: Context<K, V>,
                            ghost t: Tree<K, V>, ghost h: nat)
    returns (m': Store<K, V>, w: nat, ghost c': Context<K, V>)
    requires Short(m, x, c, t, h) && IsBlack(t) && c.In? && s == c.side && root == Id(Plug(c, t))
    ensures Short(m', x, c', t, h) && c'.In? && c'.side == s && c'.other.Node? && IsBlack(c'.other) && w == Id(c'.other)
    ensures Up(c') == Up(c) && RootKnown(root, c', t) && Alike(Plug(c', t), Plug(c, t))
    ensures Depth(c') == Depth(c) || (Depth(c') == Depth(c) + 1 && c'.info.color == Red)
  {
    ghost var p, up := c.info, c.up;
    SiblingNode(s, p, t, c.other, up, h);
    ghost var wi, b, d := c.other.info, Near(c.other, s), Near(c.other, Other(s));
    assert c.other == Make(s, wi, b, d);
    SideRead(m, s, p, c.other, up, t);
    KidsRead(m, s, p, wi, b, d, up, t);
    m', c' := m, c;
    w := Kid(m'[m'[x].parent], Other(s));
    if m'[w].color == Red {
      RedSibling(s, p, t, wi, b, d, up, h);
      RedAlike(s, p, t, wi, b, d, up);
      m' := LiftRed(m', m'[x].parent, w, s, p, wi, b, d, up, t);
      c' := In(s, Painted(p, Red), b, In(s, Painted(wi, Black), d, up));
      SiblingNode(s, Painted(p, Red), t, b, c'.up, h);
      StillShort(m, m', x, c, c', t, h);
      SideRead(m', s, Painted(p, Red), b, c'.up, t);
      if up.In? { RootId(up, Make(s, p, t, c.other), Make(s, Painted(wi, Black), Make(s, Painted(p, Red), t, b), d)); }
      w := Kid(m'[m'[x].parent], Other(s));
    }
  }

  /** Both children of the black sibling are black: the lack moves up. */
  method MoveUp<K, V>(m: Store<K, V>, x: nat, w: nat, s: Side, ghost root: nat, ghost p: Info<K, V>,
                      ghost wi: Info<K, V>,
      ghost b: Tree<K, V>, ghost d: Tree<K, V>, ghost up: Context<K, V>, ghost t: Tree<K, V>, ghost h: nat)
    returns (m': Store<K, V>, x': nat, ghost t': Tree<K, V>, ghost h': nat)
    requires Short(m, x, In(s, p, Make(s, wi, b, d), up), t, h) && IsBlack(t) && wi.color == Black && IsBlack(b)
             && IsBlack(d)
    requires w == wi.id && RootKnown(root, In(s, p, Make(s, wi, b, d), up), t)
    ensures Short(m', x', up, t', h') && (IsBlack(t') ==> root == Id(Plug(up, t')) && p.color == Black)
    ensures Alike(Plug(up, t'), Plug(In(s, p, Make(s, wi, b, d), up), t))
  {
    t' := Make(s, p, t, Make(s, Painted(wi, Red), b, d));
    h' := if p.color == Black then h + 1 else h;
    PassUp(s, p, t, wi, b, d, up, h);
    PassAlike(s, p, t, wi, b, d, up);
    PaintOther(m, s, p, Make(s, wi, b, d), up, t, Red);
    m' := Coloured(m, w, Red);
    FocusUp(m', s, p, t, Make(s, Painted(wi, Red), b, d), up);
    ColourRead(m', t', Up(up));
    SideRead(m', s, p, Make(s, Painted(wi, Red), b, d), up, t);
    ColourRead(m', t, p.id);
    RootId(up, Make(s, p, t, Make(s, wi, b, d)), t');
    x' := m'[x].parent;
  }

  /** The black sibling has a red child: one or two rotations end the loop. */
  method Supply<K, V>(m: Store<K, V>, x: nat, w0: nat, s: Side, ghost root: nat, ghost p: Info<K, V>,
                      ghost wi: Info<K, V>,
      ghost b: Tree<K, V>, ghost c: Tree<K, V>, ghost up: Context<K, V>, ghost t: Tree<K, V>, ghost h: nat)
    returns (m': Store<K, V>, ghost whole: Tree<K, V>)
    requires Short(m, x, In(s, p, Make(s, wi, b, c), up), t, h) && IsBlack(t) && wi.color == Black
             && !(IsBlack(b) && IsBlack(c))
    requires w0 == wi.id && RootKnown(root, In(s, p, Make(s, wi, b, c), up), t)
    ensures Good(m', Top, whole) && RedBlack(whole) && root in m' && m'[root].color == Black
    ensures Alike(whole, Plug(In(s, p, Make(s, wi, b, c), up), t))
  {
    var w := w0;
    m' := m;
    ghost var wi', b', c' := wi, b, c;
    KidsRead(m', s, p, wi, b, c, up, t);
    SideRead(m', s, p, Make(s, wi, b, c), up, t);
    if m'[Kid(m'[w], Other(s))].color == Black {
      ghost var ni, nb, nd := b.info, Near(b, s), Near(b, Other(s));
      assert b == Make(s, ni, nb, nd);
      NearRed(s, p, t, wi, ni, nb, nd, c, up, h);
      NearAlike(s, p, t, wi, ni, nb, nd, c, up);
      m' := TurnNear(m', w, Kid(m'[w], s), s, p, wi, ni, nb, nd, c, up, t);
      wi', b', c' := Painted(ni, Black), nb, Make(s, Painted(wi, Red), nd, c);
      StillShort(m, m', x, In(s, p, Make(s, wi, b, c), up), In(s, p, Make(s, wi', b', c'), up), t, h);
      KidsRead(m', s, p, wi', b', c', up, t);
      SideRead(m', s, p, Make(s, wi', b', c'), up, t);
      RootId(up, Make(s, p, t, Make(s, wi, b, c)), Make(s, p, t, Make(s, wi', b', c')));
      w := Kid(m'[m'[x].parent], Other(s));
    }
    m', whole := FinishFar(m', x, w, s, root, p, wi', b', c', up, t, h);
  }

  method FinishFar<K, V>(m: Store<K, V>, x: nat, w: nat, s: Side, ghost root: nat, ghost p: Info<K, V>,
                         ghost wi: Info<K, V>,
      ghost b: Tree<K, V>, ghost c: Tree<K, V>, ghost up: Context<K, V>, ghost t: Tree<K, V>, ghost h: nat)
    returns (m': Store<K, V>, ghost whole: Tree<K, V>)
    requires Short(m, x, In(s, p, Make(s, wi, b, c), up), t, h) && IsBlack(t) && wi.color == Black && !IsBlack(c)
    requires w == wi.id && RootKnown(root, In(s, p, Make(s, wi, b, c), up), t)
    ensures Good(m', Top, whole) && RedBlack(whole) && root in m' && m'[root].color == Black
    ensures Alike(whole, Plug(In(s, p, Make(s, wi, b, c), up), t))
  {
    KidsRead(m, s, p, wi, b, c, up, t);
    SideRead(m, s, p, Make(s, wi, b, c), up, t);
    FarRed(s, p, t, wi, b, c, up, h);
    FarAlike(s, p, t, wi, b, c, up);
    m' := LiftFar(m, m[x].parent, w, Kid(m[w], Other(s)), s, p, wi, b, c, up, t);
    ghost var c' := Node(c.left, Painted(c.info, Black), c.right);
    ghost var low := Make(s, Painted(p, Black), t, b);
    ghost var t' := Make(s, Painted(wi, p.color), low, c');
    whole := Plug(up, t');
    Whole(m', up, t');
    RootIsBlack(m', root, s, p, t, Make(s, wi, b, c), up, t', low, c', Painted(wi, p.color));
  }

  lemma RootIsBlack<K, V>(m: Store<K, V>, root: nat, s: Side, p: Info<K, V>, t: Tree<K, V>, o: Tree<K, V>,
                          up: Context<K, V>, t': Tree<K, V>, low: Tree<K, V>, c': Tree<K, V>, w': Info<K, V>)
    requires RootKnown(root, In(s, p, o, up), t) && Good(m, up, t') && t' == Make(s, w', low, c') && low.Node?
             && low.info == Painted(p, Black)
    requires Good(m, Top, Plug(up, t')) && RedBlack(Plug(up, t'))
    ensures root in m && m[root].color == Black
  {
    SpellsMake(m, s, w', low, c', Up(up));
    ColourRead(m, low, w'.id);
    ColourRead(m, Plug(up, t'), ROOT);
    assert Plug(In(s, p, o, up), t) == Plug(up, Make(s, p, t, o)) && Id(Make(s, p, t, o)) == p.id == Id(low);
    if up.In? { RootId(up, Make(s, p, t, o), t'); } else { assert Plug(up, Make(s, p, t, o)) == Make(s, p, t, o); }
  }

  /** The store with the lack either moved up or supplied; in the second case x is the cached root. */
  ghost predicate Progress<K, V>(m: Store<K, V>, x: nat, root: nat, done: bool, c: Context<K, V>, t: Tree<K, V>, h: nat)
  {
    if done then Good(m, Top, t) && RedBlack(t) && x == root && root in m && m[root].color == Black && c.Top?
    else Short(m, x, c, t, h) && (IsBlack(t) ==> root == Id(Plug(c, t)))
  }

  function Rank<K, V>(done: bool, c: Context<K, V>, t: Tree<K, V>): nat
  {
    if done then 0 else Depth(c) + (if IsBlack(t) then 2 else 1)
  }

  /** One turn of the loop. */
  method Turned<K, V>(m: Store<K, V>, x: nat, root: nat, ghost c: Context<K, V>, ghost t: Tree<K, V>, ghost h: nat)
    returns (m': Store<K, V>, x': nat, ghost done: bool, ghost c': Context<K, V>, ghost t': Tree<K, V>, ghost h': nat)
    requires Short(m, x, c, t, h) && IsBlack(t) && c.In? && root == Id(Plug(c, t))
    ensures Progress(m', x', root, done, c', t', h') && Rank(done, c', t') < Rank(false, c, t)
    ensures Alike(Plug(c', t'), Plug(c, t))
  {
    SiblingNode(c.side, c.info, t, c.other, c.up, h);
    SideRead(m, c.side, c.info, c.other, c.up, t);
    var s := if x == m[m[x].parent].left then L else R;
    ghost var c1;
    var w;
    m', w, c1 := BlackSibling(m, x, s, root, c, t, h);
    ghost var p, wi, b, d := c1.info, c1.other.info, Near(c1.other, s), Near(c1.other, Other(s));
    assert c1.other == Make(s, wi, b, d) && c1 == In(s, p, Make(s, wi, b, d), c1.up);
    KidsRead(m', s, p, wi, b, d, c1.up, t);
    if m'[Kid(m'[w], s)].color == Black && m'[Kid(m'[w], Other(s))].color == Black {
      m', x', t', h' := MoveUp(m', x, w, s, root, p, wi, b, d, c1.up, t, h);
      done, c' := false, c1.up;
    } else {
      m', t' := Supply(m', x, w, s, root, p, wi, b, d, c1.up, t, h);
      x' := root;
      done, c', h' := true, Top, 0;
    }
  }

  lemma AtRoot<K, V>(m: Store<K, V>, c: Context<K, V>, t: Tree<K, V>)
    requires Focus(m, c, t)
    ensures Id(Plug(c, t)) == Id(t) <==> c.Top?
  {
    if c.In? {
      RootOutside(c, t);
      SentinelFreeContext(c);
    }
  }

  /** The whole of btree_delete_fixup: a red-black tree with the same contents. */
  method Fixup<K, V>(m: Store<K, V>, x0: nat, ghost c0: Context<K, V>, ghost t0: Tree<K, V>, ghost h0: nat)
    returns (m': Store<K, V>, ghost whole: Tree<K, V>)
    requires Short(m, x0, c0, t0, h0)
    ensures Good(m', Top, whole) && RedBlack(whole) && Alike(whole, Plug(c0, t0))
  {
    Whole(m, c0, t0);
    var x, root := x0, m[ROOT].left;
    ghost var done, c, t, h := false, c0, t0, h0;
    m' := m;
    if !done { ColourRead(m', t, Up(c)); AtRoot(m', c, t); }
    while x != root && m'[x].color == Black
      invariant x in m' && Progress(m', x, root, done, c, t, h)
      invariant !done ==> (m'[x].color == Black <==> IsBlack(t)) && (Id(Plug(c, t)) == Id(t) <==> c.Top?)
      invariant Alike(Plug(c, t), Plug(c0, t0))
      decreases Rank(done, c, t)
    {
      m', x, done, c, t, h := Turned(m', x, root, c, t, h);
      if !done { ColourRead(m', t, Up(c)); AtRoot(m', c, t); }
    }
    m', whole := Blacken(m', x, root, done, c, t, h);
  }

  /** The last statement paints x black, which supplies the lack, or changes nothing. */
  method Blacken<K, V>(m: Store<K, V>, x: nat, root: nat, ghost done: bool, ghost c: Context<K, V>, ghost t: Tree<K, V>,
                       ghost h: nat)
    returns (m': Store<K, V>, ghost whole: Tree<K, V>)
    requires x in m && Progress(m, x, root, done, c, t, h) && (x == root || m[x].color == Red)
    ensures Good(m', Top, whole) && RedBlack(whole) && Alike(whole, Plug(c, t))
  {
    if !done { ColourRead(m, t, Up(c)); AtRoot(m, c, t); }
    m' := Coloured(m, x, Black);
    whole := Plug(c, t);
    if done || IsBlack(t) {
      assert m' == m;
      if !done { HeightUnique(t, h); }
    } else {
      ghost var t' := Node(t.left, Painted(t.info, Black), t.right);
      PaintHere(m, c, L, t.info, t.left, t.right, Black);
      PlugBalanced(c, t', h + 1);
      PlugAlike(c, t, t');
      Whole(m', c, t');
      whole := Plug(c, t');
    }
  }
}
