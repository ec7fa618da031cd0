/** The recolour-and-rotate loop after an insertion. */
module RbInsert {
  import opened RbShape
  import opened RbBalance
  import opened RbSteps

  // ----- One turn of the loop -----

  /** Red uncle. */
  method RaiseRed<K, V>(m: Store<K, V>, p: nat, g: nat, y: nat, ghost s1: Side, ghost pi: Info<K, V>,
                        ghost o: Tree<K, V>,
      ghost s: Side, ghost gi: Info<K, V>, ghost u: Tree<K, V>, ghost up: Context<K, V>, ghost t: Tree<K, V>)
    returns (m': Store<K, V>)
    requires Good(m, In(s1, pi, o, In(s, gi, u, up)), t) && p == pi.id && g == gi.id && y == Id(u) && u.Node?
    ensures Good(m', up, Make(s, Painted(gi, Red), Make(s1, Painted(pi, Black), t, o),
                              Node(u.left, Painted(u.info, Black), u.right)))
  {
    ghost var u' := Node(u.left, Painted(u.info, Black), u.right);
    PaintParent(m, s1, pi, o, In(s, gi, u, up), t, Black);
    m' := Coloured(m, p, Black);
    PaintUncle(m', s1, Painted(pi, Black), o, s, gi, u, up, t, Black);
    m' := Coloured(m', y, Black);
    PaintGrand(m', s1, Painted(pi, Black), o, s, gi, u', up, t, Red);
    m' := Coloured(m', g, Red);
    FocusUp(m', s1, Painted(pi, Black), t, o, In(s, Painted(gi, Red), u', up));
    FocusUp(m', s, Painted(gi, Red), Make(s1, Painted(pi, Black), t, o), u', up);
  }

  /** Black uncle, node on the inner side: the first rotation. */
  method TurnOut<K, V>(m: Store<K, V>, p: nat, s: Side, ghost pi: Info<K, V>, ghost o: Tree<K, V>, ghost n: Info<K, V>,
      ghost b: Tree<K, V>, ghost d: Tree<K, V>, ghost up: Context<K, V>)
    returns (m': Store<K, V>)
    requires Good(m, In(Other(s), pi, o, up), Make(s, n, b, d)) && p == pi.id
    ensures Good(m', In(s, n, d, up), Make(s, pi, o, b))
  {
    FocusUp(m, Other(s), pi, Make(s, n, b, d), o, up);
    m' := Rotate(m, p, s, up, pi, o, n, b, d);
    FocusUp(m', s, n, Make(s, pi, o, b), d, up);
  }

  /** Black uncle, node on the outer side: two colours and the second rotation. */
  method LiftParent<K, V>(m: Store<K, V>, p: nat, g: nat, s: Side, ghost q: Info<K, V>, ghost b: Tree<K, V>,
      ghost gi: Info<K, V>, ghost u: Tree<K, V>, ghost up: Context<K, V>, ghost t: Tree<K, V>)
    returns (m': Store<K, V>)
    requires Good(m, In(s, q, b, In(s, gi, u, up)), t) && p == q.id && g == gi.id
    ensures Good(m', In(s, Painted(q, Black), Make(s, Painted(gi, Red), b, u), up), t)
  {
    ghost var q', g' := Painted(q, Black), Painted(gi, Red);
    PaintParent(m, s, q, b, In(s, gi, u, up), t, Black);
    m' := Coloured(m, p, Black);
    PaintGrand(m', s, q', b, s, gi, u, up, t, Red);
    m' := Coloured(m', g, Red);
    FocusUp(m', s, q', t, b, In(s, g', u, up));
    FocusUp(m', s, g', Make(s, q', t, b), u, up);
    assert Make(s, g', Make(s, q', t, b), u) == Make(Other(s), g', u, Make(Other(s), q', b, t));
    m' := Rotate(m', g, Other(s), up, g', u, q', b, t);
    assert Make(Other(s), q', Make(Other(s), g', u, b), t) == Make(s, q', t, Make(s, g', b, u));
    FocusUp(m', s, q', t, Make(s, g', b, u), up);
  }

  lemma RecolourAlike<K, V>(s1: Side, p: Info<K, V>, t: Tree<K, V>, o: Tree<K, V>, s: Side, g: Info<K, V>,
                            u: Tree<K, V>, up: Context<K, V>)
    requires u.Node?
    ensures Alike(Plug(up,
                       Make(s, Painted(g, Red), Make(s1, Painted(p, Black), t, o),
                            Node(u.left, Painted(u.info, Black), u.right))), Plug(In(s1, p, o, In(s, g, u, up)), t))
  {
    var u' := Node(u.left, Painted(u.info, Black), u.right);
    assert Alike(u', u) && Alike(Make(s1, Painted(p, Black), t, o), Make(s1, p, t, o));
    PlugAlike(up, Make(s, g, Make(s1, p, t, o), u), Make(s, Painted(g, Red), Make(s1, Painted(p, Black), t, o), u'));
  }

  lemma TurnAlike<K, V>(s: Side, p: Info<K, V>, o: Tree<K, V>, n: Info<K, V>, b: Tree<K, V>, d: Tree<K, V>,
                        up: Context<K, V>)
    ensures Alike(Plug(In(s, n, d, up), Make(s, p, o, b)), Plug(In(Other(s), p, o, up), Make(s, n, b, d)))
  {
    assert Make(Other(s), p, Make(s, n, b, d), o) == Make(s, p, o, Make(s, n, b, d));
    RotateAlike(s, p, o, n, b, d);
    PlugAlike(up, Make(s, p, o, Make(s, n, b, d)), Make(s, n, Make(s, p, o, b), d));
  }

  lemma LiftAlike<K, V>(s: Side, q: Info<K, V>, t: Tree<K, V>, b: Tree<K, V>, g: Info<K, V>, u: Tree<K, V>,
                        up: Context<K, V>)
    ensures Alike(Plug(In(s, Painted(q, Black), Make(s, Painted(g, Red), b, u), up), t),
                  Plug(In(s, q, b, In(s, g, u, up)), t))
  {
    var o := Other(s);
    RotateAlike(o, g, u, q, b, t);
    assert Make(s, g, Make(s, q, t, b), u) == Make(o, g, u, Make(o, q, b, t));
    assert Make(o, q, Make(o, g, u, b), t) == Make(s, q, t, Make(s, g, b, u));
    assert Alike(Make(s, Painted(g, Red), b, u), Make(s, g, b, u));
    PlugAlike(up, Make(s, g, Make(s, q, t, b), u), Make(s, Painted(q, Black), t, Make(s, Painted(g, Red), b, u)));
  }

  /** The loop's state: the store spells t in c, and only the red rule may be broken, at the hole. */
  ghost predicate Fixing<K, V>(m: Store<K, V>, node: nat, c: Context<K, V>, t: Tree<K, V>, h: nat)
  {
    Good(m, c, t) && RedHole(c, t, h) && node == Id(t)
  }

  /** Black uncle: the loop's last turn. */
  method Settle<K, V>(m: Store<K, V>, node: nat, s: Side, ghost s1: Side, ghost pi: Info<K, V>, ghost o: Tree<K, V>,
      ghost gi: Info<K, V>, ghost u: Tree<K, V>, ghost up: Context<K, V>, ghost t: Tree<K, V>, ghost h: nat)
    returns (m': Store<K, V>, node': nat, ghost c': Context<K, V>, ghost t': Tree<K, V>)
    requires Fixing(m, node, In(s1, pi, o, In(s, gi, u, up)), t, h) && pi.color == Red && IsBlack(u)
    ensures Fixing(m', node', c', t', h) && Depth(c') == Depth(up) + 1
    ensures Alike(Plug(c', t'), Plug(In(s1, pi, o, In(s, gi, u, up)), t))
  {
    Around(m, s1, pi, o, s, gi, u, up, t);
    m', node', t' := m, node, t;
    ghost var q, b := pi, o;
    if node' == Kid(m'[m'[node'].parent], Other(s)) {
      node' := m'[node'].parent;
      ghost var (n, near, far) := if s == L then (t.info, t.left, t.right) else (t.info, t.right, t.left);
      assert t == Make(s, n, near, far);
      Turn(s, pi, o, n, near, far, gi, u, up, h);
      TurnAlike(s, pi, o, n, near, far, In(s, gi, u, up));
      m' := TurnOut(m', node', s, pi, o, n, near, far, In(s, gi, u, up));
      q, b, t' := n, far, Make(s, pi, o, near);
      Around(m', s, q, b, s, gi, u, up, t');
    }
    Lift(s, q, t', b, gi, u, up, h);
    LiftAlike(s, q, t', b, gi, u, up);
    var p := m'[node'].parent;
    m' := LiftParent(m', p, m'[p].parent, s, q, b, gi, u, up, t');
    c' := In(s, Painted(q, Black), Make(s, Painted(gi, Red), b, u), up);
  }

  /** The whole loop. */
  method Fixup<K, V>(m: Store<K, V>, n: nat, ghost c: Context<K, V>, ghost t: Tree<K, V>, ghost h: nat)
    returns (m': Store<K, V>, ghost c': Context<K, V>, ghost t': Tree<K, V>, ghost h': nat)
    requires Fixing(m, n, c, t, h)
    ensures Good(m', c', t') && RedHole(c', t', h') && ParentBlack(c')
    ensures Alike(Plug(c', t'), Plug(c, t))
  {
    var node := n;
    m', c', t', h' := m, c, t, h;
    ParentRead(m', c', t');
    while m'[m'[node].parent].color == Red
      invariant Fixing(m', node, c', t', h') && node in m' && m'[node].parent in m'
      invariant m'[m'[node].parent].color == Black <==> ParentBlack(c')
      invariant Alike(Plug(c', t'), Plug(c, t))
      decreases Depth(c')
    {
      m', node, c', t', h' := Turned(m', node, c', t', h');
      ParentRead(m', c', t');
    }
  }

  /** One turn. */
  method Turned<K, V>(m: Store<K, V>, node: nat, ghost c: Context<K, V>, ghost t: Tree<K, V>, ghost h: nat)
    returns (m': Store<K, V>, node': nat, ghost c': Context<K, V>, ghost t': Tree<K, V>, ghost h': nat)
    requires Fixing(m, node, c, t, h) && !ParentBlack(c)
    ensures Fixing(m', node', c', t', h') && Depth(c') < Depth(c)
    ensures Alike(Plug(c', t'), Plug(c, t))
  {
    ghost var s1, pi, o := c.side, c.info, c.other;
    ghost var s2, gi, u, up := c.up.side, c.up.info, c.up.other, c.up.up;
    Around(m, s1, pi, o, s2, gi, u, up, t);
    var p := m[node].parent;
    var g := m[p].parent;
    var s := if p == m[g].left then L else R;
    var y := Kid(m[g], Other(s));
    if m[y].color == Red {
      Recolour(s1, pi, t, o, s, gi, u, up, h);
      RecolourAlike(s1, pi, t, o, s, gi, u, up);
      m' := RaiseRed(m, p, g, y, s1, pi, o, s, gi, u, up, t);
      node' := g;
      c', h' := up, h + 1;
      t' := Make(s, Painted(gi, Red), Make(s1, Painted(pi, Black), t, o),
                 Node(u.left, Painted(u.info, Black), u.right));
    } else {
      m', node', c', t' := Settle(m, node, s, s1, pi, o, gi, u, up, t, h);
      h' := h;
    }
  }
}
