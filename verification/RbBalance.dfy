/** The colour rules of red-black trees, with a hole where they are broken, and how each fix-up step repairs them. */
module RbBalance {
  import opened RbShape

  predicate IsBlack<K, V>(t: Tree<K, V>) { t.Leaf? || t.info.color == Black }

  predicate ParentBlack<K, V>(c: Context<K, V>) { c.Top? || c.info.color == Black }

  function Painted<K, V>(i: Info<K, V>, c: Color): Info<K, V> { i.(color := c) }

  /** No red node has a red child, and every path down meets h black nodes. */
  predicate Balanced<K, V>(t: Tree<K, V>, h: nat)
  {
    match t
    case Leaf => h == 0
    case Node(l, i, r) =>
      if i.color == Red then IsBlack(l) && IsBlack(r) && Balanced(l, h) && Balanced(r, h)
      else h > 0 && Balanced(l, h - 1) && Balanced(r, h - 1)
  }

  /** The same rules around a hole that takes a tree of black height h; the root is black. */
  predicate BalancedContext<K, V>(c: Context<K, V>, h: nat)
  {
    match c
    case Top => true
    case In(_, i, o, up) =>
      && Balanced(o, h)
      && (i.color == Red ==> IsBlack(o) && up.In? && ParentBlack(up))
      && BalancedContext(up, if i.color == Black then h + 1 else h)
  }

  function Height<K, V>(t: Tree<K, V>): nat
  {
    if t.Leaf? then 0 else Height(t.left) + (if t.info.color == Black then 1 else 0)
  }

  lemma {:induction false} HeightUnique<K, V>(t: Tree<K, V>, h: nat)
    requires Balanced(t, h)
    ensures h == Height(t)
  {
    if t.Node? { HeightUnique(t.left, if t.info.color == Black then h - 1 else h); }
  }

  /** A red-black tree: balanced, with a black root. */
  predicate RedBlack<K, V>(t: Tree<K, V>) { IsBlack(t) && Balanced(t, Height(t)) }

  lemma {:induction false} PlugBalanced<K, V>(c: Context<K, V>, t: Tree<K, V>, h: nat)
    requires Balanced(t, h) && BalancedContext(c, h) && (IsBlack(t) || (c.In? && ParentBlack(c)))
    ensures RedBlack(Plug(c, t))
    decreases c
  {
    match c
    case Top => HeightUnique(t, h);
    case In(s, i, o, up) => PlugBalanced(up, Make(s, i, t, o), if i.color == Black then h + 1 else h);
  }

  lemma {:induction false} UnplugBalanced<K, V>(c: Context<K, V>, t: Tree<K, V>)
    requires RedBlack(Plug(c, t))
    ensures Balanced(t, Height(t)) && BalancedContext(c, Height(t)) && (IsBlack(t) || (c.In? && ParentBlack(c)))
    decreases c
  {
    match c
    case Top =>
    case In(s, i, o, up) =>
      UnplugBalanced(up, Make(s, i, t, o));
      var g := Make(s, i, t, o);
      HeightUnique(t, if i.color == Black then Height(g) - 1 else Height(g));
  }

  lemma {:induction false} RootBlack<K, V>(c: Context<K, V>, t: Tree<K, V>, h: nat)
    requires BalancedContext(c, h) && c.In?
    ensures IsBlack(Plug(c, t)) && Plug(c, t).Node?
    decreases c
  {
    if c.up.In? { RootBlack(c.up, Make(c.side, c.info, t, c.other), if c.info.color == Black then h + 1 else h); }
  }

  // ----- Insertion -----

  /** The new node breaks nothing but possibly the rule that a red node has no red child. */
  predicate RedHole<K, V>(c: Context<K, V>, t: Tree<K, V>, h: nat)
  {
    t.Node? && t.info.color == Red && Balanced(t, h) && BalancedContext(c, h)
  }

  /** Red uncle: the two reds move up to the grandparent. */
  lemma Recolour<K, V>(s1: Side, p: Info<K, V>, t: Tree<K, V>, o: Tree<K, V>, s: Side, g: Info<K, V>, u: Tree<K, V>,
                       up: Context<K, V>, h: nat)
    requires RedHole(In(s1, p, o, In(s, g, u, up)), t, h) && p.color == Red && !IsBlack(u)
    ensures RedHole(up, Make(s, Painted(g, Red), Make(s1, Painted(p, Black), t, o),
                             Node(u.left, Painted(u.info, Black), u.right)), h + 1)
  {
    assert BalancedContext(In(s, g, u, up), h) && g.color == Black;
    assert Balanced(Make(s1, Painted(p, Black), t, o), h + 1);
    assert Balanced(Node(u.left, Painted(u.info, Black), u.right), h + 1);
  }

  /** Black uncle, the node on the inner side: turned to the outer side. */
  lemma Turn<K, V>(s: Side, p: Info<K, V>, o: Tree<K, V>, n: Info<K, V>, b: Tree<K, V>, c: Tree<K, V>, g: Info<K, V>,
                   u: Tree<K, V>, up: Context<K, V>, h: nat)
    requires RedHole(In(Other(s), p, o, In(s, g, u, up)), Make(s, n, b, c), h) && p.color == Red
    ensures RedHole(In(s, n, c, In(s, g, u, up)), Make(s, p, o, b), h)
  {}

  /** Black uncle, the node on the outer side: parent and grandparent change places and colours. */
  lemma Lift<K, V>(s: Side, q: Info<K, V>, t: Tree<K, V>, b: Tree<K, V>, g: Info<K, V>, u: Tree<K, V>,
                   up: Context<K, V>, h: nat)
    requires RedHole(In(s, q, b, In(s, g, u, up)), t, h) && q.color == Red && IsBlack(u)
    ensures RedHole(In(s, Painted(q, Black), Make(s, Painted(g, Red), b, u), up), t, h)
  {
    assert BalancedContext(In(s, g, u, up), h) && g.color == Black;
    assert Balanced(Make(s, Painted(g, Red), b, u), h);
  }

  // ----- Deletion -----

  /** The hole lacks one black node, or has a red root that can be painted black to supply it. */
  predicate ShortHole<K, V>(c: Context<K, V>, t: Tree<K, V>, h: nat)
  {
    && BalancedContext(c, h + 1)
    && (if IsBlack(t) then Balanced(t, h) else Balanced(Node(t.left, Painted(t.info, Black), t.right), h + 1))
  }

  lemma Shorten<K, V>(s: Side, i: Info<K, V>, t: Tree<K, V>, up: Context<K, V>, h: nat)
    requires Balanced(Make(s, i, t, Leaf), h) && BalancedContext(up, h) && (i.color == Black || ParentBlack(up))
    ensures if i.color == Black then h > 0 && ShortHole(up, t, h - 1) else Balanced(t, h) && IsBlack(t)
  {}

  /** Red sibling: it goes above the parent, and the hole gets a black sibling. */
  lemma RedSibling<K, V>(s: Side, p: Info<K, V>, t: Tree<K, V>, w: Info<K, V>, b: Tree<K, V>, c: Tree<K, V>,
                         up: Context<K, V>, h: nat)
    requires ShortHole(In(s, p, Make(s, w, b, c), up), t, h) && IsBlack(t) && w.color == Red
    ensures ShortHole(In(s, Painted(p, Red), b, In(s, Painted(w, Black), c, up)), t, h) && IsBlack(b)
  {}

  lemma SiblingNode<K, V>(s: Side, p: Info<K, V>, t: Tree<K, V>, w: Tree<K, V>, up: Context<K, V>, h: nat)
    requires ShortHole(In(s, p, w, up), t, h)
    ensures w.Node?
  {}

  /** Black sibling with black children: painted red, and the lack moves up. */
  lemma PassUp<K, V>(s: Side, p: Info<K, V>, t: Tree<K, V>, w: Info<K, V>, b: Tree<K, V>, c: Tree<K, V>,
                     up: Context<K, V>, h: nat)
    requires ShortHole(In(s, p, Make(s, w, b, c), up), t, h) && IsBlack(t) && w.color == Black && IsBlack(b)
             && IsBlack(c)
    ensures var t' := Make(s, p, t, Make(s, Painted(w, Red), b, c));
            ShortHole(up, t', if p.color == Black then h + 1 else h)
  {}

  /** Black sibling whose red child is on the near side: turned to the far side. */
  lemma NearRed<K, V>(s: Side, p: Info<K, V>, t: Tree<K, V>, w: Info<K, V>, n: Info<K, V>, b: Tree<K, V>, d: Tree<K, V>,
                      c: Tree<K, V>, up: Context<K, V>, h: nat)
    requires ShortHole(In(s, p, Make(s, w, Make(s, n, b, d), c), up), t, h) && IsBlack(t) && w.color == Black
             && n.color == Red && IsBlack(c)
    ensures ShortHole(In(s, p, Make(s, Painted(n, Black), b, Make(s, Painted(w, Red), d, c)), up), t, h)
  {
    assert Balanced(Make(s, w, Make(s, n, b, d), c), h + 1);
    assert Balanced(Make(s, n, b, d), h) && Balanced(c, h);
    assert Balanced(Make(s, Painted(w, Red), d, c), h);
  }

  /** Black sibling whose red child is on the far side: one rotation supplies the black node. */
  lemma FarRed<K, V>(s: Side, p: Info<K, V>, t: Tree<K, V>, w: Info<K, V>, b: Tree<K, V>, c: Tree<K, V>,
                     up: Context<K, V>, h: nat)
    requires ShortHole(In(s, p, Make(s, w, b, c), up), t, h) && IsBlack(t) && w.color == Black && !IsBlack(c)
    ensures var t' := Make(s, Painted(w, p.color), Make(s, Painted(p, Black), t, b),
                           Node(c.left, Painted(c.info, Black), c.right));
            RedBlack(Plug(up, t'))
  {
    var t' := Make(s, Painted(w, p.color), Make(s, Painted(p, Black), t, b),
                   Node(c.left, Painted(c.info, Black), c.right));
    var h' := if p.color == Black then h + 2 else h + 1;
    assert Balanced(Make(s, w, b, c), h + 1);
    assert Balanced(c, h) && Balanced(Node(c.left, Painted(c.info, Black), c.right), h + 1);
    assert Balanced(Make(s, Painted(p, Black), t, b), h + 1);
    assert Balanced(t', h');
    PlugBalanced(up, t', h');
  }

  // ----- Rotations keep the contents -----

  lemma RotatePairs<T>(a: seq<T>, x: seq<T>, b: seq<T>, y: seq<T>, c: seq<T>)
    ensures a + x + (b + y + c) == (a + x + b) + y + c
  {}

  lemma RotateAlike<K, V>(s: Side, x: Info<K, V>, a: Tree<K, V>, y: Info<K, V>, b: Tree<K, V>, c: Tree<K, V>)
    ensures Alike(Make(s, x, a, Make(s, y, b, c)), Make(s, y, Make(s, x, a, b), c))
  {
    var ex, ey := [(x.key, x.value)], [(y.key, y.value)];
    RotatePairs(Pairs(a), ex, Pairs(b), ey, Pairs(c));
    RotatePairs(Pairs(c), ey, Pairs(b), ex, Pairs(a));
    RotateIds(s, x, a, y, b, c);
  }

  lemma RotateIds<K, V>(s: Side, x: Info<K, V>, a: Tree<K, V>, y: Info<K, V>, b: Tree<K, V>, c: Tree<K, V>)
    ensures Ids(Make(s, x, a, Make(s, y, b, c))) == Ids(Make(s, y, Make(s, x, a, b), c))
  {
    TidyMake(s, y, b, c);
    TidyMake(s, x, a, Make(s, y, b, c));
    TidyMake(s, x, a, b);
    TidyMake(s, y, Make(s, x, a, b), c);
  }
}
