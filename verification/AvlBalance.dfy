/** Why `balanceHeight` restores the balance of a subtree without changing its order, and what it
    leaves alone around it. */
module AvlBalance {
  import opened Sequences
  import opened AvlShape

  /** Subtree t hangs in context c; its root z is linked but need not be balanced. */
  ghost predicate Site(m: seq<Node>, root: int, c: Ctx, t: Shape) {
    && t.Fork? && InPool(m, t.id) && m[t.id].parent == CtxId(c)
    && m[t.id].left == Root(t.l) && m[t.id].right == Root(t.r)
    && Sub(m, t.l, t.id) && Sub(m, t.r, t.id)
    && Around(m, root, c, t)
  }

  /** The nodes of c and t are all different, and their keys increase in order. */
  ghost predicate Around(m: seq<Node>, root: int, c: Ctx, t: Shape) {
    && NoDup(Order(Plug(c, t))) && Increasing(m, Order(Plug(c, t)))
    && (c.Frame? ==> InPool(m, c.id))
  }

  /** Only nodes of t changed, and the pointer at its root. */
  ghost predicate Replaced(m0: seq<Node>, m1: seq<Node>, c: Ctx, t: Shape, top: int) {
    && PayloadKept(m0, m1)
    && (forall i :: 0 <= i < |m0| && i !in Order(t) && i != CtxId(c) ==> m1[i] == m0[i])
    && (c.Frame? ==> InPool(m0, c.id) && m1[c.id] == Put(m0[c.id], c.side, top))
  }

  lemma AroundParts(c: Ctx, t: Shape)
    requires NoDup(Order(Plug(c, t)))
    ensures NoDup(Order(t)) && NoDup(Before(c) + After(c))
    ensures forall i | i in Before(c) || i in After(c) :: i !in Order(t)
    ensures c.Frame? ==> c.id !in Order(t)
  {
    PlugOrder(c, t);
    var b, o, a := Before(c), Order(t), After(c);
    NoDupSplit(b + o, a);
    NoDupSplit(b, o);
    forall i | i in b
      ensures i !in a
    {
      assert i in b + o;
    }
    forall i | i in o
      ensures i !in a
    {
      assert i in b + o;
    }
    NoDupJoin(b, o, a);
    if c.Frame? { CtxIdIn(c); }
  }

  /** A node of the subtree compares with the node above the hole as its side says. */
  lemma SideByKey(m: seq<Node>, root: int, c: Ctx, t: Shape, x: int)
    requires Around(m, root, c, t) && c.Frame? && x in Order(t)
    ensures InPool(m, x) && KeySide(m, c.id, x) == c.side
  {
    PlugOrder(c, t);
    var s := Order(Plug(c, t));
    var i :| 0 <= i < |Order(t)| && Order(t)[i] == x;
    assert s[|Before(c)| + i] == x;
    if c.side == Left {
      assert s[|Before(c)| + |Order(t)|] == c.id;
    } else {
      assert s[|Before(c)| - 1] == c.id by {
        var b := Before(c.up) + (Order(c.other) + [c.id]);
        assert b[|b| - 1] == c.id;
      }
    }
  }

  lemma OrderAssoc(d: Dir, a: Shape, x: int, b: Shape, y: int, c: Shape)
    ensures Order(Make(d, a, x, Make(d, b, y, c))) == Order(Make(d, Make(d, a, x, b), y, c))
  {
    var oa, ob, oc := Order(a), Order(b), Order(c);
    assert oa + [x] + (ob + [y] + oc) == (oa + [x] + ob) + [y] + oc;
    assert (oc + [y] + ob) + [x] + oa == oc + [y] + (ob + [x] + oa);
  }

  lemma MakeOpp(d: Dir, a: Shape, x: int, b: Shape)
    ensures Make(Opp(d), b, x, a) == Make(d, a, x, b)
  {
  }

  /** A rotation at the root z of the site, child y rising: the pool around it. */
  lemma RotatedAround(m0: seq<Node>, m1: seq<Node>, root: int, c: Ctx, d: Dir, a: Shape, y: int, b: Shape, z: int, e: Shape)
    requires RotationSite(m0, d, a, y, b, z, e) && m0[z].parent == CtxId(c)
    requires Around(m0, root, c, Make(d, Make(d, a, y, b), z, e))
    requires Rotatable(m0, d, z) && Rotated(m0, m1, d, z)
    ensures Replaced(m0, m1, c, Make(d, Make(d, a, y, b), z, e), y)
  {
    hide Sub, H, Increasing;
    var s := Make(d, a, y, b);
    var t := Make(d, s, z, e);
    AroundParts(c, t);
    InForkAll(t);
    InForkAll(s);
    if c.Frame? { SideByKey(m0, root, c, t, y); }
    if b.Fork? { RootIn(b); }
  }

  /** Single rotation: the outer grandchild a is at least as high as the inner one. */
  lemma SingleBalance(m0: seq<Node>, m1: seq<Node>, root: int, c: Ctx, d: Dir, a: Shape, y: int, b: Shape, z: int, e: Shape)
    requires RotationSite(m0, d, a, y, b, z, e) && m0[z].parent == CtxId(c)
    requires Rotatable(m0, d, z) && Rotated(m0, m1, d, z)
    requires Close(H(a), H(b)) && H(a) >= H(b) && H(a) == H(e) + 1
    ensures Sub(m1, Make(d, a, y, Make(d, b, z, e)), CtxId(c))
    ensures var h := H(Make(d, a, y, Make(d, b, z, e))); H(a) + 1 <= h <= H(a) + 2
  {
    hide Order, NoDup, Rotated, Rotatable, RotationSite;
    RotateShape(m0, m1, d, a, y, b, z, e);
    LooseIsSub(m1, d, b, z, e, y);
    LooseIsSub(m1, d, a, y, Make(d, b, z, e), CtxId(c));
  }

  /** The site of a rotation at the root z of an unbalanced subtree. */
  lemma OuterSite(m: seq<Node>, root: int, c: Ctx, d: Dir, a: Shape, y: int, b: Shape, z: int, e: Shape)
    requires Site(m, root, c, Make(d, Make(d, a, y, b), z, e))
    ensures RotationSite(m, d, a, y, b, z, e)
  {
    var t := Make(d, Make(d, a, y, b), z, e);
    AroundParts(c, t);
    SubOrder(m, t.l, z);
    SubOrder(m, t.r, z);
    InForkAll(t);
  }

  lemma SubIsLoose(m: seq<Node>, d: Dir, a: Shape, id: int, b: Shape, p: int)
    requires Sub(m, Make(d, a, id, b), p)
    ensures Loose(m, d, a, id, b, p) && Close(H(a), H(b)) && m[id].height == Max(H(a), H(b)) + 1
  {
  }

  /** The site of a first rotation below z, at its child y. */
  lemma InnerSite(m: seq<Node>, root: int, c: Ctx, d: Dir, p: Shape, y: int, a: Shape, x: int, b: Shape, z: int, e: Shape)
    requires Site(m, root, c, Make(d, Make(d, p, y, Make(d, a, x, b)), z, e))
    ensures RotationSite(m, Opp(d), b, x, a, y, p) && m[y].parent == z
  {
    var q := Make(d, a, x, b);
    var s := Make(d, p, y, q);
    var t := Make(d, s, z, e);
    AroundParts(c, t);
    NoDupParts(Order(t.l), z, Order(t.r));
    InForkAll(s);
    InForkAll(q);
    SubIsLoose(m, d, p, y, q, z);
    SubIsLoose(m, d, a, x, b, y);
    assert Make(Opp(d), Make(Opp(d), b, x, a), y, p) == s;
  }

  /** After the first rotation of a double rotation the second one meets its site at z. */
  lemma SecondSite(m0: seq<Node>, m1: seq<Node>, root: int, c: Ctx, d: Dir, p: Shape, y: int, a: Shape, x: int, b: Shape, z: int, e: Shape)
    requires Site(m0, root, c, Make(d, Make(d, p, y, Make(d, a, x, b)), z, e))
    requires Rotatable(m0, Opp(d), y) && Rotated(m0, m1, Opp(d), y)
    requires Close(H(a), H(p))
    ensures RotationSite(m1, d, Make(d, p, y, a), x, b, z, e) && m1[z].parent == CtxId(c)
    ensures Around(m1, root, c, Make(d, Make(d, Make(d, p, y, a), x, b), z, e))
  {
    var s := Make(d, p, y, Make(d, a, x, b));
    var s1 := Make(d, Make(d, p, y, a), x, b);
    ApartAtRoot(m0, root, c, d, s, z, e);
    hide Order, NoDup, Rotated, Rotatable, Around, Sub, H, Make, Site;
    SiteAround(m0, root, c, d, s, z, e);
    InnerSite(m0, root, c, d, p, y, a, x, b, z, e);
    RotateShape(m0, m1, Opp(d), b, x, a, y, p);
    InnerRotated(m0, m1, root, c, d, p, y, a, x, b, z, e);
    PutGet(m0[z], d, x);
    hide Get, Put, Opp, PayloadKept;
    LooseIsSub(m1, Opp(d), a, y, p, x);
    MakeOpp(d, p, y, a);
    SameOrder(m0, m1, root, c, d, s, s1, z, e, p, y, a, x, b);
  }

  lemma SiteAround(m: seq<Node>, root: int, c: Ctx, d: Dir, s: Shape, z: int, e: Shape)
    requires Site(m, root, c, Make(d, s, z, e))
    ensures Around(m, root, c, Make(d, s, z, e)) && InPool(m, z) && m[z].parent == CtxId(c)
    ensures Get(m[z], Opp(d)) == Root(e) && (CtxId(c) == NULL || InPool(m, CtxId(c)))
  {
  }

  lemma ApartAtRoot(m: seq<Node>, root: int, c: Ctx, d: Dir, s: Shape, z: int, e: Shape)
    requires Site(m, root, c, Make(d, s, z, e))
    ensures NoDup(Order(Make(d, s, z, e))) && CtxId(c) !in Order(Make(d, s, z, e))
  {
    var t := Make(d, s, z, e);
    AroundParts(c, t);
    SubOrder(m, s, z);
    SubOrder(m, e, z);
    InForkAll(t);
  }

  lemma SameOrder(m0: seq<Node>, m1: seq<Node>, root: int, c: Ctx, d: Dir, s: Shape, s1: Shape, z: int, e: Shape,
                  p: Shape, y: int, a: Shape, x: int, b: Shape)
    requires s == Make(d, p, y, Make(d, a, x, b)) && s1 == Make(d, Make(d, p, y, a), x, b)
    requires Around(m0, root, c, Make(d, s, z, e)) && PayloadKept(m0, m1)
    ensures Order(Make(d, s1, z, e)) == Order(Make(d, s, z, e))
    ensures Order(Plug(c, Make(d, s1, z, e))) == Order(Plug(c, Make(d, s, z, e)))
    ensures Around(m1, root, c, Make(d, s1, z, e))
  {
    OrderAssoc(d, p, y, a, x, b);
    PlugOrder(c, Make(d, s1, z, e));
    PlugOrder(c, Make(d, s, z, e));
  }

  /** The first rotation changes nothing but the child pointer of z and nodes below it on side d. */
  lemma InnerRotated(m0: seq<Node>, m1: seq<Node>, root: int, c: Ctx, d: Dir, p: Shape, y: int, a: Shape, x: int, b: Shape, z: int, e: Shape)
    requires Site(m0, root, c, Make(d, Make(d, p, y, Make(d, a, x, b)), z, e))
    requires Rotatable(m0, Opp(d), y) && Rotated(m0, m1, Opp(d), y)
    ensures PayloadKept(m0, m1) && Sub(m1, e, z)
    ensures InPool(m1, z) && m1[z] == Put(m0[z], d, x)
    ensures forall i :: 0 <= i < |m0| && i !in Order(Make(d, Make(d, p, y, Make(d, a, x, b)), z, e)) ==> m1[i] == m0[i]
  {
    var s := Make(d, p, y, Make(d, a, x, b));
    InnerNodes(m0, root, c, d, p, y, a, x, b, z, e);
    InnerSide(m0, root, c, d, s, z, e, x);
    if e.Fork? { RootIn(e); }
    if a.Fork? { RootIn(a); }
    RotatedElsewhere(m0, m1, Opp(d), y);
    hide Order, NoDup, Site, Around, RotationSite, H, Make, Rotated, Rotatable, PayloadKept, Get, Put, Opp;
    SubFrame(m0, m1, e, z, z);
  }

  lemma InnerSide(m: seq<Node>, root: int, c: Ctx, d: Dir, s: Shape, z: int, e: Shape, x: int)
    requires Site(m, root, c, Make(d, s, z, e)) && x in Order(s)
    ensures InPool(m, z) && InPool(m, x) && KeySide(m, z, x) == d
  {
    hide NoDup, Increasing;
    PlugFrame(c, d, s, z, e);
    SideByKey(m, root, Frame(d, z, e, c), s, x);
  }

  /** The nodes touched by the first rotation, and those of e, which it does not touch. */
  lemma InnerNodes(m: seq<Node>, root: int, c: Ctx, d: Dir, p: Shape, y: int, a: Shape, x: int, b: Shape, z: int, e: Shape)
    requires Site(m, root, c, Make(d, Make(d, p, y, Make(d, a, x, b)), z, e))
    ensures InPool(m, y) && Get(m[y], Opp(d)) == x && InPool(m, x) && Get(m[x], d) == Root(a) && m[y].parent == z
    ensures InPool(m, z) && Root(a) != z && Sub(m, e, z)
    ensures forall i | i in Order(e) :: 0 <= i < |m| && i != Root(a)
    ensures InnerDistinct(d, p, y, a, x, b, z, e)
  {
    var q := Make(d, a, x, b);
    var s := Make(d, p, y, q);
    ApartAtRoot(m, root, c, d, s, z, e);
    ShapeNodes(d, p, y, a, x, b, z, e);
    SiteLoose(m, root, c, d, s, z, e);
    SubOrder(m, e, z);
    if a.Fork? { RootIn(a); }
    hide Order, NoDup, Site, Around, H;
    SubIsLoose(m, d, p, y, q, z);
    SubIsLoose(m, d, a, x, b, y);
  }

  lemma SiteLoose(m: seq<Node>, root: int, c: Ctx, d: Dir, s: Shape, z: int, e: Shape)
    requires Site(m, root, c, Make(d, s, z, e))
    ensures Loose(m, d, s, z, e, CtxId(c))
  {
  }

  ghost predicate InnerDistinct(d: Dir, p: Shape, y: int, a: Shape, x: int, b: Shape, z: int, e: Shape) {
    var s := Make(d, p, y, Make(d, a, x, b));
    var t := Make(d, s, z, e);
    && x != z && y != z && NoDup(Order(e))
    && (forall i | i in Order(e) :: i != x && i != y && i != z && i !in Order(a))
    && z !in Order(a)
    && x in Order(t) && y in Order(t) && z in Order(t) && x in Order(s)
    && (forall i | i in Order(a) :: i in Order(t))
  }

  lemma ShapeNodes(d: Dir, p: Shape, y: int, a: Shape, x: int, b: Shape, z: int, e: Shape)
    requires NoDup(Order(Make(d, Make(d, p, y, Make(d, a, x, b)), z, e)))
    ensures InnerDistinct(d, p, y, a, x, b, z, e)
  {
    var q := Make(d, a, x, b);
    var s := Make(d, p, y, q);
    var t := Make(d, s, z, e);
    InForkAll(t);
    InForkAll(s);
    InForkAll(q);
    NoDupParts(Order(t.l), z, Order(t.r));
    hide Order, NoDup;
  }

  lemma PlugFrame(c: Ctx, d: Dir, s: Shape, z: int, e: Shape)
    ensures Plug(Frame(d, z, e, c), s) == Plug(c, Make(d, s, z, e))
  {
  }

  /** Double rotation: the inner grandchild is the higher one and ends up on top. */
  lemma DoubleBalance(m0: seq<Node>, m1: seq<Node>, m2: seq<Node>, root: int, c: Ctx, d: Dir,
                      p: Shape, y: int, a: Shape, x: int, b: Shape, z: int, e: Shape)
    requires Site(m0, root, c, Make(d, Make(d, p, y, Make(d, a, x, b)), z, e))
    requires H(p) == H(e) && Max(H(a), H(b)) + 1 == H(p) + 1 && Close(H(a), H(b))
    requires Rotatable(m0, Opp(d), y) && Rotated(m0, m1, Opp(d), y)
    requires Rotatable(m1, d, z) && Rotated(m1, m2, d, z)
    ensures Sub(m2, Make(d, Make(d, p, y, a), x, Make(d, b, z, e)), CtxId(c))
    ensures H(Make(d, Make(d, p, y, a), x, Make(d, b, z, e))) == H(p) + 2
    ensures Replaced(m0, m2, c, Make(d, Make(d, p, y, Make(d, a, x, b)), z, e), x)
  {
    hide Order, NoDup, Rotated, Rotatable, RotationSite, Site, Around;
    var y1 := Make(d, p, y, a);
    var s, s1 := Make(d, p, y, Make(d, a, x, b)), Make(d, y1, x, b);
    SecondSite(m0, m1, root, c, d, p, y, a, x, b, z, e);
    RotateShape(m1, m2, d, y1, x, b, z, e);
    LooseIsSub(m2, d, b, z, e, x);
    LooseIsSub(m2, d, y1, x, Make(d, b, z, e), CtxId(c));
    RotatedAround(m1, m2, root, c, d, y1, x, b, z, e);
    InnerRotated(m0, m1, root, c, d, p, y, a, x, b, z, e);
    SiteContext(m0, root, c, Make(d, s, z, e));
    OrderAssocUnder(d, p, y, a, x, b, z, e);
  }

  lemma SiteContext(m: seq<Node>, root: int, c: Ctx, t: Shape)
    requires Site(m, root, c, t)
    ensures c.Frame? ==> InPool(m, c.id) && c.id !in Order(t)
  {
    AroundParts(c, t);
  }

  lemma OrderAssocUnder(d: Dir, p: Shape, y: int, a: Shape, x: int, b: Shape, z: int, e: Shape)
    ensures Order(Make(d, Make(d, Make(d, p, y, a), x, b), z, e)) == Order(Make(d, Make(d, p, y, Make(d, a, x, b)), z, e))
  {
    OrderAssoc(d, p, y, a, x, b);
  }

  // ----- Walking up -----------------------------------------------------------------------------------

  /** A good subtree t in the hole of c, where the nodes above still expect height h. */
  ghost predicate Pending(m: seq<Node>, root: int, c: Ctx, t: Shape, h: int) {
    && Sub(m, t, CtxId(c)) && Hole(m, root, c) == Root(t) && CtxGood(m, root, c, h)
    && Close(H(t), h) && Around(m, root, c, t)
  }

  /** The node above the hole with its two subtrees. */
  ghost function Above(c: Ctx, t: Shape): Shape
    requires c.Frame?
  {
    Make(c.side, t, c.id, c.other)
  }

  lemma PendingSite(m: seq<Node>, root: int, c: Ctx, t: Shape, h: int)
    requires Pending(m, root, c, t, h) && c.Frame?
    ensures Site(m, root, c.up, Above(c, t))
    ensures m[c.id].height == Max(h, H(c.other)) + 1 && Close(h, H(c.other))
    ensures CtxGood(m, root, c.up, m[c.id].height)
    ensures Height(m, m[c.id].left) == H(Above(c, t).l) && Height(m, m[c.id].right) == H(Above(c, t).r)
    ensures Hole(m, root, c.up) == c.id
    ensures Close(H(t), h)
  {
    SubHeight(m, t, c.id);
    SubHeight(m, c.other, c.id);
  }

  /** The subtree at the node above was replaced by u, whose height is within one of the stored one. */
  lemma StepUp(m0: seq<Node>, m1: seq<Node>, root0: int, root1: int, c: Ctx, t: Shape, u: Shape, h: int)
    requires Site(m0, root0, c, t) && CtxGood(m0, root0, c, h)
    requires Sub(m1, u, CtxId(c)) && u.Fork? && Order(u) == Order(t) && Close(H(u), h)
    requires Replaced(m0, m1, c, t, u.id)
    requires root1 == if c.Top? then u.id else root0
    ensures Pending(m1, root1, c, u, h) && Order(Plug(c, u)) == Order(Plug(c, t))
  {
    hide NoDup, Order, Before, After, Sub, H, Around, Site, CtxGood;
    SiteIsAround(m0, root0, c, t);
    SameAround(m0, m1, root0, root1, c, t, u);
    StepFrame(m0, m1, root0, root1, c, t, u.id, h);
  }

  lemma SiteIsAround(m: seq<Node>, root: int, c: Ctx, t: Shape)
    requires Site(m, root, c, t)
    ensures Around(m, root, c, t)
  {
  }

  lemma SameAround(m0: seq<Node>, m1: seq<Node>, root0: int, root1: int, c: Ctx, t: Shape, u: Shape)
    requires Around(m0, root0, c, t) && Order(u) == Order(t) && PayloadKept(m0, m1)
    ensures Around(m1, root1, c, u) && Order(Plug(c, u)) == Order(Plug(c, t))
  {
    PlugOrder(c, t);
    PlugOrder(c, u);
  }

  lemma StepFrame(m0: seq<Node>, m1: seq<Node>, root0: int, root1: int, c: Ctx, t: Shape, top: int, h: int)
    requires Around(m0, root0, c, t) && CtxGood(m0, root0, c, h)
    requires Replaced(m0, m1, c, t, top)
    requires root1 == if c.Top? then top else root0
    ensures CtxGood(m1, root1, c, h) && Hole(m1, root1, c) == top
  {
    AroundParts(c, t);
    CtxOrder(m0, root0, c, t);
    hide NoDup, Order, Before, After, Sub, H, Around, Increasing;
    if c.Frame? {
      CtxIdIn(c);
    }
    CtxFrame(m0, m1, root0, root1, c, h);
  }

  lemma CtxOrder(m: seq<Node>, root: int, c: Ctx, t: Shape)
    requires Around(m, root, c, t)
    ensures forall i | i in Before(c) || i in After(c) :: 0 <= i < |m|
  {
    PlugOrder(c, t);
    var s := Order(Plug(c, t));
    forall i | i in Before(c) || i in After(c)
      ensures i in s
    {
    }
  }

  lemma PendingTop(m: seq<Node>, root: int, c: Ctx, t: Shape, h: int)
    requires Pending(m, root, c, t, h) && CtxId(c) == NULL
    ensures Plug(c, t) == t && Sub(m, t, NULL) && root == Root(t)
  {
  }

  lemma PendingFrame(m: seq<Node>, root: int, c: Ctx, t: Shape, h: int)
    requires Pending(m, root, c, t, h) && CtxId(c) != NULL
    ensures c.Frame? && InPool(m, c.id)
  {
  }

  /** Nothing left to do: the whole tree is good. */
  lemma PendingDone(m: seq<Node>, root: int, c: Ctx, t: Shape)
    requires Pending(m, root, c, t, H(t))
    ensures Sub(m, Plug(c, t), NULL) && root == Root(Plug(c, t))
  {
    PlugGood(m, root, c, t);
  }

  lemma SubParent(m: seq<Node>, t: Shape, p: int)
    requires Sub(m, t, p) && t.Fork?
    ensures InPool(m, t.id) && m[t.id].parent == p
  {
  }

  /** `updateHeight` at a balanced node makes the subtree good. */
  lemma HeightUpdated(m0: seq<Node>, m1: seq<Node>, root: int, c: Ctx, t: Shape)
    requires Site(m0, root, c, t) && Close(H(t.l), H(t.r)) && Hole(m0, root, c) == t.id
    requires m1 == m0[t.id := m0[t.id].(height := Max(Height(m0, m0[t.id].left), Height(m0, m0[t.id].right)) + 1)]
    ensures Sub(m1, t, CtxId(c)) && Replaced(m0, m1, c, t, t.id)
  {
    AroundParts(c, t);
    RootIn(t);
    SubHeight(m0, t.l, t.id);
    SubHeight(m0, t.r, t.id);
    HeightSubs(m0, m1, t);
    hide NoDup, Order, Increasing;
  }

  lemma HeightSubs(m0: seq<Node>, m1: seq<Node>, t: Shape)
    requires t.Fork? && Sub(m0, t.l, t.id) && Sub(m0, t.r, t.id) && NoDup(Order(t)) && |m0| == |m1|
    requires forall i :: 0 <= i < |m0| && i != t.id ==> m1[i] == m0[i]
    ensures Sub(m1, t.l, t.id) && Sub(m1, t.r, t.id)
  {
    NoDupParts(Order(t.l), t.id, Order(t.r));
    hide NoDup, Order, Sub, H;
    UntouchedSub(m0, m1, t.l, t.id, t.id);
    UntouchedSub(m0, m1, t.r, t.id, t.id);
  }

  lemma UntouchedSub(m0: seq<Node>, m1: seq<Node>, t: Shape, p: int, z: int)
    requires Sub(m0, t, p) && NoDup(Order(t)) && z !in Order(t) && |m0| == |m1|
    requires forall i :: 0 <= i < |m0| && i != z ==> m1[i] == m0[i]
    ensures Sub(m1, t, p)
  {
    SubOrder(m0, t, p);
    if t.Fork? { RootIn(t); SubParent(m0, t, p); }
    hide NoDup, Order, Sub;
    SubFrame(m0, m1, t, p, p);
  }

  lemma ReplacedInside(m0: seq<Node>, m1: seq<Node>, c: Ctx, t: Shape, top: int, root: int)
    requires Replaced(m0, m1, c, t, top)
    ensures PayloadKept(m0, m1)
    ensures forall i :: 0 <= i < |m0| && i !in Order(Plug(c, t)) ==> m1[i] == m0[i]
  {
    PlugOrder(c, t);
    if c.Frame? { CtxIdIn(c); }
  }
}
