/** `IntervalTree` of `src/Graphite/interval_tree.cpp`: insertion, removal, rebalancing and search,
    in place in a pool of nodes. */
module IntervalTree {
  import opened Sequences
  import opened AvlShape
  import opened AvlBalance
  import opened AvlEdit

  // ----- Searching a sequence of free intervals -----------------------------------------------

  /** A request for b - a cycles arriving at a can be served within the interval: it starts at a or at
      the start of the interval, whichever is later. */
  predicate CanHold(x: Item, a: nat, b: nat) {
    Max(a, x.lo) + (b - a) <= x.hi
  }

  /** Non-empty intervals in increasing order, at least one cycle apart, each stored under its start. */
  predicate Gapped(q: seq<Item>) {
    && (forall i :: 0 <= i < |q| ==> q[i].key == q[i].lo < q[i].hi)
    && (forall i, j :: 0 <= i < j < |q| ==> q[i].hi < q[j].lo)
  }

  /** The position of the earliest interval that can hold the request, or |q|. */
  function FirstFit(q: seq<Item>, a: nat, b: nat): (i: nat)
    ensures i <= |q| && (i < |q| ==> CanHold(q[i], a, b))
    ensures forall j :: 0 <= j < i ==> !CanHold(q[j], a, b)
  {
    if |q| == 0 || CanHold(q[0], a, b) then 0 else FirstFit(q[1..], a, b) + 1
  }

  lemma FirstFitUnique(q: seq<Item>, a: nat, b: nat, i: nat)
    requires i <= |q| && (i < |q| ==> CanHold(q[i], a, b))
    requires forall j :: 0 <= j < i ==> !CanHold(q[j], a, b)
    ensures FirstFit(q, a, b) == i
  {
  }

  /** Why the search may skip the left subtree: an interval that ends before the request does cannot
      hold it. */
  lemma EndsTooEarly(x: Item, a: nat, b: nat)
    requires a <= b
    requires x.hi < b
    ensures !CanHold(x, a, b)
  {
  }

  /** The first fit in a fork's sequence, from those of its parts. */
  lemma FirstFitFork(l: seq<Item>, x: Item, r: seq<Item>, a: nat, b: nat)
    requires Gapped(l + [x] + r) && a <= b
    ensures Gapped(l) && Gapped(r)
    ensures b < x.lo && FirstFit(l, a, b) < |l| ==> FirstFit(l + [x] + r, a, b) == FirstFit(l, a, b)
    ensures !(b < x.lo && FirstFit(l, a, b) < |l|) ==>
      FirstFit(l + [x] + r, a, b) == |l| + if CanHold(x, a, b) then 0 else 1 + FirstFit(r, a, b)
  {
    GappedFork(l, x, r);
    hide FirstFit, CanHold, Gapped;
    var q := l + [x] + r;
    var fl, fr := FirstFit(l, a, b), FirstFit(r, a, b);
    if b < x.lo && fl < |l| {
      FirstFitUnique(q, a, b, fl);
    } else {
      forall j | 0 <= j < |l|
        ensures !CanHold(q[j], a, b)
      {
        if b >= x.lo { EndsTooEarly(l[j], a, b); }
      }
      if CanHold(x, a, b) {
        FirstFitUnique(q, a, b, |l|);
      } else {
        assert forall j | |l| < j < |l| + 1 + fr :: q[j] == r[j - |l| - 1];
        FirstFitUnique(q, a, b, |l| + 1 + fr);
      }
    }
  }

  lemma GappedFork(l: seq<Item>, x: Item, r: seq<Item>)
    requires Gapped(l + [x] + r)
    ensures Gapped(l) && Gapped(r) && forall i | 0 <= i < |l| :: l[i].hi < x.lo
  {
    var q := l + [x] + r;
    assert forall i | 0 <= i < |l| :: q[i] == l[i];
    assert q[|l|] == x;
    assert forall i | 0 <= i < |r| :: q[|l| + 1 + i] == r[i];
  }

  lemma ItemsFork(m: seq<Node>, t: Shape)
    requires t.Fork?
    ensures Items(m, Order(t)) == Items(m, Order(t.l)) + [ItemAt(m, t.id)] + Items(m, Order(t.r))
  {
  }

  lemma NodesExist(m: seq<Node>, t: Shape, p: int)
    requires Sub(m, t, p)
    ensures forall k :: 0 <= k < |Order(t)| ==> Order(t)[k] != NULL
  {
    SubOrder(m, t, p);
  }

  lemma OrderAt(t: Shape)
    requires t.Fork?
    ensures var l, r := |Order(t.l)|, |Order(t.r)|;
      && |Order(t)| == l + 1 + r && Order(t)[l] == t.id
      && (forall k :: 0 <= k < l ==> Order(t)[k] == Order(t.l)[k])
      && (forall k :: 0 <= k < r ==> Order(t)[l + 1 + k] == Order(t.r)[k])
  {
  }

  /** The two tests of `searchTree` together say that the interval can hold the request. */
  lemma HoldsHere(x: Item, a: nat, b: nat)
    requires a <= b && x.lo < x.hi
    ensures CanHold(x, a, b) <==> (a >= x.lo && b <= x.hi) || (a < x.lo && x.hi - x.lo >= b - a)
  {
  }

  lemma GappedAt(q: seq<Item>, i: int)
    requires Gapped(q) && 0 <= i < |q|
    ensures q[i].key == q[i].lo < q[i].hi
  {
  }

  /** The node with the earliest interval that can hold the request, or NULL. */
  ghost function Fit(m: seq<Node>, t: Shape, a: nat, b: nat): int {
    var q := Items(m, Order(t));
    var k := FirstFit(q, a, b);
    if k < |q| then Order(t)[k] else NULL
  }

  lemma FitNil(m: seq<Node>, t: Shape, a: nat, b: nat)
    requires t.Nil?
    ensures Fit(m, t, a, b) == NULL
  {
  }

  /** The two tests of `searchTree` at a node. */
  predicate HoldsBy(n: Node, a: nat, b: nat)
    requires a <= b
  {
    (a >= n.lo && b <= n.hi) || (a < n.lo && n.hi - n.lo >= b - a)
  }

  lemma FitFork(m: seq<Node>, t: Shape, p: int, a: nat, b: nat)
    requires Sub(m, t, p) && t.Fork? && Gapped(Items(m, Order(t))) && a <= b
    ensures Gapped(Items(m, Order(t.l))) && Gapped(Items(m, Order(t.r)))
    ensures b < m[t.id].lo && Fit(m, t.l, a, b) != NULL ==> Fit(m, t, a, b) == Fit(m, t.l, a, b)
    ensures !(b < m[t.id].lo && Fit(m, t.l, a, b) != NULL) ==>
      Fit(m, t, a, b) == if HoldsBy(m[t.id], a, b) then t.id else Fit(m, t.r, a, b)
  {
    ItemsFork(m, t);
    OrderAt(t);
    NodesExist(m, t.l, t.id);
    var l, x, y := Items(m, Order(t.l)), ItemAt(m, t.id), Items(m, Order(t.r));
    hide FirstFit, Gapped, CanHold, H, Order, Items, Sub;
    FirstFitFork(l, x, y, a, b);
    assert (l + [x] + y)[|l|] == x;
    GappedAt(l + [x] + y, |l|);
    HoldsHere(x, a, b);
  }

  class Tree {
    var m: seq<Node>      // the nodes; a pointer is an index
    var root: int
    var size: int
    ghost var shape: Shape

    /** The tree is a search tree with consistent pointers, exact heights and AVL balance. */
    ghost predicate Linked()
      reads this
    {
      Sub(m, shape, NULL) && root == Root(shape) && Ordered(m, Order(shape))
    }

    ghost predicate Valid()
      reads this
    {
      Linked() && size == |Order(shape)|
    }

    /** The stored intervals in order. */
    ghost function Stored(): seq<Item>
      reads this
    {
      Items(m, Order(shape))
    }

    constructor (nodes: seq<Node>, start: int)
      requires InPool(nodes, start)
      requires nodes[start].parent == NULL && nodes[start].left == NULL && nodes[start].right == NULL
      requires nodes[start].height == 1
      ensures Valid() && m == nodes && Order(shape) == [start]
    {
      m, root, size, shape := nodes, start, 1, Fork(Nil, start, Nil);
    }

    // ----- Pointer updates ---------------------------------------------------------------------

    /** `updateChildPointer` with a direction */
    method SetChild(p: int, child: int, d: Dir)
      requires p == NULL || InPool(m, p)
      modifies `m
      ensures m == if p == NULL then old(m) else old(m)[p := Put(old(m)[p], d, child)]
    {
      if p != NULL {
        m := m[p := Put(m[p], d, child)];
      }
    }

    /** `updateChildPointer` without one: the side follows from the keys */
    method SetChildByKey(p: int, child: int)
      requires (p == NULL || InPool(m, p)) && InPool(m, child)
      modifies `m
      ensures m == if p == NULL then old(m) else old(m)[p := Put(old(m)[p], KeySide(old(m), p, child), child)]
    {
      if p != NULL {
        if m[p].key < m[child].key {
          m := m[p := m[p].(right := child)];
        } else {
          m := m[p := m[p].(left := child)];
        }
      }
    }

    /** `updateParentPointer` */
    method SetParent(p: int, parent: int)
      requires p == NULL || InPool(m, p)
      modifies `m, `root
      ensures m == if p == NULL then old(m) else old(m)[p := old(m)[p].(parent := parent)]
      ensures root == if parent == NULL then p else old(root)
    {
      if p != NULL {
        m := m[p := m[p].(parent := parent)];
      }
      if parent == NULL {
        root := p;
      }
    }

    /** `updateHeight` */
    method UpdateHeight(p: int)
      requires InPool(m, p)
      modifies `m
      ensures m == old(m)[p := old(m)[p].(height := Max(Height(old(m), old(m)[p].left), Height(old(m), old(m)[p].right)) + 1)]
    {
      m := m[p := m[p].(height := Max(Height(m, m[p].left), Height(m, m[p].right)) + 1)];
    }

    // ----- Balance -----------------------------------------------------------------------------

    /** `performRotation`, clockwise when d is Left */
    method PerformRotation(y: int, d: Dir)
      requires Rotatable(m, d, y)
      modifies `m, `root
      ensures Rotated(old(m), m, d, y)
      ensures root == if old(m)[y].parent == NULL then Get(old(m)[y], d) else old(root)
    {
      var x := Get(m[y], d);
      if d == Left {
        Clockwise(y);
      } else {
        AntiClockwise(y);
      }
      UpdateHeight(y);
      UpdateHeight(x);
    }

    method Clockwise(y: int)
      requires Rotatable(m, Left, y)
      modifies `m, `root
      ensures Relinked(old(m), m, Left, y)
      ensures root == if old(m)[y].parent == NULL then old(m)[y].left else old(root)
    {
      ghost var m0 := m;
      ghost var p := m[y].parent;
      var x := m[y].left;
      SetParent(x, m[y].parent);
      SetChildByKey(m[x].parent, x);
      assert m[y] == m0[y] && m[x] == m0[x].(parent := p);
      m := m[y := m[y].(left := m[x].right)];
      SetParent(m[y].left, y);
      m := m[x := m[x].(right := y)];
      SetParent(y, x);
    }

    method AntiClockwise(y: int)
      requires Rotatable(m, Right, y)
      modifies `m, `root
      ensures Relinked(old(m), m, Right, y)
      ensures root == if old(m)[y].parent == NULL then old(m)[y].right else old(root)
    {
      ghost var m0 := m;
      ghost var p := m[y].parent;
      var x := m[y].right;
      SetParent(x, m[y].parent);
      SetChildByKey(m[x].parent, x);
      assert m[y] == m0[y] && m[x] == m0[x].(parent := p);
      m := m[y := m[y].(right := m[x].left)];
      SetParent(m[y].right, y);
      m := m[x := m[x].(left := y)];
      SetParent(y, x);
    }
  
    /** `balanceHeight`: one or two rotations at a subtree whose children differ in height by two. */
    method BalanceHeight(z: int, ghost c: Ctx, ghost t: Shape) returns (top: int, ghost u: Shape)
      requires Site(m, root, c, t) && t.id == z
      requires H(t.l) == H(t.r) + 2 || H(t.r) == H(t.l) + 2
      modifies `m, `root
      ensures u.Fork? && u.id == top && Order(u) == Order(t) && Sub(m, u, CtxId(c))
      ensures Max(H(t.l), H(t.r)) <= H(u) <= Max(H(t.l), H(t.r)) + 1
      ensures Replaced(old(m), m, c, t, top)
      ensures root == if c.Top? then top else old(root)
    {
      hide Order, NoDup, Increasing, Around, PayloadKept, Replaced, Rotated, Rotatable, RotationSite, Apart, Loose;
      SubHeight(m, t.l, z);
      SubHeight(m, t.r, z);
      var yDir := if Height(m, m[z].left) > Height(m, m[z].right) then Left else Right;
      var y := Get(m[z], yDir);
      ghost var s, e := if yDir == Left then t.l else t.r, if yDir == Left then t.r else t.l;
      ghost var a, b := if yDir == Left then s.l else s.r, if yDir == Left then s.r else s.l;
      SubHeight(m, s.l, y);
      SubHeight(m, s.r, y);
      var xDir :=
        if Height(m, m[y].left) != Height(m, m[y].right) then
          (if Height(m, m[y].left) > Height(m, m[y].right) then Left else Right)
        else yDir;
      ghost var m0, root0 := m, root;
      if xDir != yDir {
        top := Get(m[y], xDir);
        u := Double(z, y, top, yDir, c, a, b, e);
      } else {
        SiteContext(m, root, c, t);
        OuterSite(m, root, c, yDir, a, y, b, z, e);
        RotationReady(m, yDir, a, y, b, z, e);
        SiteAround(m, root, c, yDir, s, z, e);
        PerformRotation(z, yDir);
        SingleBalance(m0, m, root0, c, yDir, a, y, b, z, e);
        RotatedAround(m0, m, root0, c, yDir, a, y, b, z, e);
        OrderAssoc(yDir, a, y, b, z, e);
        top, u := y, Make(yDir, a, y, Make(yDir, b, z, e));
      }
    }

    /** The two rotations of `balanceHeight` when the inner grandchild x is the higher one. */
    method Double(z: int, y: int, x: int, d: Dir, ghost c: Ctx, ghost p: Shape, ghost q: Shape, ghost e: Shape)
      returns (ghost u: Shape)
      requires Site(m, root, c, Make(d, Make(d, p, y, q), z, e))
      requires q.Fork? && q.id == x && H(p) == H(e) && H(q) == H(p) + 1
      modifies `m, `root
      ensures u.Fork? && u.id == x && Order(u) == Order(Make(d, Make(d, p, y, q), z, e)) && Sub(m, u, CtxId(c))
      ensures H(u) == H(p) + 2
      ensures Replaced(old(m), m, c, Make(d, Make(d, p, y, q), z, e), x)
      ensures root == if c.Top? then x else old(root)
    {
      hide Order, NoDup, Increasing, Around, PayloadKept, Replaced, Rotated, Rotatable, RotationSite, Apart;
      ghost var m0, root0 := m, root;
      ghost var a, b := if d == Left then q.l else q.r, if d == Left then q.r else q.l;
      ghost var s := Make(d, p, y, q);
      SiteContext(m, root, c, Make(d, s, z, e));
      SiteLoose(m, root, c, d, s, z, e);
      SubIsLoose(m, d, p, y, q, z);
      SubIsLoose(m, d, a, x, b, y);
      InnerSite(m, root, c, d, p, y, a, x, b, z, e);
      RotationReady(m, Opp(d), b, x, a, y, p);
      PerformRotation(y, Opp(d));
      ghost var m1 := m;
      SecondSite(m0, m1, root0, c, d, p, y, a, x, b, z, e);
      RotationReady(m1, d, Make(d, p, y, a), x, b, z, e);
      PerformRotation(z, d);
      DoubleBalance(m0, m1, m, root0, c, d, p, y, a, x, b, z, e);
      u := Make(d, Make(d, p, y, a), x, Make(d, b, z, e));
      OrderAssocUnder(d, p, y, a, x, b, z, e);
      OrderAssoc(d, Make(d, p, y, a), x, b, z, e);
    }
  
    /** `rebalanceAVLTree`, called at the node above a subtree t that was changed: it restores balance
        and heights on the way up and stops as soon as a subtree kept its height. */
    method Rebalance(p: int, ghost c: Ctx, ghost t: Shape, ghost h: int) returns (ghost w: Shape)
      requires Pending(m, root, c, t, h) && p == CtxId(c)
      modifies `m, `root
      ensures Sub(m, w, NULL) && root == Root(w) && Order(w) == Order(Plug(c, t))
      ensures PayloadKept(old(m), m)
      ensures forall i :: 0 <= i < |m| && i !in Order(w) ==> m[i] == old(m)[i]
      decreases c
    {
      hide Order, NoDup, Increasing, Sub, CtxGood, Site, H;
      if p == NULL {
        PendingTop(m, root, c, t, h);
        return t;
      }
      PendingFrame(m, root, c, t, h);
      ghost var oldOrder := Order(Plug(c, t));
      var oldHeight := m[p].height;
      var top;
      ghost var u;
      top, u := Settle(p, c, t, h);
      if m[top].height != oldHeight {
        w := Rebalance(m[top].parent, c.up, u, oldHeight);
      } else {
        PendingDone(m, root, c.up, u);
        w := Plug(c.up, u);
      }
    }

    /** One node of the way up: rotate if it lost its balance, otherwise set its height. */
    method Settle(p: int, ghost c: Ctx, ghost t: Shape, ghost h: int) returns (top: int, ghost u: Shape)
      requires Pending(m, root, c, t, h) && p == CtxId(c) && c.Frame? && InPool(m, p)
      modifies `m, `root
      ensures u.Fork? && u.id == top && InPool(m, top) && m[top].height == H(u) && m[top].parent == CtxId(c.up)
      ensures Pending(m, root, c.up, u, old(m)[p].height) && Order(Plug(c.up, u)) == Order(Plug(c, t))
      ensures PayloadKept(old(m), m)
      ensures forall i :: 0 <= i < |m| && i !in Order(Plug(c, t)) ==> m[i] == old(m)[i]
    {
      hide Order, NoDup, Increasing, Sub, CtxGood, Replaced, PayloadKept, Site, Pending;
      PendingSite(m, root, c, t, h);
      ghost var m0, root0, t0 := m, root, Above(c, t);
      top, u := p, t0;
      if !(-1 <= Height(m, m[p].left) - Height(m, m[p].right) <= 1) {
        top, u := BalanceHeight(p, c.up, t0);
      } else {
        UpdateHeight(p);
        HeightUpdated(m0, m, root0, c.up, t0);
      }
      StepUp(m0, m, root0, root, c.up, t0, u, m0[p].height);
      ReplacedInside(m0, m, c.up, t0, top, root0);
      SubHeight(m, u, CtxId(c.up));
      SubParent(m, u, CtxId(c.up));
    }

    // ----- Insertion -----------------------------------------------------------------------------

    /** `insert`: a fresh key adds exactly the new interval; a key that is already there only counts. */
    method Insert(node: int)
      requires Linked() && root != NULL && Fresh(m, Order(shape), node)
      modifies this
      ensures Linked() && size == old(size) + 1
      ensures PayloadKept(old(m), m) && forall i :: 0 <= i < |m| && i !in Order(shape) ==> m[i] == old(m)[i]
      ensures (exists i :: i in old(Order(shape)) && InPool(m, i) && m[i].key == m[node].key) ==>
        m == old(m) && root == old(root) && shape == old(shape)
      ensures (forall i :: i in old(Order(shape)) ==> InPool(m, i) && m[i].key != m[node].key) ==>
        exists k :: 0 <= k <= |old(Order(shape))| && Order(shape) == With(old(Order(shape)), k, node)
          && Stored() == With(old(Stored()), k, ItemAt(m, node))
    {
      hide Sub, CtxGood, H, NoDup, Increasing, Between, Order;
      ghost var s := Order(shape);
      size := size + 1;
      StartPending(m, root, shape);
      ghost var w, at;
      w, at := InsertInTree(node, root, Top, shape);
      if at >= 0 {
        OrderedWith(old(m), s, at, node);
        OrderedKept(old(m), m, Order(w));
        ItemsKept(old(m), m, s);
        ItemsWith(m, s, at, node);
        NoneEqual(old(m), s, at, m[node].key);
      }
      shape := w;
    }

    method InsertInTree(node: int, r: int, ghost c: Ctx, ghost t: Shape) returns (ghost w: Shape, ghost at: int)
      requires Pending(m, root, c, t, H(t)) && t.Fork? && r == t.id
      requires Fresh(m, Order(Plug(c, t)), node)
      requires Between(m, Order(Plug(c, t)), |Before(c)|, |Before(c)| + |Order(t)|, m[node].key)
      modifies `m, `root
      ensures Sub(m, w, NULL) && root == Root(w)
      ensures PayloadKept(old(m), m) && forall i :: 0 <= i < |m| && i !in Order(w) ==> m[i] == old(m)[i]
      ensures at < 0 ==> m == old(m) && root == old(root) && w == Plug(c, t)
      ensures at < 0 ==> exists i :: i in Order(w) && InPool(m, i) && m[i].key == m[node].key
      ensures at <= |Order(Plug(c, t))|
      ensures at >= 0 ==> Between(old(m), Order(Plug(c, t)), at, at, m[node].key)
      ensures at >= 0 ==> Order(w) == With(Order(Plug(c, t)), at, node)
      decreases t
    {
      hide Order, NoDup, Increasing, Sub, CtxGood, Before, After, Between, Plug, Pending;
      NodeHere(m, root, c, t);
      if m[node].key < m[r].key {
        Down(m, root, c, t, Left);
        BetweenDown(m, root, c, t, Left, m[node].key);
        if m[r].left != NULL {
          w, at := InsertInTree(node, m[r].left, Below(c, t, Left), t.l);
        } else {
          w, at := Hang(node, r, Left, c, t);
        }
      } else if m[node].key > m[r].key {
        Down(m, root, c, t, Right);
        BetweenDown(m, root, c, t, Right, m[node].key);
        if m[r].right != NULL {
          w, at := InsertInTree(node, m[r].right, Below(c, t, Right), t.r);
        } else {
          w, at := Hang(node, r, Right, c, t);
        }
      } else {
        PendingDone(m, root, c, t);
        w, at := Plug(c, t), -1;
      }
    }

    /** The attachment of a leaf at the end of `insertInTree`. */
    method Hang(node: int, r: int, d: Dir, ghost c: Ctx, ghost t: Shape) returns (ghost w: Shape, ghost at: int)
      requires t.Fork? && r == t.id && InPool(m, r) && Child(t, d).Nil?
      requires Pending(m, root, Below(c, t, d), Nil, 0) && Plug(Below(c, t, d), Nil) == Plug(c, t)
      requires r in Order(Plug(c, t)) && Fresh(m, Order(Plug(c, t)), node)
      requires Between(m, Order(Plug(c, t)), |Before(Below(c, t, d))|, |Before(Below(c, t, d))|, m[node].key)
      modifies `m, `root
      ensures Sub(m, w, NULL) && root == Root(w)
      ensures PayloadKept(old(m), m) && forall i :: 0 <= i < |m| && i !in Order(w) ==> m[i] == old(m)[i]
      ensures at == |Before(Below(c, t, d))| && Between(old(m), Order(Plug(c, t)), at, at, m[node].key)
      ensures at <= |Order(Plug(c, t))| && Order(w) == With(Order(Plug(c, t)), at, node)
    {
      hide Order, NoDup, Increasing, Sub, CtxGood, Before, After, Between, Plug, Pending;
      ghost var m0, s, cx := m, Order(Plug(c, t)), Below(c, t, d);
      m := m[r := Put(m[r], d, node)];
      m := m[node := m[node].(parent := r)];
      LeafPending(m0, m, root, cx, node);
      ghost var m1 := m;
      at := |Before(cx)|;
      LeafOrder(cx, node);
      w := Rebalance(r, cx, Fork(Nil, node, Nil), 0);
      KeptThrough(m0, m1, m);
      WithHas(s, at, node);
    }

    // ----- Removal -------------------------------------------------------------------------------

    /** `remove`: takes out exactly the interval at position i, and returns an unlinked node that holds it.
        With two children that is the successor's node. */
    method Remove(node: int, ghost i: int) returns (removed: int, ghost j: int)
      requires Valid() && 0 <= i < |Order(shape)| && Order(shape)[i] == node
      modifies this
      ensures Valid() && Stored() == Without(old(Stored()), i)
      ensures 0 <= j < |old(Order(shape))| && removed == old(Order(shape))[j] && Order(shape) == Without(old(Order(shape)), j)
      ensures |m| == |old(m)| && ItemAt(m, removed) == old(Stored())[i] && removed !in Order(shape)
      ensures forall k :: 0 <= k < |m| && k !in old(Order(shape)) ==> m[k] == old(m)[k]
    {
      hide Sub, CtxGood, H, NoDup, Increasing, Order, Pending, Plug, Before;
      ghost var s := Order(shape);
      size := size - 1;
      StartPending(m, root, shape);
      ghost var c, t := Focus(m, root, Top, shape, node);
      FocusPending(m, root, c, t, shape);
      ghost var w;
      removed, w, j := RemoveFromTree(node, c, t);
      PlaceUnique(m, s, i, |Before(c)| + |Order(t.l)|);
      OrderedWithout(old(m), s, j);
      OrderedAfter(old(m), m, s, i, Order(w), j);
      shape := w;
    }

    method RemoveFromTree(node: int, ghost c: Ctx, ghost t: Shape) returns (removed: int, ghost w: Shape, ghost j: int)
      requires Pending(m, root, c, t, H(t)) && t.Fork? && node == t.id
      modifies `m, `root
      ensures Sub(m, w, NULL) && root == Root(w) && |m| == |old(m)|
      ensures var s := Order(Plug(c, t)); var i := |Before(c)| + |Order(t.l)|;
        && i < |s| && s[i] == node && 0 <= j < |s| && removed == s[j] && Order(w) == Without(s, j)
        && Items(m, Order(w)) == Without(Items(old(m), s), i)
        && ItemAt(m, removed) == ItemAt(old(m), node)
        && (t.l.Nil? || t.r.Nil? ==> j == i && PayloadKept(old(m), m))
        && (t.l.Fork? && t.r.Fork? ==> j == i + 1)
        && (forall k :: 0 <= k < |m| && k !in s ==> m[k] == old(m)[k])
      decreases H(t)
    {
      hide Order, NoDup, Increasing, Sub, CtxGood, Before, After, Plug, Pending, Around, Without, Items, ItemAt, Ordered, PayloadKept;
      NodeLinks(m, root, c, t);
      Place(c, t);
      if m[node].left == NULL || m[node].right == NULL {
        ghost var m0 := m;
        removed, w, j := Bypass(node, c, t);
        BypassItems(m0, m, Order(Plug(c, t)), j);
        SameSize(m0, m);
      } else {
        ghost var s, i := Order(Plug(c, t)), |Before(c)| + |Order(t.l)|;
        ghost var m0 := m;
        PendingKeys(m0, root, c, t);
        Down(m, root, c, t, Right);
        var succ;
        ghost var c1, t1;
        succ, c1, t1 := FindMin(m[node].right, Below(c, t, Right), t.r);
        BelowPlace(c, t, Right);
        removed, w, j := RemoveFromTree(succ, c1, t1);
        assert removed == succ;
        ghost var m1 := m;
        Swap(node, succ);
        SwapDone(m0, m1, m, s, i, node, succ, w);
      }
    }

    /** Bypassing a node with at most one child, in `removeFromTree`. */
    method Bypass(node: int, ghost c: Ctx, ghost t: Shape) returns (removed: int, ghost w: Shape, ghost j: int)
      requires Pending(m, root, c, t, H(t)) && t.Fork? && node == t.id && InPool(m, node)
      requires m[node].left == Root(t.l) && m[node].right == Root(t.r) && m[node].parent == CtxId(c)
      requires t.l.Nil? || t.r.Nil?
      modifies `m, `root
      ensures Sub(m, w, NULL) && root == Root(w) && PayloadKept(old(m), m) && removed == node
      ensures j == |Before(c)| + |Order(t.l)| && j < |Order(Plug(c, t))| && Order(Plug(c, t))[j] == node
      ensures Order(w) == Without(Order(Plug(c, t)), j)
      ensures forall k :: 0 <= k < |m| && k !in Order(Plug(c, t)) ==> m[k] == old(m)[k]
    {
      hide Order, NoDup, Increasing, Sub, CtxGood, Before, After, Plug, Pending, Around, PayloadKept;
      ghost var m0, root0 := m, root;
      BypassSite(m, root, c, t);
      var parent := m[node].parent;
      if m[node].left == NULL {
        if parent != NULL {
          SetChild(parent, m[node].right, if m[parent].key < m[node].key then Right else Left);
        }
        SetParent(m[node].right, m[node].parent);
      } else {
        SetChildByKey(parent, m[node].left);
        SetParent(m[node].left, m[node].parent);
      }
      assert Bypassed(m0, m, root0, root, c, Rest(t));
      RestPending(m0, m, root0, root, c, t);
      ghost var m1, root1 := m, root;
      RestOrder(c, t);
      j := |Before(c)| + |Order(t.l)|;
      removed := node;
      w := Rebalance(parent, c, Rest(t), H(t));
      KeptThrough(m0, m1, m);
      assert |m| == |m1| by { SameSize(m1, m); }
      KeptBypass(m0, m1, m, root0, root1, c, t, Order(Plug(c, t)), j);
    }

    /** `swap` */
    method Swap(node1: int, node2: int)
      requires InPool(m, node1) && InPool(m, node2)
      modifies `m
      ensures |m| == |old(m)|
      ensures m[node1] == old(m)[node1].(key := old(m)[node2].key, lo := old(m)[node2].lo, hi := old(m)[node2].hi)
      ensures m[node2] == old(m)[node2].(key := old(m)[node1].key, lo := old(m)[node1].lo, hi := old(m)[node1].hi)
      ensures forall k :: 0 <= k < |m| && k != node1 && k != node2 ==> m[k] == old(m)[k]
    {
      var temp := m[node1];
      m := m[node1 := m[node1].(key := m[node2].key, lo := m[node2].lo, hi := m[node2].hi)];
      m := m[node2 := m[node2].(key := temp.key, lo := temp.lo, hi := temp.hi)];
    }

    /** `findMinKeyNode` */
    method FindMin(r: int, ghost c: Ctx, ghost t: Shape) returns (min: int, ghost d: Ctx, ghost u: Shape)
      requires Pending(m, root, c, t, H(t)) && t.Fork? && r == t.id
      ensures Pending(m, root, d, u, H(u)) && u.Fork? && u.id == min && u.l.Nil? && Order(u.l) == [] && H(u) <= H(t)
      ensures Plug(d, u) == Plug(c, t) && |Before(d)| == |Before(c)|
      decreases t
    {
      hide Order, NoDup, Increasing, Sub, CtxGood, Before, After, Plug, Pending, Around;
      NodeLinks(m, root, c, t);
      if m[r].left != NULL {
        Down(m, root, c, t, Left);
        BelowPlace(c, t, Left);
        min, d, u := FindMin(m[r].left, Below(c, t, Left), t.l);
      } else {
        min, d, u := r, c, t;
      }
    }

    // ----- Search --------------------------------------------------------------------------------

    /** `search`: the earliest interval that can hold the request, if there is one. */
    method Search(a: nat, b: nat) returns (found: int)
      requires Linked() && Gapped(Stored()) && a <= b
      ensures var k := FirstFit(Stored(), a, b);
        found == if k < |Stored()| then Order(shape)[k] else NULL
    {
      found := SearchTree(a, b, root, shape, NULL);
    }

    method SearchTree(a: nat, b: nat, r: int, ghost t: Shape, ghost p: int) returns (found: int)
      requires Sub(m, t, p) && r == Root(t) && Gapped(Items(m, Order(t))) && a <= b
      ensures found == Fit(m, t, a, b)
      decreases t
    {
      hide Gapped, Fit, Order, H;
      if r == NULL {
        FitNil(m, t, a, b);
        return NULL;
      }
      FitFork(m, t, p, a, b);
      if a >= m[r].lo && b <= m[r].hi {
        return r;
      }
      if b < m[r].lo {
        found := SearchTree(a, b, m[r].left, t.l, r);
        if found != NULL {
          return;
        }
      }
      if a < m[r].lo && m[r].hi - m[r].lo >= b - a {
        return r;
      }
      found := SearchTree(a, b, m[r].right, t.r, r);
    }
  }
}
