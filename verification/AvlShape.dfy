/** The shape of an interval tree kept in a pool of nodes with parent pointers and stored heights
    (`src/Graphite/interval_tree.cpp`), and of a tree with a hole at which it is being repaired. */
module AvlShape {
  import opened Sequences

  const NULL := -1

  /** `IntervalTree::Node`; pointers are indices into the node pool. */
  datatype Node = Node(parent: int, left: int, right: int, height: int, key: nat, lo: nat, hi: nat)

  datatype Dir = Left | Right

  function Opp(d: Dir): Dir {
    if d == Left then Right else Left
  }

  function Get(n: Node, d: Dir): int {
    if d == Left then n.left else n.right
  }

  function Put(n: Node, d: Dir, v: int): Node {
    if d == Left then n.(left := v) else n.(right := v)
  }

  lemma PutGet(n: Node, d: Dir, v: int)
    ensures Get(Put(n, d, v), d) == v && Get(Put(n, d, v), Opp(d)) == Get(n, Opp(d))
    ensures Put(n, d, v).parent == n.parent && Opp(Opp(d)) == d
  {
  }

  function Max(a: int, b: int): int {
    if a > b then a else b
  }

  // ----- Shapes --------------------------------------------------------------------------------

  datatype Shape = Nil | Fork(l: Shape, id: int, r: Shape)

  ghost function Root(t: Shape): int {
    if t.Nil? then NULL else t.id
  }

  ghost function H(t: Shape): (h: nat)
    ensures t.Nil? <==> h == 0
  {
    if t.Nil? then 0 else Max(H(t.l), H(t.r)) + 1
  }

  /** The nodes of a shape from left to right. */
  ghost function Order(t: Shape): seq<int> {
    if t.Nil? then [] else Order(t.l) + [t.id] + Order(t.r)
  }

  /** A fork with a on side d and b on the other. */
  ghost function Make(d: Dir, a: Shape, id: int, b: Shape): Shape {
    if d == Left then Fork(a, id, b) else Fork(b, id, a)
  }

  ghost predicate Close(a: int, b: int) {
    -1 <= a - b <= 1
  }

  /** The nodes of t are linked as t says below parent p, their stored heights are exact, and every one
      of them is balanced. */
  ghost predicate Sub(m: seq<Node>, t: Shape, p: int) {
    t.Fork? ==>
      && 0 <= t.id < |m|
      && m[t.id].parent == p && m[t.id].left == Root(t.l) && m[t.id].right == Root(t.r)
      && m[t.id].height == H(t) && Close(H(t.l), H(t.r))
      && Sub(m, t.l, t.id) && Sub(m, t.r, t.id)
  }

  ghost predicate Increasing(m: seq<Node>, s: seq<int>) {
    && (forall i :: 0 <= i < |s| ==> 0 <= s[i] < |m|)
    && (forall i, j :: 0 <= i < j < |s| ==> m[s[i]].key < m[s[j]].key)
  }

  /** m1 has the links of m0. */
  ghost predicate SameLinks(a: Node, b: Node) {
    a.parent == b.parent && a.left == b.left && a.right == b.right && a.height == b.height
  }

  ghost predicate SamePayload(a: Node, b: Node) {
    a.key == b.key && a.lo == b.lo && a.hi == b.hi
  }

  ghost predicate PayloadKept(m0: seq<Node>, m1: seq<Node>) {
    |m0| == |m1| && forall i :: 0 <= i < |m0| ==> SamePayload(m0[i], m1[i])
  }

  lemma {:induction false} SubOrder(m: seq<Node>, t: Shape, p: int)
    requires Sub(m, t, p)
    ensures forall i | i in Order(t) :: 0 <= i < |m|
  {
    if t.Fork? {
      SubOrder(m, t.l, t.id);
      SubOrder(m, t.r, t.id);
    }
  }

  lemma NoDupParts(a: seq<int>, x: int, b: seq<int>)
    requires NoDup(a + [x] + b)
    ensures NoDup(a) && NoDup(b) && x !in a && x !in b
    ensures forall i | i in a :: i !in b
  {
    var s := a + [x] + b;
    assert forall i | 0 <= i < |a| :: s[i] == a[i];
    assert s[|a|] == x;
    assert forall i | 0 <= i < |b| :: s[|a| + 1 + i] == b[i];
  }

  lemma InFork(t: Shape, i: int)
    requires t.Fork?
    ensures i in Order(t) <==> i in Order(t.l) || i == t.id || i in Order(t.r)
  {
    assert Order(t) == Order(t.l) + ([t.id] + Order(t.r));
  }

  lemma InForkAll(t: Shape)
    requires t.Fork?
    ensures forall i {:trigger i in Order(t)} {:trigger i in Order(t.l)} {:trigger i in Order(t.r)} ::
      i in Order(t) <==> i in Order(t.l) || i == t.id || i in Order(t.r)
  {
    forall i
      ensures i in Order(t) <==> i in Order(t.l) || i == t.id || i in Order(t.r)
    {
      InFork(t, i);
    }
  }

  /** A subtree whose nodes keep their links stays as it is, and may be hung below another parent. */
  lemma {:induction false} SubFrame(m0: seq<Node>, m1: seq<Node>, t: Shape, p: int, q: int)
    requires Sub(m0, t, p) && |m0| == |m1| && NoDup(Order(t))
    requires forall i | i in Order(t) && i != Root(t) :: 0 <= i < |m0| && SameLinks(m1[i], m0[i])
    requires t.Fork? ==> SameLinks(m1[t.id], m0[t.id].(parent := q))
    ensures Sub(m1, t, q)
  {
    if t.Fork? {
      NoDupParts(Order(t.l), t.id, Order(t.r));
      InForkAll(t);
      SubFrame(m0, m1, t.l, t.id, t.id);
      SubFrame(m0, m1, t.r, t.id, t.id);
    }
  }

  // ----- Shapes with a hole ------------------------------------------------------------------------

  /** The path from a hole to the root, with the subtrees hanging off it. */
  datatype Ctx = Top | Frame(side: Dir, id: int, other: Shape, up: Ctx)

  ghost function CtxId(c: Ctx): int {
    if c.Top? then NULL else c.id
  }

  ghost function Plug(c: Ctx, t: Shape): Shape {
    if c.Top? then t else Plug(c.up, Make(c.side, t, c.id, c.other))
  }

  ghost function Before(c: Ctx): seq<int> {
    if c.Top? then [] else Before(c.up) + if c.side == Left then [] else Order(c.other) + [c.id]
  }

  ghost function After(c: Ctx): seq<int> {
    if c.Top? then [] else (if c.side == Left then [c.id] + Order(c.other) else []) + After(c.up)
  }

  /** The pointer at the hole. */
  ghost function Hole(m: seq<Node>, root: int, c: Ctx): int {
    if c.Top? then root else if 0 <= c.id < |m| then Get(m[c.id], c.side) else NULL
  }

  /** The nodes around a hole are linked as c says, and balanced with exact heights if the hole is
      filled by a tree of height h. */
  ghost predicate CtxGood(m: seq<Node>, root: int, c: Ctx, h: int) {
    c.Frame? ==>
      && 0 <= c.id < |m|
      && m[c.id].parent == CtxId(c.up) && Get(m[c.id], Opp(c.side)) == Root(c.other)
      && m[c.id].height == Max(h, H(c.other)) + 1 && Close(h, H(c.other))
      && Sub(m, c.other, c.id)
      && Hole(m, root, c.up) == c.id
      && CtxGood(m, root, c.up, Max(h, H(c.other)) + 1)
  }

  lemma {:induction false} PlugOrder(c: Ctx, t: Shape)
    ensures Order(Plug(c, t)) == Before(c) + Order(t) + After(c)
  {
    if c.Frame? {
      PlugOrder(c.up, Make(c.side, t, c.id, c.other));
      Regroup(Before(c.up), Order(t), [c.id], Order(c.other), After(c.up));
    }
  }

  lemma Regroup(b: seq<int>, t: seq<int>, x: seq<int>, o: seq<int>, a: seq<int>)
    ensures b + (t + x + o) + a == (b + []) + t + ((x + o) + a)
    ensures b + (o + x + t) + a == (b + (o + x)) + t + ([] + a)
  {
  }

  /** Filling a hole with a good tree of the expected height gives a good tree. */
  lemma {:induction false} PlugGood(m: seq<Node>, root: int, c: Ctx, t: Shape)
    requires Sub(m, t, CtxId(c)) && CtxGood(m, root, c, H(t)) && Hole(m, root, c) == Root(t)
    ensures Sub(m, Plug(c, t), NULL) && root == Root(Plug(c, t))
  {
    if c.Frame? {
      PlugGood(m, root, c.up, Make(c.side, t, c.id, c.other));
    }
  }

  /** Every good tree can be opened at a node. */
  lemma {:induction false} Focus(m: seq<Node>, root: int, c: Ctx, t: Shape, id: int) returns (d: Ctx, u: Shape)
    requires Sub(m, t, CtxId(c)) && CtxGood(m, root, c, H(t)) && Hole(m, root, c) == Root(t)
    requires id in Order(t)
    ensures u.Fork? && u.id == id && Plug(d, u) == Plug(c, t)
    ensures Sub(m, u, CtxId(d)) && CtxGood(m, root, d, H(u)) && Hole(m, root, d) == Root(u)
    decreases t
  {
    InFork(t, id);
    if id == t.id {
      d, u := c, t;
    } else if id in Order(t.l) {
      d, u := Focus(m, root, Frame(Left, t.id, t.r, c), t.l, id);
    } else {
      d, u := Focus(m, root, Frame(Right, t.id, t.l, c), t.r, id);
    }
  }

  /** Nodes outside the hole keep their links, except that the pointer at the hole may change. */
  lemma {:induction false} CtxFrame(m0: seq<Node>, m1: seq<Node>, root0: int, root1: int, c: Ctx, h: int)
    requires CtxGood(m0, root0, c, h) && |m0| == |m1|
    requires NoDup(Before(c) + After(c))
    requires c.Frame? ==> root1 == root0
    requires forall i | (i in Before(c) || i in After(c)) && i != CtxId(c) :: 0 <= i < |m0| && SameLinks(m1[i], m0[i])
    requires c.Frame? ==> SameLinks(m1[c.id], Put(m0[c.id], c.side, Get(m1[c.id], c.side)))
    ensures CtxGood(m1, root1, c, h)
  {
    hide NoDup, Order, Before, After, H;
    if c.Frame? {
      CtxParts(c);
      if c.other.Fork? { RootIn(c.other); }
      SubOrder(m0, c.other, c.id);
      SubFrame(m0, m1, c.other, c.id, c.id);
      if c.up.Frame? {
        CtxIdIn(c.up);
      }
      CtxFrame(m0, m1, root0, root1, c.up, Max(h, H(c.other)) + 1);
    }
  }

  lemma CtxIdIn(c: Ctx)
    requires c.Frame?
    ensures c.id in Before(c) || c.id in After(c)
  {
    if c.side == Left {
      assert ([c.id] + Order(c.other) + After(c.up))[0] == c.id;
    } else {
      var s := Before(c.up) + (Order(c.other) + [c.id]);
      assert s[|s| - 1] == c.id;
    }
  }

  /** The nodes around a hole: those of the innermost frame are distinct from those further out. */
  lemma CtxParts(c: Ctx)
    requires c.Frame? && NoDup(Before(c) + After(c))
    ensures NoDup(Before(c.up) + After(c.up)) && NoDup(Order(c.other))
    ensures c.id !in Before(c.up) && c.id !in After(c.up) && c.id !in Order(c.other)
    ensures forall i | i in Before(c.up) || i in After(c.up) :: (i in Before(c) || i in After(c)) && i !in Order(c.other)
    ensures forall i | i in Order(c.other) :: i in Before(c) || i in After(c)
  {
    var b, a, o := Before(c.up), After(c.up), Order(c.other);
    if c.side == Left {
      assert Before(c) + After(c) == b + [c.id] + (o + a);
      NoDupParts(b, c.id, o + a);
      NoDupSplit(o, a);
      NoDupJoin(b, o, a);
    } else {
      assert Before(c) + After(c) == (b + o) + [c.id] + a;
      NoDupParts(b + o, c.id, a);
      NoDupSplit(b, o);
      NoDupJoin(b, o, a);
    }
  }

  lemma NoDupSplit(a: seq<int>, b: seq<int>)
    requires NoDup(a + b)
    ensures NoDup(a) && NoDup(b) && forall i | i in a :: i !in b
  {
    assert forall i | 0 <= i < |a| :: (a + b)[i] == a[i];
    assert forall i | 0 <= i < |b| :: (a + b)[|a| + i] == b[i];
  }

  lemma NoDupJoin(b: seq<int>, o: seq<int>, a: seq<int>)
    requires NoDup(b) && NoDup(a)
    requires forall i | i in b :: i !in a
    ensures NoDup(b + a)
  {
    forall i, j | 0 <= i < j < |b + a|
      ensures (b + a)[i] != (b + a)[j]
    {
      if i < |b| <= j {
        assert b[i] in b && a[j - |b|] in a;
      }
    }
  }

  // ----- Rotation ------------------------------------------------------------------------------------

  function Height(m: seq<Node>, p: int): int {
    if 0 <= p < |m| then m[p].height else 0
  }

  /** The side on which `updateChildPointer` hangs a child when it is given no direction. */
  function KeySide(m: seq<Node>, p: int, x: int): Dir
    requires 0 <= p < |m| && 0 <= x < |m|
  {
    if m[p].key < m[x].key then Right else Left
  }

  ghost predicate InPool(m: seq<Node>, p: int) {
    0 <= p < |m|
  }

  /** The nodes a rotation of y touches exist and are distinct. */
  ghost predicate Rotatable(m: seq<Node>, d: Dir, y: int) {
    && InPool(m, y) && InPool(m, Get(m[y], d))
    && var x := Get(m[y], d);
       var b, p := Get(m[x], Opp(d)), m[y].parent;
       && (b == NULL || InPool(m, b)) && (p == NULL || InPool(m, p))
       && x != y && b != x && b != y && p != x && p != y && (b == p ==> b == NULL)
       && Get(m[x], d) != y && Get(m[x], d) != x && Get(m[y], Opp(d)) != x && Get(m[y], Opp(d)) != y
  }

  /** The pool after the child x on side d of y has taken the place of y. */
  ghost predicate Rotated(m0: seq<Node>, m1: seq<Node>, d: Dir, y: int)
    requires Rotatable(m0, d, y)
  {
    var x := Get(m0[y], d);
    var b, p := Get(m0[x], Opp(d)), m0[y].parent;
    && |m1| == |m0|
    && m1[y] == Put(m0[y], d, b).(parent := x, height := Max(Height(m0, b), Height(m0, Get(m0[y], Opp(d)))) + 1)
    && m1[x] == Put(m0[x], Opp(d), y).(parent := p, height := Max(Height(m0, Get(m0[x], d)), m1[y].height) + 1)
    && forall i :: 0 <= i < |m0| && i != x && i != y ==>
         m1[i] == if i == b then m0[i].(parent := y) else if i == p then Put(m0[i], KeySide(m0, p, x), x) else m0[i]
  }

  /** The same before the two heights are updated. */
  ghost predicate Relinked(m0: seq<Node>, m1: seq<Node>, d: Dir, y: int)
    requires Rotatable(m0, d, y)
  {
    var x := Get(m0[y], d);
    var b, p := Get(m0[x], Opp(d)), m0[y].parent;
    && |m1| == |m0|
    && m1[y] == Put(m0[y], d, b).(parent := x)
    && m1[x] == Put(m0[x], Opp(d), y).(parent := p)
    && forall i :: 0 <= i < |m0| && i != x && i != y ==>
         m1[i] == if i == b then m0[i].(parent := y) else if i == p then Put(m0[i], KeySide(m0, p, x), x) else m0[i]
  }

  /** A node with two good subtrees, whose own height and balance are not yet settled. */
  ghost predicate Loose(m: seq<Node>, d: Dir, a: Shape, id: int, b: Shape, p: int) {
    && InPool(m, id) && m[id].parent == p
    && Get(m[id], d) == Root(a) && Get(m[id], Opp(d)) == Root(b)
    && Sub(m, a, id) && Sub(m, b, id)
  }

  lemma LooseIsSub(m: seq<Node>, d: Dir, a: Shape, id: int, b: Shape, p: int)
    requires Loose(m, d, a, id, b, p) && Close(H(a), H(b)) && m[id].height == Max(H(a), H(b)) + 1
    ensures Sub(m, Make(d, a, id, b), p)
  {
  }

  lemma SubHeight(m: seq<Node>, t: Shape, p: int)
    requires Sub(m, t, p)
    ensures Height(m, Root(t)) == H(t) && (Root(t) == NULL || InPool(m, Root(t)))
  {
  }

  /** A pool in which the nodes x, y and those of a, b, c are all different. */
  ghost predicate Apart(d: Dir, a: Shape, x: int, b: Shape, y: int, c: Shape, p: int) {
    && NoDup(Order(Make(d, Make(d, a, x, b), y, c))) && p !in Order(Make(d, Make(d, a, x, b), y, c))
  }

  lemma ApartParts(d: Dir, a: Shape, x: int, b: Shape, y: int, c: Shape, p: int)
    requires Apart(d, a, x, b, y, c, p)
    ensures NoDup(Order(a)) && NoDup(Order(b)) && NoDup(Order(c)) && x != y && p != x && p != y
    ensures forall i | i in Order(a) :: i != x && i != y && i != p && i !in Order(b) && i !in Order(c)
    ensures forall i | i in Order(b) :: i != x && i != y && i != p && i !in Order(c)
    ensures forall i | i in Order(c) :: i != x && i != y && i != p
  {
    var s := Make(d, a, x, b);
    InForkAll(Make(d, s, y, c));
    InForkAll(s);
    NoDupParts(Order(Make(d, s, y, c).l), y, Order(Make(d, s, y, c).r));
    NoDupParts(Order(s.l), x, Order(s.r));
  }

  lemma RootIn(t: Shape)
    requires t.Fork?
    ensures Root(t) in Order(t)
  {
    InFork(t, t.id);
  }

  /** Where a rotation meets a tree, and which nodes its subtrees consist of. */
  ghost predicate RotationSite(m: seq<Node>, d: Dir, a: Shape, x: int, b: Shape, y: int, c: Shape) {
    && InPool(m, y) && InPool(m, x) && Get(m[y], d) == x && Get(m[y], Opp(d)) == Root(c) && Sub(m, c, y)
    && Loose(m, d, a, x, b, y) && Apart(d, a, x, b, y, c, m[y].parent)
    && (m[y].parent == NULL || InPool(m, m[y].parent))
  }

  lemma RotationReady(m: seq<Node>, d: Dir, a: Shape, x: int, b: Shape, y: int, c: Shape)
    requires RotationSite(m, d, a, x, b, y, c)
    ensures Rotatable(m, d, y)
    ensures Height(m, Root(a)) == H(a) && Height(m, Root(b)) == H(b) && Height(m, Root(c)) == H(c)
  {
    ApartParts(d, a, x, b, y, c, m[y].parent);
    hide Order, NoDup, Apart;
    SubHeight(m, a, x);
    SubHeight(m, b, x);
    SubHeight(m, c, y);
    if a.Fork? { RootIn(a); }
    if b.Fork? { RootIn(b); }
    if c.Fork? { RootIn(c); }
  }

  /** A subtree away from the rotated nodes stays good; the middle one is hung below y. */
  lemma RotatedSub(m0: seq<Node>, m1: seq<Node>, d: Dir, y: int, t: Shape, p: int, q: int)
    requires Rotatable(m0, d, y) && Rotated(m0, m1, d, y)
    requires Sub(m0, t, p) && NoDup(Order(t))
    requires forall i | i in Order(t) :: i != y && i != Get(m0[y], d) && i != m0[y].parent
    requires forall i | i in Order(t) && i == Get(m0[Get(m0[y], d)], Opp(d)) :: i == Root(t)
    requires t.Fork? ==> q == if t.id == Get(m0[Get(m0[y], d)], Opp(d)) then y else p
    ensures Sub(m1, t, q)
  {
    SubOrder(m0, t, p);
    if t.Fork? { RootIn(t); }
    hide Order, NoDup;
    SubFrame(m0, m1, t, p, q);
  }

  lemma RotatedSubs(m0: seq<Node>, m1: seq<Node>, d: Dir, a: Shape, x: int, b: Shape, y: int, c: Shape)
    requires RotationSite(m0, d, a, x, b, y, c)
    requires Rotatable(m0, d, y) && Rotated(m0, m1, d, y)
    ensures Sub(m1, a, x) && Sub(m1, b, y) && Sub(m1, c, y)
  {
    hide Order, NoDup, Apart, Sub, H, Rotated, Rotatable;
    ApartParts(d, a, x, b, y, c, m0[y].parent);
    if a.Fork? { RootIn(a); }
    if b.Fork? { RootIn(b); }
    if c.Fork? { RootIn(c); }
    SubOrder(m0, a, x);
    SubOrder(m0, c, y);
    RotatedSub(m0, m1, d, y, a, x, x);
    RotatedSub(m0, m1, d, y, b, x, y);
    RotatedSub(m0, m1, d, y, c, y, y);
  }

  lemma RotatedLinks(m0: seq<Node>, m1: seq<Node>, d: Dir, y: int)
    requires Rotatable(m0, d, y) && Rotated(m0, m1, d, y)
    ensures var x := Get(m0[y], d);
      && InPool(m1, x) && InPool(m1, y) && m1[x].parent == m0[y].parent && m1[y].parent == x
      && Get(m1[x], d) == Get(m0[x], d) && Get(m1[x], Opp(d)) == y
      && Get(m1[y], d) == Get(m0[x], Opp(d)) && Get(m1[y], Opp(d)) == Get(m0[y], Opp(d))
      && m1[y].height == Max(Height(m0, Get(m0[x], Opp(d))), Height(m0, Get(m0[y], Opp(d)))) + 1
      && m1[x].height == Max(Height(m0, Get(m0[x], d)), m1[y].height) + 1
  {
  }

  /** Nothing else changes but the parent of the middle subtree and the pointer from above. */
  lemma RotatedElsewhere(m0: seq<Node>, m1: seq<Node>, d: Dir, y: int)
    requires Rotatable(m0, d, y) && Rotated(m0, m1, d, y)
    ensures var x := Get(m0[y], d);
      var b, p := Get(m0[x], Opp(d)), m0[y].parent;
      && PayloadKept(m0, m1)
      && (p != NULL ==> m1[p] == Put(m0[p], KeySide(m0, p, x), x))
      && forall i :: 0 <= i < |m0| && i != x && i != y && i != b && i != p ==> m1[i] == m0[i]
  {
  }

  /** What a rotation does to the shape: the middle subtree changes sides, the others keep theirs. */
  lemma RotateShape(m0: seq<Node>, m1: seq<Node>, d: Dir, a: Shape, x: int, b: Shape, y: int, c: Shape)
    requires RotationSite(m0, d, a, x, b, y, c)
    requires Rotatable(m0, d, y) && Rotated(m0, m1, d, y)
    ensures InPool(m1, x) && m1[x].parent == m0[y].parent && Get(m1[x], d) == Root(a) && Get(m1[x], Opp(d)) == y
    ensures Sub(m1, a, x) && Loose(m1, d, b, y, c, x)
    ensures m1[y].height == Max(H(b), H(c)) + 1 && m1[x].height == Max(H(a), m1[y].height) + 1
  {
    hide Order, NoDup, Apart, Sub, H, Rotated, Rotatable, Get, Height;
    RotationReady(m0, d, a, x, b, y, c);
    RotatedSubs(m0, m1, d, a, x, b, y, c);
    RotatedLinks(m0, m1, d, y);
  }
}
