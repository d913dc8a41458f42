/** Hanging a leaf into a tree, taking a node with at most one child out of it, and what both do to
    the sequence of stored intervals. */
module AvlEdit {
  import opened Sequences
  import opened AvlShape
  import opened AvlBalance

  /** What a node stores. */
  datatype Item = Item(key: nat, lo: nat, hi: nat)

  function ItemAt(m: seq<Node>, i: int): Item {
    if 0 <= i < |m| then Item(m[i].key, m[i].lo, m[i].hi) else Item(0, 0, 0)
  }

  /** The stored intervals of a sequence of nodes. */
  function Items(m: seq<Node>, s: seq<int>): (r: seq<Item>)
    ensures |r| == |s| && forall k :: 0 <= k < |s| ==> r[k] == ItemAt(m, s[k])
  {
    seq(|s|, k requires 0 <= k < |s| => ItemAt(m, s[k]))
  }

  // ----- Sequences ------------------------------------------------------------------------------

  /** The keys of s before position b are smaller than k, those from position e on larger. */
  ghost predicate Between(m: seq<Node>, s: seq<int>, b: int, e: int, k: int) {
    && 0 <= b <= e <= |s|
    && (forall j :: 0 <= j < b ==> InPool(m, s[j]) && m[s[j]].key < k)
    && (forall j :: e <= j < |s| ==> InPool(m, s[j]) && m[s[j]].key > k)
  }

  ghost predicate Ordered(m: seq<Node>, s: seq<int>) {
    NoDup(s) && Increasing(m, s)
  }

  lemma OrderedWith(m: seq<Node>, s: seq<int>, k: int, x: int)
    requires Ordered(m, s) && InPool(m, x) && Between(m, s, k, k, m[x].key)
    ensures Ordered(m, With(s, k, x))
  {
    var r := With(s, k, x);
    assert forall i | 0 <= i < k :: r[i] == s[i];
    assert forall i | k < i < |r| :: r[i] == s[i - 1];
    assert r[k] == x;
  }

  lemma OrderedWithout(m: seq<Node>, s: seq<int>, k: int)
    requires Ordered(m, s) && 0 <= k < |s|
    ensures Ordered(m, Without(s, k)) && s[k] !in Without(s, k)
  {
    var r := Without(s, k);
    assert forall i | 0 <= i < k :: r[i] == s[i];
    assert forall i | k <= i < |r| :: r[i] == s[i + 1];
  }

  lemma OrderedKept(m0: seq<Node>, m1: seq<Node>, s: seq<int>)
    requires Ordered(m0, s) && PayloadKept(m0, m1)
    ensures Ordered(m1, s)
  {
  }

  lemma ItemsKept(m0: seq<Node>, m1: seq<Node>, s: seq<int>)
    requires PayloadKept(m0, m1)
    ensures Items(m0, s) == Items(m1, s)
  {
  }

  lemma ItemsWithout(m: seq<Node>, s: seq<int>, k: int)
    requires 0 <= k < |s|
    ensures Items(m, Without(s, k)) == Without(Items(m, s), k)
  {
  }

  lemma ItemsWith(m: seq<Node>, s: seq<int>, k: int, x: int)
    requires 0 <= k <= |s|
    ensures Items(m, With(s, k, x)) == With(Items(m, s), k, ItemAt(m, x))
  {
  }

  /** Taking out the successor's node and moving its interval to the node before it is taking out that
      node's interval. */
  lemma SwappedItems(m0: seq<Node>, m1: seq<Node>, s: seq<int>, k: int)
    requires Ordered(m0, s) && 0 <= k < |s| - 1 && |m1| == |m0|
    requires ItemAt(m1, s[k]) == ItemAt(m0, s[k + 1])
    requires forall i | 0 <= i < |m0| && i != s[k] && i != s[k + 1] :: ItemAt(m1, i) == ItemAt(m0, i)
    ensures Items(m1, Without(s, k + 1)) == Without(Items(m0, s), k)
    ensures Ordered(m1, Without(s, k + 1))
  {
    OrderedWithout(m0, s, k + 1);
    forall i | 0 <= i < |s| - 1
      ensures ItemAt(m1, Without(s, k + 1)[i]) == Without(Items(m0, s), k)[i]
    {
      SwappedAt(m0, m1, s, k, i);
    }
    assert Items(m1, Without(s, k + 1)) == Without(Items(m0, s), k);
    hide NoDup, Increasing;
    IncreasingKeys(m0, s);
    KeysWithout(Items(m0, s), k);
    KeysIncreasing(m1, Without(s, k + 1));
  }

  lemma SwappedAt(m0: seq<Node>, m1: seq<Node>, s: seq<int>, k: int, i: int)
    requires Ordered(m0, s) && 0 <= k < |s| - 1 && |m1| == |m0| && 0 <= i < |s| - 1
    requires ItemAt(m1, s[k]) == ItemAt(m0, s[k + 1])
    requires forall i | 0 <= i < |m0| && i != s[k] && i != s[k + 1] :: ItemAt(m1, i) == ItemAt(m0, i)
    ensures ItemAt(m1, Without(s, k + 1)[i]) == Without(Items(m0, s), k)[i]
  {
    var j := if i <= k then i else i + 1;
    assert Without(s, k + 1)[i] == s[j];
    assert InPool(m0, s[j]);
    assert j != k + 1;
    if j != k {
      assert s[j] != s[k] && s[j] != s[k + 1];
    }
    hide NoDup, Increasing, ItemAt;
  }

  /** The keys of a sequence of intervals increase. */
  predicate KeysUp(q: seq<Item>) {
    forall i, j :: 0 <= i < j < |q| ==> q[i].key < q[j].key
  }

  lemma KeysWithout(q: seq<Item>, k: int)
    requires KeysUp(q) && 0 <= k < |q|
    ensures KeysUp(Without(q, k))
  {
  }

  lemma IncreasingKeys(m: seq<Node>, s: seq<int>)
    requires Ordered(m, s)
    ensures KeysUp(Items(m, s)) && forall i | 0 <= i < |s| :: InPool(m, s[i])
  {
  }

  lemma KeysIncreasing(m: seq<Node>, s: seq<int>)
    requires KeysUp(Items(m, s)) && forall i | 0 <= i < |s| :: InPool(m, s[i])
    ensures Ordered(m, s)
  {
    forall i, j | 0 <= i < j < |s|
      ensures m[s[i]].key < m[s[j]].key
    {
      assert Items(m, s)[i].key < Items(m, s)[j].key;
    }
  }

  // ----- Descending -----------------------------------------------------------------------------

  ghost function Child(t: Shape, d: Dir): Shape
    requires t.Fork?
  {
    if d == Left then t.l else t.r
  }

  /** The context of the child of t on side d. */
  ghost function Below(c: Ctx, t: Shape, d: Dir): Ctx
    requires t.Fork?
  {
    Frame(d, t.id, Child(t, Opp(d)), c)
  }

  /** Going down from an intact subtree to its child. */
  lemma Down(m: seq<Node>, root: int, c: Ctx, t: Shape, d: Dir)
    requires Pending(m, root, c, t, H(t)) && t.Fork?
    ensures Pending(m, root, Below(c, t, d), Child(t, d), H(Child(t, d)))
    ensures Plug(Below(c, t, d), Child(t, d)) == Plug(c, t)
    ensures InPool(m, t.id) && Get(m[t.id], d) == Root(Child(t, d)) && H(Child(t, d)) < H(t)
    ensures Child(t, d).Fork? ==> Root(Child(t, d)) != NULL
  {
    hide Order, NoDup, Increasing;
  }

  /** Where t and its root stand in the order of the whole tree. */
  lemma Place(c: Ctx, t: Shape)
    ensures var s := Order(Plug(c, t));
      && |Before(c)| + |Order(t)| <= |s|
      && s == Before(c) + Order(t) + After(c)
      && (t.Fork? ==> |Before(c)| + |Order(t.l)| < |s| && s[|Before(c)| + |Order(t.l)|] == t.id)
  {
    PlugOrder(c, t);
  }

  lemma BelowPlace(c: Ctx, t: Shape, d: Dir)
    requires t.Fork?
    ensures |Before(Below(c, t, d))| == |Before(c)| + if d == Left then 0 else |Order(t.l)| + 1
    ensures |Order(t)| == |Order(t.l)| + 1 + |Order(t.r)|
  {
  }

  lemma BetweenDown(m: seq<Node>, root: int, c: Ctx, t: Shape, d: Dir, k: int)
    requires Pending(m, root, c, t, H(t)) && t.Fork? && InPool(m, t.id)
    requires Between(m, Order(Plug(c, t)), |Before(c)|, |Before(c)| + |Order(t)|, k)
    requires if d == Left then k < m[t.id].key else k > m[t.id].key
    ensures var c1, t1 := Below(c, t, d), Child(t, d);
      Between(m, Order(Plug(c1, t1)), |Before(c1)|, |Before(c1)| + |Order(t1)|, k)
  {
    hide Order, Before, After, Plug, Sub, CtxGood, NoDup, Increasing, Between, Pending, H, Below, Around;
    PendingKeys(m, root, c, t);
    Down(m, root, c, t, d);
    Place(c, t);
    BelowPlace(c, t, d);
    BetweenAt(m, Order(Plug(c, t)), |Before(c)|, |Before(c)| + |Order(t.l)|, |Before(c)| + |Order(t)|, d, k);
  }

  lemma PendingKeys(m: seq<Node>, root: int, c: Ctx, t: Shape)
    requires Pending(m, root, c, t, H(t))
    ensures Ordered(m, Order(Plug(c, t))) && Increasing(m, Order(Plug(c, t)))
    ensures forall j | 0 <= j < |Order(Plug(c, t))| :: InPool(m, Order(Plug(c, t))[j])
  {
  }

  lemma BetweenAt(m: seq<Node>, s: seq<int>, b: int, i: int, e: int, d: Dir, k: int)
    requires Between(m, s, b, e, k) && Increasing(m, s) && b <= i < e
    requires if d == Left then k < m[s[i]].key else k > m[s[i]].key
    ensures if d == Left then Between(m, s, b, i, k) else Between(m, s, i + 1, e, k)
  {
  }

  // ----- Replacing a subtree ------------------------------------------------------------------------

  /** The links around the hole of c after its subtree was replaced by t. */
  ghost predicate Spliced(m0: seq<Node>, m1: seq<Node>, root0: int, root1: int, c: Ctx, t: Shape) {
    && |m1| == |m0|
    && root1 == (if c.Top? then Root(t) else root0)
    && (c.Frame? ==> InPool(m0, c.id) && SameLinks(m1[c.id], Put(m0[c.id], c.side, Root(t))))
    && (forall i :: 0 <= i < |m0| && i != CtxId(c) && (i in Before(c) || i in After(c)) ==> SameLinks(m1[i], m0[i]))
  }

  lemma SplicePending(m0: seq<Node>, m1: seq<Node>, root0: int, root1: int, c: Ctx, t: Shape, u: Shape)
    requires Pending(m0, root0, c, t, H(t)) && Close(H(u), H(t))
    requires Spliced(m0, m1, root0, root1, c, u)
    requires Sub(m1, u, CtxId(c)) && Around(m1, root1, c, u)
    ensures Pending(m1, root1, c, u, H(t))
  {
    AroundParts(c, t);
    CtxOrder(m0, root0, c, t);
    hide NoDup, Order, Sub, H, Around, Increasing, Before, After;
    SpliceFrame(m0, m1, root0, root1, c, u, H(t));
  }

  lemma SpliceFrame(m0: seq<Node>, m1: seq<Node>, root0: int, root1: int, c: Ctx, u: Shape, h: int)
    requires CtxGood(m0, root0, c, h) && NoDup(Before(c) + After(c))
    requires forall i | i in Before(c) || i in After(c) :: 0 <= i < |m0|
    requires Spliced(m0, m1, root0, root1, c, u)
    ensures CtxGood(m1, root1, c, h) && Hole(m1, root1, c) == Root(u)
  {
    hide NoDup, Order, Before, After, Sub, H;
    CtxFrame(m0, m1, root0, root1, c, h);
  }

  /** A fresh leaf x below c.id, on its empty side. */
  ghost predicate Hung(m0: seq<Node>, m1: seq<Node>, c: Ctx, x: int) {
    && c.Frame? && InPool(m0, c.id) && InPool(m0, x) && x != c.id
    && m1 == m0[c.id := Put(m0[c.id], c.side, x)][x := m0[x].(parent := c.id)]
  }

  ghost predicate Fresh(m: seq<Node>, s: seq<int>, x: int) {
    InPool(m, x) && x !in s && m[x].left == NULL && m[x].right == NULL && m[x].height == 1
  }

  lemma LeafPending(m0: seq<Node>, m1: seq<Node>, root: int, c: Ctx, x: int)
    requires Pending(m0, root, c, Nil, 0) && Fresh(m0, Order(Plug(c, Nil)), x) && Hung(m0, m1, c, x)
    requires Between(m0, Order(Plug(c, Nil)), |Before(c)|, |Before(c)|, m0[x].key)
    ensures Pending(m1, root, c, Fork(Nil, x, Nil), 0) && PayloadKept(m0, m1)
    ensures Order(Plug(c, Fork(Nil, x, Nil))) == With(Order(Plug(c, Nil)), |Before(c)|, x)
  {
    LeafOrder(c, x);
    LeafSpliced(m0, m1, root, c, x);
    hide Order, Before, After, NoDup, Increasing, Between, Spliced, CtxGood;
    assert Around(m0, root, c, Nil);
    LeafAround(m0, m1, root, c, x);
    assert Close(1, 0);
    SplicePending(m0, m1, root, root, c, Nil, Fork(Nil, x, Nil));
  }

  lemma LeafOrder(c: Ctx, x: int)
    ensures Order(Fork(Nil, x, Nil)) == [x] && |Before(c)| <= |Order(Plug(c, Nil))|
    ensures Order(Plug(c, Fork(Nil, x, Nil))) == With(Order(Plug(c, Nil)), |Before(c)|, x)
  {
    PlugOrder(c, Nil);
    PlugOrder(c, Fork(Nil, x, Nil));
  }

  lemma LeafAround(m0: seq<Node>, m1: seq<Node>, root: int, c: Ctx, x: int)
    requires Around(m0, root, c, Nil) && InPool(m0, x) && PayloadKept(m0, m1)
    requires Between(m0, Order(Plug(c, Nil)), |Before(c)|, |Before(c)|, m0[x].key)
    ensures Around(m1, root, c, Fork(Nil, x, Nil))
  {
    LeafOrder(c, x);
    OrderedWith(m0, Order(Plug(c, Nil)), |Before(c)|, x);
    OrderedKept(m0, m1, Order(Plug(c, Fork(Nil, x, Nil))));
  }

  lemma LeafSpliced(m0: seq<Node>, m1: seq<Node>, root: int, c: Ctx, x: int)
    requires Fresh(m0, Order(Plug(c, Nil)), x) && Hung(m0, m1, c, x)
    ensures Spliced(m0, m1, root, root, c, Fork(Nil, x, Nil)) && PayloadKept(m0, m1)
    ensures Sub(m1, Fork(Nil, x, Nil), c.id)
  {
    PlugOrder(c, Nil);
    assert forall i | i in Before(c) || i in After(c) :: i in Order(Plug(c, Nil));
    hide Order, Before, After;
    PutGet(m0[c.id], c.side, x);
  }

  // ----- Taking a node out --------------------------------------------------------------------------

  /** Node x, whose only child if any is the root of u, is bypassed. */
  ghost predicate Bypassed(m0: seq<Node>, m1: seq<Node>, root0: int, root1: int, c: Ctx, u: Shape) {
    && |m1| == |m0|
    && (c.Frame? ==> InPool(m0, c.id) && m1[c.id] == Put(m0[c.id], c.side, Root(u)))
    && (u.Fork? ==> InPool(m0, u.id) && u.id != CtxId(c) && m1[u.id] == m0[u.id].(parent := CtxId(c)))
    && (forall i :: 0 <= i < |m0| && i != CtxId(c) && i != Root(u) ==> m1[i] == m0[i])
    && root1 == (if c.Top? then Root(u) else root0)
  }

  /** The subtree that stays when a node with at most one child goes. */
  ghost function Rest(t: Shape): Shape
    requires t.Fork?
  {
    if t.l.Nil? then t.r else t.l
  }

  lemma RestOrder(c: Ctx, t: Shape)
    requires t.Fork? && (t.l.Nil? || t.r.Nil?)
    ensures |Before(c)| + |Order(t.l)| < |Order(Plug(c, t))|
    ensures Order(Plug(c, t))[|Before(c)| + |Order(t.l)|] == t.id
    ensures Order(Plug(c, Rest(t))) == Without(Order(Plug(c, t)), |Before(c)| + |Order(t.l)|)
  {
    Place(c, t);
    PlugOrder(c, Rest(t));
    assert Order(t) == Order(t.l) + [t.id] + Order(t.r);
    hide Order, Before, After, Plug;
    CutMiddle(Before(c), Order(t.l), t.id, Order(t.r), After(c));
    assert Order(Rest(t)) == Order(t.l) + Order(t.r) by {
      RestEmpty(t);
    }
  }

  lemma RestEmpty(t: Shape)
    requires t.Fork? && (t.l.Nil? || t.r.Nil?)
    ensures Order(Rest(t)) == Order(t.l) + Order(t.r)
  {
  }

  lemma CutMiddle(b: seq<int>, l: seq<int>, x: int, r: seq<int>, a: seq<int>)
    ensures Without(b + (l + [x] + r) + a, |b| + |l|) == b + (l + r) + a
  {
  }

  lemma RestAround(m0: seq<Node>, m1: seq<Node>, root: int, root1: int, c: Ctx, t: Shape)
    requires Around(m0, root, c, t) && t.Fork? && (t.l.Nil? || t.r.Nil?) && PayloadKept(m0, m1)
    ensures Around(m1, root1, c, Rest(t)) && t.id !in Order(Plug(c, Rest(t)))
  {
    RestOrder(c, t);
    OrderedWithout(m0, Order(Plug(c, t)), |Before(c)| + |Order(t.l)|);
    OrderedKept(m0, m1, Order(Plug(c, Rest(t))));
  }

  lemma RestPending(m0: seq<Node>, m1: seq<Node>, root0: int, root1: int, c: Ctx, t: Shape)
    requires Pending(m0, root0, c, t, H(t)) && t.Fork? && (t.l.Nil? || t.r.Nil?)
    requires Bypassed(m0, m1, root0, root1, c, Rest(t))
    ensures Pending(m1, root1, c, Rest(t), H(t)) && PayloadKept(m0, m1)
  {
    BypassedPayload(m0, m1, root0, root1, c, Rest(t));
    RestSpliced(m0, m1, root0, root1, c, t);
    hide Order, Before, After, NoDup, Increasing, Spliced, CtxGood, Bypassed;
    RestAround(m0, m1, root0, root1, c, t);
    SplicePending(m0, m1, root0, root1, c, t, Rest(t));
  }

  lemma BypassedPayload(m0: seq<Node>, m1: seq<Node>, root0: int, root1: int, c: Ctx, u: Shape)
    requires Bypassed(m0, m1, root0, root1, c, u)
    ensures PayloadKept(m0, m1)
  {
  }

  lemma RestNodes(c: Ctx, t: Shape)
    requires t.Fork? && NoDup(Order(Plug(c, t)))
    ensures NoDup(Order(Rest(t))) && forall i | i in Order(Rest(t)) :: i !in Before(c) && i !in After(c)
    ensures c.Frame? ==> c.id !in Order(Rest(t))
  {
    AroundParts(c, t);
    InForkAll(t);
    NoDupParts(Order(t.l), t.id, Order(t.r));
    if c.Frame? { CtxIdIn(c); }
  }

  lemma RestSpliced(m0: seq<Node>, m1: seq<Node>, root0: int, root1: int, c: Ctx, t: Shape)
    requires Pending(m0, root0, c, t, H(t)) && t.Fork? && (t.l.Nil? || t.r.Nil?)
    requires Bypassed(m0, m1, root0, root1, c, Rest(t))
    ensures Spliced(m0, m1, root0, root1, c, Rest(t)) && Sub(m1, Rest(t), CtxId(c))
    ensures Close(H(Rest(t)), H(t))
  {
    RestNodes(c, t);
    SubOrder(m0, Rest(t), t.id);
    if Rest(t).Fork? { RootIn(Rest(t)); }
    hide Order, NoDup, Before, After, Increasing, CtxGood, Around;
    SubFrame(m0, m1, Rest(t), t.id, CtxId(c));
  }

  // ----- Steps of the tree's methods ------------------------------------------------------------------

  lemma StartPending(m: seq<Node>, root: int, t: Shape)
    requires Sub(m, t, NULL) && root == Root(t) && Ordered(m, Order(t))
    ensures Pending(m, root, Top, t, H(t)) && Plug(Top, t) == t && Before(Top) == []
    ensures forall k :: Between(m, Order(t), 0, |Order(t)|, k)
  {
  }

  lemma FocusPending(m: seq<Node>, root: int, c: Ctx, t: Shape, whole: Shape)
    requires Sub(m, t, CtxId(c)) && CtxGood(m, root, c, H(t)) && Hole(m, root, c) == Root(t)
    requires Plug(c, t) == whole && Ordered(m, Order(whole))
    ensures Pending(m, root, c, t, H(t))
  {
    hide Order, NoDup, Increasing;
  }

  lemma NodeLinks(m: seq<Node>, root: int, c: Ctx, t: Shape)
    requires Pending(m, root, c, t, H(t)) && t.Fork?
    ensures InPool(m, t.id) && m[t.id].left == Root(t.l) && m[t.id].right == Root(t.r) && m[t.id].parent == CtxId(c)
    ensures (t.l.Fork? ==> t.l.id != NULL) && (t.r.Fork? ==> t.r.id != NULL)
    ensures t.l.Nil? ==> Order(t.l) == []
    ensures H(t.l) < H(t) && H(t.r) < H(t)
  {
    SubParent(m, t, CtxId(c));
    hide NoDup, Increasing, Sub, CtxGood, Around;
    Down(m, root, c, t, Left);
    Down(m, root, c, t, Right);
  }

  lemma NodeHere(m: seq<Node>, root: int, c: Ctx, t: Shape)
    requires Pending(m, root, c, t, H(t)) && t.Fork?
    ensures InPool(m, t.id) && t.id in Order(Plug(c, t))
    ensures m[t.id].left == Root(t.l) && m[t.id].right == Root(t.r)
    ensures forall d: Dir | Child(t, d).Nil? :: Order(Child(t, d)) == []
  {
    Place(c, t);
  }

  lemma KeptThrough(m0: seq<Node>, m1: seq<Node>, m2: seq<Node>)
    requires PayloadKept(m0, m1) && PayloadKept(m1, m2)
    ensures PayloadKept(m0, m2)
  {
  }

  lemma SameSize(m0: seq<Node>, m1: seq<Node>)
    requires PayloadKept(m0, m1)
    ensures |m0| == |m1|
  {
  }

  lemma WithHas(s: seq<int>, k: int, x: int)
    requires 0 <= k <= |s|
    ensures x in With(s, k, x) && forall i | i in s :: i in With(s, k, x)
  {
    var r := With(s, k, x);
    assert r[k] == x;
    forall i | i in s
      ensures i in r
    {
      var j :| 0 <= j < |s| && s[j] == i;
      assert r[if j < k then j else j + 1] == i;
    }
  }

  lemma NoneEqual(m: seq<Node>, s: seq<int>, at: int, k: int)
    requires Between(m, s, at, at, k)
    ensures forall i :: i in s ==> InPool(m, i) && m[i].key != k
  {
  }

  lemma PlaceUnique(m: seq<Node>, s: seq<int>, i: int, k: int)
    requires NoDup(s) && 0 <= i < |s| && 0 <= k < |s| && s[i] == s[k]
    ensures i == k
  {
  }

  lemma OrderedAfter(m0: seq<Node>, m1: seq<Node>, s: seq<int>, i: int, r: seq<int>, j: int)
    requires Ordered(m0, s) && 0 <= i < |s| && 0 <= j < |s| && r == Without(s, j) && |m1| == |m0|
    requires Items(m1, r) == Without(Items(m0, s), i)
    ensures Ordered(m1, r)
  {
    OrderedWithout(m0, s, j);
    IncreasingKeys(m0, s);
    IncreasingKeys(m0, r);
    KeysWithout(Items(m0, s), i);
    KeysIncreasing(m1, r);
  }

  lemma BypassItems(m0: seq<Node>, m1: seq<Node>, s: seq<int>, i: int)
    requires PayloadKept(m0, m1) && 0 <= i < |s|
    ensures Items(m1, Without(s, i)) == Without(Items(m0, s), i) && ItemAt(m1, s[i]) == ItemAt(m0, s[i])
  {
    ItemsWithout(m0, s, i);
    ItemsKept(m0, m1, Without(s, i));
  }

  lemma BypassSite(m: seq<Node>, root: int, c: Ctx, t: Shape)
    requires Pending(m, root, c, t, H(t)) && t.Fork? && (t.l.Nil? || t.r.Nil?)
    ensures CtxId(c) == NULL <==> c.Top?
    ensures Root(Rest(t)) == NULL <==> Rest(t).Nil?
    ensures Rest(t).Fork? ==> InPool(m, Root(Rest(t))) && Root(Rest(t)) != CtxId(c)
    ensures c.Frame? ==> InPool(m, c.id) && KeySide(m, c.id, t.id) == c.side && c.id != t.id
    ensures c.Frame? && Rest(t).Fork? ==> KeySide(m, c.id, Rest(t).id) == c.side
    ensures t.l.Fork? ==> t.l.id != NULL
    ensures Hole(m, root, c) == t.id
  {
    AroundParts(c, t);
    InForkAll(t);
    if c.Frame? {
      SideByKey(m, root, c, t, t.id);
    }
    if Rest(t).Fork? {
      RootIn(Rest(t));
      if c.Frame? { SideByKey(m, root, c, t, Rest(t).id); }
    }
    hide Order, NoDup, Increasing;
  }

  lemma BypassNodes(c: Ctx, t: Shape)
    requires t.Fork?
    ensures c.Frame? ==> c.id in Order(Plug(c, t))
    ensures Rest(t).Fork? ==> Rest(t).id in Order(Plug(c, t))
  {
    PlugOrder(c, t);
    InForkAll(t);
    if c.Frame? { CtxIdIn(c); }
    if Rest(t).Fork? { RootIn(Rest(t)); }
  }

  lemma KeptBypass(m0: seq<Node>, m1: seq<Node>, m2: seq<Node>, root0: int, root1: int, c: Ctx, t: Shape, s: seq<int>, j: int)
    requires t.Fork? && Bypassed(m0, m1, root0, root1, c, Rest(t)) && s == Order(Plug(c, t)) && 0 <= j < |s|
    requires |m2| == |m1| && forall k :: 0 <= k < |m1| && k !in Without(s, j) ==> m2[k] == m1[k]
    ensures forall k :: 0 <= k < |m0| && k !in s ==> m2[k] == m0[k]
  {
    BypassNodes(c, t);
    hide Order, Plug;
    assert forall k | k in Without(s, j) :: k in s;
  }

  lemma SwapDone(m0: seq<Node>, m1: seq<Node>, m2: seq<Node>, s: seq<int>, i: int, node: int, succ: int, w: Shape)
    requires Ordered(m0, s) && 0 <= i < |s| - 1 && s[i] == node && s[i + 1] == succ
    requires PayloadKept(m0, m1) && Sub(m1, w, NULL) && Order(w) == Without(s, i + 1)
    requires |m2| == |m1| && InPool(m1, node) && InPool(m1, succ)
    requires m2[node] == m1[node].(key := m1[succ].key, lo := m1[succ].lo, hi := m1[succ].hi)
    requires m2[succ] == m1[succ].(key := m1[node].key, lo := m1[node].lo, hi := m1[node].hi)
    requires forall k :: 0 <= k < |m2| && k != node && k != succ ==> m2[k] == m1[k]
    ensures Sub(m2, w, NULL) && Items(m2, Order(w)) == Without(Items(m0, s), i)
    ensures ItemAt(m2, succ) == ItemAt(m0, node)
  {
    OrderedWithout(m0, s, i + 1);
    SubOrder(m1, w, NULL);
    if w.Fork? { SubParent(m1, w, NULL); }
    SwapPayload(m0, m1, m2, node, succ);
    hide Order, NoDup, Increasing, Sub, PayloadKept, ItemAt;
    SwappedItems(m0, m2, s, i);
    SubFrame(m1, m2, w, NULL, NULL);
  }

  lemma SwapPayload(m0: seq<Node>, m1: seq<Node>, m2: seq<Node>, node: int, succ: int)
    requires PayloadKept(m0, m1) && |m2| == |m1| && InPool(m1, node) && InPool(m1, succ)
    requires m2[node] == m1[node].(key := m1[succ].key, lo := m1[succ].lo, hi := m1[succ].hi)
    requires m2[succ] == m1[succ].(key := m1[node].key, lo := m1[node].lo, hi := m1[node].hi)
    requires forall k :: 0 <= k < |m2| && k != node && k != succ ==> m2[k] == m1[k]
    ensures ItemAt(m2, node) == ItemAt(m0, succ) && ItemAt(m2, succ) == ItemAt(m0, node)
    ensures forall i | 0 <= i < |m0| && i != node && i != succ :: ItemAt(m2, i) == ItemAt(m0, i)
    ensures forall i | 0 <= i < |m0| :: SameLinks(m2[i], m1[i])
  {
  }
}
