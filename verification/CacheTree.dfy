/** The tree of caches built by `init_caches` (`src/system.cpp`), and what the MESI states of one
    block look like on it. */
module CacheTree {
  import opened CacheArray

  /** Cores, and for every level how many cores share one of its caches. */
  datatype Tree = Tree(cores: nat, share: seq<nat>) {

    /** Level 0 is private. */
    ghost predicate Plain() {
      cores > 0 && |share| > 0 && share[0] == 1 && forall l :: 0 <= l < |share| ==> share[l] > 0
    }

    function Top(): int { |share| - 1 }

    /** `num_caches` of a level: the cores divided by the sharers, rounded up. */
    function Count(l: int): nat
      requires Plain() && 0 <= l < |share|
    {
      (cores + share[l] - 1) / share[l]
    }

    predicate In(n: Node)
      requires Plain()
    {
      0 <= n.level <= Top() && 0 <= n.id < Count(n.level)
    }

    /** The number of the parent cache, as every upward call computes it. */
    function Par(n: Node): (p: Node)
      requires Plain()
      ensures p.level == n.level + 1
    {
      if 0 <= n.level < Top() && 0 <= n.id then Node(n.level + 1, n.id * share[n.level] / share[n.level + 1])
      else Node(n.level + 1, 0)
    }

    function NumChildren(l: int): (c: nat)
      requires Plain() && 0 <= l < |share|
      ensures l == 0 ==> c == 0
    {
      if l == 0 then 0 else share[l] / share[l - 1]
    }

    function Child(n: Node, k: int): (c: Node)
      requires Plain() && In(n)
      ensures c.level == n.level - 1
    {
      Node(n.level - 1, n.id * NumChildren(n.level) + k)
    }

    /** Every level has exactly the children of the next one, and the sharing factors divide each other
        unless the next level is a single cache. */
    ghost predicate Nests() {
      && Plain()
      && forall l :: 0 <= l < |share| - 1 ==>
           Count(l) == Count(l + 1) * NumChildren(l + 1) && (share[l + 1] % share[l] == 0 || Count(l + 1) == 1)
    }

    /** All child pointers lead to caches, whose parent pointers lead back, and every cache is a child of its
        parent. */
    ghost predicate Consistent()
      requires Plain()
    {
      && (forall n: Node, k: nat :: In(n) && n.level > 0 && k < NumChildren(n.level) ==> In(Child(n, k)) && Par(Child(n, k)) == n)
      && (forall m: Node :: In(m) && m.level < Top() ==>
            In(Par(m)) && 0 <= m.id - Par(m).id * NumChildren(m.level + 1) < NumChildren(m.level + 1))
    }
  }

  type Topology = t: Tree | t.Nests() ghost witness Tree(1, [1])

  lemma DivLess(x: nat, d: nat, q: nat)
    requires d > 0
    ensures x / d < q <==> x < q * d
  {
    assert x == (x / d) * d + x % d;
    if x / d < q {
      assert (x / d + 1) * d <= q * d;
    } else {
      assert q * d <= (x / d) * d;
    }
  }

  lemma DivUnique(x: nat, d: nat, q: nat, r: nat)
    requires r < d && x == q * d + r
    ensures x / d == q && x % d == r
  {
    CacheArray.DivModUnique(q, d, r);
  }

  lemma CountPositive(t: Tree, l: int)
    requires t.Plain() && 0 <= l < |t.share|
    ensures t.Count(l) >= 1
  {
    DivLess(t.cores + t.share[l] - 1, t.share[l], 1);
  }

  lemma ParIn(t: Topology, n: Node)
    requires t.In(n) && n.level < t.Top()
    ensures t.In(t.Par(n))
  {
    IsChild(t, n);
  }

  /** `child[k]` of a cache is a cache of the level below whose parent number is this cache. */
  lemma ChildIn(t: Topology, n: Node, k: nat)
    requires t.In(n) && n.level > 0 && k < t.NumChildren(n.level)
    ensures t.In(t.Child(n, k)) && t.Par(t.Child(n, k)) == n
  {
    var l := n.level;
    var d, e, c := t.share[l - 1], t.share[l], t.NumChildren(l);
    assert t.Count(l - 1) == t.Count(l) * c;
    assert (n.id + 1) * c <= t.Count(l) * c by { MulLe(n.id + 1, t.Count(l), c); }
    assert n.id * c + c == (n.id + 1) * c;
    if e % d == 0 {
      assert e == c * d;
      ChildArith(n.id, k, c, d, t.Count(l));
    } else {
      FirstBlock(k, d, e);
    }
  }

  lemma FirstBlock(k: nat, d: nat, e: nat)
    requires d > 0 && e > 0 && k < e / d
    ensures k * d / e == 0
  {
    Floor(e, d);
    MulLe(k + 1, e / d, d);
    Successor(k, d);
    DivLess(k * d, e, 1);
  }

  lemma Floor(e: nat, d: nat)
    requires d > 0
    ensures (e / d) * d <= e && e == (e / d) * d + e % d
  {
  }

  lemma Successor(k: nat, d: nat)
    ensures (k + 1) * d == k * d + d
  {
  }

  lemma ChildArith(i: nat, k: nat, c: nat, d: nat, count: nat)
    requires k < c && d > 0 && i < count
    ensures c * d > 0
    ensures (i * c + k) * d / (c * d) == i
  {
    var cd := c * d;
    assert (i * c + k) * d == i * cd + k * d by { Distribute(i, c, k, d); }
    assert k * d < cd by { MulLess(k, c, d); }
    DivUnique(i * cd + k * d, cd, i, k * d);
  }

  lemma Distribute(i: int, c: int, k: int, d: int)
    ensures (i * c + k) * d == i * (c * d) + k * d
  {
  }

  lemma MulLess(k: nat, c: nat, d: nat)
    requires k < c && d > 0
    ensures k * d < c * d
  {
  }

  lemma MulLe(x: nat, y: nat, d: nat)
    requires x <= y
    ensures x * d <= y * d
  {
  }

  /** Conversely a cache is one of the children of its parent. */
  lemma IsChild(t: Topology, m: Node)
    requires t.In(m) && m.level < t.Top()
    ensures t.In(t.Par(m))
    ensures var k := m.id - t.Par(m).id * t.NumChildren(m.level + 1);
            0 <= k < t.NumChildren(m.level + 1) && t.Child(t.Par(m), k) == m
  {
    var l := m.level;
    var d, e, c := t.share[l], t.share[l + 1], t.NumChildren(l + 1);
    assert t.Count(l) == t.Count(l + 1) * c;
    if e % d == 0 {
      assert e == c * d;
      IsChildArith(m.id, c, d);
      ParentBelow(t.Par(m).id, c, m.id, t.Count(l + 1));
    } else {
      FirstBlock(m.id, d, e);
    }
  }

  lemma ParentBelow(p: nat, c: nat, m: nat, count: nat)
    requires p * c <= m < count * c
    ensures p < count
  {
    if p >= count { MulLe(count, p, c); }
  }

  lemma IsChildArith(i: nat, c: nat, d: nat)
    requires c * d > 0
    ensures var p := i * d / (c * d); p * c <= i < p * c + c
  {
    assert c > 0 && d > 0;
    DivUnique(i, c, i / c, i % c);
    ChildArith(i / c, i % c, c, d, i / c + 1);
  }

  // ----- Which configurations are trees -------------------------------------------------------

  /** The pointers that `init_caches` sets up are consistent if and only if the configuration nests. */
  lemma NestsIff(t: Tree)
    requires t.Plain()
    ensures t.Consistent() <==> t.Nests()
  {
    if t.Nests() {
      forall n: Node, k: nat | t.In(n) && n.level > 0 && k < t.NumChildren(n.level)
        ensures t.In(t.Child(n, k)) && t.Par(t.Child(n, k)) == n
      {
        ChildIn(t, n, k);
      }
      forall m: Node | t.In(m) && m.level < t.Top()
        ensures t.In(t.Par(m)) && 0 <= m.id - t.Par(m).id * t.NumChildren(m.level + 1) < t.NumChildren(m.level + 1)
      {
        IsChild(t, m);
      }
    }
    if t.Consistent() {
      forall l | 0 <= l < |t.share| - 1
        ensures t.Count(l) == t.Count(l + 1) * t.NumChildren(l + 1) && (t.share[l + 1] % t.share[l] == 0 || t.Count(l + 1) == 1)
      {
        LevelNests(t, l);
      }
    }
  }

  lemma LevelNests(t: Tree, l: nat)
    requires t.Plain() && t.Consistent() && l < |t.share| - 1
    ensures t.Count(l) == t.Count(l + 1) * t.NumChildren(l + 1)
    ensures t.share[l + 1] % t.share[l] == 0 || t.Count(l + 1) == 1
  {
    hide Tree.Consistent, Tree.Count, Tree.NumChildren;
    var c, below, above := t.NumChildren(l + 1), t.Count(l), t.Count(l + 1);
    CountPositive(t, l);
    CountPositive(t, l + 1);
    var p := LastChild(t, l);
    FinalParent(t, l, c - 1);
    SameCount(below, above, c, p);
    if above > 1 {
      SecondParent(t, l);
      Exact(c, t.share[l], t.share[l + 1]);
    }
  }

  /** The last cache of a level is among the children of its parent. */
  lemma LastChild(t: Tree, l: nat) returns (p: nat)
    requires t.Plain() && t.Consistent() && l < |t.share| - 1 && t.Count(l) >= 1
    ensures p < t.Count(l + 1) && p * t.NumChildren(l + 1) <= t.Count(l) - 1 < p * t.NumChildren(l + 1) + t.NumChildren(l + 1)
  {
    hide Tree.Count, Tree.NumChildren;
    var last := Node(l, t.Count(l) - 1);
    assert t.In(last) && t.In(t.Par(last));
    p := t.Par(last).id;
  }

  /** The last cache of a level has the children it is given. */
  lemma FinalParent(t: Tree, l: nat, k: nat)
    requires t.Plain() && t.Consistent() && l < |t.share| - 1 && t.Count(l + 1) >= 1 && k < t.NumChildren(l + 1)
    ensures (t.Count(l + 1) - 1) * t.NumChildren(l + 1) + k < t.Count(l)
  {
    hide Tree.Count, Tree.NumChildren;
    var final := Node(l + 1, t.Count(l + 1) - 1);
    assert t.In(final) && t.In(t.Child(final, k));
  }

  lemma SecondParent(t: Tree, l: nat)
    requires t.Plain() && t.Consistent() && l < |t.share| - 1 && t.Count(l + 1) > 1 && t.NumChildren(l + 1) > 0
    ensures t.NumChildren(l + 1) == t.share[l + 1] / t.share[l] && t.NumChildren(l + 1) * t.share[l] / t.share[l + 1] == 1
  {
    hide Tree.Count;
    var second := Node(l + 1, 1);
    assert t.In(second) && t.Par(t.Child(second, 0)) == second;
  }

  lemma SameCount(below: nat, above: nat, c: nat, p: nat)
    requires above >= 1 && p < above && p * c < below <= p * c + c && (above - 1) * c + (c - 1) < below
    ensures below == above * c
  {
    Successor(above - 1, c);
    Successor(p, c);
    MulLe(p + 1, above, c);
  }

  lemma Exact(c: nat, d: nat, e: nat)
    requires d > 0 && e > 0 && c == e / d && c * d / e == 1
    ensures e % d == 0
  {
    DivLess(c * d, e, 1);
    Floor(e, d);
  }

  /** Six cores with a second level shared by four: its second cache has children that do not exist. */
  lemma SixByFour()
    ensures Tree(6, [1, 4]).Plain() && !Tree(6, [1, 4]).Consistent()
  {
    var t := Tree(6, [1, 4]);
    assert t.In(Node(1, 1)) && t.NumChildren(1) == 4 && t.Child(Node(1, 1), 2) == Node(0, 6) && !t.In(Node(0, 6));
  }

  // ----- Ancestors and subtrees --------------------------------------------------------------

  /** The ancestor of a cache at a level, itself at its own level. */
  ghost function Anc(t: Topology, m: Node, l: int): Node
    decreases l - m.level
  {
    if m.level >= l then m else Anc(t, t.Par(m), l)
  }

  /** m is a or lies below it. */
  ghost predicate Under(t: Topology, a: Node, m: Node) {
    m.level <= a.level && Anc(t, m, a.level) == a
  }

  ghost predicate Comparable(t: Topology, m: Node, n: Node) {
    Under(t, m, n) || Under(t, n, m)
  }

  lemma {:induction false} AncAnc(t: Topology, m: Node, l: int, h: int)
    requires m.level <= l <= h
    ensures Anc(t, m, l).level == l
    ensures Anc(t, m, h) == Anc(t, Anc(t, m, l), h)
    decreases l - m.level
  {
    if m.level < l {
      AncAnc(t, t.Par(m), l, h);
    }
  }

  lemma UnderTrans(t: Topology, a: Node, b: Node, c: Node)
    requires Under(t, a, b) && Under(t, b, c)
    ensures Under(t, a, c)
  {
    AncAnc(t, c, b.level, a.level);
  }

  /** Two ancestors of one cache are comparable. */
  lemma AncestorsCompare(t: Topology, a: Node, b: Node, m: Node)
    requires Under(t, a, m) && Under(t, b, m)
    ensures a.level <= b.level ==> Under(t, b, a)
    ensures b.level <= a.level ==> Under(t, a, b)
  {
    if a.level <= b.level {
      AncAnc(t, m, a.level, b.level);
    }
    if b.level <= a.level {
      AncAnc(t, m, b.level, a.level);
    }
  }

  // ----- Downward propagation ------------------------------------------------------------------

  /** Every cache from m up to a holds the block in a state of at least thr. */
  ghost predicate Reach(t: Topology, v: View, a: Node, m: Node, k: Key, thr: State)
    decreases a.level - m.level
  {
    m.level <= a.level && v(m, k) >= thr && (if m.level >= a.level then m == a else Reach(t, v, a, t.Par(m), k, thr))
  }

  /** Every cache from m up to a child of a does. */
  ghost predicate ReachBelow(t: Topology, v: View, a: Node, m: Node, k: Key, thr: State) {
    m.level < a.level && Reach(t, v, Anc(t, m, a.level - 1), m, k, thr) && t.Par(Anc(t, m, a.level - 1)) == a
  }

  /** `inval` (thr S) and `share` (thr E) at a lower exactly the reached copies, to just under thr. */
  ghost predicate Lowered(t: Topology, v0: View, v1: View, a: Node, k: Key, thr: State)
    requires thr > 0
  {
    forall m: Node, q: Key {:trigger v1(m, q)} ::
      v1(m, q) == if q == k && Reach(t, v0, a, m, k, thr) then thr - 1 else v0(m, q)
  }

  /** The loop over the children of a has done the first j of them. */
  ghost predicate LoweredBelow(t: Topology, v0: View, v1: View, a: Node, k: Key, thr: State, j: int)
    requires thr > 0 && t.In(a)
  {
    forall m: Node, q: Key {:trigger v1(m, q)} ::
      v1(m, q) == if q == k && ReachBelow(t, v0, a, m, k, thr) && Anc(t, m, a.level - 1).id < t.Child(a, j).id
                  then thr - 1 else v0(m, q)
  }

  ghost predicate OnTree(t: Topology, v: View) {
    forall m: Node, q: Key {:trigger v(m, q)} :: v(m, q) <= M && (v(m, q) != I ==> t.In(m))
  }

  lemma {:induction false} ReachUnder(t: Topology, v: View, a: Node, m: Node, k: Key, thr: State)
    requires Reach(t, v, a, m, k, thr)
    ensures Under(t, a, m) && v(a, k) >= thr
    decreases a.level - m.level
  {
    if m.level < a.level {
      ReachUnder(t, v, a, t.Par(m), k, thr);
    }
  }

  lemma {:induction false} ReachFrame(t: Topology, v: View, w: View, a: Node, m: Node, k: Key, thr: State)
    requires forall x: Node {:trigger v(x, k)} {:trigger w(x, k)} :: Under(t, a, x) ==> v(x, k) == w(x, k)
    ensures Reach(t, v, a, m, k, thr) == Reach(t, w, a, m, k, thr)
    decreases a.level - m.level
  {
    if Under(t, a, m) {
      if m.level < a.level {
        ReachFrame(t, v, w, a, t.Par(m), k, thr);
      }
    } else {
      if Reach(t, v, a, m, k, thr) { ReachUnder(t, v, a, m, k, thr); }
      if Reach(t, w, a, m, k, thr) { ReachUnder(t, w, a, m, k, thr); }
    }
  }

  /** A copy is reached from a when it is a itself, or a holds the block and it is reached below a. */
  lemma {:induction false} ReachSplits(t: Topology, v: View, a: Node, m: Node, k: Key, thr: State)
    ensures Reach(t, v, a, m, k, thr) <==> v(a, k) >= thr && (m == a || ReachBelow(t, v, a, m, k, thr))
    decreases a.level - m.level
  {
    if m.level < a.level {
      var c := Anc(t, m, a.level - 1);
      AncAnc(t, m, a.level - 1, a.level);
      if t.Par(m).level < a.level {
        ReachSplits(t, v, a, t.Par(m), k, thr);
      }
      if Reach(t, v, a, m, k, thr) {
        ReachUnder(t, v, a, m, k, thr);
      }
      if Reach(t, v, c, m, k, thr) {
        ReachUnder(t, v, c, m, k, thr);
      }
    }
  }

  /** What is reached below a does not depend on a itself. */
  lemma ReachBelowFrame(t: Topology, v: View, w: View, a: Node, k: Key, thr: State)
    requires forall x: Node {:trigger v(x, k)} {:trigger w(x, k)} :: x != a ==> v(x, k) == w(x, k)
    ensures forall m: Node :: ReachBelow(t, v, a, m, k, thr) <==> ReachBelow(t, w, a, m, k, thr)
  {
    forall m: Node
      ensures ReachBelow(t, v, a, m, k, thr) <==> ReachBelow(t, w, a, m, k, thr)
    {
      if m.level < a.level {
        var c := Anc(t, m, a.level - 1);
        AncAnc(t, m, a.level - 1, a.level - 1);
        ReachFrame(t, v, w, c, m, k, thr);
      }
    }
  }

  lemma ReachSplitsAll(t: Topology, v: View, a: Node, k: Key, thr: State)
    ensures forall m: Node ::
      Reach(t, v, a, m, k, thr) <==> v(a, k) >= thr && (m == a || ReachBelow(t, v, a, m, k, thr))
  {
    forall m: Node {
      ReachSplits(t, v, a, m, k, thr);
    }
  }

  /** A reached cache hangs below one of the children that the loop visits. */
  lemma ReachedChild(t: Topology, v: View, a: Node, m: Node, k: Key, thr: State)
    requires thr > 0 && t.In(a) && OnTree(t, v) && ReachBelow(t, v, a, m, k, thr)
    ensures t.Child(a, 0).id <= Anc(t, m, a.level - 1).id < t.Child(a, t.NumChildren(a.level)).id
  {
    var c := Anc(t, m, a.level - 1);
    ReachUnder(t, v, c, m, k, thr);
    AncAnc(t, m, a.level - 1, a.level - 1);
    IsChild(t, c);
  }

  /** No child done. */
  lemma NoneLowered(t: Topology, v: View, a: Node, k: Key, thr: State)
    requires thr > 0 && t.In(a) && OnTree(t, v)
    ensures LoweredBelow(t, v, v, a, k, thr, 0)
  {
    forall m: Node | ReachBelow(t, v, a, m, k, thr)
      ensures Anc(t, m, a.level - 1).id >= t.Child(a, 0).id
    {
      ReachedChild(t, v, a, m, k, thr);
    }
  }

  /** One more child done. */
  lemma LowerOneMore(t: Topology, v0: View, v1: View, v2: View, a: Node, k: Key, thr: State, j: nat)
    requires thr > 0 && t.In(a) && a.level > 0 && j < t.NumChildren(a.level)
    requires LoweredBelow(t, v0, v1, a, k, thr, j)
    requires Lowered(t, v1, v2, t.Child(a, j), k, thr)
    ensures LoweredBelow(t, v0, v2, a, k, thr, j + 1)
  {
    var c := t.Child(a, j);
    ChildIn(t, a, j);
    forall m: Node, q: Key
      ensures v2(m, q) == if q == k && ReachBelow(t, v0, a, m, k, thr) && Anc(t, m, a.level - 1).id < t.Child(a, j + 1).id
                          then thr - 1 else v0(m, q)
    {
      ReachFrame(t, v0, v1, c, m, k, thr);
      if Reach(t, v0, c, m, k, thr) { ReachUnder(t, v0, c, m, k, thr); }
      if m.level < a.level { AncAnc(t, m, a.level - 1, a.level); }
    }
  }

  /** All children done. */
  lemma AllLowered(t: Topology, v0: View, v1: View, a: Node, k: Key, thr: State)
    requires thr > 0 && t.In(a) && OnTree(t, v0)
    requires LoweredBelow(t, v0, v1, a, k, thr, t.NumChildren(a.level))
    ensures forall m: Node, q: Key {:trigger v1(m, q)} ::
      v1(m, q) == if q == k && ReachBelow(t, v0, a, m, k, thr) then thr - 1 else v0(m, q)
  {
    forall m: Node | ReachBelow(t, v0, a, m, k, thr)
      ensures Anc(t, m, a.level - 1).id < t.Child(a, t.NumChildren(a.level)).id
    {
      ReachedChild(t, v0, a, m, k, thr);
    }
  }
}
