/** `QueueModelHistoryTree`: the interval tree as a first-fit allocator of service time, with a pool of
    100 nodes (`src/Graphite/queue_model_history_tree.cpp`). */
module QueueModel {
  import opened Sequences
  import opened AvlShape
  import opened AvlBalance
  import opened AvlEdit
  import opened IntervalTree
  import opened FreeList

  // ----- Edits of a stored interval in place -------------------------------------------------------

  /** Changing the interval of node s[i] changes exactly the i-th stored interval. */
  lemma EditItems(m0: seq<Node>, m1: seq<Node>, s: seq<int>, i: nat, x: Item)
    requires Ordered(m0, s) && i < |s| && |m1| == |m0| && ItemAt(m1, s[i]) == x
    requires forall k :: 0 <= k < |m0| && k != s[i] ==> m1[k] == m0[k]
    ensures Items(m1, s) == Items(m0, s)[i := x]
  {
    forall k | 0 <= k < |s|
      ensures Items(m1, s)[k] == Items(m0, s)[i := x][k]
    {
      if k != i { assert s[k] != s[i]; }
    }
  }

  /** Links do not depend on what the nodes store. */
  lemma EditLinked(m0: seq<Node>, m1: seq<Node>, t: Shape)
    requires Sub(m0, t, NULL) && Ordered(m0, Order(t)) && |m1| == |m0|
    requires forall k :: 0 <= k < |m0| ==> SameLinks(m1[k], m0[k])
    requires KeysUp(Items(m1, Order(t)))
    ensures Sub(m1, t, NULL) && Ordered(m1, Order(t))
  {
    SubOrder(m0, t, NULL);
    if t.Fork? { SubParent(m0, t, NULL); }
    IncreasingKeys(m0, Order(t));
    hide NoDup, Increasing, Order, Items, KeysUp;
    assert NoDup(Order(t)) by { OrderedParts(m0, Order(t)); }
    SubFrame(m0, m1, t, NULL, NULL);
    KeysIncreasing(m1, Order(t));
  }

  lemma OrderedParts(m: seq<Node>, s: seq<int>)
    requires Ordered(m, s)
    ensures NoDup(s)
  {
  }

  /** Nodes outside the tree do not matter to it. */
  lemma OutsideLinked(m0: seq<Node>, m1: seq<Node>, t: Shape, x: int)
    requires Sub(m0, t, NULL) && Ordered(m0, Order(t)) && |m1| == |m0| && x !in Order(t)
    requires forall k :: 0 <= k < |m0| && k != x ==> m1[k] == m0[k]
    ensures Sub(m1, t, NULL) && Ordered(m1, Order(t)) && Items(m1, Order(t)) == Items(m0, Order(t))
  {
    IncreasingKeys(m0, Order(t));
    forall k | 0 <= k < |Order(t)|
      ensures Items(m1, Order(t))[k] == Items(m0, Order(t))[k]
    {
      assert Order(t)[k] in Order(t);
    }
    assert Items(m1, Order(t)) == Items(m0, Order(t));
    OrderedParts(m0, Order(t));
    hide NoDup, Increasing, Order, Items, KeysUp, Sub;
    UntouchedSub(m0, m1, t, NULL, x);
    KeysIncreasing(m1, Order(t));
  }

  /** The right piece of a split interval is inserted right after it. */
  lemma InsertPlace(q: seq<Item>, i: nat, k: nat, x: Item)
    requires Gapped(q) && i < |q| && k <= |q| && KeysUp(With(q, k, x))
    requires q[i].key < x.key <= q[i].hi
    ensures k == i + 1
  {
    var r := With(q, k, x);
    assert r[k] == x;
    assert forall j | 0 <= j < k :: r[j] == q[j];
    assert forall j | k < j < |r| :: r[j] == q[j - 1];
    assert i + 1 < |q| ==> q[i].hi < q[i + 1].lo && q[i + 1].key == q[i + 1].lo;
    hide KeysUp, Gapped;
    if k <= i {
      KeysUpAt(r, k, i + 1);
    } else if k > i + 1 {
      KeysUpAt(r, i + 1, k);
    }
  }

  lemma KeysUpAt(q: seq<Item>, i: int, j: int)
    requires KeysUp(q) && 0 <= i < j < |q|
    ensures q[i].key < q[j].key
  {
  }

  lemma FreshKey(q: seq<Item>, i: nat, key: nat)
    requires Gapped(q) && i < |q| && q[i].key < key <= q[i].hi
    ensures forall j :: 0 <= j < |q| ==> q[j].key != key
  {
  }

  /** A node of the tree and the interval it stores. */
  lemma NodeAt(m: seq<Node>, s: seq<int>, i: nat)
    requires Ordered(m, s) && i < |s|
    ensures InPool(m, s[i]) && s[i] != NULL && s[i] in s
    ensures Items(m, s)[i] == Item(m[s[i]].key, m[s[i]].lo, m[s[i]].hi)
  {
  }

  lemma NoSuchKey(m: seq<Node>, s: seq<int>, key: nat)
    requires Ordered(m, s) && forall j :: 0 <= j < |s| ==> Items(m, s)[j].key != key
    ensures forall i :: i in s ==> InPool(m, i) && m[i].key != key
  {
    forall i | i in s
      ensures InPool(m, i) && m[i].key != key
    {
      var j :| 0 <= j < |s| && s[j] == i;
      assert Items(m, s)[j].key != key;
    }
  }

  // ----- The pool ----------------------------------------------------------------------------------

  /** The slots of the pool: those of the tree, those on the free list, and possibly one in hand. */
  ghost predicate PoolSplit(nodes: seq<int>, free: seq<int>, held: int) {
    && NoDup(nodes) && NoDup(free)
    && (forall i | i in nodes :: 0 <= i < MAX_INTERVALS && i !in free)
    && (forall i | i in free :: 0 <= i < MAX_INTERVALS)
    && (held == NULL || (0 <= held < MAX_INTERVALS && held !in nodes && held !in free))
    && |nodes| + |free| + (if held == NULL then 0 else 1) == MAX_INTERVALS
  }

  /** Every slot of the pool is either in the tree or free: none is ever lost. */
  lemma NoSlotLost(nodes: seq<int>, free: seq<int>, i: int)
    requires PoolSplit(nodes, free, NULL) && 0 <= i < MAX_INTERVALS
    ensures i in nodes <==> i !in free
  {
    DistinctCount(nodes);
    DistinctCount(free);
    var a, b := Elements(nodes), Elements(free);
    assert forall k | k in a :: k !in b;
    assert a * b == {};
    assert |a + b| == |a| + |b|;
    Full(a + b, MAX_INTERVALS, i);
  }

  lemma TakeSplit(nodes: seq<int>, free: seq<int>)
    requires PoolSplit(nodes, free, NULL) && |nodes| < MAX_INTERVALS
    ensures |free| > 0 && free[|free| - 1] != NULL && PoolSplit(nodes, free[..|free| - 1], free[|free| - 1])
    ensures 0 <= free[|free| - 1] < MAX_INTERVALS && free[|free| - 1] !in nodes
  {
    var n := |free| - 1;
    assert free[n] in free;
    assert forall k | 0 <= k < n :: free[..n][k] == free[k] && free[k] in free;
  }

  lemma GiveSplit(nodes: seq<int>, free: seq<int>, x: int)
    requires PoolSplit(nodes, free, x) && x != NULL
    ensures PoolSplit(nodes, free + [x], NULL) && |free| < MAX_INTERVALS
  {
  }

  lemma PoolBound(nodes: seq<int>, free: seq<int>)
    requires PoolSplit(nodes, free, NULL)
    ensures |nodes| <= MAX_INTERVALS
  {
  }

  lemma RootExists(m: seq<Node>, t: Shape)
    requires Sub(m, t, NULL) && |Order(t)| > 0
    ensures Root(t) != NULL
  {
  }

  lemma WithoutSplit(s: seq<int>, j: int, free: seq<int>)
    requires PoolSplit(s, free, NULL) && 0 <= j < |s|
    ensures PoolSplit(Without(s, j), free, s[j]) && s[j] != NULL
  {
    var r := Without(s, j);
    assert forall k | 0 <= k < j :: r[k] == s[k];
    assert forall k | j <= k < |r| :: r[k] == s[k + 1];
    assert s[j] in s;
    assert forall i | i in r :: i in s;
  }

  lemma WithSplit(s: seq<int>, k: int, free: seq<int>, x: int)
    requires PoolSplit(s, free, x) && x != NULL && 0 <= k <= |s|
    ensures PoolSplit(With(s, k, x), free, NULL)
  {
    var r := With(s, k, x);
    assert forall i | 0 <= i < k :: r[i] == s[i] && s[i] in s;
    assert forall i | k < i < |r| :: r[i] == s[i - 1] && s[i - 1] in s;
    assert r[k] == x;
    assert forall i | i in r :: i == x || i in s;
  }

  /** The piece goes right behind the i-th interval, and its node into the tree. */
  lemma PieceIn(s: seq<int>, q: seq<Item>, free: seq<int>, i: nat, k: nat, x: int, piece: Item)
    requires |s| == |q| && i < |q| && k <= |s| && x != NULL && PoolSplit(s, free, x)
    requires Gapped(q) && KeysUp(With(q, k, piece)) && q[i].key < piece.key <= q[i].hi
    ensures k == i + 1 && PoolSplit(With(s, k, x), free, NULL) && With(s, k, x)[i] == s[i] && |With(s, k, x)| == |s| + 1
  {
    hide PoolSplit, Gapped, KeysUp;
    InsertPlace(q, i, k, piece);
    WithSplit(s, k, free, x);
  }

  // ----- The ways a request changes the free list ------------------------------------------------------

  lemma PlacedSplit(q: seq<Item>, pkt: nat, p: nat, min: nat, i: nat)
    requires i < |q| && i == FirstFit(q, pkt, pkt + p) && KeepsFront(q[i], pkt, min) && KeepsBack(q[i], pkt, p, min)
    ensures With(q, i + 1, Gap(pkt + p, q[i].hi))[i := Gap(q[i].lo, pkt)] == Placed(q, pkt, p, min)
  {
    hide FirstFit, Placed;
    PlacedSplice(q, pkt, p, min, i);
    var x := q[i];
    assert Carve(x, pkt, p, min) == [Gap(x.lo, pkt), Gap(pkt + p, x.hi)];
    assert q[..i] + [Gap(x.lo, pkt), Gap(pkt + p, x.hi)] + q[i + 1..] == With(q, i + 1, Gap(pkt + p, x.hi))[i := Gap(x.lo, pkt)];
  }

  /** One piece is kept: the node of the interval stores it. */
  lemma PlacedOne(q: seq<Item>, pkt: nat, p: nat, min: nat, i: nat)
    requires i < |q| && i == FirstFit(q, pkt, pkt + p) && KeepsFront(q[i], pkt, min) != KeepsBack(q[i], pkt, p, min)
    ensures Placed(q, pkt, p, min)
      == q[i := if KeepsFront(q[i], pkt, min) then Gap(q[i].lo, pkt) else Gap(Start(q[i], pkt) + p, q[i].hi)]
  {
    hide FirstFit, Placed;
    PlacedSplice(q, pkt, p, min, i);
    var x := if KeepsFront(q[i], pkt, min) then Gap(q[i].lo, pkt) else Gap(Start(q[i], pkt) + p, q[i].hi);
    assert Carve(q[i], pkt, p, min) == [x];
    assert q[i := x] == q[..i] + [x] + q[i + 1..];
  }

  lemma PlacedGone(q: seq<Item>, pkt: nat, p: nat, min: nat, i: nat)
    requires i < |q| && i == FirstFit(q, pkt, pkt + p) && !KeepsFront(q[i], pkt, min) && !KeepsBack(q[i], pkt, p, min)
    ensures Without(q, i) == Placed(q, pkt, p, min)
  {
    hide FirstFit, Placed;
    PlacedSplice(q, pkt, p, min, i);
    assert Carve(q[i], pkt, p, min) == [];
  }

  lemma ShrunkKeys(q: seq<Item>, i: nat, hi: nat)
    requires Gapped(q) && i < |q|
    ensures KeysUp(q[i := Gap(q[i].lo, hi)])
  {
  }

  lemma FitHolds(q: seq<Item>, pkt: nat, p: nat)
    requires FirstFit(q, pkt, pkt + p) < |q|
    ensures var x := q[FirstFit(q, pkt, pkt + p)]; Start(x, pkt) + p <= x.hi
  {
  }

  class HistoryTree {
    const tree: Tree
    const freeList: array<int>
    var tail: int
    const min: nat
    ghost var granted: seq<Window>

    ghost function Slots(): seq<int>
      reads this, freeList
      requires -1 <= tail < freeList.Length
    {
      freeList[..tail + 1]
    }

    /** Tree and free list share the pool; one node may be in hand. */
    ghost predicate Shared(held: int)
      reads this, tree, freeList
    {
      && freeList.Length == MAX_INTERVALS && |tree.m| == MAX_INTERVALS && -1 <= tail < MAX_INTERVALS
      && tree.Linked() && PoolSplit(Order(tree.shape), Slots(), held)
    }

    ghost predicate Pool(held: int)
      reads this, tree, freeList
    {
      Shared(held) && tree.Valid()
    }

    /** A node is in no list any more, and the tree counts it although it does not contain it. */
    ghost predicate Leaked()
      reads this, tree, freeList
    {
      tree.size == |Order(tree.shape)| + 1 && exists x :: x != NULL && Shared(x)
    }

    /** The free intervals of the queue in order. */
    ghost function Free(): seq<Item>
      reads this, tree
    {
      tree.Stored()
    }

    ghost predicate Valid()
      reads this, tree, freeList
    {
      && Pool(NULL) && Endless(Free())
      && AllApart(granted) && AllOutside(granted, Free())
    }

    constructor (min: nat)
      ensures Valid() && fresh(tree) && fresh(freeList) && this.min == min
      ensures Free() == [Gap(0, UINT64_MAX)] && granted == []
    {
      var blocks := seq(MAX_INTERVALS, _ => Node(NULL, NULL, NULL, 0, 0, 0, 0));
      var start := MAX_INTERVALS - 1;
      blocks := blocks[start := Node(NULL, NULL, NULL, 1, 0, 0, UINT64_MAX)];
      this.min, granted := min, [];
      tree := new Tree(blocks, start);
      freeList := new int[MAX_INTERVALS](i => i);
      tail := MAX_INTERVALS - 2;
      new;
      assert Free() == [Gap(0, UINT64_MAX)];
    }

    /** `allocateNode` */
    method AllocateNode(lo: nat, hi: nat) returns (node: int)
      requires Pool(NULL) && tree.size < MAX_INTERVALS
      modifies this`tail, tree`m
      ensures Pool(node) && node != NULL && Fresh(tree.m, Order(tree.shape), node)
      ensures ItemAt(tree.m, node) == Gap(lo, hi)
      ensures tree.shape == old(tree.shape) && Free() == old(Free())
      ensures Slots() == old(Slots()[..tail])
      ensures forall k :: 0 <= k < |tree.m| && k != node ==> tree.m[k] == old(tree.m)[k]
    {
      hide Sub, H, Order, Ordered, PoolSplit;
      ghost var s := Slots();
      TakeSplit(Order(tree.shape), s);
      node := freeList[tail];
      assert s[|s| - 1] == node;
      ghost var m0 := tree.m;
      tree.m := tree.m[node := Node(NULL, NULL, NULL, 1, lo, lo, hi)];
      tail := tail - 1;
      assert Slots() == s[..|s| - 1];
      OutsideLinked(m0, tree.m, tree.shape, node);
    }

    /** `releaseNode` */
    method ReleaseNode(node: int)
      requires Pool(node) && node != NULL
      modifies this`tail, freeList
      ensures Pool(NULL) && Slots() == old(Slots()) + [node]
    {
      hide Sub, H, Order, Ordered, PoolSplit;
      ghost var s := Slots();
      GiveSplit(Order(tree.shape), s, node);
      tail := tail + 1;
      freeList[tail] := node;
      assert Slots() == s + [node];
    }

    /** Takes the i-th interval out of the tree and gives its node back. */
    method Discard(node: int, ghost i: int)
      requires Pool(NULL) && 0 <= i < |Order(tree.shape)| && Order(tree.shape)[i] == node
      modifies this`tail, tree, freeList
      ensures Pool(NULL) && Free() == Without(old(Free()), i)
    {
      hide Sub, H, Order, Ordered, PoolSplit;
      ghost var s := Order(tree.shape);
      ghost var j;
      var removed;
      removed, j := tree.Remove(node, i);
      WithoutSplit(s, j, Slots());
      ReleaseNode(removed);
    }

    /** `node->interval.second = hi` */
    method SetEnd(node: int, hi: nat, ghost i: int, ghost held: int)
      requires Shared(held) && 0 <= i < |Order(tree.shape)| && Order(tree.shape)[i] == node && InPool(tree.m, node)
      requires Free()[i].key == Free()[i].lo && KeysUp(Free()[i := Gap(Free()[i].lo, hi)])
      modifies tree`m
      ensures Shared(held) && Free() == old(Free())[i := Gap(old(Free())[i].lo, hi)] && tree.shape == old(tree.shape)
    {
      hide Sub, H, Order, Ordered, KeysUp, PoolSplit;
      ghost var m0 := tree.m;
      tree.m := tree.m[node := tree.m[node].(hi := hi)];
      EditItems(m0, tree.m, Order(tree.shape), i, Gap(ItemAt(m0, node).lo, hi));
      EditLinked(m0, tree.m, tree.shape);
    }

    /** `node->interval.first = lo` together with its key */
    method SetStart(node: int, lo: nat, ghost i: int)
      requires Pool(NULL) && 0 <= i < |Order(tree.shape)| && Order(tree.shape)[i] == node && InPool(tree.m, node)
      requires KeysUp(Free()[i := Gap(lo, Free()[i].hi)])
      modifies tree`m
      ensures Pool(NULL) && Free() == old(Free())[i := Gap(lo, old(Free())[i].hi)] && tree.shape == old(tree.shape)
    {
      hide Sub, H, Order, Ordered, KeysUp, PoolSplit;
      ghost var m0 := tree.m;
      tree.m := tree.m[node := tree.m[node].(lo := lo)];
      tree.m := tree.m[node := tree.m[node].(key := tree.m[node].lo)];
      EditItems(m0, tree.m, Order(tree.shape), i, Gap(lo, ItemAt(m0, node).hi));
      EditLinked(m0, tree.m, tree.shape);
    }

    /** A new node for the piece after the request, inserted behind the i-th interval. It is lost if the
        key of that interval is the same. */
    method AddPiece(lo: nat, hi: nat, ghost i: nat) returns (ghost held: int)
      requires Pool(NULL) && tree.size < MAX_INTERVALS && Gapped(Free()) && i < |Free()|
      requires Free()[i].key <= lo <= Free()[i].hi
      modifies this`tail, tree
      ensures old(Free())[i].key < lo ==> held == NULL && Pool(NULL) && Free() == With(old(Free()), i + 1, Gap(lo, hi))
      ensures old(Free())[i].key == lo ==>
        held != NULL && Shared(held) && tree.size == |Order(tree.shape)| + 1 && Free() == old(Free())
      ensures |Order(tree.shape)| > i && Order(tree.shape)[i] == old(Order(tree.shape))[i]
    {
      hide Sub, H, Order, Ordered, Gapped, KeysUp, PoolSplit, With;
      ghost var q, s := Free(), Order(tree.shape);
      NodeAt(tree.m, s, i);
      var next := AllocateNode(lo, hi);
      ghost var free := Slots();
      RootExists(tree.m, tree.shape);
      if q[i].key < lo {
        FreshKey(q, i, lo);
        NoSuchKey(tree.m, s, lo);
      }
      tree.Insert(next);
      held := if q[i].key == lo then next else NULL;
      if held == NULL {
        ghost var k :| 0 <= k <= |s| && Order(tree.shape) == With(s, k, next) && tree.Stored() == With(q, k, ItemAt(tree.m, next));
        IncreasingKeys(tree.m, Order(tree.shape));
        PieceIn(s, q, free, i, k, next, Gap(lo, hi));
      }
    }

    /** The placement in `computeQueueDelay`. When the two pieces clash, `insert` refuses the second one: its
        node is lost and so is the time it stands for. */
    method Place(pkt: nat, p: nat) returns (delay: nat)
      requires Pool(NULL) && tree.size < MAX_INTERVALS && Gapped(Free()) && FirstFit(Free(), pkt, pkt + p) < |Free()|
      modifies this`tail, tree, freeList
      ensures delay == Delay(old(Free()), pkt, p)
      ensures var q := old(Free()); var i := FirstFit(q, pkt, pkt + p);
        if Clash(q[i], pkt, p, min) then Leaked() && Free() == Lost(q, i)
        else Pool(NULL) && Free() == Placed(q, pkt, p, min)
    {
      hide Sub, H, Order, Ordered, Gapped, KeysUp, Placed, FirstFit, PoolSplit;
      ghost var q := Free();
      var node := tree.Search(pkt, pkt + p);
      ghost var i, held := FirstFit(q, pkt, pkt + p), NULL;
      KeysUpIff(q, pkt, p, min);
      ShrunkKeys(q, i, pkt);
      FitHolds(q, pkt, p);
      GappedAt(q, i);
      NodeAt(tree.m, Order(tree.shape), i);
      assert pkt + p <= tree.m[node].hi;
      if pkt >= tree.m[node].lo {
        delay := 0;
        if pkt - tree.m[node].lo >= min {
          if tree.m[node].hi - (pkt + p) >= min {
            PlacedSplit(q, pkt, p, min, i);
            held := AddPiece(pkt + p, tree.m[node].hi, i);
          } else {
            PlacedOne(q, pkt, p, min, i);
          }
          NodeAt(tree.m, Order(tree.shape), i);
          SetEnd(node, pkt, i, held);
        } else if tree.m[node].hi - (pkt + p) >= min {
          PlacedOne(q, pkt, p, min, i);
          SetStart(node, pkt + p, i);
        } else {
          PlacedGone(q, pkt, p, min, i);
          Discard(node, i);
        }
      } else {
        delay := tree.m[node].lo - pkt;
        if tree.m[node].hi - (tree.m[node].lo + p) >= min {
          PlacedOne(q, pkt, p, min, i);
          SetStart(node, tree.m[node].lo + p, i);
        } else {
          PlacedGone(q, pkt, p, min, i);
          Discard(node, i);
        }
      }
    }

    /** The tree does not grow beyond the pool: its oldest interval is removed when it is full. */
    method Prune()
      requires Pool(NULL) && Endless(Free())
      modifies this`tail, tree, freeList
      ensures Pool(NULL) && Endless(Free()) && Free() == Pruned(old(Free())) && tree.size < MAX_INTERVALS
    {
      hide Sub, H, Order, Ordered, Gapped, PoolSplit;
      ghost var q := Free();
      OldestFirst(q);
      PruneKeeps(q);
      PoolBound(Order(tree.shape), Slots());
      var minNode := tree.Search(0, 1);
      if tree.size >= MAX_INTERVALS {
        Discard(minNode, 0);
        assert Without(q, 0) == q[1..];
      }
      assert Free() == Pruned(q);
    }

    /** `computeQueueDelay`; the result of the analytical model is the parameter `analytical`. */
    method ComputeQueueDelay(pkt: nat, p: nat, analytical: nat) returns (delay: nat)
      requires Valid() && (Old(Pruned(Free()), pkt, p) || Within(Pruned(Free()), pkt, p, min))
      modifies this, tree, freeList
      ensures delay == Answer(old(Free()), Request(pkt, p), analytical)
      ensures var q := Pruned(old(Free())); var i := FirstFit(q, pkt, pkt + p);
        if Old(q, pkt, p) then Valid() && Free() == q && granted == old(granted)
        else
          && i < |q| && granted == old(granted) + [Served(q, pkt, p)]
          && (KeepsGaps(q[i], pkt, p, min) <==> Valid())
          && if Clash(q[i], pkt, p, min) then Leaked() && Free() == Lost(q, i) else Free() == Placed(q, pkt, p, min)
    {
      hide Sub, H, Order, Ordered, Gapped, KeysUp, Placed, FirstFit, AllApart, AllOutside, Delay, PoolSplit, Served, Items;
      PruneKeeps(Free());
      PruneOutside(granted, Free());
      Prune();
      ghost var q := Free();
      OldestFirst(q);
      var minNode := tree.Search(0, 1);
      NodeAt(tree.m, Order(tree.shape), 0);
      if tree.m[minNode].lo > pkt + p {
        delay := analytical;
      } else {
        PlacedEndless(q, pkt, p, min);
        GrantKeeps(granted, q, pkt, p, min);
        ClashBreaks(q[FirstFit(q, pkt, pkt + p)], pkt, p, min);
        granted := granted + [Served(q, pkt, p)];
        delay := Place(pkt, p);
      }
    }

    /** A run on a fresh queue: if arrival times and total work stay within 64 bits, every answer is that of
        first fit or of the analytical model, and the windows are those of first fit. */
    method Run(rs: seq<Request>, analytical: seq<nat>, ghost t: nat) returns (delays: seq<nat>)
      requires Valid() && Free() == [Gap(0, UINT64_MAX)] && granted == []
      requires min >= 1 && |analytical| == |rs| && t + Work(rs) + min <= UINT64_MAX
      requires forall i :: 0 <= i < |rs| ==> rs[i].p >= 1 && rs[i].pkt <= t
      modifies this, tree, freeList
      ensures Valid() && |delays| == |rs|
      ensures Free() == AfterAll([Gap(0, UINT64_MAX)], rs, min) && granted == Windows([Gap(0, UINT64_MAX)], rs, min)
      ensures forall i :: 0 <= i < |rs| ==> delays[i] == Answer(AfterAll([Gap(0, UINT64_MAX)], rs[..i], min), rs[i], analytical[i])
    {
      hide Gapped, FirstFit, Placed, Delay, Served, Old, Work, AfterAll, Windows, AllApart, AllOutside, Pruned, Answer;
      delays := [];
      ghost var q0 := [Gap(0, UINT64_MAX)];
      StartOfRun(q0, rs, min);
      var n := 0;
      while n < |rs|
        invariant 0 <= n <= |rs| && |delays| == n && Valid()
        invariant Free() == AfterAll(q0, rs[..n], min) && granted == Windows(q0, rs[..n], min)
        invariant forall i :: 0 <= i < n ==> delays[i] == Answer(AfterAll(q0, rs[..i], min), rs[i], analytical[i])
      {
        StepOfRun(q0, rs, n, min);
        RequestFits(rs, n, t, min);
        ghost var q := Free();
        var delay := ComputeQueueDelay(rs[n].pkt, rs[n].p, analytical[n]);
        TakesTime(Pruned(q), rs[n].pkt, rs[n].p, min);
        delays := delays + [delay];
        n := n + 1;
      }
      assert rs[..n] == rs;
    }
  }

  lemma StartOfRun(q: seq<Item>, rs: seq<Request>, min: nat)
    ensures AfterAll(q, rs[..0], min) == q && Windows(q, rs[..0], min) == []
  {
  }

  lemma StepOfRun(q: seq<Item>, rs: seq<Request>, n: nat, min: nat)
    requires n < |rs|
    ensures AfterAll(q, rs[..n + 1], min) == FreeList.After(AfterAll(q, rs[..n], min), rs[n], min)
    ensures Windows(q, rs[..n + 1], min) == Windows(q, rs[..n], min) + WindowOf(AfterAll(q, rs[..n], min), rs[n])
  {
    assert rs[..n + 1][..n] == rs[..n];
  }

  lemma RequestFits(rs: seq<Request>, n: nat, t: nat, min: nat)
    requires n < |rs| && min >= 1 && t + Work(rs) + min <= UINT64_MAX
    requires forall i :: 0 <= i < |rs| ==> rs[i].p >= 1 && rs[i].pkt <= t
    ensures Within(Pruned(AfterAll([Gap(0, UINT64_MAX)], rs[..n], min)), rs[n].pkt, rs[n].p, min)
  {
    hide Gapped, Pruned, AfterAll;
    WorkPrefix(rs, n + 1);
    assert rs[..n + 1][..n] == rs[..n];
    RunWithin(rs[..n], t, min, rs[n]);
  }

  lemma TakesTime(q: seq<Item>, pkt: nat, p: nat, min: nat)
    requires p >= 1 && min >= 1
    ensures forall i :: 0 <= i < |q| ==> KeepsGaps(q[i], pkt, p, min) && !Clash(q[i], pkt, p, min)
  {
  }
}
