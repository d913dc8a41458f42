/** The bus-based MESI protocol over a tree of inclusive caches: `mesi_bus`, `inval`, `share` and
    their `_children` forms in `src/system.cpp`, for any number of levels and any replacement
    policy, with no persistency model. */
module MesiBus {
  import opened CacheArray
  import opened CacheTree
  import opened MesiStates

  class BusSystem {
    const t: Topology
    const store: LineStore

    ghost predicate Valid()
      reads this, store
    {
      && store.Valid() && OnTree(t, store.view)
      && Fits(t, store.g)
    }

    /** All caches empty, with `2^indexBits` sets at each level. */
    constructor (t: Topology, indexBits: seq<nat>, numWays: seq<pos>)
      requires |indexBits| == |numWays| == |t.share|
      ensures Valid() && fresh(store) && this.t == t
      ensures forall n: Node, k: Key :: store.view(n, k) == I
    {
      this.t := t;
      store := new LineStore(seq(|t.share|, l requires 0 <= l < |t.share| =>
        Geometry(t.Count(l), Pow2(indexBits[l]), numWays[l])));
    }

    // ----- Downward propagation ------------------------------------------------------------------

    /** `inval`: invalidate a block in a cache that holds it and, first, in the caches below. */
    method Inval(n: Node, k: Key)
      requires Valid() && t.In(n)
      modifies store
      ensures Valid()
      ensures Lowered(t, old(store.view), store.view, n, k, S)
      ensures OnlyLowered(old(store.lines), store.lines)
      ensures forall s: Slot | s in store.lines && s.node.level > n.level :: store.lines[s] == old(store.lines)[s]
      decreases n.level, 1
    {
      hide LineStore.Valid, Tree.Par, Tree.Child, Tree.NumChildren, Tree.Count, KeyAt;
      ReachSplitsAll(t, store.view, n, k, S);
      var way := store.AccessLine(n, k);
      if way != -1 {
        InvalChildren(n, k);
        store.SetState(SlotFor(store.g, n, k, way), I);
      }
    }

    /** `inval_children` */
    method InvalChildren(n: Node, k: Key)
      requires Valid() && t.In(n)
      modifies store
      ensures Valid()
      ensures forall m: Node, q: Key {:trigger store.view(m, q)} ::
        store.view(m, q) == if q == k && ReachBelow(t, old(store.view), n, m, k, S) then I else old(store.view)(m, q)
      ensures OnlyLowered(old(store.lines), store.lines)
      ensures forall s: Slot | s in store.lines && s.node.level >= n.level :: store.lines[s] == old(store.lines)[s]
      decreases n.level, 0
    {
      hide LineStore.Valid, Tree.Par, Tree.Child, Tree.NumChildren, Tree.Count, KeyAt;
      NoneLowered(t, store.view, n, k, S);
      var j := 0;
      while j < t.NumChildren(n.level)
        invariant 0 <= j <= t.NumChildren(n.level)
        invariant Valid() && LoweredBelow(t, old(store.view), store.view, n, k, S, j)
        invariant OnlyLowered(old(store.lines), store.lines)
        invariant forall s: Slot | s in store.lines && s.node.level >= n.level :: store.lines[s] == old(store.lines)[s]
      {
        ghost var v1 := store.view;
        ChildIn(t, n, j);
        Inval(t.Child(n, j), k);
        LowerOneMore(t, old(store.view), v1, store.view, n, k, S, j);
        j := j + 1;
      }
      AllLowered(t, old(store.view), store.view, n, k, S);
    }

    /** `share`: downgrade an owned block to S, first in the caches below. */
    method Share(n: Node, k: Key)
      requires Valid() && t.In(n)
      modifies store
      ensures Valid()
      ensures Lowered(t, old(store.view), store.view, n, k, E)
      ensures OnlyLowered(old(store.lines), store.lines)
      ensures forall s: Slot | s in store.lines && s.node.level > n.level :: store.lines[s] == old(store.lines)[s]
      decreases n.level, 1
    {
      hide LineStore.Valid, Tree.Par, Tree.Child, Tree.NumChildren, Tree.Count, KeyAt;
      ReachSplitsAll(t, store.view, n, k, E);
      var way := store.AccessLine(n, k);
      if way != -1 {
        var s := SlotFor(store.g, n, k, way);
        if store.lines[s].state == M || store.lines[s].state == E {
          ShareChildren(n, k);
          store.SetState(s, S);
        }
      }
    }

    /** `share_children` */
    method ShareChildren(n: Node, k: Key)
      requires Valid() && t.In(n)
      modifies store
      ensures Valid()
      ensures forall m: Node, q: Key {:trigger store.view(m, q)} ::
        store.view(m, q) == if q == k && ReachBelow(t, old(store.view), n, m, k, E) then S else old(store.view)(m, q)
      ensures OnlyLowered(old(store.lines), store.lines)
      ensures forall s: Slot | s in store.lines && s.node.level >= n.level :: store.lines[s] == old(store.lines)[s]
      decreases n.level, 0
    {
      hide LineStore.Valid, Tree.Par, Tree.Child, Tree.NumChildren, Tree.Count, KeyAt;
      NoneLowered(t, store.view, n, k, E);
      var j := 0;
      while j < t.NumChildren(n.level)
        invariant 0 <= j <= t.NumChildren(n.level)
        invariant Valid() && LoweredBelow(t, old(store.view), store.view, n, k, E, j)
        invariant OnlyLowered(old(store.lines), store.lines)
        invariant forall s: Slot | s in store.lines && s.node.level >= n.level :: store.lines[s] == old(store.lines)[s]
      {
        ghost var v1 := store.view;
        ChildIn(t, n, j);
        Share(t.Child(n, j), k);
        LowerOneMore(t, old(store.view), v1, store.view, n, k, E, j);
        j := j + 1;
      }
      AllLowered(t, old(store.view), store.view, n, k, E);
    }

    // ----- Snooping the other top-level caches -------------------------------------------------------

    /** The loop body for one other top-level cache: invalidate or share what it and the caches below
        it hold; `owner` says that it held the block in M or E. A write hit sets the line first. */
    method SnoopOne(a: Node, k: Key, keep: State, lineFirst: bool) returns (found: bool, owner: bool)
      requires Valid() && t.In(a) && keep <= S
      modifies store
      ensures Valid()
      ensures found <==> old(store.view)(a, k) != I
      ensures owner <==> old(store.view)(a, k) >= E
      ensures found ==> SnoopHit(t, old(store.view), store.view, a, k, keep)
      ensures !found ==> store.view == old(store.view)
      ensures OnlyLowered(old(store.lines), store.lines)
      ensures forall s: Slot | s in store.lines && s.node.level >= a.level && s.node != a :: store.lines[s] == old(store.lines)[s]
    {
      hide LineStore.Valid, Tree.Par, Tree.Child, Tree.NumChildren, Tree.Count, KeyAt;
      var way := store.AccessLine(a, k);
      if way == -1 {
        return false, false;
      }
      var s := SlotFor(store.g, a, k, way);
      found := true;
      if lineFirst && keep == I {
        owner := store.lines[s].state == M || store.lines[s].state == E;
        ghost var v0 := store.view;
        store.SetState(s, keep);
        ReachBelowFrame(t, v0, store.view, a, k, S);
        InvalChildren(a, k);
      } else {
        if keep == I {
          InvalChildren(a, k);
        } else {
          ShareChildren(a, k);
        }
        owner := store.lines[s].state == M || store.lines[s].state == E;
        store.SetState(s, keep);
      }
    }

    /** The loop of a write hit in S, and with `stopAtOwner` that of a write miss: no other top-level
        cache, and no cache below one, keeps the block. */
    method SnoopInval(n: Node, k: Key, stopAtOwner: bool)
      requires Valid() && t.In(n) && n.level == t.Top()
      requires CoherentOff(t, store.view, k, n)
      modifies store
      ensures Valid()
      ensures forall m: Node, q: Key {:trigger store.view(m, q)} ::
        store.view(m, q) == if q == k && !Under(t, n, m) then I else old(store.view)(m, q)
      ensures OnlyLowered(old(store.lines), store.lines)
      ensures forall s: Slot | s in store.lines && s.node == n :: store.lines[s] == old(store.lines)[s]
    {
      hide LineStore.Valid, Tree.Par, Tree.Child, Tree.NumChildren, Tree.Count, KeyAt, CoherentOff, Coherent, Snooped, SnoopHit;
      ghost var v0 := store.view;
      SnoopStart(t, v0, n, k, I);
      var i := 0;
      while i < t.Count(t.Top())
        invariant 0 <= i <= t.Count(t.Top())
        invariant Valid() && Snooped(t, v0, store.view, n, k, i, I)
        invariant OnlyLowered(old(store.lines), store.lines)
        invariant forall s: Slot | s in store.lines && s.node == n :: store.lines[s] == old(store.lines)[s]
      {
        ghost var v1 := store.view;
        var owner := false;
        if i != n.id {
          var found;
          found, owner := SnoopOne(Node(t.Top(), i), k, I, !stopAtOwner);
        }
        SnoopNext(t, v0, v1, store.view, n, k, i, I);
        if stopAtOwner && owner {
          SnoopStop(t, v0, store.view, n, k, i, I);
          i := t.Count(t.Top());
          break;
        }
        i := i + 1;
      }
      SnoopDone(t, v0, store.view, n, k, I);
    }

    /** The loop of a read miss: other copies are left shared, and `shared_line` says if there was one. */
    method SnoopShare(n: Node, k: Key) returns (shared: bool)
      requires Valid() && t.In(n) && n.level == t.Top()
      requires CoherentOff(t, store.view, k, n)
      modifies store
      ensures Valid()
      ensures forall m: Node, q: Key {:trigger store.view(m, q)} ::
        store.view(m, q) == if q == k && !Under(t, n, m) then Min(old(store.view)(m, q), S) else old(store.view)(m, q)
      ensures shared <==> !Unheld(t, old(store.view), k, n)
      ensures OnlyLowered(old(store.lines), store.lines)
      ensures forall s: Slot | s in store.lines && s.node == n :: store.lines[s] == old(store.lines)[s]
    {
      hide LineStore.Valid, Tree.Par, Tree.Child, Tree.NumChildren, Tree.Count, KeyAt, CoherentOff, Coherent, Snooped, SnoopHit, Unheld;
      ghost var v0 := store.view;
      SnoopStart(t, v0, n, k, S);
      shared := false;
      ghost var holder := -1;
      var i := 0;
      while i < t.Count(t.Top())
        invariant 0 <= i <= t.Count(t.Top())
        invariant Valid() && Snooped(t, v0, store.view, n, k, i, S)
        invariant !shared ==> forall j | 0 <= j < i && j != n.id :: v0(Node(t.Top(), j), k) == I
        invariant shared ==> 0 <= holder < t.Count(t.Top()) && holder != n.id && v0(Node(t.Top(), holder), k) != I
        invariant OnlyLowered(old(store.lines), store.lines)
        invariant forall s: Slot | s in store.lines && s.node == n :: store.lines[s] == old(store.lines)[s]
      {
        ghost var v1 := store.view;
        var owner := false;
        if i != n.id {
          var found;
          found, owner := SnoopOne(Node(t.Top(), i), k, S, false);
          if found {
            shared, holder := true, i;
          }
        }
        SnoopNext(t, v0, v1, store.view, n, k, i, S);
        if owner {
          SnoopStop(t, v0, store.view, n, k, i, S);
          i := t.Count(t.Top());
          break;
        }
        i := i + 1;
      }
      SnoopDone(t, v0, store.view, n, k, S);
      SharedMeansHeld(t, v0, n, k);
    }
  
    // ----- Transactions ----------------------------------------------------------------------------

    /** `mesi_bus` at cache n, called for its child d or by a core: the state it returns, and what it
        leaves in every cache. */
    method MesiBus(n: Node, k: Key, write: bool, ghost d: Node) returns (r: State, ghost ev: map<int, Key>)
      requires Valid() && Requester(t, n, d)
      requires CoherentOff(t, store.view, k, d)
      requires forall q: Key | q != k :: Coherent(t, store.view, q)
      modifies store
      ensures Valid()
      ensures write ==> r == M && WriteOutcome(t, store.view, n, k, d)
      ensures !write ==> ReadOutcome(t, old(store.view), store.view, n, k, d, r)
      ensures RequesterLowered(t, old(store.view), store.view, k, d)
      ensures OthersEvicted(t, old(store.view), store.view, n, k, ev)
      ensures EvictedExactly(t, store, old(store.lines), old(store.view), n, k, ev)
      ensures store.lines.Keys == old(store.lines).Keys
      ensures forall s: Slot | s in store.lines && s.node.level < n.level :: LineLowered(old(store.lines)[s], store.lines[s])
      decreases t.Top() - n.level, 3
    {
      hide LineStore.Valid, Tree.Par, Tree.Child, Tree.NumChildren, Tree.Count, KeyAt, CoherentOff, Coherent, Snooped;
      var way := store.AccessLine(n, k);
      if way != -1 {
        HitAbove(t, store, store.lines, store.view, n, k, d);
        ev := map[];
        r := Hit(n, k, write, SlotFor(store.g, n, k, way), d);
      } else {
        r, ev := Miss(n, k, write, d);
      }
    }

    /** The hit branch: nothing is evicted. */
    method Hit(n: Node, k: Key, write: bool, s: Slot, ghost d: Node) returns (r: State)
      requires Valid() && Requester(t, n, d)
      requires CoherentOff(t, store.view, k, d)
      requires forall q: Key | q != k :: Coherent(t, store.view, q)
      requires s in store.lines && s.node == n && store.lines[s].state == store.view(n, k) != I
      requires KeyAt(store.g, s, store.lines[s]) == k
      modifies store
      ensures Valid()
      ensures write ==> r == M && WriteOutcome(t, store.view, n, k, d)
      ensures !write ==> ReadOutcome(t, old(store.view), store.view, n, k, d, r)
      ensures RequesterLowered(t, old(store.view), store.view, k, d)
      ensures forall m: Node, q: Key {:trigger store.view(m, q)} :: q != k ==> store.view(m, q) == old(store.view)(m, q)
      ensures store.lines.Keys == old(store.lines).Keys
      ensures forall s: Slot | s in store.lines && s.node.level < n.level :: LineLowered(old(store.lines)[s], store.lines[s])
      decreases t.Top() - n.level, 2
    {
      hide LineStore.Valid, Tree.Par, Tree.Child, Tree.NumChildren, Tree.Count, KeyAt, CoherentOff, Coherent, Snooped;
      hide WriteOutcome, RequesterLowered, ReadOutcome, Under;
      ghost var v0 := store.view;
      if write {
        if n.level != t.Top() && store.lines[s].state != M {
          Upgrade(n, k, s, d);
        } else {
          Own(n, k, s, d);
        }
        ghost var v3 := store.view;
        InvalChildren(n, k);
        WriteHit(t, v0, v3, store.view, n, k, d);
        return M;
      } else {
        if store.lines[s].state != S {
          ShareChildren(n, k);
        }
        ReadHit(t, v0, store.view, n, k, d);
        return S;
      }
    }

    /** The line goes to I, the parent is asked for the block, and the answer goes into the line. */
    method Upgrade(n: Node, k: Key, s: Slot, ghost d: Node)
      requires Valid() && Requester(t, n, d) && n.level < t.Top()
      requires CoherentOff(t, store.view, k, d)
      requires forall q: Key | q != k :: Coherent(t, store.view, q)
      requires s in store.lines && s.node == n && store.lines[s].state == store.view(n, k) != I
      requires KeyAt(store.g, s, store.lines[s]) == k
      modifies store
      ensures Valid() && WriteHitReady(t, old(store.view), store.view, n, k)
      ensures forall m: Node, q: Key {:trigger store.view(m, q)} :: q != k ==> store.view(m, q) == old(store.view)(m, q)
      ensures store.lines.Keys == old(store.lines).Keys
      ensures forall s: Slot | s in store.lines && s.node.level < n.level :: LineLowered(old(store.lines)[s], store.lines[s])
      decreases t.Top() - n.level, 0
    {
      hide LineStore.Valid, Tree.Par, Tree.Child, Tree.NumChildren, Tree.Count, KeyAt, CoherentOff, Coherent, Snooped;
      hide WriteOutcome, RequesterLowered, ReadOutcome, Under, WriteHitReady, EvictedExactly;
      ghost var v0 := store.view;
      store.SetState(s, I);
      label asked:
      ghost var v1, lines1 := store.view, store.lines;
      ParIn(t, n);
      UpgradeReady(t, v0, v1, n, k, d);
      ghost var ev;
      var up: State;
      up, ev := MesiBus(t.Par(n), k, true, n);
      ghost var v2 := store.view;
      NothingEvictedAbove(t, store, lines1, v0, v1, n, k, d, ev);
      store.StillSole@asked(s);
      store.SetState(s, up);
      UpgradeDone(t, v0, v1, v2, store.view, n, k);
    }

    /** A write hit on a line in M, or at the top level. */
    method Own(n: Node, k: Key, s: Slot, ghost d: Node)
      requires Valid() && Requester(t, n, d)
      requires CoherentOff(t, store.view, k, d)
      requires s in store.lines && s.node == n && store.lines[s].state == store.view(n, k) != I
      requires KeyAt(store.g, s, store.lines[s]) == k
      requires n.level == t.Top() || store.lines[s].state == M
      modifies store
      ensures Valid() && WriteHitReady(t, old(store.view), store.view, n, k)
      ensures forall m: Node, q: Key {:trigger store.view(m, q)} :: q != k ==> store.view(m, q) == old(store.view)(m, q)
      ensures store.lines.Keys == old(store.lines).Keys
      ensures forall s: Slot | s in store.lines && s.node.level < n.level :: LineLowered(old(store.lines)[s], store.lines[s])
    {
      hide LineStore.Valid, Tree.Par, Tree.Child, Tree.NumChildren, Tree.Count, KeyAt, CoherentOff, Coherent, Snooped;
      hide RequesterLowered, ReadOutcome, WriteHitReady;
      ghost var v0 := store.view;
      ghost var v2 := v0;
      if n.level == t.Top() && store.lines[s].state == S {
        Weaken(t, v0, n, k, d);
        SnoopInval(n, k, false);
        v2 := store.view;
      } else {
        OwnerExcludes(t, v0, n, k, d);
      }
      if n.level == t.Top() {
        store.SetState(s, M);
      }
      OwnDone(t, v0, v2, store.view, n, k);
    }

    /** The miss branch: make room, evict the victim below, ask the parent or snoop, and store the answer. */
    method Miss(n: Node, k: Key, write: bool, ghost d: Node) returns (r: State, ghost ev: map<int, Key>)
      requires Valid() && Requester(t, n, d)
      requires CoherentOff(t, store.view, k, d)
      requires forall q: Key | q != k :: Coherent(t, store.view, q)
      requires store.view(n, k) == I
      modifies store
      ensures Valid()
      ensures write ==> r == M && WriteOutcome(t, store.view, n, k, d)
      ensures !write ==> ReadOutcome(t, old(store.view), store.view, n, k, d, r)
      ensures RequesterLowered(t, old(store.view), store.view, k, d)
      ensures OthersEvicted(t, old(store.view), store.view, n, k, ev)
      ensures EvictedExactly(t, store, old(store.lines), old(store.view), n, k, ev)
      ensures store.lines.Keys == old(store.lines).Keys
      ensures forall s: Slot | s in store.lines && s.node.level < n.level :: LineLowered(old(store.lines)[s], store.lines[s])
      decreases t.Top() - n.level, 2
    {
      hide LineStore.Valid, Tree.Par, Tree.Child, Tree.NumChildren, Tree.Count, KeyAt, CoherentOff, Coherent, Snooped;
      hide WriteOutcome, RequesterLowered, ReadOutcome, Under, EvictedExactly, OthersEvicted;
      ghost var v0, lines0 := store.view, store.lines;
      var s: Slot;
      ghost var ev0;
      s, ev0 := MakeRoom(n, k);
      label asked:
      ghost var v2, lines2 := store.view, store.lines;
      MissReady(t, v0, v2, n, k, d, ev0);
      ghost var ev1 := map[];
      if n.level != t.Top() {
        ParIn(t, n);
        r, ev1 := MesiBus(t.Par(n), k, write, n);
        OutcomeAtParent(t, v2, store.view, n, k, r);
      } else if write {
        SnoopInval(n, k, true);
        r := M;
        SnoopOutcome(t, v2, store.view, n, k, I);
        NoEviction(t, v2, store.view, n, k);
      } else {
        var shared := SnoopShare(n, k);
        r := if shared then S else E;
        SnoopOutcome(t, v2, store.view, n, k, S);
        NoEviction(t, v2, store.view, n, k);
      }
      ghost var v3 := store.view;
      store.StillSole@asked(s);
      store.SetState(s, r);
      ev := ev0 + ev1;
      MissEvictions(t, store, lines0, lines2, v0, v2, v3, store.view, n, k, ev0, ev1);
      if write {
        WriteMiss(t, v0, v2, v3, store.view, n, k, d);
      } else {
        ReadMiss(t, v0, v2, v3, store.view, n, k, d, r);
      }
    }

    /** `replaceLine`, and the victim's invalidation below.  The line has the new block's tag and still
        the victim's state. */
    method MakeRoom(n: Node, k: Key) returns (s: Slot, ghost ev: map<int, Key>)
      requires Valid() && t.In(n)
      requires forall q: Key | q != k :: Coherent(t, store.view, q)
      requires store.view(n, k) == I
      modifies store
      ensures Valid()
      ensures s in store.lines && s.node == n && KeyAt(store.g, s, store.lines[s]) == k
      ensures store.lines[s].state != I || store.view(n, k) == I
      ensures forall m: Node {:trigger store.view(m, k)} :: m != n ==> store.view(m, k) == old(store.view)(m, k)
      ensures OthersEvicted(t, old(store.view), store.view, n, k, ev)
      ensures forall l | l in ev :: l == n.level && Victim(t, store, old(store.view), n, k, l, ev[l])
      ensures n.level in ev <==> !store.HasFreeWay(old(store.lines), n, k)
      ensures store.lines.Keys == old(store.lines).Keys
      ensures forall s: Slot | s in store.lines && s.node.level < n.level :: LineLowered(old(store.lines)[s], store.lines[s])
      ensures forall s: Slot | s in store.lines && s.node.level > n.level :: store.lines[s] == old(store.lines)[s]
    {
      hide LineStore.Valid, Tree.Par, Tree.Child, Tree.NumChildren, Tree.Count, KeyAt, CoherentOff, Coherent, Snooped;
      hide Under, OthersEvicted, LineStore.HasFreeWay;
      ghost var v0 := store.view;
      var way, victim := store.ReplaceLine(n, k);
      s := SlotFor(store.g, n, k, way);
      AncAnc(t, n, n.level, n.level);
      if store.lines[s].state != I {
        ghost var v1 := store.view;
        assert Coherent(t, v0, victim.value);
        InvalChildren(n, victim.value);
        EvictionStep(t, v0, v1, store.view, n, k, victim.value);
        ev := map[n.level := victim.value];
      } else {
        ev := map[];
        NoEviction(t, v0, store.view, n, k);
      }
    }
  
    // ----- Runs --------------------------------------------------------------------------------------

    ghost predicate Safe()
      reads this, store
    {
      Valid() && forall k: Key :: Coherent(t, store.view, k)
    }

    /** `System::access` on the bus: one read or write by a core, on the block of an address. */
    method Access(req: Request, offsetBits: nat) returns (r: State, ghost ev: map<int, Key>)
      requires Safe() && t.In(Node(0, req.core))
      modifies store
      ensures Safe()
      ensures var own, k := Node(0, req.core), BlockOf(offsetBits, req.prog, req.addr);
        && (req.write ==> r == M && forall m: Node | t.In(m) :: store.view(m, k) == if Under(t, m, own) then M else I)
        && (!req.write ==> ReadOutcome(t, old(store.view), store.view, own, k, Nowhere, r))
        && OthersEvicted(t, old(store.view), store.view, own, k, ev)
        && EvictedExactly(t, store, old(store.lines), old(store.view), own, k, ev)
    {
      hide LineStore.Valid, CoherentOff, EvictedExactly;
      var own, k := Node(0, req.core), BlockOf(offsetBits, req.prog, req.addr);
      ghost var v0 := store.view;
      assert Coherent(t, v0, k);
      r, ev := MesiBus(own, k, req.write, Nowhere);
      forall q: Key
        ensures Coherent(t, store.view, q)
      {
        assert Coherent(t, v0, q);
        if q != k {
          EvictionKeeps(t, v0, store.view, own, k, ev, q);
        } else if req.write {
          WriteKeeps(t, store.view, own, k, Nowhere);
        } else {
          ReadKeeps(t, v0, store.view, own, k, Nowhere, r);
        }
      }
    }

    /** Any run of accesses from empty caches: after every one of them at most one core may write a
        block, and then no other core holds it. */
    method Run(reqs: seq<Request>, offsetBits: nat) returns (ghost views: seq<View>)
      requires Safe() && forall i :: 0 <= i < |reqs| ==> t.In(Node(0, reqs[i].core))
      modifies store
      ensures Safe() && |views| == |reqs| + 1 && views[0] == old(store.view) && views[|reqs|] == store.view
      ensures forall i, k: Key, c, c' | 0 <= i < |views| && c != c' && views[i](Node(0, c), k) >= E ::
        views[i](Node(0, c'), k) == I
      ensures forall i | 0 <= i < |reqs| :: HoldsAfter(views[i + 1], reqs[i], offsetBits)
    {
      hide LineStore.Valid, Coherent, ReadOutcome, OthersEvicted, EvictedExactly;
      views := [store.view];
      SafeExcludes();
      for j := 0 to |reqs|
        invariant Safe() && |views| == j + 1 && views[0] == old(store.view) && views[j] == store.view
        invariant forall i, k: Key, c, c' | 0 <= i < |views| && c != c' && views[i](Node(0, c), k) >= E ::
          views[i](Node(0, c'), k) == I
        invariant forall i | 0 <= i < j :: HoldsAfter(views[i + 1], reqs[i], offsetBits)
      {
        ghost var v0 := store.view;
        var r;
        ghost var ev;
        r, ev := Access(reqs[j], offsetBits);
        SafeExcludes();
        if !reqs[j].write {
          ReaderHolds(t, v0, store.view, Node(0, reqs[j].core), BlockOf(offsetBits, reqs[j].prog, reqs[j].addr), r);
        }
        views := views + [store.view];
      }
    }

    lemma SafeExcludes()
      requires Safe()
      ensures forall k: Key, c, c' | c != c' && store.view(Node(0, c), k) >= E :: store.view(Node(0, c'), k) == I
    {
      hide LineStore.Valid, CoherentOff;
      forall k: Key, c, c' | c != c' && store.view(Node(0, c), k) >= E
        ensures store.view(Node(0, c'), k) == I
      {
        assert Coherent(t, store.view, k);
        SingleWriter(t, store.view, k, c, c');
      }
    }

    /** In the arrays themselves: two cores' own caches never hold lines of one block of which one is
        in M or E. */
    lemma SingleWriterInLines(s: Slot, x: Slot)
      requires Safe() && s in store.lines && x in store.lines
      requires s.node.level == 0 == x.node.level && s.node != x.node
      requires KeyAt(store.g, s, store.lines[s]) == KeyAt(store.g, x, store.lines[x])
      requires store.lines[s].state == M || store.lines[s].state == E
      ensures store.lines[x].state == I
    {
      SafeExcludes();
      assert store.view(Node(0, s.node.id), KeyAt(store.g, s, store.lines[s])) == store.lines[s].state;
    }
  }

  /** A memory request of a core. */
  datatype Request = Request(core: int, prog: int, addr: nat, write: bool)

  /** The core that made a request holds its block, in M if it wrote. */
  ghost predicate HoldsAfter(v: View, req: Request, offsetBits: nat) {
    var own := v(Node(0, req.core), BlockOf(offsetBits, req.prog, req.addr));
    own != I && (req.write ==> own == M)
  }

  lemma ReaderHolds(t: Topology, v0: View, v1: View, n: Node, k: Key, r: State)
    requires ReadOutcome(t, v0, v1, n, k, Nowhere, r) && t.In(n)
    ensures v1(n, k) != I
  {
    assert Under(t, n, n);
  }
}
