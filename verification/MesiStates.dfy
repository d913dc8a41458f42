/** What one transaction of the bus protocol may do to the states of the caches, and why each step
    of the recursion keeps the protocol's invariant. */
module MesiStates {
  import opened CacheArray
  import opened CacheTree

  function Min(a: State, b: State): State {
    if a <= b then a else b
  }

  /** The invariant of one block on the caches outside the subtree of d.  With I < S < E < M the
      first part says that a valid line has a valid parent line, that a child in M has its parent in
      M and a child in E has its parent in E or M; the second that a line in M or E excludes every
      valid line except above and below itself. */
  ghost predicate CoherentOff(t: Topology, v: View, k: Key, d: Node) {
    && (forall m: Node {:trigger v(t.Par(m), k)} :: !Under(t, d, m) && m.level < t.Top() ==> v(m, k) <= v(t.Par(m), k))
    && (forall m: Node, n: Node {:trigger v(m, k), v(n, k)} ::
          !Under(t, d, m) && !Under(t, d, n) && v(m, k) >= E && v(n, k) >= S ==> Comparable(t, m, n))
  }

  const Nowhere: Node := Node(-1, 0)

  ghost predicate Coherent(t: Topology, v: View, k: Key) {
    CoherentOff(t, v, k, Nowhere)
  }

  /** Block k lies outside the subtree of d only as this says after a write through cache n. */
  ghost predicate WriteOutcome(t: Topology, v1: View, n: Node, k: Key, d: Node) {
    forall m: Node {:trigger v1(m, k)} :: !Under(t, d, m) ==>
      v1(m, k) == if m.level <= t.Top() && Under(t, m, n) then M else I
  }

  ghost predicate Unheld(t: Topology, v: View, k: Key, d: Node) {
    forall m: Node {:trigger v(m, k)} :: !Under(t, d, m) ==> v(m, k) == I
  }

  /** After a read through n that returned r: caches on the way up keep a state they had and take r
      otherwise, all others are left with at most a shared copy, and r is E exactly if nobody had one. */
  ghost predicate ReadOutcome(t: Topology, v0: View, v1: View, n: Node, k: Key, d: Node, r: State) {
    && r == (if Unheld(t, v0, k, d) then E else S)
    && forall m: Node {:trigger v1(m, k)} :: !Under(t, d, m) ==>
         v1(m, k) == if m.level <= t.Top() && Under(t, m, n) then (if v0(m, k) == I then r else v0(m, k))
                     else Min(v0(m, k), S)
  }

  /** In the subtree of d a transaction only lowers states, and only of copies reached from d. */
  ghost predicate RequesterLowered(t: Topology, v0: View, v1: View, k: Key, d: Node) {
    forall m: Node {:trigger v1(m, k)} :: Under(t, d, m) ==>
      v1(m, k) == v0(m, k) || (v1(m, k) < v0(m, k) && Reach(t, v0, d, m, k, S))
  }

  /** d is the child through which a request came to n, or nothing if n is a core's own cache. */
  ghost predicate Requester(t: Topology, n: Node, d: Node) {
    t.In(n) && d.level == n.level - 1 && (n.level > 0 ==> t.In(d) && t.Par(d) == n)
  }

  /** Block q was evicted from the subtree of some ancestor-or-self of n that holds cache m. */
  ghost predicate Evicted(t: Topology, n: Node, ev: map<int, Key>, m: Node, q: Key) {
    exists l :: l in ev && l >= n.level && ev[l] == q && Under(t, Anc(t, n, l), m)
  }

  ghost predicate OthersEvicted(t: Topology, v0: View, v1: View, n: Node, k: Key, ev: map<int, Key>) {
    forall m: Node, q: Key {:trigger v1(m, q)} :: q != k ==>
      v1(m, q) == if Evicted(t, n, ev, m, q) then I else v0(m, q)
  }

  // ----- Structure of the invariant ------------------------------------------------------------

  /** Outside d a copy has copies at least as strong all the way up. */
  lemma {:induction false} ChainUp(t: Topology, v: View, k: Key, d: Node, a: Node, m: Node, thr: State)
    requires CoherentOff(t, v, k, d) && Under(t, a, m) && !Under(t, d, m)
    requires a.level <= t.Top() && v(m, k) >= thr
    ensures Reach(t, v, a, m, k, thr) && v(a, k) >= thr
    decreases a.level - m.level
  {
    if m.level < a.level {
      assert v(m, k) <= v(t.Par(m), k);
      ChainUp(t, v, k, d, a, t.Par(m), thr);
    }
  }

  lemma ChainBelow(t: Topology, v: View, k: Key, d: Node, a: Node, m: Node, thr: State)
    requires CoherentOff(t, v, k, d) && Under(t, a, m) && !Under(t, d, m) && m != a
    requires a.level <= t.Top() && v(m, k) >= thr
    ensures ReachBelow(t, v, a, m, k, thr) && v(a, k) >= thr
  {
    ChainUp(t, v, k, d, a, m, thr);
    ReachSplits(t, v, a, m, k, thr);
  }

  // ----- Outcomes keep the invariant -------------------------------------------------------------

  lemma WriteKeeps(t: Topology, v1: View, n: Node, k: Key, d: Node)
    requires WriteOutcome(t, v1, n, k, d)
    ensures CoherentOff(t, v1, k, d)
  {
    forall m: Node | !Under(t, d, m) && m.level < t.Top()
      ensures v1(m, k) <= v1(t.Par(m), k)
    {
      UpIsOutside(t, d, m, n);
    }
    forall m: Node, m': Node | Under(t, m, n) && Under(t, m', n)
      ensures Comparable(t, m, m')
    {
      AncestorsCompare(t, m, m', n);
    }
  }

  /** The parent of a cache outside d is outside d, and above n if the cache is. */
  lemma UpIsOutside(t: Topology, d: Node, m: Node, n: Node)
    requires !Under(t, d, m)
    ensures !Under(t, d, t.Par(m))
    ensures Under(t, m, n) ==> Under(t, t.Par(m), n)
  {
    if Under(t, m, n) {
      UnderTrans(t, t.Par(m), m, n);
    }
  }

  lemma ReadKeeps(t: Topology, v0: View, v1: View, n: Node, k: Key, d: Node, r: State)
    requires CoherentOff(t, v0, k, d) && ReadOutcome(t, v0, v1, n, k, d, r)
    requires t.In(n) && !Under(t, d, n)
    ensures CoherentOff(t, v1, k, d)
  {
    forall m: Node | !Under(t, d, m) && m.level < t.Top()
      ensures v1(m, k) <= v1(t.Par(m), k)
    {
      UpIsOutside(t, d, m, n);
      assert v0(m, k) <= v0(t.Par(m), k);
    }
    forall m: Node, m': Node | !Under(t, d, m) && !Under(t, d, m') && v1(m, k) >= E && v1(m', k) >= S
      ensures Comparable(t, m, m')
    {
      assert Under(t, m, n);
      if Under(t, m', n) {
        AncestorsCompare(t, m, m', n);
      } else {
        assert v0(m', k) >= S;
        assert v0(m, k) != I;
      }
    }
  }

  lemma EvictionKeeps(t: Topology, v0: View, v1: View, n: Node, k: Key, ev: map<int, Key>, q: Key)
    requires q != k && Coherent(t, v0, q) && OthersEvicted(t, v0, v1, n, k, ev)
    ensures Coherent(t, v1, q)
  {
    forall m: Node | m.level < t.Top()
      ensures !Under(t, Nowhere, m) ==> v1(m, q) <= v1(t.Par(m), q)
    {
      if Evicted(t, n, ev, t.Par(m), q) {
        var l :| l in ev && l >= n.level && ev[l] == q && Under(t, Anc(t, n, l), t.Par(m));
        assert Under(t, Anc(t, n, l), m);
      }
    }
  }

  // ----- Steps of a transaction ------------------------------------------------------------------

  lemma AboveParent(t: Topology, n: Node)
    ensures forall m: Node :: !Under(t, n, m) ==> (Under(t, m, n) <==> Under(t, m, t.Par(n)))
  {
  }

  /** Seen from n, the outcome at the parent of n is the outcome outside the subtree of n. */
  lemma OutcomeAtParent(t: Topology, v0: View, v1: View, n: Node, k: Key, r: State)
    ensures WriteOutcome(t, v1, t.Par(n), k, n) ==> WriteOutcome(t, v1, n, k, n)
    ensures ReadOutcome(t, v0, v1, t.Par(n), k, n, r) ==> ReadOutcome(t, v0, v1, n, k, n, r)
  {
    AboveParent(t, n);
  }

  /** What lies strictly below n lies below the requester or below another child. */
  lemma BelowRequester(t: Topology, v: View, w: View, n: Node, d: Node, m: Node, k: Key)
    requires Requester(t, n, d) && Under(t, d, m) && t.In(m)
    requires forall x: Node {:trigger v(x, k)} {:trigger w(x, k)} :: Under(t, d, x) ==> v(x, k) == w(x, k)
    ensures Under(t, n, m) && m != n
    ensures ReachBelow(t, v, n, m, k, S) ==> Reach(t, w, d, m, k, S)
    ensures Reach(t, v, n, m, k, S) ==> Reach(t, w, d, m, k, S)
  {
    UnderTrans(t, n, d, m);
    ReachSplits(t, v, n, m, k, S);
    ReachFrame(t, v, w, d, m, k, S);
  }

  /** The block is in M at n and above, gone elsewhere outside the subtree of n, untouched below n. */
  ghost predicate WriteHitReady(t: Topology, v0: View, v3: View, n: Node, k: Key) {
    && WriteOutcome(t, v3, n, k, n) && v3(n, k) == M
    && forall m: Node {:trigger v3(m, k)} :: Under(t, n, m) && m != n ==> v3(m, k) == v0(m, k)
  }

  /** The whole block is in M above n and gone elsewhere outside; n then invalidates its children. */
  lemma WriteHit(t: Topology, v0: View, v3: View, v4: View, n: Node, k: Key, d: Node)
    requires Requester(t, n, d) && OnTree(t, v0) && CoherentOff(t, v0, k, d)
    requires WriteHitReady(t, v0, v3, n, k)
    requires forall m: Node {:trigger v4(m, k)} :: v4(m, k) == if ReachBelow(t, v3, n, m, k, S) then I else v3(m, k)
    ensures WriteOutcome(t, v4, n, k, d) && RequesterLowered(t, v0, v4, k, d)
  {
    forall m: Node | !Under(t, d, m)
      ensures v4(m, k) == if m.level <= t.Top() && Under(t, m, n) then M else I
    {
      ReachSplits(t, v3, n, m, k, S);
      if Under(t, n, m) && m != n && v0(m, k) >= S {
        ChainBelow(t, v0, k, d, n, m, S);
        var c := Anc(t, m, n.level - 1);
        AncAnc(t, m, n.level - 1, n.level);
        forall x: Node | Under(t, c, x)
          ensures v0(x, k) == v3(x, k)
        {
          UnderTrans(t, n, c, x);
        }
        ReachFrame(t, v0, v3, c, m, k, S);
      } else if ReachBelow(t, v3, n, m, k, S) {
        ReachUnder(t, v3, n, m, k, S);
      }
    }
    forall m: Node | Under(t, d, m)
      ensures v4(m, k) == v0(m, k) || (v4(m, k) < v0(m, k) && Reach(t, v0, d, m, k, S))
    {
      if t.In(m) {
        forall x: Node | Under(t, d, x) && n.level > 0
          ensures v0(x, k) == v3(x, k)
        {
          UnderTrans(t, n, d, x);
        }
        BelowRequester(t, v3, v0, n, d, m, k);
      }
    }
  }

  /** n holds the block for a read; if it owns it, it first shares it with its children. */
  ghost predicate ShareSteps(t: Topology, v0: View, v1: View, n: Node, k: Key) {
    forall m: Node {:trigger v1(m, k)} ::
      v1(m, k) == if v0(n, k) != S && ReachBelow(t, v0, n, m, k, E) then S else v0(m, k)
  }

  lemma ReadHit(t: Topology, v0: View, v1: View, n: Node, k: Key, d: Node)
    requires Requester(t, n, d) && OnTree(t, v0) && CoherentOff(t, v0, k, d) && v0(n, k) != I
    requires ShareSteps(t, v0, v1, n, k)
    ensures ReadOutcome(t, v0, v1, n, k, d, S) && RequesterLowered(t, v0, v1, k, d)
  {
    forall m: Node | !Under(t, d, m)
      ensures v1(m, k) == if m.level <= t.Top() && Under(t, m, n) then v0(m, k) else Min(v0(m, k), S)
      ensures m.level <= t.Top() && Under(t, m, n) ==> v0(m, k) != I
    {
      ReadHitAt(t, v0, v1, n, k, d, m);
    }
    forall m: Node | Under(t, d, m) && v1(m, k) != v0(m, k)
      ensures v1(m, k) < v0(m, k) && Reach(t, v0, d, m, k, S)
    {
      WeakerReach(t, v0, Anc(t, m, n.level - 1), m, k);
      BelowRequester(t, v0, v0, n, d, m, k);
    }
  }

  lemma ReadHitAt(t: Topology, v0: View, v1: View, n: Node, k: Key, d: Node, m: Node)
    requires Requester(t, n, d) && OnTree(t, v0) && CoherentOff(t, v0, k, d) && v0(n, k) != I
    requires ShareSteps(t, v0, v1, n, k) && !Under(t, d, m)
    ensures v1(m, k) == if m.level <= t.Top() && Under(t, m, n) then v0(m, k) else Min(v0(m, k), S)
    ensures m.level <= t.Top() && Under(t, m, n) ==> v0(m, k) != I
  {
    if m.level <= t.Top() && Under(t, m, n) {
      ChainUp(t, v0, k, d, m, n, S);
    }
    if ReachBelow(t, v0, n, m, k, E) {
      WeakerReach(t, v0, Anc(t, m, n.level - 1), m, k);
      AncAnc(t, m, n.level - 1, n.level);
      ChainUp(t, v0, k, d, n, m, E);
    } else if v0(m, k) >= E && !Under(t, m, n) {
      assert Comparable(t, m, n);
      ChainBelow(t, v0, k, d, n, m, E);
    }
  }

  lemma {:induction false} WeakerReach(t: Topology, v: View, a: Node, m: Node, k: Key)
    ensures Reach(t, v, a, m, k, E) ==> Reach(t, v, a, m, k, S) && v(m, k) >= E
    decreases a.level - m.level
  {
    if m.level < a.level {
      WeakerReach(t, v, a, t.Par(m), k);
    }
  }

  /** n did not hold the block; v2 is the state after the eviction, v3 after the request went on and
      v4 with the answer r stored in the line of n. */
  ghost predicate MissSteps(t: Topology, v0: View, v2: View, v3: View, v4: View, n: Node, k: Key, d: Node, r: State) {
    && Requester(t, n, d) && OnTree(t, v0) && CoherentOff(t, v0, k, d) && v0(n, k) == I
    && (forall m: Node {:trigger v2(m, k)} :: m != n ==> v2(m, k) == v0(m, k))
    && RequesterLowered(t, v2, v3, k, n) && OnTree(t, v3)
    && (forall m: Node {:trigger v4(m, k)} :: v4(m, k) == if m == n then r else v3(m, k))
  }

  lemma NothingBelow(t: Topology, v: View, n: Node, k: Key, d: Node, m: Node)
    requires t.In(n) && CoherentOff(t, v, k, d) && v(n, k) == I
    requires Under(t, n, m) && !Under(t, d, m)
    ensures v(m, k) == I
  {
    if v(m, k) >= S {
      ChainUp(t, v, k, d, n, m, S);
    }
  }

  lemma MissLowers(t: Topology, v0: View, v2: View, v3: View, v4: View, n: Node, k: Key, d: Node, r: State)
    requires MissSteps(t, v0, v2, v3, v4, n, k, d, r)
    ensures RequesterLowered(t, v0, v4, k, d)
    ensures forall m: Node {:trigger v4(m, k)} :: Under(t, n, m) && m != n && !Under(t, d, m) ==> v4(m, k) == v0(m, k) == I
  {
    forall m: Node | Under(t, d, m)
      ensures v4(m, k) == v0(m, k) || (v4(m, k) < v0(m, k) && Reach(t, v0, d, m, k, S))
    {
      if t.In(m) {
        BelowRequester(t, v2, v0, n, d, m, k);
      }
    }
    forall m: Node | Under(t, n, m) && m != n && !Under(t, d, m)
      ensures v4(m, k) == v0(m, k) == I
    {
      NothingBelow(t, v0, n, k, d, m);
    }
  }

  lemma WriteMiss(t: Topology, v0: View, v2: View, v3: View, v4: View, n: Node, k: Key, d: Node)
    requires MissSteps(t, v0, v2, v3, v4, n, k, d, M) && WriteOutcome(t, v3, n, k, n)
    ensures WriteOutcome(t, v4, n, k, d) && RequesterLowered(t, v0, v4, k, d)
  {
    MissLowers(t, v0, v2, v3, v4, n, k, d, M);
  }

  lemma ReadMiss(t: Topology, v0: View, v2: View, v3: View, v4: View, n: Node, k: Key, d: Node, r: State)
    requires MissSteps(t, v0, v2, v3, v4, n, k, d, r) && ReadOutcome(t, v2, v3, n, k, n, r)
    ensures ReadOutcome(t, v0, v4, n, k, d, r) && RequesterLowered(t, v0, v4, k, d)
  {
    MissLowers(t, v0, v2, v3, v4, n, k, d, r);
    if Unheld(t, v2, k, n) {
      forall m: Node | !Under(t, d, m)
        ensures v0(m, k) == I
      {
        if Under(t, n, m) { NothingBelow(t, v0, n, k, d, m); } else { assert v2(m, k) == I; }
      }
    } else {
      var m: Node :| !Under(t, n, m) && v2(m, k) != I;
      if Under(t, d, m) {
        UnderTrans(t, n, d, m);
      }
      assert v0(m, k) != I;
    }
  }

  lemma Weaken(t: Topology, v: View, n: Node, k: Key, d: Node)
    requires Requester(t, n, d) && OnTree(t, v) && CoherentOff(t, v, k, d)
    ensures CoherentOff(t, v, k, n)
  {
    forall m: Node | !Under(t, n, m) && t.In(m)
      ensures !Under(t, d, m)
    {
      if Under(t, d, m) { UnderTrans(t, n, d, m); }
    }
  }

  /** A hit means that every cache above holds the block too, so that nothing is replaced there. */
  lemma HitAbove(t: Topology, store: LineStore, lines0: map<Slot, Line>, v: View, n: Node, k: Key, d: Node)
    requires Fits(t, store.g)
    requires Requester(t, n, d) && CoherentOff(t, v, k, d) && v(n, k) != I
    ensures forall l | n.level <= l <= t.Top() :: v(Anc(t, n, l), k) != I
    ensures EvictedExactly(t, store, lines0, v, n, k, map[])
  {
    forall l | n.level <= l <= t.Top()
      ensures v(Anc(t, n, l), k) != I
    {
      AncAnc(t, n, l, l);
      ChainUp(t, v, k, d, Anc(t, n, l), n, S);
    }
  }

  // ----- The top level -----------------------------------------------------------------------------

  /** If n owns the block, nothing else outside d holds it but caches above and below n. */
  lemma OwnerExcludes(t: Topology, v: View, n: Node, k: Key, d: Node)
    requires Requester(t, n, d) && OnTree(t, v) && CoherentOff(t, v, k, d)
    requires v(n, k) == M || (v(n, k) == E && n.level == t.Top())
    ensures WriteOutcome(t, v, n, k, n)
  {
    forall m: Node | !Under(t, n, m)
      ensures v(m, k) == if m.level <= t.Top() && Under(t, m, n) then M else I
    {
      if Under(t, d, m) && t.In(m) {
        UnderTrans(t, n, d, m);
      } else if m.level <= t.Top() && Under(t, m, n) {
        ChainUp(t, v, k, d, m, n, M);
      } else {
        assert v(m, k) >= S ==> Comparable(t, n, m);
      }
    }
  }

  lemma {:induction false} AncIn(t: Topology, m: Node, l: int)
    requires t.In(m) && l <= t.Top()
    ensures t.In(Anc(t, m, l))
    decreases l - m.level
  {
    if m.level < l {
      ParIn(t, m);
      AncIn(t, t.Par(m), l);
    }
  }

  /** The snoop of the top-level caches other than n has done those numbered below i: copies held by
      them or below them are gone, or at most shared. */
  ghost predicate Snooped(t: Topology, v0: View, v1: View, n: Node, k: Key, i: int, keep: State) {
    forall m: Node, q: Key {:trigger v1(m, q)} ::
      v1(m, q) == if q == k && t.In(m) && !Under(t, n, m) && Anc(t, m, t.Top()).id < i then Min(v0(m, q), keep) else v0(m, q)
  }

  lemma SnoopStart(t: Topology, v: View, n: Node, k: Key, keep: State)
    ensures Snooped(t, v, v, n, k, 0, keep)
  {
    forall m: Node | t.In(m)
      ensures Anc(t, m, t.Top()).id >= 0
    {
      AncIn(t, m, t.Top());
    }
  }

  /** What the loop body does to a cache a that holds the block. */
  ghost predicate SnoopHit(t: Topology, v1: View, v2: View, a: Node, k: Key, keep: State)
    requires keep < M
  {
    forall m: Node, q: Key {:trigger v2(m, q)} ::
      v2(m, q) == if q == k && (m == a || ReachBelow(t, v1, a, m, k, keep + 1)) then keep else v1(m, q)
  }

  lemma SnoopNext(t: Topology, v0: View, v1: View, v2: View, n: Node, k: Key, i: nat, keep: State)
    requires t.In(n) && n.level == t.Top() && i < t.Count(t.Top()) && keep <= S
    requires OnTree(t, v0) && CoherentOff(t, v0, k, n)
    requires Snooped(t, v0, v1, n, k, i, keep)
    requires if i == n.id || v1(Node(t.Top(), i), k) == I then v2 == v1 else SnoopHit(t, v1, v2, Node(t.Top(), i), k, keep)
    ensures Snooped(t, v0, v2, n, k, i + 1, keep)
    ensures i != n.id ==> v1(Node(t.Top(), i), k) == v0(Node(t.Top(), i), k)
  {
    var a := Node(t.Top(), i);
    forall m: Node, q: Key
      ensures v2(m, q) == if q == k && t.In(m) && !Under(t, n, m) && Anc(t, m, t.Top()).id < i + 1
                          then Min(v0(m, q), keep) else v0(m, q)
    {
      if t.In(m) {
        AncAnc(t, m, t.Top(), t.Top());
        if Under(t, a, m) && i != n.id {
          SnoopUnder(t, v0, v1, n, k, i, keep, m);
        } else if ReachBelow(t, v1, a, m, k, keep + 1) {
          ReachSplits(t, v1, a, m, k, keep + 1);
          AncAnc(t, m, a.level - 1, a.level);
          ReachUnder(t, v1, Anc(t, m, a.level - 1), m, k, keep + 1);
        }
      }
    }
  }

  /** A cache under the snooped one is untouched so far, and is reached if it holds more than keep. */
  lemma SnoopUnder(t: Topology, v0: View, v1: View, n: Node, k: Key, i: nat, keep: State, m: Node)
    requires t.In(n) && n.level == t.Top() && i < t.Count(t.Top()) && keep <= S && i != n.id
    requires OnTree(t, v0) && CoherentOff(t, v0, k, n)
    requires Snooped(t, v0, v1, n, k, i, keep)
    requires t.In(m) && Under(t, Node(t.Top(), i), m)
    ensures !Under(t, n, m) && v1(m, k) == v0(m, k)
    ensures m != Node(t.Top(), i) && v0(m, k) > keep ==> ReachBelow(t, v1, Node(t.Top(), i), m, k, keep + 1)
    ensures ReachBelow(t, v1, Node(t.Top(), i), m, k, keep + 1) ==> v0(m, k) > keep
    ensures v0(m, k) <= v0(Node(t.Top(), i), k) && v1(Node(t.Top(), i), k) == v0(Node(t.Top(), i), k)
  {
    var a := Node(t.Top(), i);
    if v0(m, k) >= S { ChainUp(t, v0, k, n, a, m, v0(m, k)); }
    AncAnc(t, m, t.Top(), t.Top());
    if m != a {
      if v0(m, k) > keep { ChainBelow(t, v0, k, n, a, m, keep + 1); }
      var c := Anc(t, m, a.level - 1);
      AncAnc(t, m, a.level - 1, a.level);
      forall x: Node | Under(t, c, x)
        ensures v0(x, k) == v1(x, k)
      {
        UnderTrans(t, a, c, x);
      }
      ReachFrame(t, v0, v1, c, m, k, keep + 1);
    }
  }

  /** Once an owner was found the loop may stop: no further cache holds the block. */
  lemma SnoopStop(t: Topology, v0: View, v1: View, n: Node, k: Key, i: nat, keep: State)
    requires t.In(n) && n.level == t.Top() && i < t.Count(t.Top()) && i != n.id
    requires OnTree(t, v0) && CoherentOff(t, v0, k, n) && v0(Node(t.Top(), i), k) >= E
    requires Snooped(t, v0, v1, n, k, i + 1, keep)
    ensures Snooped(t, v0, v1, n, k, t.Count(t.Top()), keep)
  {
    var a := Node(t.Top(), i);
    forall m: Node | t.In(m) && !Under(t, n, m) && !Under(t, a, m)
      ensures v0(m, k) == I
    {
      assert v0(m, k) >= S ==> Comparable(t, a, m);
    }
    forall m: Node | t.In(m) && Under(t, a, m)
      ensures Anc(t, m, t.Top()).id < i + 1
    {
    }
  }

  /** The whole snoop. */
  lemma SnoopDone(t: Topology, v0: View, v1: View, n: Node, k: Key, keep: State)
    requires OnTree(t, v0) && Snooped(t, v0, v1, n, k, t.Count(t.Top()), keep)
    ensures forall m: Node, q: Key {:trigger v1(m, q)} ::
      v1(m, q) == if q == k && !Under(t, n, m) then Min(v0(m, q), keep) else v0(m, q)
  {
    forall m: Node | t.In(m)
      ensures Anc(t, m, t.Top()).id < t.Count(t.Top())
    {
      AncIn(t, m, t.Top());
      AncAnc(t, m, t.Top(), t.Top());
    }
  }

  /** Some cache outside the subtree of n holds the block exactly if another top-level cache does. */
  lemma SharedMeansHeld(t: Topology, v: View, n: Node, k: Key)
    requires t.In(n) && n.level == t.Top() && OnTree(t, v) && CoherentOff(t, v, k, n)
    ensures Unheld(t, v, k, n) <==> forall j | 0 <= j < t.Count(t.Top()) && j != n.id :: v(Node(t.Top(), j), k) == I
  {
    forall m: Node | !Under(t, n, m) && v(m, k) != I
      ensures exists j :: 0 <= j < t.Count(t.Top()) && j != n.id && v(Node(t.Top(), j), k) != I
    {
      var a := Anc(t, m, t.Top());
      AncIn(t, m, t.Top());
      AncAnc(t, m, t.Top(), t.Top());
      ChainUp(t, v, k, n, a, m, S);
      assert v(Node(t.Top(), a.id), k) != I;
    }
  }

  /** The geometry has one entry for each level of the tree. */
  ghost predicate Fits(t: Topology, g: seq<Geometry>) {
    |g| == |t.share| && forall l :: 0 <= l < |g| ==> g[l].count == t.Count(l)
  }

  /** The evictions of a request at n are one for each cache on its way up that neither held the block
      nor had a free way in the block's set; the victim is some block of that set. */
  ghost predicate EvictedExactly(t: Topology, store: LineStore, lines0: map<Slot, Line>, v0: View, n: Node, k: Key, ev: map<int, Key>)
    requires Fits(t, store.g)
    requires t.In(n)
  {
    forall l: int {:trigger l in ev} ::
      && (l in ev ==> n.level <= l <= t.Top() && Victim(t, store, v0, n, k, l, ev[l]))
      && (n.level <= l <= t.Top() ==> (l in ev <==> MissesFull(t, store, lines0, v0, n, k, l)))
  }

  ghost predicate MissesFull(t: Topology, store: LineStore, lines0: map<Slot, Line>, v0: View, n: Node, k: Key, l: int)
    requires Fits(t, store.g)
    requires t.In(n) && n.level <= l <= t.Top()
  {
    AncIn(t, n, l);
    AncAnc(t, n, l, l);
    v0(Anc(t, n, l), k) == I && !store.HasFreeWay(lines0, Anc(t, n, l), k)
  }

  ghost predicate Victim(t: Topology, store: LineStore, v0: View, n: Node, k: Key, l: int, q: Key)
    requires 0 <= l < |store.g|
  {
    q != k && v0(Anc(t, n, l), q) != I && Index(store.g[l].numSets, q) == Index(store.g[l].numSets, k)
  }

  // ----- Evictions -----------------------------------------------------------------------------------

  /** The victim is taken out of n, then invalidated below n: by inclusion nothing of it stays there. */
  lemma EvictionStep(t: Topology, v0: View, v1: View, v2: View, n: Node, k: Key, victim: Key)
    requires t.In(n) && victim != k && OnTree(t, v0) && Coherent(t, v0, victim)
    requires forall m: Node, q: Key {:trigger v1(m, q)} :: q != k ==> v1(m, q) == if m == n && q == victim then I else v0(m, q)
    requires forall m: Node, q: Key {:trigger v2(m, q)} ::
      v2(m, q) == if q == victim && ReachBelow(t, v1, n, m, victim, S) then I else v1(m, q)
    ensures OthersEvicted(t, v0, v2, n, k, map[n.level := victim])
  {
    var ev := map[n.level := victim];
    forall m: Node, q: Key | q != k
      ensures v2(m, q) == if Evicted(t, n, ev, m, q) then I else v0(m, q)
    {
      assert q == victim && Under(t, n, m) ==> n.level in ev && ev[n.level] == q && Under(t, Anc(t, n, n.level), m);
      if q == victim && m != n {
        VictimReached(t, v0, v1, n, victim, m);
      }
    }
  }

  lemma VictimReached(t: Topology, v0: View, v1: View, n: Node, q: Key, m: Node)
    requires t.In(n) && OnTree(t, v0) && Coherent(t, v0, q) && m != n
    requires forall x: Node {:trigger v1(x, q)} :: v1(x, q) == if x == n then I else v0(x, q)
    ensures ReachBelow(t, v1, n, m, q, S) <==> Under(t, n, m) && v0(m, q) >= S
  {
    if m.level < n.level {
      var c := Anc(t, m, n.level - 1);
      AncAnc(t, m, n.level - 1, n.level);
      ReachFrame(t, v0, v1, c, m, q, S);
      if Under(t, n, m) && v0(m, q) >= S {
        ChainBelow(t, v0, q, Nowhere, n, m, S);
      }
      if ReachBelow(t, v1, n, m, q, S) {
        ReachUnder(t, v1, c, m, q, S);
      }
    }
  }

  lemma NoEviction(t: Topology, v0: View, v1: View, n: Node, k: Key)
    requires forall m: Node, q: Key {:trigger v1(m, q)} :: q != k ==> v1(m, q) == v0(m, q)
    ensures OthersEvicted(t, v0, v1, n, k, map[])
  {
  }

  /** The eviction at n, if any, followed by those above it. */
  lemma EvictionsCompose(t: Topology, v0: View, v2: View, v3: View, n: Node, k: Key, ev0: map<int, Key>, ev1: map<int, Key>)
    requires OthersEvicted(t, v0, v2, n, k, ev0) && OthersEvicted(t, v2, v3, t.Par(n), k, ev1)
    requires forall l | l in ev0 :: l == n.level
    requires forall l | l in ev1 :: l > n.level
    ensures OthersEvicted(t, v0, v3, n, k, ev0 + ev1)
  {
    forall m: Node, q: Key | q != k
      ensures v3(m, q) == if Evicted(t, n, ev0 + ev1, m, q) then I else v0(m, q)
    {
      if Evicted(t, n, ev0 + ev1, m, q) {
        var l :| l in ev0 + ev1 && l >= n.level && (ev0 + ev1)[l] == q && Under(t, Anc(t, n, l), m);
        if l == n.level {
          assert l in ev0 && ev0[l] == q && Under(t, Anc(t, n, l), m);
        } else {
          assert l in ev1 && ev1[l] == q && Under(t, Anc(t, t.Par(n), l), m);
        }
      }
      if Evicted(t, n, ev0, m, q) {
        var l :| l in ev0 && l >= n.level && ev0[l] == q && Under(t, Anc(t, n, l), m);
        assert l in ev0 + ev1 && (ev0 + ev1)[l] == q;
      }
      if Evicted(t, t.Par(n), ev1, m, q) {
        var l :| l in ev1 && l >= t.Par(n).level && ev1[l] == q && Under(t, Anc(t, t.Par(n), l), m);
        assert l in ev0 + ev1 && (ev0 + ev1)[l] == q && Under(t, Anc(t, n, l), m);
      }
    }
  }

  /** The I-then-upgrade step keeps the invariant outside the subtree of n. */
  lemma UpgradeReady(t: Topology, v0: View, v1: View, n: Node, k: Key, d: Node)
    requires Requester(t, n, d) && OnTree(t, v0) && CoherentOff(t, v0, k, d)
    requires forall q: Key | q != k :: Coherent(t, v0, q)
    requires forall m: Node, q: Key {:trigger v1(m, q)} :: v1(m, q) == if m == n && q == k then I else v0(m, q)
    ensures CoherentOff(t, v1, k, n)
    ensures forall q: Key | q != k :: Coherent(t, v1, q)
  {
    hide CoherentOff, Under, OnTree;
    Weaken(t, v0, n, k, d);
    SameOutside(t, v0, v1, k, n);
    forall q: Key | q != k
      ensures Coherent(t, v1, q)
    {
      assert Coherent(t, v0, q);
      SameStates(t, v0, v1, q);
    }
  }

  /** The answer of the parent is stored in n: the request is written above, and below n nothing changed. */
  lemma UpgradeDone(t: Topology, v0: View, v1: View, v2: View, v3: View, n: Node, k: Key)
    requires WriteOutcome(t, v2, t.Par(n), k, n) && RequesterLowered(t, v1, v2, k, n)
    requires forall m: Node, q: Key {:trigger v1(m, q)} :: v1(m, q) == if m == n && q == k then I else v0(m, q)
    requires forall m: Node, q: Key {:trigger v3(m, q)} :: v3(m, q) == if m == n && q == k then M else v2(m, q)
    ensures WriteHitReady(t, v0, v3, n, k)
  {
    AboveParent(t, n);
    forall m: Node | Under(t, n, m) && m != n
      ensures v3(m, k) == v0(m, k)
    {
      if Reach(t, v1, n, m, k, S) {
        ReachUnder(t, v1, n, m, k, S);
      }
    }
  }

  /** The same for a line that already owns the block, or whose sharers were snooped away. */
  lemma OwnDone(t: Topology, v0: View, v2: View, v3: View, n: Node, k: Key)
    requires WriteOutcome(t, v2, n, k, n)
    requires forall m: Node {:trigger v2(m, k)} :: Under(t, n, m) ==> v2(m, k) == v0(m, k)
    requires forall m: Node, q: Key {:trigger v3(m, q)} :: v3(m, q) == if m == n && q == k then M else v2(m, q)
    ensures WriteHitReady(t, v0, v3, n, k)
  {
  }

  lemma SameOutside(t: Topology, v0: View, v1: View, k: Key, n: Node)
    requires CoherentOff(t, v0, k, n)
    requires forall m: Node {:trigger v1(m, k)} :: m != n ==> v1(m, k) == v0(m, k)
    ensures CoherentOff(t, v1, k, n)
  {
    forall m: Node | !Under(t, n, m) && m.level < t.Top()
      ensures v1(m, k) <= v1(t.Par(m), k)
    {
      UpIsOutside(t, n, m, n);
      assert v0(m, k) <= v0(t.Par(m), k);
    }
  }

  lemma SameStates(t: Topology, v0: View, v1: View, q: Key)
    requires Coherent(t, v0, q)
    requires forall m: Node {:trigger v1(m, q)} :: v1(m, q) == v0(m, q)
    ensures Coherent(t, v1, q)
  {
  }

  lemma NothingEvictedAbove(t: Topology, store: LineStore, lines1: map<Slot, Line>, v0: View, v1: View, n: Node, k: Key, d: Node, ev: map<int, Key>)
    requires Fits(t, store.g)
    requires Requester(t, n, d) && CoherentOff(t, v0, k, d) && v0(n, k) != I && n.level < t.Top()
    requires forall m: Node {:trigger v1(m, k)} :: m != n ==> v1(m, k) == v0(m, k)
    requires t.In(t.Par(n)) && EvictedExactly(t, store, lines1, v1, t.Par(n), k, ev)
    ensures ev == map[]
  {
    HitAbove(t, store, lines1, v0, n, k, d);
    forall l | l in ev
      ensures false
    {
      AncAnc(t, n, l, l);
      assert v1(Anc(t, n, l), k) != I;
    }
  }

  /** After room was made for the block at n, the request may go on. */
  lemma MissReady(t: Topology, v0: View, v2: View, n: Node, k: Key, d: Node, ev: map<int, Key>)
    requires Requester(t, n, d) && OnTree(t, v0) && CoherentOff(t, v0, k, d)
    requires forall q: Key | q != k :: Coherent(t, v0, q)
    requires forall m: Node {:trigger v2(m, k)} :: m != n ==> v2(m, k) == v0(m, k)
    requires OthersEvicted(t, v0, v2, n, k, ev)
    ensures CoherentOff(t, v2, k, n)
    ensures forall q: Key | q != k :: Coherent(t, v2, q)
  {
    hide CoherentOff, Under, OnTree, OthersEvicted;
    Weaken(t, v0, n, k, d);
    SameOutside(t, v0, v2, k, n);
    forall q: Key | q != k
      ensures Coherent(t, v2, q)
    {
      assert Coherent(t, v0, q);
      EvictionKeeps(t, v0, v2, n, k, ev, q);
    }
  }

  /** The outcome of the snoops, seen from n. */
  lemma SnoopOutcome(t: Topology, v2: View, v3: View, n: Node, k: Key, keep: State)
    requires n.level == t.Top() && OnTree(t, v2) && t.In(n)
    requires forall m: Node, q: Key {:trigger v3(m, q)} ::
      v3(m, q) == if q == k && !Under(t, n, m) then Min(v2(m, q), keep) else v2(m, q)
    ensures RequesterLowered(t, v2, v3, k, n)
    ensures keep == I ==> WriteOutcome(t, v3, n, k, n)
    ensures keep == S ==> ReadOutcome(t, v2, v3, n, k, n, if Unheld(t, v2, k, n) then E else S)
  {
    forall m: Node | m.level <= t.Top() && Under(t, m, n)
      ensures Under(t, n, m)
    {
      AncAnc(t, n, n.level, n.level);
    }
  }

  /** All evictions of a miss: the one at n, if there was no free way, and those above. */
  lemma MissEvictions(t: Topology, store: LineStore, lines0: map<Slot, Line>, lines2: map<Slot, Line>,
                      v0: View, v2: View, v3: View, v4: View, n: Node, k: Key, ev0: map<int, Key>, ev1: map<int, Key>)
    requires Fits(t, store.g) && t.In(n) && v0(n, k) == I && lines0.Keys == lines2.Keys
    requires forall m: Node {:trigger v2(m, k)} :: m != n ==> v2(m, k) == v0(m, k)
    requires forall m: Node, q: Key {:trigger v4(m, q)} :: q != k ==> v4(m, q) == v3(m, q)
    requires OthersEvicted(t, v0, v2, n, k, ev0)
    requires forall l | l in ev0 :: l == n.level && Victim(t, store, v0, n, k, l, ev0[l])
    requires n.level in ev0 <==> !store.HasFreeWay(lines0, n, k)
    requires forall s: Slot | s in lines2 && s.node.level > n.level :: lines2[s] == lines0[s]
    requires if n.level == t.Top() then ev1 == map[] && OthersEvicted(t, v2, v3, n, k, ev1)
             else t.In(t.Par(n)) && OthersEvicted(t, v2, v3, t.Par(n), k, ev1)
                  && EvictedExactly(t, store, lines2, v2, t.Par(n), k, ev1)
    ensures OthersEvicted(t, v0, v4, n, k, ev0 + ev1)
    ensures EvictedExactly(t, store, lines0, v0, n, k, ev0 + ev1)
  {
    if n.level < t.Top() {
      EvictionsCompose(t, v0, v2, v3, n, k, ev0, ev1);
    } else {
      assert ev0 + ev1 == ev0;
    }
    forall l: int
      ensures l in ev0 + ev1 ==> n.level <= l <= t.Top() && Victim(t, store, v0, n, k, l, (ev0 + ev1)[l])
      ensures n.level <= l <= t.Top() ==> (l in ev0 + ev1 <==> MissesFull(t, store, lines0, v0, n, k, l))
    {
      if n.level < l <= t.Top() {
        AncAnc(t, n, l, l);
        AncIn(t, n, l);
        store.FreeWayFrame(lines0, lines2, Anc(t, n, l), k);
        assert v2(Anc(t, n, l), k) == v0(Anc(t, n, l), k);
        if l in ev1 {
          assert v2(Anc(t, n, l), ev1[l]) != I;
        }
      }
    }
  }

  // ----- What the invariant means -------------------------------------------------------------------

  /** The invariant in the protocol's own words. */
  ghost predicate InclusiveMesi(t: Topology, v: View, k: Key) {
    && (forall m: Node | t.In(m) && m.level < t.Top() && v(m, k) != I :: v(t.Par(m), k) != I)
    && (forall m: Node | t.In(m) && m.level < t.Top() && v(m, k) == M :: v(t.Par(m), k) == M)
    && (forall m: Node | t.In(m) && m.level < t.Top() && v(m, k) == E :: v(t.Par(m), k) == E || v(t.Par(m), k) == M)
    && (forall m: Node, n: Node | t.In(m) && t.In(n) && m != n && m.level == n.level && (v(m, k) == M || v(m, k) == E)
          && (m.level == t.Top() || t.Par(m) == t.Par(n)) :: v(n, k) == I)
  }

  /** The comparability form used in the proofs says exactly that: a valid line has a valid parent line,
      a child in M or E has its parent in M, or in E or M, and a line in M or E excludes valid copies in
      every sibling and every other top-level cache. */
  lemma CoherentMeaning(t: Topology, v: View, k: Key)
    requires OnTree(t, v)
    ensures Coherent(t, v, k) <==> InclusiveMesi(t, v, k)
  {
    if Coherent(t, v, k) {
      CoherentIsInclusive(t, v, k);
    }
    if InclusiveMesi(t, v, k) {
      forall m: Node, n: Node | v(m, k) >= E && v(n, k) >= S
        ensures Comparable(t, m, n)
      {
        if !Comparable(t, m, n) {
          OwnerMeets(t, v, k, m, n);
        }
      }
    }
  }

  lemma CoherentIsInclusive(t: Topology, v: View, k: Key)
    requires OnTree(t, v) && Coherent(t, v, k)
    ensures InclusiveMesi(t, v, k)
  {
    forall m: Node, n: Node | t.In(m) && t.In(n) && m != n && m.level == n.level && v(m, k) >= E
      ensures v(n, k) == I
    {
      assert v(n, k) >= S ==> Comparable(t, m, n);
    }
    forall m: Node | t.In(m) && m.level < t.Top()
      ensures v(m, k) <= v(t.Par(m), k)
    {
      assert !Under(t, Nowhere, m);
    }
  }

  lemma {:induction false} OwnersUp(t: Topology, v: View, k: Key, m: Node, l: int, thr: State)
    requires OnTree(t, v) && InclusiveMesi(t, v, k) && thr != I && v(m, k) >= thr && l <= t.Top()
    ensures v(Anc(t, m, l), k) >= thr
    decreases l - m.level
  {
    if m.level < l {
      OwnersUp(t, v, k, t.Par(m), l, thr);
    }
  }

  /** An owner and a valid line that are not comparable would have ancestors that are siblings. */
  lemma {:induction false} OwnerMeets(t: Topology, v: View, k: Key, m: Node, n: Node)
    requires OnTree(t, v) && InclusiveMesi(t, v, k) && v(m, k) >= E && v(n, k) >= S && !Comparable(t, m, n)
    ensures false
    decreases t.Top() - m.level, t.Top() - n.level
  {
    if m.level < n.level {
      OwnersUp(t, v, k, m, n.level, E);
      AncAnc(t, m, n.level, n.level);
      OwnerMeetsLevel(t, v, k, Anc(t, m, n.level), n);
    } else {
      OwnersUp(t, v, k, n, m.level, S);
      AncAnc(t, n, m.level, m.level);
      OwnerMeetsLevel(t, v, k, m, Anc(t, n, m.level));
    }
  }

  lemma {:induction false} OwnerMeetsLevel(t: Topology, v: View, k: Key, m: Node, n: Node)
    requires OnTree(t, v) && InclusiveMesi(t, v, k) && v(m, k) >= E && v(n, k) >= S
    requires m.level == n.level && m != n
    ensures false
    decreases t.Top() - m.level
  {
    if m.level < t.Top() && t.Par(m) != t.Par(n) {
      OwnersUp(t, v, k, m, m.level + 1, E);
      OwnersUp(t, v, k, n, m.level + 1, S);
      OwnerMeetsLevel(t, v, k, t.Par(m), t.Par(n));
    }
  }

  /** Single writer: a core whose own cache may write a block is the only core holding it. */
  lemma SingleWriter(t: Topology, v: View, k: Key, c: int, c': int)
    requires OnTree(t, v) && Coherent(t, v, k) && c != c'
    requires v(Node(0, c), k) == M || v(Node(0, c), k) == E
    ensures v(Node(0, c'), k) == I
  {
    assert v(Node(0, c'), k) >= S ==> Comparable(t, Node(0, c), Node(0, c'));
  }
}
