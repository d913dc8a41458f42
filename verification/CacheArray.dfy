/** The set-associative line arrays of `src/cache.cpp`: address split, lookup and replacement.

    One `LineStore` holds the lines of every data cache of a system; a cache is named by its level
    and its number, as in `cache[level][id]`.  The replacement victim is an arbitrary way, so what
    is proved from these contracts holds for every replacement policy. */
module CacheArray {

  /** `enum State` of `src/cache.h`. */
  type State = x: int | 0 <= x <= 5
  const I: State := 0
  const S: State := 1
  const E: State := 2
  const M: State := 3
  const V: State := 4
  const B: State := 5

  datatype Option<+T> = None | Some(value: T)

  // ----- Addresses ---------------------------------------------------------------------------

  function Pow2(n: nat): (p: nat)
    ensures p > 0
  {
    if n == 0 then 1 else 2 * Pow2(n - 1)
  }

  datatype Addr = Addr(index: nat, tag: nat, offset: nat)

  /** `addrParse`, for a cache with `2^indexBits` sets and blocks of `2^offsetBits` bytes. */
  function AddrParse(offsetBits: nat, indexBits: nat, addr: nat): Addr {
    Addr(
      Rem(Quo(addr, Pow2(offsetBits)), Pow2(indexBits)),
      Quo(addr, Pow2(offsetBits + indexBits)),
      Rem(addr, Pow2(offsetBits)))
  }

  /** `addrCompose`: the three parts occupy disjoint bits, so the source's `|` is a sum. */
  function AddrCompose(offsetBits: nat, indexBits: nat, a: Addr): nat {
    a.offset + Mul(a.index, Pow2(offsetBits)) + Mul(a.tag, Pow2(offsetBits + indexBits))
  }

  /** A memory block of a program: the address without its offset bits. */
  datatype Key = Key(prog: int, blk: nat)

  function BlockOf(offsetBits: nat, prog: int, addr: nat): Key {
    Key(prog, Quo(addr, Pow2(offsetBits)))
  }

  /** Quotient and remainder of naturals. */
  function Quo(x: nat, d: nat): (q: nat)
    requires d > 0
  {
    x / d
  }

  function Rem(x: nat, d: nat): (r: nat)
    requires d > 0
    ensures r < d
  {
    x % d
  }

  function Index(numSets: nat, k: Key): (r: nat)
    requires numSets > 0
    ensures r < numSets
  {
    Rem(k.blk, numSets)
  }

  function Tag(numSets: nat, k: Key): nat
    requires numSets > 0
  {
    Quo(k.blk, numSets)
  }

  /** The block whose tag is stored in a set. */
  function Compose(numSets: nat, prog: int, index: nat, tag: nat): Key {
    Key(prog, Mul(tag, numSets) + index)
  }

  function Mul(x: nat, y: nat): nat {
    x * y
  }

  lemma DivModUnique(q: nat, d: nat, r: nat)
    requires r < d
    ensures Quo(Mul(q, d) + r, d) == q && Rem(Mul(q, d) + r, d) == r
  {
    var x := q * d + r;
    var e: int := x / d - q;
    assert x == (x / d) * d + x % d;
    assert e * d == r - x % d;
    SmallMultiple(e, d);
  }

  lemma SmallMultiple(e: int, d: int)
    requires -d < e * d < d
    ensures e == 0
  {
  }

  lemma DivModSplits(x: nat, d: nat)
    requires d > 0
    ensures Mul(Quo(x, d), d) + Rem(x, d) == x
  {
  }

  lemma DivDiv(x: nat, a: nat, b: nat)
    requires a > 0 && b > 0
    ensures a * b > 0 && Quo(x, a * b) == Quo(Quo(x, a), b)
  {
    var y := Quo(x, a);
    var q, r, s := Quo(y, b), Rem(y, b), Rem(x, a);
    DivModSplits(x, a);
    DivModSplits(y, b);
    assert x == (q * b + r) * a + s;
    assert (q * b + r) * a == q * (a * b) + r * a;
    assert r * a + s < a * b by { assert r * a <= (b - 1) * a; }
    DivModUnique(q, a * b, r * a + s);
  }

  lemma Pow2One()
    ensures Pow2(0) == 1 && Pow2(1) == 2
  {
  }

  /** Two addresses share a block exactly if they belong to one program and to one aligned range. */
  lemma SameBlock(offsetBits: nat, p: int, a: nat, q: int, b: nat)
    ensures BlockOf(offsetBits, p, a) == BlockOf(offsetBits, q, b)
      <==> p == q && a - Rem(a, Pow2(offsetBits)) == b - Rem(b, Pow2(offsetBits))
  {
    var d := Pow2(offsetBits);
    DivModSplits(a, d);
    DivModSplits(b, d);
    DivModUnique(Quo(a, d), d, 0);
    DivModUnique(Quo(b, d), d, 0);
  }

  lemma {:induction false} Pow2Adds(a: nat, b: nat)
    ensures Pow2(a + b) == Pow2(a) * Pow2(b)
  {
    if a > 0 {
      Pow2Adds(a - 1, b);
      assert Pow2(a + b) == 2 * Pow2(a - 1 + b);
    }
  }

  /** A tag and a set name one block, and every block is named so. */
  lemma ComposeSplits(numSets: nat, prog: int, index: nat, tag: nat)
    requires index < numSets
    ensures Index(numSets, Compose(numSets, prog, index, tag)) == index
    ensures Tag(numSets, Compose(numSets, prog, index, tag)) == tag
  {
    DivModUnique(tag, numSets, index);
  }

  lemma SplitComposes(numSets: nat, k: Key)
    requires numSets > 0
    ensures Compose(numSets, k.prog, Index(numSets, k), Tag(numSets, k)) == k
  {
    DivModSplits(k.blk, numSets);
  }

  /** Splitting and composing an address is the identity, and the parts are those of its block. */
  lemma AddressRoundTrip(offsetBits: nat, indexBits: nat, prog: int, addr: nat)
    ensures var a := AddrParse(offsetBits, indexBits, addr);
            && AddrCompose(offsetBits, indexBits, a) == addr
            && a.index == Index(Pow2(indexBits), BlockOf(offsetBits, prog, addr))
            && a.tag == Tag(Pow2(indexBits), BlockOf(offsetBits, prog, addr))
  {
    var o, s := Pow2(offsetBits), Pow2(indexBits);
    Pow2Adds(offsetBits, indexBits);
    RoundTrip(addr, o, s);
  }

  lemma RoundTrip(x: nat, o: nat, s: nat)
    requires o > 0 && s > 0
    ensures o * s > 0
    ensures Quo(x, o * s) == Quo(Quo(x, o), s)
    ensures Rem(x, o) + Mul(Rem(Quo(x, o), s), o) + Mul(Quo(x, o * s), o * s) == x
  {
    DivDiv(x, o, s);
    DivModSplits(x, o);
    DivModSplits(Quo(x, o), s);
    var q, r := Quo(Quo(x, o), s), Rem(Quo(x, o), s);
    assert (q * s + r) * o == q * (o * s) + r * o;
  }

  /** Composing a victim's set and tag with offset 0 gives an address of the victim's block. */
  lemma VictimAddress(offsetBits: nat, indexBits: nat, prog: int, index: nat, tag: nat)
    requires index < Pow2(indexBits)
    ensures BlockOf(offsetBits, prog, AddrCompose(offsetBits, indexBits, Addr(index, tag, 0)))
         == Compose(Pow2(indexBits), prog, index, tag)
  {
    var o, s := Pow2(offsetBits), Pow2(indexBits);
    Pow2Adds(offsetBits, indexBits);
    Distributes(index, tag, o, s);
    DivModUnique(Mul(tag, s) + index, o, 0);
  }

  lemma Distributes(index: nat, tag: nat, o: nat, s: nat)
    requires o > 0 && s > 0
    ensures Mul(index, o) + Mul(tag, o * s) == Mul(Mul(tag, s) + index, o)
  {
  }

  // ----- Lines ---------------------------------------------------------------------------------

  datatype Node = Node(level: int, id: int)

  datatype Slot = Slot(node: Node, index: int, way: int)

  datatype Line = Line(state: State, id: int, tag: nat)

  /** The caches of one level: how many, and the sets and ways of each. */
  datatype Geometry = Geometry(count: nat, numSets: pos, numWays: pos)

  type pos = x: nat | x > 0 witness 1

  predicate InTree(g: seq<Geometry>, n: Node) {
    0 <= n.level < |g| && 0 <= n.id < g[n.level].count
  }

  predicate IsSlot(g: seq<Geometry>, s: Slot) {
    && InTree(g, s.node)
    && 0 <= s.index < g[s.node.level].numSets
    && 0 <= s.way < g[s.node.level].numWays
  }

  function KeyAt(g: seq<Geometry>, s: Slot, ln: Line): Key
    requires IsSlot(g, s)
  {
    Compose(g[s.node.level].numSets, ln.id, s.index, ln.tag)
  }

  /** The slot of a block in a cache, for a given way. */
  function SlotFor(g: seq<Geometry>, n: Node, k: Key, way: int): (s: Slot)
    requires InTree(g, n)
  {
    Slot(n, Index(g[n.level].numSets, k), way)
  }

  predicate Matches(g: seq<Geometry>, n: Node, k: Key, ln: Line)
    requires InTree(g, n)
  {
    ln.state != I && ln.id == k.prog && ln.tag == Tag(g[n.level].numSets, k)
  }

  lemma MatchIsKey(g: seq<Geometry>, s: Slot, k: Key, ln: Line)
    requires IsSlot(g, s)
    ensures KeyAt(g, s, ln) == k
       <==> s.index == Index(g[s.node.level].numSets, k) && ln.id == k.prog && ln.tag == Tag(g[s.node.level].numSets, k)
  {
    ComposeSplits(g[s.node.level].numSets, ln.id, s.index, ln.tag);
    SplitComposes(g[s.node.level].numSets, k);
  }

  type View = (Node, Key) -> State

  class LineStore {
    const g: seq<Geometry>
    var lines: map<Slot, Line>
    ghost var view: View  // the state in which a cache holds a block, I when it does not

    /** The view is exactly what the lines say, and no set holds a block twice. */
    ghost predicate Valid()
      reads this
    {
      && (forall s: Slot :: s in lines <==> IsSlot(g, s))
      && (forall s: Slot | s in lines && lines[s].state != I :: view(s.node, KeyAt(g, s, lines[s])) == lines[s].state)
      && (forall s: Slot, t: Slot | s in lines && t in lines && s.node == t.node && lines[s].state != I && lines[t].state != I ::
            KeyAt(g, s, lines[s]) == KeyAt(g, t, lines[t]) ==> s == t)
      && (forall n: Node, k: Key {:trigger view(n, k)} :: view(n, k) != I ==>
          exists s: Slot :: s in lines && s.node == n && lines[s].state != I && KeyAt(g, s, lines[s]) == k)
    }

    /** All lines invalid, as after `Cache::init`. */
    constructor (g: seq<Geometry>)
      ensures Valid() && this.g == g
      ensures forall n: Node, k: Key :: view(n, k) == I
    {
      this.g := g;
      var all: map<Slot, Line> := map[];
      var level := 0;
      while level < |g|
        invariant 0 <= level <= |g|
        invariant forall s: Slot :: s in all <==> IsSlot(g, s) && s.node.level < level
        invariant forall s: Slot :: s in all ==> all[s] == Line(I, 0, 0)
      {
        all := all + map id, index, way
          | 0 <= id < g[level].count && 0 <= index < g[level].numSets && 0 <= way < g[level].numWays
          :: Slot(Node(level, id), index, way) := Line(I, 0, 0);
        level := level + 1;
      }
      lines := all;
      view := (n: Node, k: Key) => I;
    }

    /** `accessLine`: the way holding the block, or -1. */
    method AccessLine(n: Node, k: Key) returns (way: int)
      requires Valid() && InTree(g, n)
      ensures way == -1 ==> view(n, k) == I
      ensures way != -1 ==> 
        var s := SlotFor(g, n, k, way);
        s in lines && lines[s].state == view(n, k) != I && KeyAt(g, s, lines[s]) == k
    {
      way := 0;
      while way < g[n.level].numWays
        invariant 0 <= way <= g[n.level].numWays
        invariant forall w :: 0 <= w < way ==> !Matches(g, n, k, lines[SlotFor(g, n, k, w)])
      {
        var s := SlotFor(g, n, k, way);
        MatchIsKey(g, s, k, lines[s]);
        if Matches(g, n, k, lines[s]) {
          return;
        }
        way := way + 1;
      }
      way := -1;
      forall s: Slot | s in lines && s.node == n && lines[s].state != I
        ensures KeyAt(g, s, lines[s]) != k
      {
        MatchIsKey(g, s, k, lines[s]);
        assert s.index == Index(g[n.level].numSets, k) ==> s == SlotFor(g, n, k, s.way);
      }
    }

    /** `line->state = v`, for a line whose block no other way of the cache holds. */
    method SetState(s: Slot, v: State)
      requires Valid() && s in lines
      requires lines[s].state != I || view(s.node, KeyAt(g, s, lines[s])) == I
      modifies this
      ensures Valid()
      ensures lines == old(lines)[s := old(lines)[s].(state := v)]
      ensures KeyAt(g, s, lines[s]) == KeyAt(g, s, old(lines)[s])
      ensures forall n: Node, k: Key {:trigger view(n, k)} ::
        view(n, k) == if n == s.node && k == KeyAt(g, s, old(lines)[s]) then v else old(view)(n, k)
    {
      hide Compose;
      ghost var v0, lines0 := view, lines;
      ghost var key := KeyAt(g, s, lines[s]);
      forall t: Slot | t in lines && t != s && t.node == s.node && lines[t].state != I
        ensures KeyAt(g, t, lines[t]) != key
      {
        if lines[s].state == I {
          assert view(t.node, KeyAt(g, t, lines[t])) != I;
        }
      }
      lines := lines[s := lines[s].(state := v)];
      view := (n: Node, k: Key) => if n == s.node && k == key then v else v0(n, k);
      forall n: Node, k: Key | view(n, k) != I
        ensures exists t: Slot :: t in lines && t.node == n && lines[t].state != I && KeyAt(g, t, lines[t]) == k
      {
        if n == s.node && k == key {
          assert lines[s].state != I;
        } else {
          ghost var t :| t in lines0 && t.node == n && lines0[t].state != I && KeyAt(g, t, lines0[t]) == k;
          assert lines[t] == lines0[t];
        }
      }
    }

    /** The tag assignment of `replaceLine`: a line takes a block no way of its cache holds, and keeps
        its state.  If it was valid, the block it held is evicted. */
    method Retag(s: Slot, k: Key)
      requires Valid() && s in lines && s.index == Index(g[s.node.level].numSets, k)
      requires view(s.node, k) == I
      modifies this
      ensures Valid()
      ensures lines == old(lines)[s := Line(old(lines)[s].state, k.prog, Tag(g[s.node.level].numSets, k))]
      ensures KeyAt(g, s, lines[s]) == k
      ensures lines[s].state != I ==> KeyAt(g, s, old(lines)[s]) != k
      ensures forall m: Node, q: Key {:trigger view(m, q)} ::
        view(m, q) == if lines[s].state == I || m != s.node then old(view)(m, q)
                      else if q == k then lines[s].state
                      else if q == KeyAt(g, s, old(lines)[s]) then I else old(view)(m, q)
    {
      ghost var n, st, v0, lines0 := s.node, lines[s].state, view, lines;
      ghost var victim := KeyAt(g, s, lines[s]);
      lines := lines[s := Line(lines[s].state, k.prog, Tag(g[s.node.level].numSets, k))];
      MatchIsKey(g, s, k, lines[s]);
      if st != I {
        view := (m: Node, q: Key) => if m == n && q == k then st else if m == n && q == victim then I else v0(m, q);
      }
      forall m: Node, q: Key | view(m, q) != I
        ensures exists t: Slot :: t in lines && t.node == m && lines[t].state != I && KeyAt(g, t, lines[t]) == q
      {
        if st != I && m == n && q == k {
          assert lines[s].state != I;
        } else {
          ghost var t :| t in lines0 && t.node == m && lines0[t].state != I && KeyAt(g, t, lines0[t]) == q;
          assert lines[t] == lines0[t];
        }
      }
    }

    /** `replaceLine`: the first free way if the set has one, otherwise any way, whose block is evicted. */
    method ReplaceLine(n: Node, k: Key) returns (way: nat, victim: Option<Key>)
      requires Valid() && InTree(g, n)
      requires view(n, k) == I
      modifies this
      ensures Valid()
      ensures var s := SlotFor(g, n, k, way);
        && s in lines && KeyAt(g, s, lines[s]) == k
        && lines == old(lines)[s := Line(old(lines)[s].state, k.prog, Tag(g[n.level].numSets, k))]
        && (lines[s].state == I <==> victim == None)
      ensures lines.Keys == old(lines).Keys
      ensures victim == None <==> HasFreeWay(old(lines), n, k)
      ensures victim.Some? ==> 
        && victim.value != k && old(view)(n, victim.value) != I
        && Index(g[n.level].numSets, victim.value) == Index(g[n.level].numSets, k)
        && SlotFor(g, n, k, way) in old(lines) && KeyAt(g, SlotFor(g, n, k, way), old(lines)[SlotFor(g, n, k, way)]) == victim.value
      ensures forall m: Node, q: Key {:trigger view(m, q)} ::
        view(m, q) == if victim == None || m != n then old(view)(m, q)
                      else if q == k then old(view)(n, victim.value)
                      else if q == victim.value then I else old(view)(m, q)
    {
      hide Compose;
      way := 0;
      while way < g[n.level].numWays && lines[SlotFor(g, n, k, way)].state != I
        invariant 0 <= way <= g[n.level].numWays
        invariant forall w :: 0 <= w < way ==> lines[SlotFor(g, n, k, w)].state != I
      {
        way := way + 1;
      }
      victim := None;
      if way == g[n.level].numWays {
        assert forall s: Slot | s in lines && s.node == n && s.index == Index(g[n.level].numSets, k) :: s == SlotFor(g, n, k, s.way);
        way :| 0 <= way < g[n.level].numWays;
        var s := SlotFor(g, n, k, way);
        victim := Some(KeyAt(g, s, lines[s]));
        ComposeSplits(g[n.level].numSets, lines[s].id, s.index, lines[s].tag);
      }
      Retag(SlotFor(g, n, k, way), k);
    }

    ghost predicate HasFreeWay(lines: map<Slot, Line>, n: Node, k: Key)
      requires InTree(g, n)
    {
      exists s: Slot :: s in lines && s.node == n && s.index == Index(g[n.level].numSets, k) && lines[s].state == I
    }

    lemma FreeWayFrame(l0: map<Slot, Line>, l1: map<Slot, Line>, n: Node, k: Key)
      requires InTree(g, n) && l0.Keys == l1.Keys
      requires forall s: Slot | s in l0 && s.node == n :: l0[s] == l1[s]
      ensures HasFreeWay(l0, n, k) == HasFreeWay(l1, n, k)
    {
      if HasFreeWay(l0, n, k) {
        var s: Slot :| s in l0 && s.node == n && s.index == Index(g[n.level].numSets, k) && l0[s].state == I;
        assert s in l1 && l1[s].state == I;
      }
      if HasFreeWay(l1, n, k) {
        var s: Slot :| s in l1 && s.node == n && s.index == Index(g[n.level].numSets, k) && l1[s].state == I;
        assert s in l0 && l0[s].state == I;
      }
    }

    /** A line that was the only place for its block remains so while the cache's states only go down. */
    twostate lemma StillSole(s: Slot)
      requires old(Valid()) && Valid() && s in lines && lines.Keys == old(lines).Keys
      requires forall x: Slot | x in lines && x.node == s.node :: LineLowered(old(lines)[x], lines[x])
      requires old(lines)[s].state != I || old(view)(s.node, KeyAt(g, s, old(lines)[s])) == I
      ensures lines[s].state != I || view(s.node, KeyAt(g, s, lines[s])) == I
      ensures KeyAt(g, s, lines[s]) == KeyAt(g, s, old(lines)[s])
    {
      var k := KeyAt(g, s, lines[s]);
      if view(s.node, k) != I {
        var x: Slot :| x in lines && x.node == s.node && lines[x].state != I && KeyAt(g, x, lines[x]) == k;
        assert old(lines)[x].state != I;
        assert old(view)(s.node, KeyAt(g, x, old(lines)[x])) == old(lines)[x].state;
        assert x == s;
      }
    }
  }

  ghost predicate LineLowered(a: Line, b: Line) {
    b.id == a.id && b.tag == a.tag && b.state <= a.state
  }

  /** The lines of l1 are those of l0 with some states lowered. */
  ghost predicate OnlyLowered(l0: map<Slot, Line>, l1: map<Slot, Line>) {
    l0.Keys == l1.Keys && forall s: Slot | s in l1 :: LineLowered(l0[s], l1[s])
  }
}
