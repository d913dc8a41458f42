/** First-fit allocation of service time in a sorted list of free intervals: the simple form that the
    interval-tree queue model refines (`src/Graphite/queue_model_history_list.cpp`). */
module FreeList {
  import opened Sequences
  import opened AvlShape
  import opened AvlEdit
  import opened IntervalTree

  const UINT64_MAX := 0xFFFF_FFFF_FFFF_FFFF
  const MAX_INTERVALS := 100

  /** A free interval, stored under its start. */
  function Gap(lo: nat, hi: nat): Item {
    Item(lo, lo, hi)
  }

  /** A service window [from, to) */
  datatype Window = Window(from: nat, to: nat)

  predicate Apart(a: Window, b: Window) {
    a.to <= b.from || b.to <= a.from
  }

  predicate Outside(w: Window, x: Item) {
    w.to <= x.lo || x.hi <= w.from
  }

  /** Free intervals of a queue that can still serve any request: the last one never ends. */
  ghost predicate Endless(q: seq<Item>) {
    |q| > 0 && Gapped(q) && q[|q| - 1].hi == UINT64_MAX
  }

  /** The last interval keeps at least min cycles whatever is served from it. */
  ghost predicate Within(q: seq<Item>, pkt: nat, p: nat, min: nat) {
    |q| > 0 && Max(pkt, q[|q| - 1].lo) + p + min <= UINT64_MAX
  }

  // ----- Placement -------------------------------------------------------------------------------

  /** When the request is served if it goes into x. */
  function Start(x: Item, pkt: nat): nat {
    Max(pkt, x.lo)
  }

  /** The piece before the request is kept: a request that waits for x leaves none. */
  predicate KeepsFront(x: Item, pkt: nat, min: nat) {
    pkt >= x.lo && pkt - x.lo >= min
  }

  /** The piece after the request is kept. */
  predicate KeepsBack(x: Item, pkt: nat, p: nat, min: nat) {
    x.hi >= Start(x, pkt) + p + min
  }

  /** The piece before the request. */
  function Front(x: Item, pkt: nat, min: nat): seq<Item> {
    if KeepsFront(x, pkt, min) then [Gap(x.lo, pkt)] else []
  }

  /** What stays free of x when a request is served from it: pieces shorter than min are dropped. */
  function Carve(x: Item, pkt: nat, p: nat, min: nat): seq<Item> {
    Front(x, pkt, min)
      + if KeepsBack(x, pkt, p, min) then [Gap(Start(x, pkt) + p, x.hi)] else []
  }

  function Placed(q: seq<Item>, pkt: nat, p: nat, min: nat): seq<Item> {
    var i := FirstFit(q, pkt, pkt + p);
    if i < |q| then q[..i] + Carve(q[i], pkt, p, min) + q[i + 1..] else q
  }

  function Delay(q: seq<Item>, pkt: nat, p: nat): nat {
    var i := FirstFit(q, pkt, pkt + p);
    if i < |q| then Start(q[i], pkt) - pkt else 0
  }

  /** The list without its oldest interval once it is full. */
  function Pruned(q: seq<Item>): seq<Item> {
    if |q| >= MAX_INTERVALS then q[1..] else q
  }

  /** Too old a packet: it would be served before the oldest interval that is still known. */
  predicate Old(q: seq<Item>, pkt: nat, p: nat) {
    |q| > 0 && q[0].lo > pkt + p
  }

  // ----- What placement keeps ------------------------------------------------------------------------

  lemma FitsSomewhere(q: seq<Item>, pkt: nat, p: nat, min: nat)
    requires Endless(q) && Within(q, pkt, p, min)
    ensures FirstFit(q, pkt, pkt + p) < |q|
  {
    assert CanHold(q[|q| - 1], pkt, pkt + p);
  }

  /** The minimum interval is what a search for one cycle at time 0 finds. */
  lemma OldestFirst(q: seq<Item>)
    requires Gapped(q) && |q| > 0
    ensures FirstFit(q, 0, 1) == 0
  {
    assert CanHold(q[0], 0, 1);
  }

  lemma PruneKeeps(q: seq<Item>)
    requires Endless(q)
    ensures Endless(Pruned(q)) && Pruned(q)[|Pruned(q)| - 1] == q[|q| - 1]
  {
  }

  /** Replacing an interval by intervals inside it, at least one cycle apart, keeps a list gapped. */
  lemma GappedReplace(q: seq<Item>, i: nat, c: seq<Item>)
    requires Gapped(q) && i < |q| && Gapped(c)
    requires forall k :: 0 <= k < |c| ==> q[i].lo <= c[k].lo && c[k].hi <= q[i].hi
    ensures Gapped(q[..i] + c + q[i + 1..])
  {
    var r := q[..i] + c + q[i + 1..];
    forall k | 0 <= k < |r|
      ensures r[k].key == r[k].lo < r[k].hi
      ensures k < i ==> r[k] == q[k]
      ensures i <= k < i + |c| ==> r[k] == c[k - i]
      ensures k >= i + |c| ==> r[k] == q[k - |c| + 1]
    {
    }
    forall k, l | 0 <= k < l < |r|
      ensures r[k].hi < r[l].lo
    {
      GappedPair(q, i, c, r, k, l);
    }
  }

  lemma GappedPair(q: seq<Item>, i: nat, c: seq<Item>, r: seq<Item>, k: nat, l: nat)
    requires Gapped(q) && i < |q| && Gapped(c) && r == q[..i] + c + q[i + 1..] && k < l < |r|
    requires forall k :: 0 <= k < |c| ==> q[i].lo <= c[k].lo && c[k].hi <= q[i].hi
    ensures r[k].hi < r[l].lo
  {
    if k < i {
      assert r[k] == q[k];
      if l < i {
        assert r[l] == q[l];
      } else if l < i + |c| {
        assert r[l] == c[l - i];
        assert q[k].hi < q[i].lo;
      } else {
        assert r[l] == q[l - |c| + 1];
      }
    } else if k < i + |c| {
      assert r[k] == c[k - i];
      if l < i + |c| {
        assert r[l] == c[l - i];
      } else {
        assert r[l] == q[l - |c| + 1];
        assert q[i].hi < q[l - |c| + 1].lo;
      }
    } else {
      assert r[k] == q[k - |c| + 1] && r[l] == q[l - |c| + 1];
    }
  }

  /** What a request must not do to the interval it is served from: leave an empty piece, or two pieces
      that touch. */
  predicate KeepsGaps(x: Item, pkt: nat, p: nat, min: nat) {
    && (min >= 1 || (pkt != x.lo && Start(x, pkt) + p != x.hi))
    && (p >= 1 || !(KeepsFront(x, pkt, min) && KeepsBack(x, pkt, p, min)))
  }

  lemma CarveInside(x: Item, pkt: nat, p: nat, min: nat)
    requires CanHold(x, pkt, pkt + p)
    ensures forall k | 0 <= k < |Carve(x, pkt, p, min)| ::
      x.lo <= Carve(x, pkt, p, min)[k].lo && Carve(x, pkt, p, min)[k].hi <= x.hi
  {
  }

  lemma CarveGapped(x: Item, pkt: nat, p: nat, min: nat)
    requires CanHold(x, pkt, pkt + p)
    ensures Gapped(Carve(x, pkt, p, min)) <==> KeepsGaps(x, pkt, p, min)
  {
    var c := Carve(x, pkt, p, min);
    if KeepsFront(x, pkt, min) {
      assert c[0] == Gap(x.lo, pkt);
    }
    if KeepsBack(x, pkt, p, min) {
      assert c[|c| - 1] == Gap(Start(x, pkt) + p, x.hi);
      assert KeepsFront(x, pkt, min) && p == 0 ==> c[0].hi == c[1].lo;
    }
  }

  lemma PlacedSplice(q: seq<Item>, pkt: nat, p: nat, min: nat, i: nat)
    requires i < |q| && i == FirstFit(q, pkt, pkt + p)
    ensures Placed(q, pkt, p, min) == q[..i] + Carve(q[i], pkt, p, min) + q[i + 1..]
  {
  }

  /** A placement keeps the gaps on which the search relies if and only if no empty piece is left, which
      takes a minimum size of 0, and the request takes a cycle or does not split an interval. */
  lemma GapsKeptIff(q: seq<Item>, pkt: nat, p: nat, min: nat)
    requires Gapped(q) && FirstFit(q, pkt, pkt + p) < |q|
    ensures Gapped(Placed(q, pkt, p, min)) <==> KeepsGaps(q[FirstFit(q, pkt, pkt + p)], pkt, p, min)
  {
    hide Gapped, Carve, FirstFit, KeepsGaps, Placed;
    var i := FirstFit(q, pkt, pkt + p);
    PlacedSplice(q, pkt, p, min, i);
    CarveInside(q[i], pkt, p, min);
    CarveGapped(q[i], pkt, p, min);
    if Gapped(Carve(q[i], pkt, p, min)) {
      GappedReplace(q, i, Carve(q[i], pkt, p, min));
    } else {
      GappedMiddle(q[..i], Carve(q[i], pkt, p, min), q[i + 1..]);
    }
  }

  lemma GappedMiddle(a: seq<Item>, c: seq<Item>, b: seq<Item>)
    ensures Gapped(a + c + b) ==> Gapped(c)
  {
    var r := a + c + b;
    assert forall k | 0 <= k < |c| :: r[|a| + k] == c[k];
  }

  /** A configuration is safe for every queue and every arrival if and only if minimum size and
      processing time are at least one cycle. */
  lemma SafeConfiguration(p: nat, min: nat)
    requires p + 2 * min < UINT64_MAX
    ensures (forall q, pkt: nat :: Endless(q) && FirstFit(q, pkt, pkt + p) < |q| ==> Gapped(Placed(q, pkt, p, min)))
      <==> p >= 1 && min >= 1
  {
    if p >= 1 && min >= 1 {
      forall q, pkt: nat | Endless(q) && FirstFit(q, pkt, pkt + p) < |q|
        ensures Gapped(Placed(q, pkt, p, min))
      {
        GapsKeptIff(q, pkt, p, min);
      }
    } else {
      var q := [Gap(0, UINT64_MAX)];
      assert CanHold(q[0], min, min + p);
      GapsKeptIff(q, min, p, min);
      assert Endless(q) && !Gapped(Placed(q, min, p, min));
    }
  }

  /** A request for no time splits an interval without leaving a gap. */
  lemma ZeroLengthSplits()
    ensures Placed([Gap(0, UINT64_MAX)], 5, 0, 1) == [Gap(0, 5), Gap(5, UINT64_MAX)]
    ensures !Gapped(Placed([Gap(0, UINT64_MAX)], 5, 0, 1))
  {
    var q := [Gap(0, UINT64_MAX)];
    assert CanHold(q[0], 5, 5);
    assert Placed(q, 5, 0, 1) == [Gap(0, 5), Gap(5, UINT64_MAX)];
    GapsKeptIff(q, 5, 0, 1);
  }

  /** With a minimum size of 0 an empty piece is kept, and the search for the minimum node misses it. */
  lemma EmptyPieceKept()
    ensures Placed([Gap(0, UINT64_MAX)], 0, 5, 0) == [Gap(0, 0), Gap(5, UINT64_MAX)]
    ensures !Gapped(Placed([Gap(0, UINT64_MAX)], 0, 5, 0))
    ensures FirstFit(Placed([Gap(0, UINT64_MAX)], 0, 5, 0), 0, 1) == 1
  {
    var q := [Gap(0, UINT64_MAX)];
    assert CanHold(q[0], 0, 5);
    assert Placed(q, 0, 5, 0) == [Gap(0, 0), Gap(5, UINT64_MAX)];
    GapsKeptIff(q, 0, 5, 0);
    FirstFitUnique(Placed(q, 0, 5, 0), 0, 1, 1);
  }

  /** The unbounded interval survives every placement that keeps the gaps, and its start grows by no more
      than the request. */
  lemma PlacedEndless(q: seq<Item>, pkt: nat, p: nat, min: nat)
    requires Endless(q) && Within(q, pkt, p, min)
    ensures var i := FirstFit(q, pkt, pkt + p); var r := Placed(q, pkt, p, min);
      && i < |q| && (Endless(r) <==> KeepsGaps(q[i], pkt, p, min))
      && r[|r| - 1].hi == UINT64_MAX && r[|r| - 1].lo <= Max(pkt, q[|q| - 1].lo) + p && |r| <= |q| + 1
  {
    hide Gapped, KeepsGaps, FirstFit;
    FitsSomewhere(q, pkt, p, min);
    GapsKeptIff(q, pkt, p, min);
    var i := FirstFit(q, pkt, pkt + p);
    var c := Carve(q[i], pkt, p, min);
    var r := q[..i] + c + q[i + 1..];
    assert r == Placed(q, pkt, p, min);
    if i == |q| - 1 {
      assert c[|c| - 1] == Gap(Start(q[i], pkt) + p, UINT64_MAX);
      assert r[|r| - 1] == c[|c| - 1];
    } else {
      assert r[|r| - 1] == q[|q| - 1];
    }
  }

  // ----- Keys ----------------------------------------------------------------------------------------

  /** The pieces before and after the request would be stored under one key. */
  predicate Clash(x: Item, pkt: nat, p: nat, min: nat) {
    min == 0 && p == 0 && pkt == x.lo
  }

  /** The intervals have increasing keys after a placement if and only if its two pieces have two keys. */
  lemma KeysUpIff(q: seq<Item>, pkt: nat, p: nat, min: nat)
    requires Gapped(q) && FirstFit(q, pkt, pkt + p) < |q|
    ensures KeysUp(Placed(q, pkt, p, min)) <==> !Clash(q[FirstFit(q, pkt, pkt + p)], pkt, p, min)
  {
    hide FirstFit, Placed, Gapped;
    var i := FirstFit(q, pkt, pkt + p);
    var c := Carve(q[i], pkt, p, min);
    PlacedSplice(q, pkt, p, min, i);
    assert forall k | 0 <= k < |c| :: q[i].lo <= c[k].key <= q[i].hi;
    if Clash(q[i], pkt, p, min) {
      assert (q[..i] + c + q[i + 1..])[i] == c[0] && (q[..i] + c + q[i + 1..])[i + 1] == c[1];
    } else {
      KeysReplace(q, i, c);
    }
  }

  /** Replacing an interval by intervals stored under keys inside it. */
  lemma KeysReplace(q: seq<Item>, i: nat, c: seq<Item>)
    requires Gapped(q) && i < |q| && KeysUp(c) && forall k :: 0 <= k < |c| ==> q[i].lo <= c[k].key <= q[i].hi
    ensures KeysUp(q[..i] + c + q[i + 1..])
  {
    var r := q[..i] + c + q[i + 1..];
    forall k, l | 0 <= k < l < |r|
      ensures r[k].key < r[l].key
    {
      KeysPair(q, i, c, r, k, l);
    }
  }

  lemma KeysPair(q: seq<Item>, i: nat, c: seq<Item>, r: seq<Item>, k: nat, l: nat)
    requires Gapped(q) && i < |q| && KeysUp(c) && r == q[..i] + c + q[i + 1..] && k < l < |r|
    requires forall k :: 0 <= k < |c| ==> q[i].lo <= c[k].key <= q[i].hi
    ensures r[k].key < r[l].key
  {
    assert r[k] == if k < i then q[k] else if k < i + |c| then c[k - i] else q[k - |c| + 1];
    assert r[l] == if l < i then q[l] else if l < i + |c| then c[l - i] else q[l - |c| + 1];
  }

  lemma ClashBreaks(x: Item, pkt: nat, p: nat, min: nat)
    ensures Clash(x, pkt, p, min) ==> !KeepsGaps(x, pkt, p, min)
  {
  }

  /** What the tree model leaves when the two keys clash: the piece after the request is lost. */
  function Lost(q: seq<Item>, i: nat): seq<Item>
    requires i < |q|
  {
    q[i := Gap(q[i].lo, q[i].lo)]
  }

  /** A queue that loses its unbounded interval has nothing left for requests that arrive later. */
  lemma LostEnd(q: seq<Item>, pkt: nat, p: nat)
    requires Endless(q) && q[|q| - 1].lo < pkt
    ensures FirstFit(Lost(q, |q| - 1), pkt, pkt + p) == |q|
  {
    FirstFitUnique(Lost(q, |q| - 1), pkt, pkt + p, |q|);
  }

  /** A bus without latency loses all its time to the first request, if that arrives at time 0: afterwards
      there is no minimum node. */
  lemma BusWithoutLatency()
    ensures var q := [Gap(0, UINT64_MAX)]; FirstFit(q, 0, 0) == 0 && Clash(q[0], 0, 0, 0) && Lost(q, 0) == [Gap(0, 0)]
    ensures FirstFit([Gap(0, 0)], 0, 1) == 1
  {
    var q := [Gap(0, UINT64_MAX)];
    FirstFitUnique(q, 0, 0, 0);
    FirstFitUnique([Gap(0, 0)], 0, 1, 1);
  }

  // ----- Windows -----------------------------------------------------------------------------------

  ghost predicate AllApart(ws: seq<Window>) {
    forall i, j :: 0 <= i < j < |ws| ==> Apart(ws[i], ws[j])
  }

  ghost predicate AllOutside(ws: seq<Window>, q: seq<Item>) {
    forall i, j :: 0 <= i < |ws| && 0 <= j < |q| ==> Outside(ws[i], q[j])
  }

  /** The window in which a request is served. */
  function Served(q: seq<Item>, pkt: nat, p: nat): Window {
    Window(pkt + Delay(q, pkt, p), pkt + Delay(q, pkt, p) + p)
  }

  /** Every interval that is free after a placement was free before, and lies outside the window. */
  lemma PlacedInside(q: seq<Item>, pkt: nat, p: nat, min: nat, k: nat) returns (j: nat)
    requires Gapped(q) && FirstFit(q, pkt, pkt + p) < |q| && k < |Placed(q, pkt, p, min)|
    ensures j < |q| && q[j].lo <= Placed(q, pkt, p, min)[k].lo && Placed(q, pkt, p, min)[k].hi <= q[j].hi
    ensures Outside(Served(q, pkt, p), Placed(q, pkt, p, min)[k])
  {
    hide FirstFit, Placed, Carve, Served;
    var i := FirstFit(q, pkt, pkt + p);
    var c := Carve(q[i], pkt, p, min);
    var r := q[..i] + c + q[i + 1..];
    PlacedSplice(q, pkt, p, min, i);
    WindowInside(q, pkt, p);
    CarveOutside(q, pkt, p, min);
    if k < i {
      assert r[k] == q[k];
      j := k;
    } else if k < i + |c| {
      assert r[k] == c[k - i];
      j := i;
    } else {
      assert r[k] == q[k - |c| + 1];
      j := k - |c| + 1;
    }
  }

  lemma CarveOutside(q: seq<Item>, pkt: nat, p: nat, min: nat)
    requires FirstFit(q, pkt, pkt + p) < |q|
    ensures var x := q[FirstFit(q, pkt, pkt + p)];
      forall c | c in Carve(x, pkt, p, min) :: x.lo <= c.lo && c.hi <= x.hi && Outside(Served(q, pkt, p), c)
  {
    hide FirstFit;
  }

  lemma WindowInside(q: seq<Item>, pkt: nat, p: nat)
    requires FirstFit(q, pkt, pkt + p) < |q|
    ensures var x, w := q[FirstFit(q, pkt, pkt + p)], Served(q, pkt, p); x.lo <= w.from && w.to == w.from + p <= x.hi
  {
  }

  /** Granting a window keeps all windows apart and outside what is still free. */
  lemma GrantKeeps(ws: seq<Window>, q: seq<Item>, pkt: nat, p: nat, min: nat)
    requires Gapped(q) && FirstFit(q, pkt, pkt + p) < |q| && AllApart(ws) && AllOutside(ws, q)
    ensures AllApart(ws + [Served(q, pkt, p)]) && AllOutside(ws + [Served(q, pkt, p)], Placed(q, pkt, p, min))
  {
    var w, r, v := Served(q, pkt, p), Placed(q, pkt, p, min), ws + [Served(q, pkt, p)];
    WindowInside(q, pkt, p);
    hide FirstFit, Placed, Served, Gapped;
    forall k, i | 0 <= k < |r| && 0 <= i < |v|
      ensures Outside(v[i], r[k])
    {
      var j := PlacedInside(q, pkt, p, min, k);
      if i < |ws| {
        assert Outside(ws[i], q[j]);
      }
    }
    forall i | 0 <= i < |ws|
      ensures Apart(ws[i], w)
    {
      assert Outside(ws[i], q[FirstFit(q, pkt, pkt + p)]);
    }
  }

  // ----- What stays free -----------------------------------------------------------------------------

  predicate Covers(x: Item, t: nat) {
    x.lo <= t < x.hi
  }

  /** Cycle t is free. */
  ghost predicate FreeAt(q: seq<Item>, t: nat) {
    exists j :: 0 <= j < |q| && Covers(q[j], t)
  }

  /** Conservation, cycle by cycle: a request takes its window, and besides that only pieces of its interval
      that are too short.  The piece before the window stays if the request did not wait and the piece has the
      minimum size, the piece behind it if it has the minimum size. */
  lemma PlacedFree(q: seq<Item>, pkt: nat, p: nat, min: nat, t: nat)
    requires Gapped(q) && FirstFit(q, pkt, pkt + p) < |q|
    ensures var x, w := q[FirstFit(q, pkt, pkt + p)], Served(q, pkt, p);
      FreeAt(Placed(q, pkt, p, min), t) <==>
        && FreeAt(q, t) && !(w.from <= t < w.to)
        && (x.lo <= t < w.from ==> w.from == pkt && pkt - x.lo >= min)
        && (w.to <= t < x.hi ==> x.hi - w.to >= min)
  {
    hide FirstFit, Placed, Gapped;
    var i := FirstFit(q, pkt, pkt + p);
    PlacedSplice(q, pkt, p, min, i);
    WindowInside(q, pkt, p);
    CarveFree(q[i], pkt, p, min, t);
    FreeParts(q[..i], Carve(q[i], pkt, p, min), q[i + 1..], t);
    FreeParts(q[..i], [q[i]], q[i + 1..], t);
    assert q == q[..i] + [q[i]] + q[i + 1..];
    assert FreeAt([q[i]], t) <==> Covers(q[i], t) by { assert [q[i]][0] == q[i]; }
    hide Carve;
    OneInterval(q, i, t);
  }

  lemma FreeParts(a: seq<Item>, b: seq<Item>, c: seq<Item>, t: nat)
    ensures FreeAt(a + b + c, t) <==> FreeAt(a, t) || FreeAt(b, t) || FreeAt(c, t)
  {
    var r := a + b + c;
    assert forall j | 0 <= j < |a| :: r[j] == a[j];
    assert forall j | 0 <= j < |b| :: r[|a| + j] == b[j];
    assert forall j | 0 <= j < |c| :: r[|a| + |b| + j] == c[j];
  }

  /** No cycle belongs to two intervals. */
  lemma OneInterval(q: seq<Item>, i: nat, t: nat)
    requires Gapped(q) && i < |q|
    ensures Covers(q[i], t) ==> !FreeAt(q[..i], t) && !FreeAt(q[i + 1..], t)
  {
    assert forall j | i + 1 <= j < |q| :: q[i].hi < q[j].lo;
    assert forall j | 0 <= j < i :: q[j].hi < q[i].lo;
    var r := q[i + 1..];
    assert forall j | 0 <= j < |r| :: r[j] == q[i + 1 + j];
  }

  lemma CarveFree(x: Item, pkt: nat, p: nat, min: nat, t: nat)
    requires CanHold(x, pkt, pkt + p)
    ensures FreeAt(Carve(x, pkt, p, min), t) <==>
      || (x.lo <= t < Max(pkt, x.lo) && pkt >= x.lo && pkt - x.lo >= min)
      || (Max(pkt, x.lo) + p <= t < x.hi && x.hi - (Max(pkt, x.lo) + p) >= min)
  {
    var c := Carve(x, pkt, p, min);
    if KeepsFront(x, pkt, min) { assert c[0] == Gap(x.lo, pkt); }
    if KeepsBack(x, pkt, p, min) { assert c[|c| - 1] == Gap(Start(x, pkt) + p, x.hi); }
  }

  /** What is pruned from a full list is its oldest interval, and nothing is pruned before. */
  lemma PrunedFree(q: seq<Item>, t: nat)
    requires Gapped(q)
    ensures FreeAt(Pruned(q), t) <==> FreeAt(q, t) && (|q| >= 100 ==> !Covers(q[0], t))
  {
    if |q| > 0 {
      OneInterval(q, 0, t);
      HeadFree(q, t);
    }
    hide FreeAt, Gapped, Covers;
  }

  /** A packet is too old exactly if it would be done before any time that is still free. */
  lemma OldMeaning(q: seq<Item>, pkt: nat, p: nat)
    requires Gapped(q) && |q| > 0
    ensures Old(q, pkt, p) <==> forall t: nat :: FreeAt(q, t) ==> pkt + p < t
  {
    assert Covers(q[0], q[0].lo) && FreeAt(q, q[0].lo);
    forall t: nat | FreeAt(q, t)
      ensures q[0].lo <= t
    {
    }
  }

  /** Every interval but the one that is used stays as it is. */
  lemma OthersStay(q: seq<Item>, pkt: nat, p: nat, min: nat, j: nat)
    requires FirstFit(q, pkt, pkt + p) < |q| && j < |q| && j != FirstFit(q, pkt, pkt + p)
    ensures q[j] in Placed(q, pkt, p, min)
  {
    hide FirstFit, Placed, Carve;
    var i := FirstFit(q, pkt, pkt + p);
    PlacedSplice(q, pkt, p, min, i);
    if j < i { assert q[..i][j] == q[j]; } else { assert q[i + 1..][j - i - 1] == q[j]; }
  }

  lemma PruneOutside(ws: seq<Window>, q: seq<Item>)
    requires AllOutside(ws, q)
    ensures AllOutside(ws, Pruned(q))
  {
  }

  /** No request can start earlier inside one free interval than where the model puts it. */
  lemma EarliestStart(q: seq<Item>, pkt: nat, p: nat, j: nat, s: nat)
    requires Gapped(q) && FirstFit(q, pkt, pkt + p) < |q|
    requires j < |q| && pkt <= s && q[j].lo <= s && s + p <= q[j].hi
    ensures pkt + Delay(q, pkt, p) <= s
  {
    var i := FirstFit(q, pkt, pkt + p);
    assert CanHold(q[j], pkt, pkt + p);
    assert i <= j;
    if i < j {
      assert q[i].hi < q[j].lo;
    }
  }

  // ----- Runs ------------------------------------------------------------------------------------------

  datatype Request = Request(pkt: nat, p: nat)

  /** The free list after one request. */
  function After(q: seq<Item>, r: Request, min: nat): seq<Item> {
    if Old(Pruned(q), r.pkt, r.p) then Pruned(q) else Placed(Pruned(q), r.pkt, r.p, min)
  }

  function AfterAll(q: seq<Item>, rs: seq<Request>, min: nat): seq<Item> {
    if |rs| == 0 then q else After(AfterAll(q, rs[..|rs| - 1], min), rs[|rs| - 1], min)
  }

  function Work(rs: seq<Request>): nat {
    if |rs| == 0 then 0 else Work(rs[..|rs| - 1]) + rs[|rs| - 1].p
  }

  lemma AfterEndless(q: seq<Item>, r: Request, min: nat)
    requires Endless(q) && r.p >= 1 && min >= 1
    requires Old(Pruned(q), r.pkt, r.p) || Within(Pruned(q), r.pkt, r.p, min)
    ensures var a := After(q, r, min);
      Endless(a) && a[|a| - 1].lo <= Max(r.pkt, q[|q| - 1].lo) + r.p
  {
    hide Placed, Gapped;
    PruneKeeps(q);
    if !Old(Pruned(q), r.pkt, r.p) {
      PlacedEndless(Pruned(q), r.pkt, r.p, min);
    }
  }

  /** If no packet arrives after time t and t, the total work and the minimum size stay within 64 bits,
      then no request of the run overflows and the unbounded interval is never lost. */
  lemma {:induction false} RunWithin(rs: seq<Request>, t: nat, min: nat, more: Request)
    requires min >= 1 && more.p >= 1 && more.pkt <= t
    requires forall i :: 0 <= i < |rs| ==> rs[i].p >= 1 && rs[i].pkt <= t
    requires t + Work(rs) + more.p + min <= UINT64_MAX
    ensures var q := AfterAll([Gap(0, UINT64_MAX)], rs, min);
      Endless(q) && q[|q| - 1].lo <= t + Work(rs) && Within(Pruned(q), more.pkt, more.p, min)
  {
    hide After, Pruned, Gapped;
    var q0 := [Gap(0, UINT64_MAX)];
    var q := AfterAll(q0, rs, min);
    if |rs| > 0 {
      var n := |rs| - 1;
      RunWithin(rs[..n], t, min, rs[n]);
      AfterEndless(AfterAll(q0, rs[..n], min), rs[n], min);
    } else {
      StartEndless();
    }
    PruneKeeps(q);
  }

  lemma StartEndless()
    ensures Endless([Gap(0, UINT64_MAX)])
  {
  }

  lemma {:induction false} WorkPrefix(rs: seq<Request>, i: nat)
    requires i <= |rs|
    ensures Work(rs[..i]) <= Work(rs)
  {
    if i == |rs| {
      assert rs[..i] == rs;
    } else {
      WorkPrefix(rs[..|rs| - 1], i);
      assert rs[..|rs| - 1][..i] == rs[..i];
    }
  }

  /** The windows granted in a run; requests that are too old get none. */
  function Windows(q: seq<Item>, rs: seq<Request>, min: nat): seq<Window> {
    if |rs| == 0 then []
    else
      var n := |rs| - 1;
      Windows(q, rs[..n], min) + WindowOf(AfterAll(q, rs[..n], min), rs[n])
  }

  function WindowOf(q: seq<Item>, r: Request): seq<Window> {
    if Old(Pruned(q), r.pkt, r.p) then [] else [Served(Pruned(q), r.pkt, r.p)]
  }

  /** The answer to one request, given that of the analytical model. */
  function Answer(q: seq<Item>, r: Request, analytical: nat): nat {
    if Old(Pruned(q), r.pkt, r.p) then analytical else Delay(Pruned(q), r.pkt, r.p)
  }

  // ----- The list model --------------------------------------------------------------------------------

  lemma HoldsAt(x: Item, pkt: nat, p: nat)
    ensures CanHold(x, pkt, pkt + p) <==> if pkt >= x.lo then pkt + p <= x.hi else x.lo + p <= x.hi
  {
  }

  // ----- A queue with the windows it granted ------------------------------------------------------------

  /** A queue that can still serve any request, whose last interval starts by `horizon`, and the windows
      granted from it so far. */
  ghost predicate InOrder(q: seq<Item>, ws: seq<Window>, horizon: nat) {
    Endless(q) && q[|q| - 1].lo <= horizon && AllApart(ws) && AllOutside(ws, q)
  }

  /** A request that takes time keeps the windows apart and waits for what was granted before. */
  lemma ServeKeeps(q: seq<Item>, ws: seq<Window>, horizon: nat, r: Request, min: nat, analytical: nat)
    requires InOrder(q, ws, horizon) && r.p >= 1 && min >= 1 && Max(r.pkt, horizon) + r.p + min <= UINT64_MAX
    ensures InOrder(After(q, r, min), ws + WindowOf(q, r), Max(r.pkt, horizon) + r.p)
    ensures r.pkt + Answer(q, r, analytical) <= Max(Max(r.pkt, horizon), r.pkt + analytical)
  {
    hide Placed, Gapped, AllApart, AllOutside, FirstFit, Served;
    PruneKeeps(q);
    PruneOutside(ws, q);
    var u := Pruned(q);
    if Old(u, r.pkt, r.p) {
      assert ws + [] == ws;
    } else {
      PlacedEndless(u, r.pkt, r.p, min);
      GrantKeeps(ws, u, r.pkt, r.p, min);
      StartBound(u, r.pkt, r.p, horizon);
    }
  }

  lemma StartBound(q: seq<Item>, pkt: nat, p: nat, horizon: nat)
    requires Gapped(q) && |q| > 0 && q[|q| - 1].lo <= horizon && FirstFit(q, pkt, pkt + p) < |q|
    ensures pkt + Delay(q, pkt, p) <= Max(pkt, horizon)
  {
    hide FirstFit;
  }

  /** Two equal requests at one time to an idle queue: the second waits for the first. */
  lemma SecondWaits(r: Request, min: nat, a: nat, b: nat)
    requires min >= 1 && r.p >= 1 && r.pkt + 2 * r.p + min <= UINT64_MAX
    ensures var q := [Gap(0, UINT64_MAX)]; Answer(q, r, a) == 0 && Answer(After(q, r, min), r, b) == r.p
  {
    var q := [Gap(0, UINT64_MAX)];
    FirstFitUnique(q, r.pkt, r.pkt + r.p, 0);
    var u := Placed(q, r.pkt, r.p, min);
    assert u == if r.pkt >= min then [Gap(0, r.pkt), Gap(r.pkt + r.p, UINT64_MAX)] else [Gap(r.pkt + r.p, UINT64_MAX)];
    FirstFitUnique(u, r.pkt, r.pkt + r.p, |u| - 1);
  }

  // ----- Interleaving ------------------------------------------------------------------------------------

  datatype Outcome = Outcome(free: seq<Item>, delay: nat)

  function Push(front: seq<Item>, waited: nat, o: Outcome): Outcome {
    Outcome(front + o.free, waited + o.delay)
  }

  /** The list model with interleaving: an interval that cannot hold the request is used as far as it goes.
      The source subtracts nothing from the request when it starts inside the interval. */
  function Interleaved(q: seq<Item>, pkt: nat, p: nat, min: nat): Outcome {
    if |q| == 0 then Outcome([], 0)
    else
      var x := q[0];
      if CanHold(x, pkt, pkt + p) then Outcome(Carve(x, pkt, p, min) + q[1..], Start(x, pkt) - pkt)
      else if x.lo <= pkt < x.hi then
        Push(Front(x, pkt, min), 0, Interleaved(q[1..], x.hi, p, min))
      else if pkt < x.lo then Push([], x.lo - pkt, Interleaved(q[1..], x.hi, p - (x.hi - x.lo), min))
      else Push([x], 0, Interleaved(q[1..], pkt, p, min))
  }

  /** The first interval that ends after the packet arrives, or |q|. */
  function FirstAfter(q: seq<Item>, pkt: nat): (i: nat)
    ensures i <= |q| && (i < |q| ==> q[i].hi > pkt) && forall j :: 0 <= j < i ==> q[j].hi <= pkt
  {
    if |q| == 0 || q[0].hi > pkt then 0 else FirstAfter(q[1..], pkt) + 1
  }

  lemma GappedTail(q: seq<Item>)
    requires Gapped(q) && |q| > 0
    ensures Gapped(q[1..]) && q[0].key == q[0].lo < q[0].hi && forall j :: 0 <= j < |q[1..]| ==> q[0].hi < q[1..][j].lo
  {
    assert forall j | 0 <= j < |q[1..]| :: q[1..][j] == q[j + 1];
  }

  /** Part of an interval that was free. */
  ghost predicate Inside(y: Item, q: seq<Item>) {
    exists j :: 0 <= j < |q| && q[j].lo <= y.lo && y.hi <= q[j].hi
  }

  lemma InsideHead(y: Item, q: seq<Item>)
    requires |q| > 0 && q[0].lo <= y.lo && y.hi <= q[0].hi
    ensures Inside(y, q)
  {
  }

  lemma InsideTail(q: seq<Item>)
    requires |q| > 0
    ensures forall y :: Inside(y, q[1..]) ==> Inside(y, q)
    ensures forall y | y in q[1..] :: Inside(y, q)
  {
    forall y | Inside(y, q[1..])
      ensures Inside(y, q)
    {
      var j :| 0 <= j < |q[1..]| && q[1..][j].lo <= y.lo && y.hi <= q[1..][j].hi;
      assert q[j + 1] == q[1..][j];
    }
    assert forall y | y in q[1..] :: Inside(y, q[1..]);
  }

  lemma CarveHead(q: seq<Item>, pkt: nat, p: nat, min: nat)
    requires |q| > 0 && CanHold(q[0], pkt, pkt + p)
    ensures forall y | y in Carve(q[0], pkt, p, min) :: Inside(y, q)
  {
    CarveInside(q[0], pkt, p, min);
    forall y | y in Carve(q[0], pkt, p, min)
      ensures Inside(y, q)
    {
      InsideHead(y, q);
    }
  }

  /** Nothing becomes free by interleaving. */
  lemma {:induction false} InterleavedInside(q: seq<Item>, pkt: nat, p: nat, min: nat)
    ensures forall y | y in Interleaved(q, pkt, p, min).free :: Inside(y, q)
  {
    hide Inside, Carve;
    if |q| > 0 {
      var x := q[0];
      InsideTail(q);
      if CanHold(x, pkt, pkt + p) {
        CarveHead(q, pkt, p, min);
      } else if x.lo <= pkt < x.hi {
        InterleavedInside(q[1..], x.hi, p, min);
        InsideHead(Gap(x.lo, pkt), q);
      } else if pkt < x.lo {
        InterleavedInside(q[1..], x.hi, p - (x.hi - x.lo), min);
      } else {
        InterleavedInside(q[1..], pkt, p, min);
        InsideHead(x, q);
      }
    }
  }

  /** Where the two list models agree: interleaving is first fit if and only if the first interval that ends
      after the arrival can hold the request, or there is none. */
  lemma {:induction false} InterleavingIff(q: seq<Item>, pkt: nat, p: nat, min: nat)
    requires Gapped(q)
    ensures Interleaved(q, pkt, p, min) == Outcome(Placed(q, pkt, p, min), Delay(q, pkt, p))
      <==> FirstAfter(q, pkt) == |q| || CanHold(q[FirstAfter(q, pkt)], pkt, pkt + p)
  {
    hide Carve, Gapped, FirstFit;
    if |q| > 0 {
      var x := q[0];
      GappedTail(q);
      FirstAfterTail(q, pkt);
      if CanHold(x, pkt, pkt + p) {
        PlacedHead(q, pkt, p, min);
      } else if x.hi > pkt {
        PlacedTail(q, pkt, p, min);
        FirstUsed(q, pkt, p, min);
      } else {
        InterleavingIff(q[1..], pkt, p, min);
        PlacedTail(q, pkt, p, min);
        hide Placed, Delay, FirstAfter;
        SameTails(x, Interleaved(q[1..], pkt, p, min).free, Placed(q[1..], pkt, p, min));
      }
    } else {
      NothingPlaced(pkt, p, min);
    }
  }

  lemma SameTails(x: Item, a: seq<Item>, b: seq<Item>)
    ensures [x] + a == [x] + b <==> a == b
  {
    assert ([x] + a)[1..] == a && ([x] + b)[1..] == b;
  }

  lemma FirstAfterTail(q: seq<Item>, pkt: nat)
    requires |q| > 0
    ensures FirstAfter(q, pkt) == if q[0].hi > pkt then 0 else FirstAfter(q[1..], pkt) + 1
  {
  }

  lemma NothingPlaced(pkt: nat, p: nat, min: nat)
    ensures Placed([], pkt, p, min) == [] && Delay([], pkt, p) == 0
  {
  }

  lemma PlacedHead(q: seq<Item>, pkt: nat, p: nat, min: nat)
    requires |q| > 0 && CanHold(q[0], pkt, pkt + p)
    ensures Placed(q, pkt, p, min) == Carve(q[0], pkt, p, min) + q[1..] && Delay(q, pkt, p) == Start(q[0], pkt) - pkt
    ensures q[0].hi > pkt || (q[0].lo <= pkt == q[0].hi && p == 0)
  {
    hide Carve;
    FirstFitUnique(q, pkt, pkt + p, 0);
  }

  lemma PlacedTail(q: seq<Item>, pkt: nat, p: nat, min: nat)
    requires |q| > 0 && !CanHold(q[0], pkt, pkt + p)
    ensures Placed(q, pkt, p, min) == [q[0]] + Placed(q[1..], pkt, p, min) && Delay(q, pkt, p) == Delay(q[1..], pkt, p)
  {
    hide Carve, CanHold, FirstFit, Placed;
    FirstFitTail(q, pkt, p);
    var i := FirstFit(q[1..], pkt, pkt + p);
    if i < |q[1..]| {
      PlacedSplice(q, pkt, p, min, i + 1);
      PlacedSplice(q[1..], pkt, p, min, i);
      assert q[1..][i] == q[i + 1];
      assert q[..i + 1] == [q[0]] + q[1..][..i] && q[i + 2..] == q[1..][i + 1..];
    } else {
      PlacedNowhere(q, pkt, p, min);
      PlacedNowhere(q[1..], pkt, p, min);
    }
  }

  lemma FirstFitTail(q: seq<Item>, pkt: nat, p: nat)
    requires |q| > 0 && !CanHold(q[0], pkt, pkt + p)
    ensures FirstFit(q, pkt, pkt + p) == FirstFit(q[1..], pkt, pkt + p) + 1
  {
    hide CanHold;
  }

  lemma PlacedNowhere(q: seq<Item>, pkt: nat, p: nat, min: nat)
    requires FirstFit(q, pkt, pkt + p) >= |q|
    ensures Placed(q, pkt, p, min) == q && Delay(q, pkt, p) == 0
  {
  }

  /** An interval the request reaches but does not fit into is not left as it was. */
  lemma FirstUsed(q: seq<Item>, pkt: nat, p: nat, min: nat)
    requires Gapped(q) && |q| > 0 && !CanHold(q[0], pkt, pkt + p) && pkt < q[0].hi
    ensures q[0] !in Interleaved(q, pkt, p, min).free
  {
    var x := q[0];
    GappedTail(q);
    InterleavedInside(q[1..], x.hi, p, min);
    if pkt < x.lo { InterleavedInside(q[1..], x.hi, p - (x.hi - x.lo), min); }
    hide Gapped, Carve, CanHold;
    assert !Inside(x, q[1..]);
  }

  lemma HeadFree(q: seq<Item>, t: nat)
    requires |q| > 0
    ensures FreeAt(q, t) <==> Covers(q[0], t) || FreeAt(q[1..], t)
  {
    FreeParts([], [q[0]], q[1..], t);
    assert q == [] + [q[0]] + q[1..];
    assert FreeAt([q[0]], t) <==> Covers(q[0], t) by { assert [q[0]][0] == q[0]; }
  }

  lemma PlusFree(a: seq<Item>, b: seq<Item>, t: nat)
    ensures FreeAt(a + b, t) <==> FreeAt(a, t) || FreeAt(b, t)
  {
    FreeParts(a, b, [], t);
    assert a + b == a + b + [];
  }

  lemma FrontFree(x: Item, pkt: nat, min: nat, t: nat)
    ensures FreeAt(Front(x, pkt, min), t) <==> x.lo <= t < pkt && pkt - x.lo >= min
    ensures FreeAt([x], t) <==> Covers(x, t)
  {
    assert [x][0] == x;
    if KeepsFront(x, pkt, min) { assert Front(x, pkt, min)[0] == Gap(x.lo, pkt); }
  }

  /** A packet takes all free time from its arrival to its end, which is in interval g: f is the first interval
      it can use, and pieces that are too short are lost with it. */
  ghost predicate Uses(q: seq<Item>, after: seq<Item>, pkt: nat, min: nat, f: nat, g: nat, end: nat, t: nat)
    requires f <= g <= |q|
  {
    FreeAt(after, t) <==>
      && FreeAt(q, t) && !(f < |q| && pkt <= t < end)
      && (f < |q| && Covers(q[f], t) && t < pkt ==> pkt - q[f].lo >= min)
      && (g < |q| && Covers(q[g], t) && t >= end ==> q[g].hi - end >= min)
  }

  /** What is free in the rest of a list is free behind its first interval. */
  lemma LaterFree(q: seq<Item>, t: nat)
    requires Gapped(q) && |q| > 0
    ensures FreeAt(q[1..], t) ==> q[0].hi < t
    ensures forall j :: 0 < j < |q| ==> q[j] == q[1..][j - 1] && (Covers(q[j], t) ==> FreeAt(q[1..], t))
  {
    GappedTail(q);
  }

  lemma UsesHead(q: seq<Item>, pkt: nat, p: nat, min: nat, t: nat)
    requires Gapped(q) && |q| > 0 && CanHold(q[0], pkt, pkt + p)
    ensures Uses(q, Carve(q[0], pkt, p, min) + q[1..], pkt, min, 0, 0, Max(pkt, q[0].lo) + p, t)
  {
    HeadFree(q, t);
    CarveFree(q[0], pkt, p, min, t);
    PlusFree(Carve(q[0], pkt, p, min), q[1..], t);
    LaterFree(q, t);
    hide Carve, Gapped, FreeAt;
  }

  /** The first interval is used up from the arrival on. */
  lemma UsesThrough(q: seq<Item>, rest: seq<Item>, after: seq<Item>, pkt: nat, min: nat, g: nat, end: nat, t: nat)
    requires Gapped(q) && |q| > 0 && pkt < q[0].hi <= end && g < |q|
    requires if |q| == 1 then rest == [] else Uses(q[1..], rest, q[0].hi, min, 0, g, end, t)
    requires after == (if q[0].lo <= pkt then Front(q[0], pkt, min) else []) + rest
    ensures Uses(q, after, pkt, min, 0, g + 1, end, t)
  {
    HeadFree(q, t);
    FrontFree(q[0], pkt, min, t);
    PlusFree(if q[0].lo <= pkt then Front(q[0], pkt, min) else [], rest, t);
    LaterFree(q, t);
    assert !FreeAt([], t);
    hide Gapped, FreeAt, Front;
  }

  /** The first interval is over before the arrival. */
  lemma UsesPast(q: seq<Item>, rest: seq<Item>, pkt: nat, min: nat, f: nat, g: nat, end: nat, t: nat)
    requires Gapped(q) && |q| > 0 && q[0].hi <= pkt && f <= g < |q|
    requires Uses(q[1..], rest, pkt, min, f, g, end, t) && (g < |q| - 1 ==> q[0].hi <= end)
    ensures Uses(q, [q[0]] + rest, pkt, min, f + 1, g + 1, end, t)
  {
    HeadFree(q, t);
    FrontFree(q[0], pkt, min, t);
    PlusFree([q[0]], rest, t);
    LaterFree(q, t);
    hide Gapped, FreeAt;
  }

  /** What is used is the processing time, and in addition the rest of the interval in which the packet
      arrived if it did not fit into that; the delay is the time not used. */
  ghost predicate UsedUp(q: seq<Item>, o: Outcome, pkt: nat, p: nat, min: nat, f: nat, g: nat, end: nat, used: nat) {
    && f <= g <= |q|
    && (forall j :: 0 <= j < f ==> q[j].hi <= pkt && !CanHold(q[j], pkt, pkt + p))
    && (f < |q| ==> q[f].hi > pkt || CanHold(q[f], pkt, pkt + p))
    && (f < |q| ==> o.delay + used == end - pkt && pkt <= end)
    && (f < |q| && g < |q| ==> used == p + if f < g && q[f].lo <= pkt then q[f].hi - pkt else 0)
    && (g < |q| ==> q[g].lo <= end <= q[g].hi)
    && (f < |q| && g == |q| ==> end == q[|q| - 1].hi)
    && (f == |q| ==> o == Outcome(q, 0))
    && forall t: nat :: Uses(q, o.free, pkt, min, f, g, end, t)
  }

  lemma UsedHead(q: seq<Item>, pkt: nat, p: nat, min: nat)
    requires Gapped(q) && |q| > 0 && CanHold(q[0], pkt, pkt + p)
    ensures UsedUp(q, Outcome(Carve(q[0], pkt, p, min) + q[1..], Start(q[0], pkt) - pkt), pkt, p, min, 0, 0, Max(pkt, q[0].lo) + p, p)
  {
    hide Uses, Carve;
    var after, end := Carve(q[0], pkt, p, min) + q[1..], Max(pkt, q[0].lo) + p;
    forall t: nat
      ensures Uses(q, after, pkt, min, 0, 0, end, t)
    {
      UsesHead(q, pkt, p, min, t);
    }
    hide Gapped;
  }

  lemma UsedThrough(q: seq<Item>, rest: Outcome, pkt: nat, p: nat, r: nat, min: nat, f: nat, g1: nat, end1: nat, used1: nat)
      returns (g: nat, end: nat, used: nat)
    requires Gapped(q) && |q| > 0 && !CanHold(q[0], pkt, pkt + p) && q[0].hi > pkt
    requires r == if q[0].lo <= pkt then p else p - (q[0].hi - q[0].lo)
    requires UsedUp(q[1..], rest, q[0].hi, r, min, f, g1, end1, used1)
    ensures var x := q[0];
      var o := if x.lo <= pkt then Push(Front(x, pkt, min), 0, rest) else Push([], x.lo - pkt, rest);
      UsedUp(q, o, pkt, p, min, 0, g, end, used)
  {
    hide Uses, Front;
    var x := q[0];
    GappedTail(q);
    FirstUsable(q, f);
    g := g1 + 1;
    end := if |q| == 1 then x.hi else end1;
    used := (if |q| == 1 then 0 else used1) + (x.hi - Max(pkt, x.lo));
    var after := (if x.lo <= pkt then Front(x, pkt, min) else []) + rest.free;
    forall t: nat
      ensures Uses(q, after, pkt, min, 0, g, end, t)
    {
      UsesThrough(q, rest.free, after, pkt, min, g1, end, t);
    }
    assert g1 < |q[1..]| ==> q[1..][g1] == q[g];
    hide Gapped;
  }

  lemma UsedPast(q: seq<Item>, rest: Outcome, pkt: nat, p: nat, min: nat, f: nat, g: nat, end: nat, used: nat)
    requires Gapped(q) && |q| > 0 && !CanHold(q[0], pkt, pkt + p) && q[0].hi <= pkt
    requires UsedUp(q[1..], rest, pkt, p, min, f, g, end, used)
    ensures UsedUp(q, Push([q[0]], 0, rest), pkt, p, min, f + 1, g + 1, end, used)
  {
    hide Uses, Gapped, CanHold;
    var f1, g1, after, r := f + 1, g + 1, [q[0]] + rest.free, q[1..];
    GappedTail(q);
    assert forall j | 0 < j < |q| :: q[j] == r[j - 1];
    forall t: nat
      ensures Uses(q, after, pkt, min, f1, g1, end, t)
    {
      UsesPast(q, rest.free, pkt, min, f, g, end, t);
    }
    assert q == [q[0]] + r;
  }

  /** Interleaving, cycle by cycle. */
  lemma {:induction false} InterleavedUses(q: seq<Item>, pkt: nat, p: nat, min: nat) returns (f: nat, g: nat, end: nat, used: nat)
    requires Gapped(q)
    ensures UsedUp(q, Interleaved(q, pkt, p, min), pkt, p, min, f, g, end, used)
  {
    hide UsedUp, Carve, Gapped, Front;
    if |q| == 0 {
      f, g, end, used := 0, 0, 0, 0;
      NothingUsed(pkt, p, min);
      return;
    }
    var x := q[0];
    GappedTail(q);
    if CanHold(x, pkt, pkt + p) {
      f, g, end, used := 0, 0, Max(pkt, x.lo) + p, p;
      UsedHead(q, pkt, p, min);
    } else if x.hi > pkt {
      var r := if x.lo <= pkt then p else p - (x.hi - x.lo);
      f, g, end, used := InterleavedUses(q[1..], x.hi, r, min);
      g, end, used := UsedThrough(q, Interleaved(q[1..], x.hi, r, min), pkt, p, r, min, f, g, end, used);
      f := 0;
    } else {
      f, g, end, used := InterleavedUses(q[1..], pkt, p, min);
      UsedPast(q, Interleaved(q[1..], pkt, p, min), pkt, p, min, f, g, end, used);
      f, g := f + 1, g + 1;
    }
  }

  lemma NothingUsed(pkt: nat, p: nat, min: nat)
    ensures UsedUp([], Outcome([], 0), pkt, p, min, 0, 0, 0, 0)
  {
  }

  lemma FirstUsable(q: seq<Item>, f: nat)
    requires Gapped(q) && |q| > 0 && f <= |q[1..]| && forall j :: 0 <= j < f ==> q[1..][j].hi <= q[0].hi
    ensures f == 0
  {
    if |q| > 1 { assert q[1..][0] == q[1] && q[0].hi < q[1].lo < q[1].hi; }
  }

  /** A request for 8 cycles that starts 5 cycles before the end of an interval takes 13. */
  lemma InterleavingOvercharges()
    ensures Interleaved([Gap(0, 10), Gap(20, UINT64_MAX)], 5, 8, 1) == Outcome([Gap(0, 5), Gap(28, UINT64_MAX)], 10)
  {
    var q := [Gap(0, 10), Gap(20, UINT64_MAX)];
    assert q[1..] == [Gap(20, UINT64_MAX)];
    assert Interleaved(q[1..], 10, 8, 1) == Outcome([Gap(28, UINT64_MAX)], 10);
  }

  /** What `computeUsingHistoryList` does before it limits the size. */
  function Searched(interleaving: bool, q: seq<Item>, pkt: nat, p: nat, min: nat): Outcome {
    if interleaving then Interleaved(q, pkt, p, min) else Outcome(Placed(q, pkt, p, min), Delay(q, pkt, p))
  }

  /** One interval further. */
  lemma SearchedNext(interleaving: bool, q: seq<Item>, pkt: nat, p: nat, min: nat)
    requires |q| > 0
    ensures Searched(interleaving, q, pkt, p, min) == (
      var x := q[0];
      if CanHold(x, pkt, pkt + p) then Outcome(Carve(x, pkt, p, min) + q[1..], Start(x, pkt) - pkt)
      else if interleaving && x.lo <= pkt < x.hi then
        Push(Front(x, pkt, min), 0, Searched(interleaving, q[1..], x.hi, p, min))
      else if interleaving && pkt < x.lo then Push([], x.lo - pkt, Searched(interleaving, q[1..], x.hi, p - (x.hi - x.lo), min))
      else Push([x], 0, Searched(interleaving, q[1..], pkt, p, min)))
  {
    if CanHold(q[0], pkt, pkt + p) {
      FirstFitUnique(q, pkt, pkt + p, 0);
    } else {
      PlacedTail(q, pkt, p, min);
    }
  }

  /** The part of the list that the search has passed, and the outcome of the rest. */
  ghost predicate Remains(whole: Outcome, done: seq<Item>, waited: nat, rest: Outcome) {
    whole == Push(done, waited, rest)
  }

  lemma RemainsNext(whole: Outcome, done: seq<Item>, waited: nat, front: seq<Item>, more: nat, rest: Outcome)
    requires Remains(whole, done, waited, Push(front, more, rest))
    ensures Remains(whole, done + front, waited + more, rest)
  {
    assert done + (front + rest.free) == (done + front) + rest.free;
  }

  lemma RemainsStart(whole: Outcome)
    ensures Remains(whole, [], 0, whole)
  {
  }

  lemma RemainsDone(whole: Outcome, done: seq<Item>, waited: nat, last: seq<Item>, more: nat)
    requires Remains(whole, done, waited, Outcome(last, more))
    ensures whole == Outcome(done + last, waited + more)
  {
  }

  lemma RemainsAll(interleaving: bool, whole: Outcome, done: seq<Item>, waited: nat, pkt: nat, p: nat, min: nat)
    requires Remains(whole, done[..|done|], waited, Searched(interleaving, done[|done|..], pkt, p, min))
    ensures whole == Outcome(done, waited)
  {
    assert done[..|done|] == done && done[|done|..] == [];
  }

  /** `QueueModelHistoryList`; the source always enables interleaving. */
  class HistoryList {
    var free: seq<Item>
    const min: nat
    const interleaving: bool

    constructor (min: nat, interleaving: bool)
      ensures free == [Gap(0, UINT64_MAX)] && this.min == min && this.interleaving == interleaving
    {
      free, this.min, this.interleaving := [Gap(0, UINT64_MAX)], min, interleaving;
    }

    /** `computeUsingHistoryList`; the index stands for the iterator. */
    method ComputeUsingHistoryList(pktTime: nat, processingTime: nat) returns (delay: nat)
      modifies this
      ensures var o := Searched(interleaving, old(free), pktTime, processingTime, min);
        delay == o.delay && free == if |o.free| > MAX_INTERVALS then o.free[1..] else o.free
    {
      hide FirstFit, CanHold, Carve, Searched, Remains;
      delay := 0;
      var pkt: nat, p: nat, i, served := pktTime, processingTime, 0, false;
      ghost var whole := Searched(interleaving, free, pkt, p, min);
      RemainsStart(whole);
      assert free[..0] == [] && free[0..] == free;
      while i < |free| && !served
        invariant 0 <= i <= |free|
        invariant !served ==> Remains(whole, free[..i], delay, Searched(interleaving, free[i..], pkt, p, min))
        invariant served ==> whole == Outcome(free, delay)
        decreases !served, |free| - i
      {
        var x := free[i];
        ghost var done, rest, waited := free[..i], free[i..], delay;
        assert rest[0] == x && rest[1..] == free[i + 1..];
        HoldsAt(x, pkt, p);
        SearchedNext(interleaving, rest, pkt, p, min);
        if pkt >= x.lo && pkt + p <= x.hi {
          RemainsDone(whole, done, waited, Carve(x, pkt, p, min) + rest[1..], 0);
          Keep(i, pkt, p);
          assert free == done + (Carve(x, pkt, p, min) + rest[1..]);
          served := true;
        } else if pkt < x.lo && x.lo + p <= x.hi {
          RemainsDone(whole, done, waited, Carve(x, pkt, p, min) + rest[1..], x.lo - pkt);
          delay := delay + (x.lo - pkt);
          KeepLater(i, pkt, p);
          assert free == done + (Carve(x, pkt, p, min) + rest[1..]);
          served := true;
        } else if interleaving && pkt >= x.lo && pkt < x.hi {
          RemainsNext(whole, done, waited, Front(x, pkt, min), 0, Searched(interleaving, rest[1..], x.hi, p, min));
          i := Truncate(i, pkt);
          pkt := x.hi;
          p := p - (x.hi - pkt);
        } else if interleaving && pkt < x.lo {
          RemainsNext(whole, done, waited, [], x.lo - pkt, Searched(interleaving, rest[1..], x.hi, p - (x.hi - x.lo), min));
          free := free[..i] + free[i + 1..];
          delay := delay + (x.lo - pkt);
          pkt, p := x.hi, p - (x.hi - x.lo);
          assert free[..i] == done + [] && free[i..] == rest[1..];
        } else {
          RemainsNext(whole, done, waited, [x], 0, Searched(interleaving, rest[1..], pkt, p, min));
          i := i + 1;
          assert free[..i] == done + [x];
        }
      }
      if !served { RemainsAll(interleaving, whole, free, delay, pkt, p, min); }
      if |free| > MAX_INTERVALS {
        free := free[1..];
      }
    }

    /** The end of an interval is used up. */
    method Truncate(i: nat, pkt: nat) returns (next: nat)
      requires i < |free| && free[i].lo <= pkt
      modifies `free
      ensures next <= |free| && free[..next] == old(free[..i] + Front(free[i], pkt, min)) && free[next..] == old(free[i + 1..])
    {
      var x, before, rest := free[i], free[..i], free[i + 1..];
      free := free[..i] + free[i + 1..];
      next := i;
      if pkt - x.lo >= min {
        free := free[..i] + [Gap(x.lo, pkt)] + free[i..];
        next := i + 1;
      }
      assert free == (before + Front(x, pkt, min)) + rest;
    }

    /** An interval is replaced by what stays free before and after the request. */
    method Keep(i: nat, pkt: nat, p: nat)
      requires i < |free| && free[i].lo <= pkt && pkt + p <= free[i].hi
      modifies `free
      ensures free == old(free[..i] + Carve(free[i], pkt, p, min) + free[i + 1..])
    {
      var x, rest := free[i], free[i + 1..];
      free := free[..i];
      if pkt - x.lo >= min {
        free := free + [Gap(x.lo, pkt)];
      }
      if x.hi - (pkt + p) >= min {
        free := free + [Gap(pkt + p, x.hi)];
      }
      assert free == old(free[..i]) + Carve(x, pkt, p, min);
      free := free + rest;
    }

    method KeepLater(i: nat, ghost pkt: nat, p: nat)
      requires i < |free| && pkt < free[i].lo && free[i].lo + p <= free[i].hi
      modifies `free
      ensures free == old(free[..i] + Carve(free[i], pkt, p, min) + free[i + 1..])
    {
      var x, rest := free[i], free[i + 1..];
      free := free[..i];
      if x.hi - (x.lo + p) >= min {
        free := free + [Gap(x.lo + p, x.hi)];
      }
      assert free == old(free[..i]) + Carve(x, pkt, p, min);
      free := free + rest;
    }
  }
}
