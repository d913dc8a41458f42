/** The mesh network of `src/network.cpp`: coordinates, link slots, and dimension-ordered routing with
    its delay accounts, in two and three dimensions. */
module Mesh {
  import opened CacheArray
  import opened AvlEdit
  import Queue = FreeList

  datatype Coord = Coord(x: int, y: int, z: int)

  datatype Direction = East | West | North | South | Up | Down

  // ----- Coordinates ---------------------------------------------------------------------------------

  /** Nodes a mesh of width w has room for. */
  function Room(threeD: bool, w: nat): nat {
    if threeD then Mul(Mul(w, w), w) else Mul(w, w)
  }

  predicate InGrid(threeD: bool, w: nat, c: Coord) {
    0 <= c.x < w && 0 <= c.y < w && if threeD then 0 <= c.z < w else c.z == 0
  }

  lemma SquarePositive(w: nat)
    requires w > 0
    ensures Mul(w, w) > 0
  {
  }

  /** `getLoc` */
  function GetLoc(threeD: bool, w: nat, node: nat): Coord
    requires w > 0
  {
    if threeD then
      SquarePositive(w);
      Coord(Rem(Rem(node, Mul(w, w)), w), Quo(Rem(node, Mul(w, w)), w), Quo(node, Mul(w, w)))
    else
      Coord(Rem(node, w), Quo(node, w), 0)
  }

  /** `getNodeId` */
  function GetNodeId(threeD: bool, w: nat, c: Coord): int
    requires c.x >= 0 && c.y >= 0 && c.z >= 0
  {
    if threeD then c.x + Mul(c.y, w) + Mul(Mul(c.z, w), w) else c.x + Mul(c.y, w)
  }

  lemma QuoBelow(x: nat, a: nat, b: nat)
    requires b > 0 && x < Mul(a, b)
    ensures Quo(x, b) < a
  {
    DivModSplits(x, b);
    assert Quo(x, b) * b <= x;
    Monotone(a, Quo(x, b), b);
  }

  /** Every node has a place in the grid, and its number can be read off it. */
  lemma LocInverts(threeD: bool, w: nat, node: nat)
    requires w > 0 && node < Room(threeD, w)
    ensures InGrid(threeD, w, GetLoc(threeD, w, node)) && GetNodeId(threeD, w, GetLoc(threeD, w, node)) == node
  {
    if threeD {
      SquarePositive(w);
      var s := Mul(w, w);
      var r := Rem(node, s);
      QuoBelow(r, w, w);
      MulCommutes(s, w);
      QuoBelow(node, w, s);
      DivModSplits(node, s);
      DivModSplits(r, w);
      MulAssoc(Quo(node, s), w, w);
    } else {
      QuoBelow(node, w, w);
      DivModSplits(node, w);
    }
  }

  lemma MulCommutes(a: nat, b: nat)
    ensures Mul(a, b) == Mul(b, a)
  {
  }

  lemma MulAssoc(a: nat, b: nat, c: nat)
    ensures Mul(a, Mul(b, c)) == Mul(Mul(a, b), c)
  {
  }

  /** Every place of the grid has a node number, which leads back to it. */
  lemma IdInverts(threeD: bool, w: nat, c: Coord)
    requires w > 0 && InGrid(threeD, w, c)
    ensures 0 <= GetNodeId(threeD, w, c) < Room(threeD, w) && GetLoc(threeD, w, GetNodeId(threeD, w, c)) == c
  {
    DivModUnique(c.y, w, c.x);
    CellBelow(c.y, w, c.x, w);
    if threeD {
      SquarePositive(w);
      var low := Mul(c.y, w) + c.x;
      MulAssoc(c.z, w, w);
      DivModUnique(c.z, Mul(w, w), low);
      CellBelow(c.z, Mul(w, w), low, w);
      MulCommutes(w, Mul(w, w));
    }
  }

  /** Neighbours along the first coordinate have numbers that differ by 1, along the second by the width, and
      along the third by its square. */
  lemma NeighbourIds(threeD: bool, w: nat, c: Coord)
    requires InGrid(threeD, w, c)
    ensures GetNodeId(threeD, w, Step(c, East)) == GetNodeId(threeD, w, c) + 1
    ensures GetNodeId(threeD, w, Step(c, South)) == GetNodeId(threeD, w, c) + w
    ensures threeD ==> GetNodeId(threeD, w, Step(c, Up)) == GetNodeId(threeD, w, c) + Mul(w, w)
    ensures c == Coord(0, 0, 0) ==> GetNodeId(threeD, w, c) == 0
  {
    MulNext(c.y, w);
    if threeD {
      MulNext(c.z, w);
      MulPlus(Mul(c.z, w), w, w);
    }
    NoNode(w);
    hide Mul;
  }

  lemma NoNode(w: nat)
    ensures Mul(0, w) == 0
  {
  }

  lemma CellBelow(q: nat, d: nat, r: nat, n: nat)
    requires q < n && r < d
    ensures Mul(q, d) + r < Mul(n, d)
  {
    assert q * d + d == (q + 1) * d;
    assert (q + 1) * d <= n * d by { Monotone(q + 1, n, d); }
  }

  lemma Monotone(a: nat, b: nat, d: nat)
    ensures a <= b ==> a * d <= b * d
  {
  }

  // ----- Links ---------------------------------------------------------------------------------------------

  function Step(c: Coord, d: Direction): Coord {
    match d
    case East => c.(x := c.x + 1)
    case West => c.(x := c.x - 1)
    case South => c.(y := c.y + 1)
    case North => c.(y := c.y - 1)
    case Up => c.(z := c.z + 1)
    case Down => c.(z := c.z - 1)
  }

  function Opposite(d: Direction): Direction {
    match d
    case East => West
    case West => East
    case South => North
    case North => South
    case Up => Down
    case Down => Up
  }

  /** The slot in `link[][][]` that `getLink` computes. */
  function LinkSlot(threeD: bool, w: nat, c: Coord, d: Direction): Coord {
    if threeD then
      match d
      case East => c
      case West => c.(x := c.x - 1)
      case North => Coord(c.y - 1, c.z, c.x + w)
      case South => Coord(c.y, c.z, c.x + w)
      case Up => Coord(c.z, c.x, c.y + 2 * w)
      case Down => Coord(c.z - 1, c.x, c.y + 2 * w)
    else
      match d
      case West => Coord(c.x - 1, c.y, 0)
      case North => Coord(c.y - 1, c.x + w, 0)
      case South => Coord(c.y, c.x + w, 0)
      case _ => Coord(c.x, c.y, 0)
  }

  /** `getLink`, with the bounds that the source checks: in three dimensions it checks the second
      coordinate twice and the third only from below. */
  function GetLink(threeD: bool, w: nat, c: Coord, d: Direction): Option<Coord> {
    var l := LinkSlot(threeD, w, c, d);
    if threeD then
      if 0 <= l.x < w - 1 && 0 <= l.y < w && l.z >= 0 && l.y < 3 * w then Some(l) else None
    else
      if 0 <= l.x < w - 1 && 0 <= l.y < 2 * w then Some(l) else None
  }

  /** The slots that `init` allocates. */
  predicate Allocated(threeD: bool, w: nat, l: Coord) {
    0 <= l.x < w - 1 && if threeD then 0 <= l.y < w && 0 <= l.z < 3 * w else 0 <= l.y < 2 * w && l.z == 0
  }

  /** A step along an edge of the mesh. */
  predicate Edge(threeD: bool, w: nat, c: Coord, d: Direction) {
    InGrid(threeD, w, c) && InGrid(threeD, w, Step(c, d))
  }

  /** Every edge has an allocated link, although the third coordinate is not checked. */
  lemma LinkExists(threeD: bool, w: nat, c: Coord, d: Direction)
    requires Edge(threeD, w, c, d)
    ensures GetLink(threeD, w, c, d) == Some(LinkSlot(threeD, w, c, d)) && Allocated(threeD, w, LinkSlot(threeD, w, c, d))
  {
  }

  /** Two steps use the same link exactly if they go along the same edge, in either direction. */
  lemma LinksApart(threeD: bool, w: nat, c: Coord, d: Direction, e: Coord, f: Direction)
    requires Edge(threeD, w, c, d) && Edge(threeD, w, e, f)
    ensures GetLink(threeD, w, c, d) == GetLink(threeD, w, e, f)
      <==> (e == c && f == d) || (e == Step(c, d) && f == Opposite(d))
  {
  }

  // ----- Routes --------------------------------------------------------------------------------------------

  function Abs(a: int): nat {
    if a < 0 then -a else a
  }

  function Distance(a: Coord, b: Coord): nat {
    Abs(b.x - a.x) + Abs(b.y - a.y) + Abs(b.z - a.z)
  }

  function Straight(d: Direction, n: nat): (s: seq<Direction>)
    ensures |s| == n && forall i :: 0 <= i < n ==> s[i] == d
  {
    seq(n, _ => d)
  }

  /** The directions of a route: first along x, then y, then z. */
  function Directions(from: Coord, to: Coord): (s: seq<Direction>)
    ensures |s| == Distance(from, to)
  {
    Straight(if to.x > from.x then East else West, Abs(to.x - from.x))
      + Straight(if to.y > from.y then South else North, Abs(to.y - from.y))
      + Straight(if to.z > from.z then Up else Down, Abs(to.z - from.z))
  }

  /** k steps from a towards b, but not further. */
  function Toward(a: int, b: int, k: int): int {
    if k <= 0 then a else if k >= Abs(b - a) then b else if b > a then a + k else a - k
  }

  /** The place on the route after n links. */
  function PlaceOf(from: Coord, to: Coord, n: nat): Coord {
    var a, b := Abs(to.x - from.x), Abs(to.y - from.y);
    Coord(Toward(from.x, to.x, n), Toward(from.y, to.y, n - a), Toward(from.z, to.z, n - a - b))
  }

  /** The n-th direction of the route. */
  function DirectionAt(from: Coord, to: Coord, n: nat): Direction {
    if n < Abs(to.x - from.x) then (if to.x > from.x then East else West)
    else if n < Abs(to.x - from.x) + Abs(to.y - from.y) then (if to.y > from.y then South else North)
    else if to.z > from.z then Up else Down
  }

  lemma DirectionsHave(from: Coord, to: Coord, n: nat)
    requires n < Distance(from, to)
    ensures Directions(from, to)[n] == DirectionAt(from, to, n)
  {
  }

  lemma PlaceInside(threeD: bool, w: nat, from: Coord, to: Coord, n: nat)
    requires InGrid(threeD, w, from) && InGrid(threeD, w, to) && n <= Distance(from, to)
    ensures InGrid(threeD, w, PlaceOf(from, to, n)) && Distance(PlaceOf(from, to, n), to) == Distance(from, to) - n
    ensures PlaceOf(from, to, 0) == from && PlaceOf(from, to, Distance(from, to)) == to
  {
    hide Toward;
    var a, b := Abs(to.x - from.x), Abs(to.y - from.y);
    TowardAt(from.x, to.x, n);
    TowardAt(from.y, to.y, n - a);
    TowardAt(from.z, to.z, n - a - b);
    PlaceEnds(from, to);
  }

  lemma TowardAt(a: int, b: int, k: int)
    ensures a <= Toward(a, b, k) <= b || b <= Toward(a, b, k) <= a
    ensures Abs(b - Toward(a, b, k)) == if k <= 0 then Abs(b - a) else if k >= Abs(b - a) then 0 else Abs(b - a) - k
  {
  }

  lemma PlaceEnds(from: Coord, to: Coord)
    ensures PlaceOf(from, to, 0) == from && PlaceOf(from, to, Distance(from, to)) == to
  {
  }

  lemma PlaceStep(from: Coord, to: Coord, n: nat)
    requires n < Distance(from, to)
    ensures Step(PlaceOf(from, to, n), DirectionAt(from, to, n)) == PlaceOf(from, to, n + 1)
  {
  }

  /** A route follows its directions inside the grid, comes one link closer with every step, and ends at
      the receiver. */
  lemma RouteAt(threeD: bool, w: nat, from: Coord, to: Coord, n: nat)
    requires InGrid(threeD, w, from) && InGrid(threeD, w, to) && n <= Distance(from, to)
    ensures InGrid(threeD, w, PlaceOf(from, to, n)) && Distance(PlaceOf(from, to, n), to) == Distance(from, to) - n
    ensures n < Distance(from, to) ==>
      Edge(threeD, w, PlaceOf(from, to, n), Directions(from, to)[n])
        && Step(PlaceOf(from, to, n), Directions(from, to)[n]) == PlaceOf(from, to, n + 1)
    ensures PlaceOf(from, to, 0) == from && PlaceOf(from, to, Distance(from, to)) == to
  {
    hide InGrid, PlaceOf, Directions, DirectionAt, Step, Distance;
    PlaceInside(threeD, w, from, to, n);
    if n < Distance(from, to) {
      PlaceInside(threeD, w, from, to, n + 1);
      DirectionsHave(from, to, n);
      PlaceStep(from, to, n);
    }
  }

  /** A route goes along x until it is done, then along y, then along z, and never away from the receiver. */
  lemma DimensionOrder(from: Coord, to: Coord, n: nat)
    requires n < Distance(from, to)
    ensures var d, c := Directions(from, to)[n], PlaceOf(from, to, n);
      && (d == East ==> c.x < to.x) && (d == West ==> c.x > to.x)
      && (d == South ==> c.x == to.x && c.y < to.y) && (d == North ==> c.x == to.x && c.y > to.y)
      && (d == Up ==> c.x == to.x && c.y == to.y && c.z < to.z) && (d == Down ==> c.x == to.x && c.y == to.y && c.z > to.z)
  {
    hide Directions;
    DirectionsHave(from, to, n);
  }

  /** A route uses no link twice. */
  lemma SlotsApart(threeD: bool, w: nat, from: Coord, to: Coord, i: nat, j: nat)
    requires InGrid(threeD, w, from) && InGrid(threeD, w, to) && i < j < Distance(from, to)
    ensures LinkSlot(threeD, w, PlaceOf(from, to, i), Directions(from, to)[i])
      != LinkSlot(threeD, w, PlaceOf(from, to, j), Directions(from, to)[j])
  {
    hide PlaceOf, Directions, Distance, InGrid, LinkSlot, GetLink, Edge, Step;
    RouteAt(threeD, w, from, to, i);
    RouteAt(threeD, w, from, to, i + 1);
    RouteAt(threeD, w, from, to, j);
    RouteAt(threeD, w, from, to, j + 1);
    var c, d, e, f := PlaceOf(from, to, i), Directions(from, to)[i], PlaceOf(from, to, j), Directions(from, to)[j];
    StepBack(c, d);
    LinkExists(threeD, w, c, d);
    LinkExists(threeD, w, e, f);
    LinksApart(threeD, w, c, d, e, f);
  }

  lemma StepBack(c: Coord, d: Direction)
    ensures Step(Step(c, d), Opposite(d)) == c
  {
  }

  // ----- Travelling ----------------------------------------------------------------------------------------

  /** What all routers and links of a network have in common. */
  datatype Fabric = Fabric(threeD: bool, width: nat, router: nat, link: nat)

  /** The queues of the links, and when a packet is where. */
  datatype Trip = Trip(links: map<Coord, seq<Item>>, time: nat, at: Coord)

  function SlotOf(f: Fabric, t: Trip, d: Direction): Coord {
    LinkSlot(f.threeD, f.width, t.at, d)
  }

  function QueueAt(links: map<Coord, seq<Item>>, l: Coord): seq<Item> {
    if l in links then links[l] else []
  }

  /** The contention that a packet of p flits meets at its next link. */
  function WaitOn(f: Fabric, t: Trip, d: Direction, p: nat, analytical: nat): nat {
    Queue.Answer(QueueAt(t.links, SlotOf(f, t, d)), Queue.Request(t.time + f.router, p), analytical)
  }

  /** One router and one link. */
  function Hop(f: Fabric, t: Trip, d: Direction, p: nat, analytical: nat): Trip {
    var l, r := SlotOf(f, t, d), Queue.Request(t.time + f.router, p);
    Trip(t.links[l := Queue.After(QueueAt(t.links, l), r, f.link)],
         t.time + f.router + (WaitOn(f, t, d, p, analytical) + f.link), Step(t.at, d))
  }

  /** The first n links of a trip. */
  ghost function Travel(f: Fabric, t: Trip, dirs: seq<Direction>, p: nat, analytical: nat -> nat, n: nat): Trip
    requires n <= |dirs|
  {
    if n == 0 then t else Hop(f, Travel(f, t, dirs, p, analytical, n - 1), dirs[n - 1], p, analytical(n - 1))
  }

  /** The contention met on them. */
  ghost function Waits(f: Fabric, t: Trip, dirs: seq<Direction>, p: nat, analytical: nat -> nat, n: nat): nat
    requires n <= |dirs|
  {
    if n == 0 then 0
    else Waits(f, t, dirs, p, analytical, n - 1) + WaitOn(f, Travel(f, t, dirs, p, analytical, n - 1), dirs[n - 1], p, analytical(n - 1))
  }

  lemma {:induction false} TravelSplits(f: Fabric, t: Trip, dirs: seq<Direction>, p: nat, analytical: nat -> nat, n: nat)
    requires n <= |dirs|
    ensures Travel(f, t, dirs, p, analytical, n).time == t.time + Mul(n, f.router) + Mul(n, f.link) + Waits(f, t, dirs, p, analytical, n)
  {
    hide WaitOn;
    if n > 0 {
      TravelSplits(f, t, dirs, p, analytical, n - 1);
      assert n * f.router == (n - 1) * f.router + f.router;
      assert n * f.link == (n - 1) * f.link + f.link;
    }
  }

  lemma {:induction false} TravelAt(f: Fabric, t: Trip, to: Coord, p: nat, analytical: nat -> nat, n: nat)
    requires InGrid(f.threeD, f.width, t.at) && InGrid(f.threeD, f.width, to) && n <= Distance(t.at, to)
    ensures Travel(f, t, Directions(t.at, to), p, analytical, n).at == PlaceOf(t.at, to, n)
  {
    hide PlaceOf, Directions, Distance, InGrid, Edge, LinkSlot, WaitOn, Step;
    RouteAt(f.threeD, f.width, t.at, to, n);
    if n > 0 {
      TravelAt(f, t, to, p, analytical, n - 1);
      RouteAt(f.threeD, f.width, t.at, to, n - 1);
    }
  }

  /** Links off the route are left alone. */
  lemma {:induction false} OffRoute(f: Fabric, t: Trip, to: Coord, p: nat, analytical: nat -> nat, n: nat, l: Coord)
    requires InGrid(f.threeD, f.width, t.at) && InGrid(f.threeD, f.width, to) && n <= Distance(t.at, to)
    requires forall i :: 0 <= i < n ==> LinkSlot(f.threeD, f.width, PlaceOf(t.at, to, i), Directions(t.at, to)[i]) != l
    ensures QueueAt(Travel(f, t, Directions(t.at, to), p, analytical, n).links, l) == QueueAt(t.links, l)
  {
    hide PlaceOf, Directions, LinkSlot, Distance, Step, InGrid, WaitOn, Edge, Hop, QueueAt;
    if n > 0 {
      OffRoute(f, t, to, p, analytical, n - 1, l);
      TravelAt(f, t, to, p, analytical, n - 1);
      HopElsewhere(f, Travel(f, t, Directions(t.at, to), p, analytical, n - 1), Directions(t.at, to)[n - 1], p, analytical(n - 1), l);
    }
  }

  lemma HopElsewhere(f: Fabric, t: Trip, d: Direction, p: nat, analytical: nat, l: Coord)
    ensures l != SlotOf(f, t, d) ==> QueueAt(Hop(f, t, d, p, analytical).links, l) == QueueAt(t.links, l)
  {
    hide LinkSlot, WaitOn, Step;
  }

  lemma HopAt(f: Fabric, t: Trip, d: Direction, p: nat, analytical: nat)
    requires SlotOf(f, t, d) in t.links
    ensures var l, r := SlotOf(f, t, d), Queue.Request(t.time + f.router, p);
      Hop(f, t, d, p, analytical) == Trip(t.links[l := Queue.After(t.links[l], r, f.link)],
        t.time + f.router + (Queue.Answer(t.links[l], r, analytical) + f.link), Step(t.at, d))
  {
    hide LinkSlot, Step, Queue.After, Queue.Answer;
  }

  lemma GrownAt(w: map<Coord, seq<Queue.Window>>, l: Coord, more: seq<Queue.Window>)
    requires l in w
    ensures Grown(w, w[l := w[l] + more])
  {
  }

  /** An idle link makes nobody wait. */
  lemma IdleLink(r: Queue.Request, analytical: nat)
    requires r.pkt + r.p <= Queue.UINT64_MAX
    ensures Queue.Answer([Queue.Gap(0, Queue.UINT64_MAX)], r, analytical) == 0
  {
  }

  /** A packet that finds the links of its route idle takes the contention-free time. */
  lemma {:induction false} FirstPacket(f: Fabric, t: Trip, to: Coord, p: nat, analytical: nat -> nat, n: nat)
    requires InGrid(f.threeD, f.width, t.at) && InGrid(f.threeD, f.width, to) && n <= Distance(t.at, to)
    requires forall i :: 0 <= i < n ==>
      QueueAt(t.links, LinkSlot(f.threeD, f.width, PlaceOf(t.at, to, i), Directions(t.at, to)[i])) == [Queue.Gap(0, Queue.UINT64_MAX)]
    requires t.time + Mul(n, f.router) + Mul(n, f.link) + p <= Queue.UINT64_MAX
    ensures Waits(f, t, Directions(t.at, to), p, analytical, n) == 0
  {
    hide PlaceOf, Directions, LinkSlot, Distance, Step, InGrid, WaitOn, Waits, Travel, Mul;
    if n > 0 {
      var m, dirs := n - 1, Directions(t.at, to);
      MulNext(m, f.router);
      MulNext(m, f.link);
      FirstPacket(f, t, to, p, analytical, m);
      TravelSplits(f, t, dirs, p, analytical, m);
      TravelAt(f, t, to, p, analytical, m);
      var l := LinkSlot(f.threeD, f.width, PlaceOf(t.at, to, m), dirs[m]);
      forall i | 0 <= i < m
        ensures LinkSlot(f.threeD, f.width, PlaceOf(t.at, to, i), dirs[i]) != l
      {
        SlotsApart(f.threeD, f.width, t.at, to, i, m);
      }
      OffRoute(f, t, to, p, analytical, m, l);
      NoWait(f, Travel(f, t, dirs, p, analytical, m), dirs[m], p, analytical(m));
      WaitsStep(f, t, dirs, p, analytical, m);
    } else {
      NoWaits(f, t, Directions(t.at, to), p, analytical);
    }
  }

  lemma NoWait(f: Fabric, t: Trip, d: Direction, p: nat, analytical: nat)
    requires QueueAt(t.links, SlotOf(f, t, d)) == [Queue.Gap(0, Queue.UINT64_MAX)] && t.time + f.router + p <= Queue.UINT64_MAX
    ensures WaitOn(f, t, d, p, analytical) == 0
  {
    IdleLink(Queue.Request(t.time + f.router, p), analytical);
  }

  lemma WaitsStep(f: Fabric, t: Trip, dirs: seq<Direction>, p: nat, analytical: nat -> nat, n: nat)
    requires n < |dirs|
    ensures Waits(f, t, dirs, p, analytical, n + 1)
      == Waits(f, t, dirs, p, analytical, n) + WaitOn(f, Travel(f, t, dirs, p, analytical, n), dirs[n], p, analytical(n))
  {
  }

  lemma NoWaits(f: Fabric, t: Trip, dirs: seq<Direction>, p: nat, analytical: nat -> nat)
    ensures Waits(f, t, dirs, p, analytical, 0) == 0
  {
  }

  lemma MulNext(a: nat, b: nat)
    ensures Mul(a + 1, b) == Mul(a, b) + b
  {
  }

  lemma MulPlus(a: nat, b: nat, c: nat)
    ensures Mul(a + b, c) == Mul(a, c) + Mul(b, c)
  {
  }

  /** A second packet of the same length that comes to a link together with a first one waits for it. */
  lemma SecondCrossing(f: Fabric, t: Trip, d: Direction, p: nat, a: nat, b: nat)
    requires QueueAt(t.links, SlotOf(f, t, d)) == [Queue.Gap(0, Queue.UINT64_MAX)] && p >= 1 && f.link >= 1
    requires t.time + f.router + 2 * p + f.link <= Queue.UINT64_MAX
    ensures var u := Hop(f, t, d, p, a);
      u.time == t.time + f.router + f.link && Hop(f, t.(links := u.links), d, p, b).time == u.time + p
  {
    hide Queue.Answer, Queue.After;
    Queue.SecondWaits(Queue.Request(t.time + f.router, p), f.link, a, b);
  }

  lemma SameDistance(c: Coord)
    ensures Distance(c, c) == 0
  {
  }

  /** `ceil(data_len / data_width)` */
  function Flits(dataLen: nat, width: nat): nat
    requires width > 0
  {
    if Rem(dataLen, width) == 0 then Quo(dataLen, width) else Quo(dataLen, width) + 1
  }

  /** The least number of flits that have room for the data. */
  lemma FlitsLeast(dataLen: nat, width: nat)
    requires width > 0
    ensures Mul(Flits(dataLen, width), width) >= dataLen
    ensures Flits(dataLen, width) > 0 ==> Mul(Flits(dataLen, width) - 1, width) < dataLen
  {
    DivModSplits(dataLen, width);
    MulNext(Quo(dataLen, width), width);
    if Flits(dataLen, width) > 0 { MulNext(Flits(dataLen, width) - 1, width); }
  }

  /** The coordinate a direction changes. */
  function Along(c: Coord, d: Direction): int {
    match d
    case East => c.x
    case West => c.x
    case South => c.y
    case North => c.y
    case _ => c.z
  }

  predicate Ahead(d: Direction) {
    d == East || d == South || d == Up
  }

  function Moved(c: Coord, d: Direction, v: int): Coord {
    match d
    case East => c.(x := v)
    case West => c.(x := v)
    case South => c.(y := v)
    case North => c.(y := v)
    case _ => c.(z := v)
  }

  lemma StaysInGrid(threeD: bool, w: nat, to: Coord, c: Coord, d: Direction)
    requires InGrid(threeD, w, to) && InGrid(threeD, w, c) && Along(to, d) != Along(c, d)
    requires Ahead(d) <==> Along(to, d) > Along(c, d)
    ensures Edge(threeD, w, c, d) && Step(c, d) == Moved(c, d, Along(c, d) + if Ahead(d) then 1 else -1)
  {
  }

  /** The directions from position n on are those of one dimension. */
  ghost predicate Leads(dirs: seq<Direction>, n: nat, d: Direction, count: nat) {
    n + count <= |dirs| && forall i :: n <= i < n + count ==> dirs[i] == d
  }

  lemma DirectionsLead(from: Coord, to: Coord)
    ensures var dirs, a, b := Directions(from, to), Abs(to.x - from.x), Abs(to.y - from.y);
      && Leads(dirs, 0, if to.x > from.x then East else West, a)
      && Leads(dirs, a, if to.y > from.y then South else North, b)
      && Leads(dirs, a + b, if to.z > from.z then Up else Down, Abs(to.z - from.z))
  {
  }

  lemma TravelStart(f: Fabric, t: Trip, dirs: seq<Direction>, p: nat, analytical: nat -> nat)
    ensures Travel(f, t, dirs, p, analytical, 0) == t
  {
  }

  lemma TravelStep(f: Fabric, t: Trip, dirs: seq<Direction>, p: nat, analytical: nat -> nat, n: nat)
    requires n < |dirs|
    ensures Travel(f, t, dirs, p, analytical, n + 1) == Hop(f, Travel(f, t, dirs, p, analytical, n), dirs[n], p, analytical(n))
  {
  }

  function Later(a: nat, b: nat): nat {
    if a > b then a else b
  }

  /** The longest a hop can move the clock or the horizon. */
  function HopBound(f: Fabric, p: nat, most: nat): nat {
    f.router + f.link + p + most
  }

  /** Windows are only added. */
  ghost predicate Grown(w0: map<Coord, seq<Queue.Window>>, w1: map<Coord, seq<Queue.Window>>) {
    w0.Keys == w1.Keys && forall l: Coord | l in w0 :: w0[l] <= w1[l]
  }

  lemma GrownTrans(w0: map<Coord, seq<Queue.Window>>, w1: map<Coord, seq<Queue.Window>>, w2: map<Coord, seq<Queue.Window>>)
    requires Grown(w0, w1) && Grown(w1, w2)
    ensures Grown(w0, w2)
  {
    forall l: Coord | l in w0
      ensures w0[l] <= w2[l]
    {
      assert l in w1 && w0[l] <= w1[l] && w1[l] <= w2[l];
    }
  }

  lemma GrownSelf(w: map<Coord, seq<Queue.Window>>)
    ensures Grown(w, w)
  {
  }

  /** The n-th link of a trip was occupied for p cycles, just before the packet went over it, unless the
      packet was too old for its queue. */
  ghost predicate Booked(f: Fabric, t: Trip, dirs: seq<Direction>, p: nat, analytical: nat -> nat, n: nat,
                         served: map<Coord, seq<Queue.Window>>)
    requires n < |dirs|
  {
    var u, v := Travel(f, t, dirs, p, analytical, n), Travel(f, t, dirs, p, analytical, n + 1);
    var l := SlotOf(f, u, dirs[n]);
    || Queue.Old(Queue.Pruned(QueueAt(u.links, l)), u.time + f.router, p)
    || (l in served && v.time >= f.link && Queue.Window(v.time - f.link, v.time - f.link + p) in served[l])
  }

  lemma BookedKept(f: Fabric, t: Trip, dirs: seq<Direction>, p: nat, analytical: nat -> nat, n: nat,
                   w0: map<Coord, seq<Queue.Window>>, w1: map<Coord, seq<Queue.Window>>)
    requires n < |dirs| && Booked(f, t, dirs, p, analytical, n, w0) && Grown(w0, w1)
    ensures Booked(f, t, dirs, p, analytical, n, w1)
  {
    hide Travel, Queue.Old, Queue.Pruned;
  }

  ghost predicate AllInOrder(links: map<Coord, seq<Item>>, served: map<Coord, seq<Queue.Window>>, horizon: nat) {
    forall l: Coord | l in links :: l in served && Queue.InOrder(links[l], served[l], horizon)
  }

  /** Serving one link keeps all of them in order. */
  lemma LinkServed(links: map<Coord, seq<Item>>, served: map<Coord, seq<Queue.Window>>, horizon: nat, l: Coord, r: Queue.Request,
                   link: nat, analytical: nat)
    requires AllInOrder(links, served, horizon) && l in links && l in served && link >= 1 && r.p >= 1
    requires Later(r.pkt, horizon) + r.p + link <= Queue.UINT64_MAX
    ensures AllInOrder(links[l := Queue.After(links[l], r, link)], served[l := served[l] + Queue.WindowOf(links[l], r)], Later(r.pkt, horizon) + r.p)
    ensures r.pkt + Queue.Answer(links[l], r, analytical) <= Later(Later(r.pkt, horizon), r.pkt + analytical)
  {
    hide Queue.Answer, Queue.After, Queue.InOrder, Queue.WindowOf;
    Queue.ServeKeeps(links[l], served[l], horizon, r, link, analytical);
    var later := Later(r.pkt, horizon) + r.p;
    forall m: Coord | m in links && m != l
      ensures Queue.InOrder(links[m], served[m], later)
    {
      LaterHorizon(links[m], served[m], horizon, later);
    }
  }

  lemma LaterHorizon(q: seq<Item>, ws: seq<Queue.Window>, h0: nat, h1: nat)
    requires Queue.InOrder(q, ws, h0) && h0 <= h1
    ensures Queue.InOrder(q, ws, h1)
  {
  }

  /** Unless it is too old, a request is granted a window that starts when its answer says. */
  lemma OwnWindow(q: seq<Item>, r: Queue.Request, analytical: nat)
    ensures Queue.Old(Queue.Pruned(q), r.pkt, r.p)
      || Queue.Window(r.pkt + Queue.Answer(q, r, analytical), r.pkt + Queue.Answer(q, r, analytical) + r.p) in Queue.WindowOf(q, r)
  {
  }

  datatype Packet = Packet(sender: nat, receiver: nat, dataLen: nat, timer: nat)

  class Network {
    const threeD: bool
    const width: nat
    const nodes: nat
    const dataWidth: nat
    const headerFlits: nat
    const routerDelay: nat
    const linkDelay: nat
    const injectDelay: nat
    var links: map<Coord, seq<Item>>   // the queue of every link, as free intervals
    var accesses: nat
    var totalDelay: nat
    var totalRouter: nat
    var totalLink: nat
    var totalInject: nat
    var totalDistance: nat
    ghost var totalPipe: nat
    ghost var served: map<Coord, seq<Queue.Window>>   // the windows in which links were occupied
    ghost var horizon: nat                            // all times are free from here on

    /** Every allocated link has a queue; the totals account for all time, and links take at least their own
        delay. */
    ghost predicate Valid()
      reads this
    {
      && width > 0 && nodes <= Room(threeD, width) && dataWidth > 0 && headerFlits > 0
      && Wired()
      && totalDelay == totalRouter + totalLink + totalInject + totalPipe
      && totalLink >= Mul(totalDistance, linkDelay)
      && totalRouter == Mul(totalDistance + accesses, routerDelay)
      && totalInject == Mul(accesses, injectDelay)
    }

    ghost predicate Wired()
      reads this
    {
      served.Keys == links.Keys && forall l: Coord :: l in links <==> Allocated(threeD, width, l)
    }

    /** No link was ever occupied twice at one time, and what is free was never used. */
    ghost predicate Orderly()
      reads this
    {
      linkDelay >= 1 && AllInOrder(links, served, horizon)
    }

    /** Time is left for so many more hops that take no longer than `each`. */
    ghost predicate Calm(time: nat, left: nat, each: nat, cap: nat)
      reads this
    {
      Orderly() && Later(time, horizon) + Mul(left, each) <= cap <= Queue.UINT64_MAX
    }

    function Parts(): Fabric {
      Fabric(threeD, width, routerDelay, linkDelay)
    }

    /** A packet leaves its sender. */
    ghost function Departure(sender: nat, timer: nat): Trip
      requires width > 0
      reads this
    {
      Trip(links, timer + injectDelay, GetLoc(threeD, width, sender))
    }

    constructor (threeD: bool, width: nat, nodes: nat, dataWidth: nat, headerFlits: nat, routerDelay: nat, linkDelay: nat,
                 injectDelay: nat)
      requires width > 0 && nodes <= Room(threeD, width) && dataWidth > 0 && headerFlits > 0
      ensures Valid() && this.threeD == threeD && this.width == width && this.nodes == nodes && this.dataWidth == dataWidth
      ensures this.headerFlits == headerFlits && Parts() == Fabric(threeD, width, routerDelay, linkDelay) && this.injectDelay == injectDelay
      ensures forall l | l in links :: links[l] == [Queue.Gap(0, Queue.UINT64_MAX)]
      ensures (linkDelay >= 1 ==> Orderly()) && horizon == 0 && forall l | l in served :: served[l] == []
    {
      this.threeD, this.width, this.nodes, this.dataWidth := threeD, width, nodes, dataWidth;
      this.headerFlits, this.routerDelay, this.linkDelay, this.injectDelay := headerFlits, routerDelay, linkDelay, injectDelay;
      links := map x, y, z | 0 <= x < width && 0 <= y < 2 * width && 0 <= z < 3 * width && Allocated(threeD, width, Coord(x, y, z)) ::
        Coord(x, y, z) := [Queue.Gap(0, Queue.UINT64_MAX)];
      accesses, totalDelay, totalRouter, totalLink, totalInject, totalDistance, totalPipe := 0, 0, 0, 0, 0, 0, 0;
      new;
      served := map l | l in links :: [];
      horizon := 0;
    }

    /** `transmit`; analytical(h) is the result of the analytical model should the h-th link use it. */
    method Transmit(sender: nat, receiver: nat, dataLen: nat, timer: nat, analytical: nat -> nat, ghost most: nat) returns (delay: nat)
      requires Valid() && sender < nodes && receiver < nodes
      modifies this
      ensures Valid() && Grown(old(served), served)
      ensures old(Orderly()) && (forall h :: analytical(h) <= most) ==>
        var d := Distance(GetLoc(threeD, width, sender), GetLoc(threeD, width, receiver));
        var cap := Later(timer + injectDelay, old(horizon)) + Mul(d, HopBound(Parts(), headerFlits + Flits(dataLen, dataWidth), most));
        cap <= Queue.UINT64_MAX ==> Orderly() && horizon <= cap
      ensures sender == receiver ==>
        delay == 0 && totalDelay == old(totalDelay) && accesses == old(accesses) && links == old(links) && served == old(served)
      ensures sender != receiver ==>
        var from, to := GetLoc(threeD, width, sender), GetLoc(threeD, width, receiver);
        var d, dirs, p, t := Distance(from, to), Directions(from, to), headerFlits + Flits(dataLen, dataWidth), old(Departure(sender, timer));
        && delay == injectDelay + Mul(d + 1, routerDelay) + Mul(d, linkDelay) + Waits(Parts(), t, dirs, p, analytical, d) + (p - 1)
        && links == Travel(Parts(), t, dirs, p, analytical, d).links
        && (forall n :: 0 <= n < d ==> Booked(Parts(), t, dirs, p, analytical, n, served))
        && totalDelay == old(totalDelay) + delay && totalDistance == old(totalDistance) + d && accesses == old(accesses) + 1
    {
      hide GetLoc, Room, Flits, Mul, Waits, InGrid, Travel, Distance, Directions, Allocated, Booked, Grown, HopBound;
      GrownSelf(served);
      if sender == receiver {
        SameDistance(GetLoc(threeD, width, sender));
        return 0;
      }
      var packetLen := headerFlits + Flits(dataLen, dataWidth);
      LocInverts(threeD, width, sender);
      LocInverts(threeD, width, receiver);
      hide Network.Valid, Network.Wired, Network.Orderly;
      var from, to := GetLoc(threeD, width, sender), GetLoc(threeD, width, receiver);
      var localTimer := timer + injectDelay;
      var distance;
      ghost var start := Trip(links, localTimer, from);
      ghost var each := HopBound(Parts(), packetLen, most);
      ghost var cap := Later(localTimer, horizon) + Mul(Distance(from, to), each);
      ghost var calm := Orderly() && (forall h :: analytical(h) <= most) && cap <= Queue.UINT64_MAX;
      localTimer, distance := Legs(from, to, localTimer, packetLen, analytical, most, cap, calm);
      localTimer := localTimer + routerDelay;
      localTimer := localTimer + (packetLen - 1);
      TravelSplits(Parts(), start, Directions(from, to), packetLen, analytical, distance);
      MulNext(distance, routerDelay);
      Account(localTimer - timer, distance, packetLen - 1, Waits(Parts(), start, Directions(from, to), packetLen, analytical, distance));
      delay := localTimer - timer;
    }

    /** The walk of `transmit`: first along x, then y, then z. */
    method Legs(from: Coord, to: Coord, start: nat, packetLen: nat, analytical: nat -> nat, ghost most: nat, ghost cap: nat, ghost calm: bool)
      returns (localTimer: nat, distance: nat)
      requires Wired() && InGrid(threeD, width, from) && InGrid(threeD, width, to) && packetLen >= 1
      requires calm ==>
        Calm(start, Distance(from, to), HopBound(Parts(), packetLen, most), cap) && forall h :: analytical(h) <= most
      modifies `links, `served, `horizon
      ensures Wired() && distance == Distance(from, to) && Grown(old(served), served)
      ensures calm ==> Orderly() && horizon <= cap
      ensures var t, dirs := old(Trip(links, start, from)), Directions(from, to);
        && Trip(links, localTimer, to) == Travel(Parts(), t, dirs, packetLen, analytical, distance)
        && forall n :: 0 <= n < distance ==> Booked(Parts(), t, dirs, packetLen, analytical, n, served)
    {
      ghost var t, dirs := Trip(links, start, from), Directions(from, to);
      DirectionsLead(from, to);
      TravelStart(Parts(), t, dirs, packetLen, analytical);
      GrownSelf(served);
      hide InGrid, Travel, Directions, Leads, Network.Wired, Grown, Booked, HopBound, Mul, Network.Orderly;
      var cur, hops := from, 0;
      localTimer := start;
      distance := 0;
      ghost var w0 := served;
      distance := distance + Abs(to.x - cur.x);
      cur, localTimer, hops :=
        Leg(to, cur, if to.x > cur.x then East else West, localTimer, hops, packetLen, analytical, t, dirs, most, cap, calm);
      ghost var w1 := served;
      distance := distance + Abs(to.y - cur.y);
      cur, localTimer, hops :=
        Leg(to, cur, if to.y > cur.y then South else North, localTimer, hops, packetLen, analytical, t, dirs, most, cap, calm);
      GrownTrans(w0, w1, served);
      ghost var w2 := served;
      distance := distance + Abs(to.z - cur.z);
      cur, localTimer, hops :=
        Leg(to, cur, if to.z > cur.z then Up else Down, localTimer, hops, packetLen, analytical, t, dirs, most, cap, calm);
      GrownTrans(w0, w2, served);
    }

    /** One of the three loops of `transmit`: along one dimension until the receiver's coordinate is met. */
    method Leg(to: Coord, at: Coord, dir: Direction, time: nat, passed: nat, packetLen: nat, analytical: nat -> nat,
               ghost t: Trip, ghost dirs: seq<Direction>, ghost most: nat, ghost cap: nat, ghost calm: bool)
      returns (cur: Coord, localTimer: nat, hops: nat)
      requires Wired() && InGrid(threeD, width, to) && InGrid(threeD, width, at) && packetLen >= 1
      requires Along(to, dir) != Along(at, dir) ==> (Ahead(dir) <==> Along(to, dir) > Along(at, dir))
      requires Leads(dirs, passed, dir, Abs(Along(to, dir) - Along(at, dir)))
      requires Trip(links, time, at) == Travel(Parts(), t, dirs, packetLen, analytical, passed)
      requires forall n :: 0 <= n < passed ==> Booked(Parts(), t, dirs, packetLen, analytical, n, served)
      requires calm ==>
        Calm(time, |dirs| - passed, HopBound(Parts(), packetLen, most), cap) && forall h :: analytical(h) <= most
      modifies `links, `served, `horizon
      ensures Wired() && cur == Moved(at, dir, Along(to, dir)) && InGrid(threeD, width, cur) && Grown(old(served), served)
      ensures hops == passed + Abs(Along(to, dir) - Along(at, dir)) <= |dirs|
      ensures Trip(links, localTimer, cur) == Travel(Parts(), t, dirs, packetLen, analytical, hops)
      ensures forall n :: 0 <= n < hops ==> Booked(Parts(), t, dirs, packetLen, analytical, n, served)
      ensures calm ==> Calm(localTimer, |dirs| - hops, HopBound(Parts(), packetLen, most), cap)
    {
      hide Travel, Hop, WaitOn, Network.Wired, Network.Calm, Booked, Grown, HopBound, Queue.Old, Queue.Pruned;
      cur, localTimer, hops := at, time, passed;
      GrownSelf(served);
      while Along(to, dir) != Along(cur, dir)
        invariant cur == Moved(at, dir, Along(cur, dir)) && InGrid(threeD, width, cur)
        invariant Along(to, dir) != Along(cur, dir) ==> (Ahead(dir) <==> Along(to, dir) > Along(cur, dir))
        invariant hops + Abs(Along(to, dir) - Along(cur, dir)) == passed + Abs(Along(to, dir) - Along(at, dir))
        invariant passed <= hops <= |dirs| && Wired() && Grown(old(served), served)
        invariant Trip(links, localTimer, cur) == Travel(Parts(), t, dirs, packetLen, analytical, hops)
        invariant forall n :: 0 <= n < hops ==> Booked(Parts(), t, dirs, packetLen, analytical, n, served)
        invariant calm ==> Calm(localTimer, |dirs| - hops, HopBound(Parts(), packetLen, most), cap)
        decreases Abs(Along(to, dir) - Along(cur, dir))
      {
        StaysInGrid(threeD, width, to, cur, dir);
        TravelStep(Parts(), t, dirs, packetLen, analytical, hops);
        ghost var w := served;
        localTimer := OneHop(cur, dir, localTimer, hops, packetLen, analytical, t, dirs, most, cap, calm);
        GrownTrans(old(served), w, served);
        cur := Step(cur, dir);
        hops := hops + 1;
      }
    }

    /** One turn of the loops, with what it keeps. */
    method OneHop(cur: Coord, dir: Direction, time: nat, hops: nat, packetLen: nat, analytical: nat -> nat,
                  ghost t: Trip, ghost dirs: seq<Direction>, ghost most: nat, ghost cap: nat, ghost calm: bool)
      returns (localTimer: nat)
      requires Wired() && Edge(threeD, width, cur, dir) && packetLen >= 1 && hops < |dirs| && dirs[hops] == dir
      requires Trip(links, time, cur) == Travel(Parts(), t, dirs, packetLen, analytical, hops)
      requires forall n :: 0 <= n < hops ==> Booked(Parts(), t, dirs, packetLen, analytical, n, served)
      requires calm ==>
        Calm(time, |dirs| - hops, HopBound(Parts(), packetLen, most), cap) && forall h :: analytical(h) <= most
      modifies `links, `served, `horizon
      ensures Wired() && Grown(old(served), served)
      ensures Trip(links, localTimer, Step(cur, dir)) == Travel(Parts(), t, dirs, packetLen, analytical, hops + 1)
      ensures forall n :: 0 <= n < hops + 1 ==> Booked(Parts(), t, dirs, packetLen, analytical, n, served)
      ensures calm ==> Calm(localTimer, |dirs| - (hops + 1), HopBound(Parts(), packetLen, most), cap)
    {
      hide Travel, Hop, WaitOn, Network.Wired, Network.Orderly, Queue.Old, Queue.Pruned, Mul, Edge, Step, LinkSlot;
      ghost var w0, l0, h0 := served, links, horizon;
      TravelStep(Parts(), t, dirs, packetLen, analytical, hops);
      MulNext(|dirs| - hops - 1, HopBound(Parts(), packetLen, most));
      localTimer := TakeLink(cur, dir, time, packetLen, analytical(hops));
      forall n | 0 <= n < hops
        ensures Booked(Parts(), t, dirs, packetLen, analytical, n, served)
      {
        BookedKept(Parts(), t, dirs, packetLen, analytical, n, w0, served);
      }
    }

    /** The router, and the queue of the link that `getLink` finds. */
    method TakeLink(cur: Coord, dir: Direction, time: nat, packetLen: nat, analytical: nat) returns (localTimer: nat)
      requires Wired() && Edge(threeD, width, cur, dir) && packetLen >= 1
      modifies `links, `served, `horizon
      ensures Wired() && Trip(links, localTimer, Step(cur, dir)) == Hop(Parts(), old(Trip(links, time, cur)), dir, packetLen, analytical)
      ensures localTimer >= time + routerDelay + linkDelay && Grown(old(served), served)
      ensures var l := LinkSlot(threeD, width, cur, dir);
        && l in old(links) && l in served
        && (Queue.Old(Queue.Pruned(old(links)[l]), time + routerDelay, packetLen)
            || Queue.Window(localTimer - linkDelay, localTimer - linkDelay + packetLen) in served[l])
      ensures horizon == Later(time + routerDelay, old(horizon)) + packetLen
      ensures old(Orderly()) && Later(time + routerDelay, old(horizon)) + packetLen + linkDelay <= Queue.UINT64_MAX ==>
        Orderly() && localTimer <= Later(Later(time + routerDelay, old(horizon)), time + routerDelay + analytical) + linkDelay
    {
      hide Queue.Answer, Queue.After, Edge, Step, GetLink, LinkSlot, Allocated, Queue.WindowOf, Queue.Old, Queue.Pruned, AllInOrder;
      hide Hop, Grown;
      LinkExists(threeD, width, cur, dir);
      HopAt(Parts(), Trip(links, time, cur), dir, packetLen, analytical);
      GrownAt(served, LinkSlot(threeD, width, cur, dir),
              Queue.WindowOf(links[LinkSlot(threeD, width, cur, dir)], Queue.Request(time + routerDelay, packetLen)));
      localTimer := time + routerDelay;
      var link := GetLink(threeD, width, cur, dir);
      var request := Queue.Request(localTimer, packetLen);
      OwnWindow(links[link.value], request, analytical);
      if Orderly() && Later(localTimer, horizon) + packetLen + linkDelay <= Queue.UINT64_MAX {
        LinkServed(links, served, horizon, link.value, request, linkDelay, analytical);
      }
      served := served[link.value := served[link.value] + Queue.WindowOf(links[link.value], request)];
      horizon := Later(localTimer, horizon) + packetLen;
      localTimer := localTimer + (Queue.Answer(links[link.value], request, analytical) + linkDelay);
      links := links[link.value := Queue.After(links[link.value], request, linkDelay)];
    }

    /** The updates of the totals at the end of `transmit`. */
    method Account(delay: nat, distance: nat, pipe: nat, ghost waits: nat)
      requires Valid()
      requires delay == injectDelay + Mul(distance + 1, routerDelay) + Mul(distance, linkDelay) + waits + pipe
      modifies this
      ensures Valid() && totalDelay == old(totalDelay) + delay && totalDistance == old(totalDistance) + distance
      ensures links == old(links) && served == old(served) && horizon == old(horizon)
      ensures accesses == old(accesses) + 1 && totalLink == old(totalLink) + Mul(distance, linkDelay) + waits
    {
      MulNext(accesses, injectDelay);
      MulPlus(totalDistance, distance, linkDelay);
      MulPlus(totalDistance + accesses, distance + 1, routerDelay);
      assert totalDistance + accesses + (distance + 1) == totalDistance + distance + (accesses + 1);
      hide Mul, Room;
      accesses := accesses + 1;
      totalDelay := totalDelay + delay;
      totalRouter := totalRouter + Mul(distance + 1, routerDelay);
      totalLink := totalLink + (delay - Mul(distance + 1, routerDelay) - pipe - injectDelay);
      totalInject := totalInject + injectDelay;
      totalDistance := totalDistance + distance;
      totalPipe := totalPipe + pipe;
    }

    // ----- Runs ----------------------------------------------------------------------------------------------

    function Links(p: Packet): nat
      requires width > 0
    {
      Distance(GetLoc(threeD, width, p.sender), GetLoc(threeD, width, p.receiver))
    }

    function Length(p: Packet): nat
      requires dataWidth > 0
    {
      headerFlits + Flits(p.dataLen, dataWidth)
    }

    /** The time that a run can take at most, one packet after the other. */
    function Load(ps: seq<Packet>, most: nat): nat
      requires width > 0 && dataWidth > 0
    {
      if |ps| == 0 then 0
      else
        var p := ps[|ps| - 1];
        Load(ps[..|ps| - 1], most) + Mul(Links(p), HopBound(Parts(), Length(p), most))
    }

    lemma {:induction false} LoadGrows(ps: seq<Packet>, n: nat, most: nat)
      requires width > 0 && dataWidth > 0 && n < |ps|
      ensures Load(ps[..n + 1], most) == Load(ps[..n], most) + Mul(Links(ps[n]), HopBound(Parts(), Length(ps[n]), most))
      ensures Load(ps[..n + 1], most) <= Load(ps, most)
      decreases |ps|
    {
      hide Mul, HopBound;
      assert ps[..n + 1][..n] == ps[..n];
      if n + 1 == |ps| {
        assert ps[..n + 1] == ps;
      } else {
        LoadGrows(ps[..|ps| - 1], n, most);
        assert ps[..|ps| - 1][..n + 1] == ps[..n + 1] && ps[..|ps| - 1][..n] == ps[..n];
      }
    }

    /** Along every run whose times stay within 64 bits, no link is occupied twice at one time, and every
        packet takes at least the contention-free time. */
    method Run(ps: seq<Packet>, analytical: nat -> nat, ghost most: nat, ghost t: nat) returns (delays: seq<nat>)
      requires Valid() && Orderly() && forall h :: analytical(h) <= most
      requires forall i :: 0 <= i < |ps| ==> ps[i].sender < nodes && ps[i].receiver < nodes && ps[i].timer + injectDelay <= t
      requires Later(t, horizon) + Load(ps, most) <= Queue.UINT64_MAX
      modifies this
      ensures Valid() && Orderly() && Grown(old(served), served) && |delays| == |ps|
      ensures forall l: Coord | l in served :: Queue.AllApart(served[l])
      ensures forall i :: 0 <= i < |ps| ==> if ps[i].sender == ps[i].receiver then delays[i] == 0 else
        delays[i] >= injectDelay + Mul(Links(ps[i]) + 1, routerDelay) + Mul(Links(ps[i]), linkDelay) + (Length(ps[i]) - 1)
    {
      hide Load, Mul, HopBound, Grown, Distance, GetLoc, Flits, Network.Orderly, Waits, Travel, Booked, Directions, Queue.AllApart;
      delays := [];
      GrownSelf(served);
      assert ps[..|ps|] == ps && ps[..0] == [];
      NoLoad(most);
      var n := 0;
      while n < |ps|
        invariant 0 <= n <= |ps| && |delays| == n && Valid() && Orderly() && Grown(old(served), served)
        invariant Later(t, horizon) <= Later(t, old(horizon)) + Load(ps[..n], most)
        invariant forall i :: 0 <= i < n ==> if ps[i].sender == ps[i].receiver then delays[i] == 0 else
          delays[i] >= injectDelay + Mul(Links(ps[i]) + 1, routerDelay) + Mul(Links(ps[i]), linkDelay) + (Length(ps[i]) - 1)
      {
        LoadGrows(ps, n, most);
        ghost var w := served;
        var delay := Transmit(ps[n].sender, ps[n].receiver, ps[n].dataLen, ps[n].timer, analytical, most);
        GrownTrans(old(served), w, served);
        delays := delays + [delay];
        n := n + 1;
      }
      AllOrderly();
    }

    lemma NoLoad(most: nat)
      requires width > 0 && dataWidth > 0
      ensures Load([], most) == 0
    {
    }

    /** A link that was never used. */
    lemma Idle(d: Direction, sender: nat, timer: nat)
      requires Valid() && Allocated(threeD, width, LinkSlot(threeD, width, GetLoc(threeD, width, sender), d))
      requires forall l | l in links :: links[l] == [Queue.Gap(0, Queue.UINT64_MAX)]
      ensures QueueAt(links, SlotOf(Parts(), Departure(sender, timer), d)) == [Queue.Gap(0, Queue.UINT64_MAX)]
    {
    }

    lemma AllOrderly()
      requires Wired() && Orderly()
      ensures forall l: Coord | l in served :: Queue.AllApart(served[l])
    {
      hide Queue.AllApart;
    }
  }

  /** Two packets of nine flits from node 0 to node 1 of a small mesh, both at time 0: the second waits for the
      first. */
  method TwoPackets() returns (first: nat, second: nat)
    ensures first == 11 && second == 20
  {
    hide Waits, Travel, Hop, WaitOn, Directions, Distance, GetLoc, Flits, Room, Booked, Grown, HopBound, Network.Valid, Network.Orderly;
    hide QueueAt, SlotOf;
    SmallMesh();
    var net := new Network(false, 2, 4, 8, 1, 1, 1, 0);
    net.Idle(East, 0, 0);
    ghost var t := net.Departure(0, 0);
    var none := (h: nat) => 0;
    SmallTrip(net.Parts(), t, none);
    first := net.Transmit(0, 1, 64, 0, none, 0);
    ghost var u := net.Departure(0, 0);
    SmallTrip(net.Parts(), u, none);
    BothWait(net.Parts(), t, u.links);
    second := net.Transmit(0, 1, 64, 0, none, 0);
  }

  lemma SmallMesh()
    ensures GetLoc(false, 2, 0) == Coord(0, 0, 0) && GetLoc(false, 2, 1) == Coord(1, 0, 0) && Flits(64, 8) == 8
    ensures Distance(Coord(0, 0, 0), Coord(1, 0, 0)) == 1 && Directions(Coord(0, 0, 0), Coord(1, 0, 0)) == [East]
    ensures Room(false, 2) == 4 && Allocated(false, 2, LinkSlot(false, 2, Coord(0, 0, 0), East))
  {
  }

  lemma SmallTrip(f: Fabric, t: Trip, analytical: nat -> nat)
    requires analytical(0) == 0
    ensures Waits(f, t, [East], 9, analytical, 1) == WaitOn(f, t, East, 9, 0)
    ensures Travel(f, t, [East], 9, analytical, 1) == Hop(f, t, East, 9, 0)
  {
    hide Hop, WaitOn;
    assert Travel(f, t, [East], 9, analytical, 0) == t;
    assert Waits(f, t, [East], 9, analytical, 0) == 0;
  }

  lemma BothWait(f: Fabric, t: Trip, links: map<Coord, seq<Item>>)
    requires QueueAt(t.links, SlotOf(f, t, East)) == [Queue.Gap(0, Queue.UINT64_MAX)] && f.link == f.router == 1 && t.time == 0
    requires links == Hop(f, t, East, 9, 0).links
    ensures WaitOn(f, t, East, 9, 0) == 0 && WaitOn(f, t.(links := links), East, 9, 0) == 9
  {
    SecondCrossing(f, t, East, 9, 0, 0);
    hide WaitOn;
  }
}
