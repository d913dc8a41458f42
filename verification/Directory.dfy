/** Directory MESI with one private cache per core: `accessDirectoryCache` and the branches of
    `mesi_directory` for the only level of `src/system.cpp`, in full-map and limited-pointer mode. */
module Directory {
  import opened CacheArray

  datatype Op = Rd | Wr | Wb

  function Core(c: int): Node {
    Node(0, c)
  }

  // ----- The invariant of one block --------------------------------------------------------------

  /** Block k in the caches v, with directory state ds and recorded sharers rec; what core x holds is
      left open.  The directory in M or E knows exactly one sharer, and nobody else holds the block; in M
      that sharer holds it in M, in E it holds it in M or E or lost it silently; in S or B nobody holds it in M or E; outside B only
      recorded sharers hold it; without an entry nobody does. */
  ghost predicate SoundBut(v: View, ds: State, rec: set<int>, cores: nat, k: Key, x: int) {
    && ds != V && (forall c | c in rec :: 0 <= c < cores)
    && (forall c {:trigger v(Core(c), k)} :: c != x ==> v(Core(c), k) <= M)
    && (ds == I ==> forall c {:trigger v(Core(c), k)} :: c != x ==> v(Core(c), k) == I)
    && (ds == E || ds == M ==> rec != {} && forall a, b | a in rec && b in rec :: a == b)
    && (ds == E || ds == M ==> forall c {:trigger v(Core(c), k)} :: c != x ==> v(Core(c), k) != S)
    && (ds == M ==> forall c {:trigger v(Core(c), k)} :: c != x && c in rec ==> v(Core(c), k) == M)
    && (ds == E || ds == M || ds == S ==> forall c {:trigger v(Core(c), k)} :: c != x && c !in rec ==> v(Core(c), k) == I)
    && (ds == S || ds == B ==> forall c {:trigger v(Core(c), k)} :: c != x ==> v(Core(c), k) <= S)
  }

  const NOBODY := -1

  ghost predicate Sound(v: View, ds: State, rec: set<int>, cores: nat, k: Key) {
    SoundBut(v, ds, rec, cores, k, NOBODY) && v(Core(NOBODY), k) == I
  }

  /** Single writer or many readers. */
  lemma OneWriter(v: View, ds: State, rec: set<int>, cores: nat, k: Key, c: int, d: int)
    requires Sound(v, ds, rec, cores, k) && c != d && v(Core(c), k) >= E
    ensures v(Core(d), k) == I
  {
    assert v(Core(d), k) <= M;
  }

  /** What the invariant says about the holders, in both directions. */
  lemma HoldersRecorded(v: View, ds: State, rec: set<int>, cores: nat, k: Key, c: int)
    requires Sound(v, ds, rec, cores, k) && v(Core(c), k) != I
    ensures ds != I && ds != V && (ds != B ==> c in rec) && (v(Core(c), k) >= E <==> ds == E || ds == M)
    ensures v(Core(c), k) >= E ==> rec == {c}
    ensures ds == M ==> v(Core(c), k) == M
  {
    assert forall a | a in rec :: a == c || ds == S || ds == B;
  }

  lemma Weaken(v: View, ds: State, rec: set<int>, cores: nat, k: Key, x: int)
    requires Sound(v, ds, rec, cores, k)
    ensures SoundBut(v, ds, rec, cores, k, x)
  {
  }

  /** An entry in M is backed by a core that holds the block in M: unlike E it is never lost silently. */
  lemma OwnerReal(v: View, rec: set<int>, cores: nat, k: Key) returns (c: int)
    requires Sound(v, M, rec, cores, k)
    ensures rec == {c} && 0 <= c < cores && v(Core(c), k) == M
  {
    NonEmpty(rec);
    c :| c in rec;
    Single(rec, c);
    assert v(Core(c), k) <= M;
  }

  lemma UnheldSound(v: View, cores: nat, k: Key)
    requires forall n: Node {:trigger v(n, k)} :: v(n, k) == I
    ensures Sound(v, I, {}, cores, k)
  {
  }

  /** Losing a copy that is not modified is harmless: evictions of clean lines need not be reported. */
  lemma SilentEviction(v: View, w: View, ds: State, rec: set<int>, cores: nat, k: Key, c: int)
    requires Sound(v, ds, rec, cores, k) && v(Core(c), k) < M
    requires forall n: Node {:trigger w(n, k)} :: w(n, k) == if n == Core(c) then I else v(n, k)
    ensures Sound(w, ds, rec, cores, k)
  {
  }

  // ----- The branches of accessDirectoryCache --------------------------------------------------------

  /** Everybody in rec was invalidated. */
  ghost predicate Invalidated(v: View, w: View, rec: set<int>, k: Key) {
    forall n: Node, q: Key {:trigger w(n, q)} :: w(n, q) == if q == k && n.level == 0 && n.id in rec then I else v(n, q)
  }

  function Lower(s: State): State {
    if s == M || s == E then S else s
  }

  ghost predicate Shared(v: View, w: View, c: int, k: Key) {
    forall n: Node, q: Key {:trigger w(n, q)} :: w(n, q) == if q == k && n == Core(c) then Lower(v(n, q)) else v(n, q)
  }

  /** The caches outside the system hold nothing. */
  ghost predicate Bounded(v: View, cores: nat) {
    forall n: Node, q: Key {:trigger v(n, q)} :: v(n, q) != I ==> n.level == 0 && 0 <= n.id < cores
  }

  /** The cores that are told to drop the block: the recorded ones, or all after an overflow. */
  ghost predicate Told(told: set<int>, ds: State, rec: set<int>, cores: nat) {
    && (ds == E || ds == M || ds == S ==> told == rec)
    && (ds == B ==> forall c :: 0 <= c < cores ==> c in told)
  }

  /** Dropping the block everywhere the directory says leaves nobody with it but possibly x. */
  lemma NobodyLeft(v: View, w: View, ds: State, rec: set<int>, told: set<int>, cores: nat, k: Key, x: int)
    requires SoundBut(v, ds, rec, cores, k, x) && Bounded(v, cores) && Told(told, ds, rec, cores) && Invalidated(v, w, told, k)
    ensures forall c {:trigger w(Core(c), k)} :: c != x ==> w(Core(c), k) == I
  {
    forall c | c != x
      ensures w(Core(c), k) == I
    {
      assert v(Core(c), k) <= M;
    }
  }

  lemma WriteGranted(w: View, cores: nat, k: Key, c: int)
    requires (forall d {:trigger w(Core(d), k)} :: d != c ==> w(Core(d), k) == I) && 0 <= c < cores
    ensures SoundBut(w, M, {c}, cores, k, c)
  {
  }

  /** A read of a block that one core owns. */
  lemma ReadOwned(v: View, w: View, ds: State, rec: set<int>, cores: nat, k: Key, c: int, o: int)
    requires SoundBut(v, ds, rec, cores, k, c) && (ds == E || ds == M) && o in rec && Shared(v, w, o, k) && 0 <= c < cores
    ensures SoundBut(w, S, rec + {c}, cores, k, c)
  {
    forall d | d != c
      ensures w(Core(d), k) <= S && (d !in rec + {c} ==> w(Core(d), k) == I)
    {
      assert v(Core(d), k) <= M;
    }
  }

  lemma ReadShared(v: View, ds: State, ds1: State, rec: set<int>, cores: nat, k: Key, c: int)
    requires SoundBut(v, ds, rec, cores, k, c) && 0 <= c < cores
    requires (ds == S && (ds1 == S || ds1 == B)) || (ds == B && ds1 == B)
    ensures SoundBut(v, ds1, rec + {c}, cores, k, c)
  {
  }

  /** The requester stores the state it was granted. */
  lemma Granted(v: View, w: View, ds: State, rec: set<int>, cores: nat, k: Key, c: int, r: State)
    requires SoundBut(v, ds, rec, cores, k, c) && c in rec && r <= M && v(Core(NOBODY), k) == I
    requires forall n: Node {:trigger w(n, k)} :: w(n, k) == if n == Core(c) then r else v(n, k)
    requires r >= E ==> ds == E || ds == M
    requires r == S ==> ds == S || ds == B
    requires (ds == I ==> r == I) && (ds == M ==> r == M)
    ensures Sound(w, ds, rec, cores, k)
  {
    assert c != NOBODY;
  }

  lemma NonEmpty(s: set<int>)
    ensures s == {} || exists c :: c in s
  {
    assert (forall c :: c !in s) ==> s == {};
  }

  lemma Single(s: set<int>, o: int)
    requires o in s && forall a, b | a in s && b in s :: a == b
    ensures s == {o}
  {
    assert forall a :: a in s <==> a in {o};
  }

  /** The sharer set of every directory line in use is what is recorded for its block. */
  ghost predicate Linked(lines: map<Slot, Line>, g: seq<Geometry>, sharers: map<Slot, set<int>>, rec: Key -> set<int>) {
    && sharers.Keys == lines.Keys
    && forall s: Slot | s in lines && IsSlot(g, s) && lines[s].state != I :: sharers[s] == rec(KeyAt(g, s, lines[s]))
  }

  ghost function Record(rec: Key -> set<int>, k: Key, r: set<int>): Key -> set<int> {
    (q: Key) => if q == k then r else rec(q)
  }

  /** Line s takes block k, which no other line has. */
  lemma LinkedSet(l0: map<Slot, Line>, l1: map<Slot, Line>, g: seq<Geometry>, sharers: map<Slot, set<int>>, rec: Key -> set<int>,
                  s: Slot, k: Key, r: set<int>)
    requires Linked(l0, g, sharers, rec) && s in l0 && IsSlot(g, s) && s in l1 && l1 == l0[s := l1[s]]
    requires l1[s].state != I ==> KeyAt(g, s, l1[s]) == k
    requires forall t: Slot | t in l0 && IsSlot(g, t) && t != s && l0[t].state != I :: KeyAt(g, t, l0[t]) != k
    ensures Linked(l1, g, sharers[s := r], Record(rec, k, r))
  {
    hide KeyAt;
  }

  /** Dropping a block leaves it sound without an entry. */
  lemma EvictSound(v: View, w: View, ds: State, rec: set<int>, told: set<int>, cores: nat, k: Key)
    requires Sound(v, ds, rec, cores, k) && Bounded(v, cores) && Told(told, ds, rec, cores) && Invalidated(v, w, told, k)
    ensures Sound(w, I, rec, cores, k)
  {
    NobodyLeft(v, w, ds, rec, told, cores, k, NOBODY);
  }

  lemma InvalidatedBounded(v: View, w: View, told: set<int>, cores: nat, k: Key)
    requires Bounded(v, cores) && Invalidated(v, w, told, k)
    ensures Bounded(w, cores)
  {
  }

  lemma EntryGranted(w: View, ds: State, cores: nat, k: Key, c: int)
    requires (forall d {:trigger w(Core(d), k)} :: d != c ==> w(Core(d), k) == I) && 0 <= c < cores && (ds == E || ds == M)
    ensures SoundBut(w, ds, {c}, cores, k, c)
  {
  }

  /** Directory states of all blocks, with the entries at their homes. */
  ghost predicate Homed(v: View, home: Key -> int) {
    forall n: Node, k: Key {:trigger v(n, k)} :: v(n, k) != I ==> n == Node(0, home(k))
  }

  lemma HomeOf(d: View, home: Key -> int, k: Key, h: Node)
    requires Homed(d, home) && d(h, k) != I
    ensures h == Node(0, home(k))
  {
  }

  lemma HomedEntry(d0: View, d1: View, home: Key -> int, k: Key)
    requires Homed(d0, home)
    requires forall m: Node, q: Key {:trigger d1(m, q)} :: d1(m, q) != I ==> d0(m, q) != I || (q == k && m == Node(0, home(k)))
    ensures Homed(d1, home)
  {
  }

  lemma VictimSharers(lines: map<Slot, Line>, g: seq<Geometry>, sharers: map<Slot, set<int>>, rec: Key -> set<int>, s: Slot,
                      d: View, home: Key -> int, v: Key)
    requires Linked(lines, g, sharers, rec) && s in lines && IsSlot(g, s) && lines[s].state != I && KeyAt(g, s, lines[s]) == v
    ensures s in sharers && sharers[s] == rec(v)
  {
  }

  lemma SoundState(v: View, ds: State, rec: set<int>, cores: nat, k: Key)
    requires Sound(v, ds, rec, cores, k)
    ensures ds != V && (forall c | c in rec :: 0 <= c < cores)
    ensures ds == M || ds == E ==> rec != {} && forall a, b | a in rec && b in rec :: a == b
  {
  }

  lemma InvalidatedOthers(v: View, w: View, told: set<int>, k: Key)
    requires Invalidated(v, w, told, k)
    ensures forall n: Node, q: Key {:trigger w(n, q)} :: q != k ==> w(n, q) == v(n, q)
  {
  }

  /** Nobody holds a block that has no entry. */
  lemma SoundEmpty(v: View, rec: set<int>, cores: nat, k: Key)
    requires Sound(v, I, rec, cores, k) && Bounded(v, cores)
    ensures forall n: Node {:trigger v(n, k)} :: v(n, k) == I
  {
    forall n: Node
      ensures v(n, k) == I
    {
      assert n.level == 0 ==> n == Core(n.id);
    }
  }

  lemma SoundKept(v: View, w: View, ds: State, rec: set<int>, cores: nat, k: Key)
    requires Sound(v, ds, rec, cores, k) && forall n: Node {:trigger w(n, k)} :: w(n, k) == v(n, k)
    ensures Sound(w, ds, rec, cores, k)
  {
  }

  lemma NoHolder(v: View, rec: set<int>, cores: nat, k: Key, x: int)
    requires SoundBut(v, I, rec, cores, k, x)
    ensures forall d {:trigger v(Core(d), k)} :: d != x ==> v(Core(d), k) == I
  {
  }

  lemma SoundButState(v: View, ds: State, rec: set<int>, cores: nat, k: Key, x: int)
    requires SoundBut(v, ds, rec, cores, k, x)
    ensures ds != V && (forall c | c in rec :: 0 <= c < cores)
    ensures ds == M || ds == E ==> rec != {} && forall a, b | a in rec && b in rec :: a == b
  {
  }

  lemma InvalidatedLower(v: View, w: View, told: set<int>, k: Key, c: int)
    requires Invalidated(v, w, told, k)
    ensures w(Core(c), k) <= v(Core(c), k) && w(Core(NOBODY), k) <= v(Core(NOBODY), k)
  {
  }

  lemma HolderLow(v: View, ds: State, rec: set<int>, cores: nat, k: Key, x: int, o: int)
    requires SoundBut(v, ds, rec, cores, k, x) && v(Core(x), k) <= M && o in rec
    ensures v(Core(o), k) <= M && 0 <= o < cores
  {
  }

  lemma SharedFacts(v: View, w: View, cores: nat, o: int, k: Key, c: int)
    requires Shared(v, w, o, k) && Bounded(v, cores)
    ensures Bounded(w, cores) && w(Core(c), k) <= v(Core(c), k) && w(Core(NOBODY), k) <= v(Core(NOBODY), k)
    ensures forall n: Node, q: Key {:trigger w(n, q)} :: q != k ==> w(n, q) == v(n, q)
  {
  }

  lemma LoweredKeys(l: map<Slot, Line>, m: map<Slot, Line>)
    requires OnlyLowered(l, m)
    ensures l.Keys == m.Keys && forall s: Slot | s in m :: LineLowered(l[s], m[s])
  {
  }

  lemma LoweredSelf(l: map<Slot, Line>)
    ensures OnlyLowered(l, l)
  {
  }

  lemma GrantedBounded(v: View, w: View, cores: nat, k: Key, c: int, r: State)
    requires Bounded(v, cores) && 0 <= c < cores
    requires forall n: Node, q: Key {:trigger w(n, q)} :: w(n, q) == if n == Core(c) && q == k then r else v(n, q)
    ensures Bounded(w, cores)
  {
  }

  lemma LowHolder(v: View, ds: State, rec: set<int>, cores: nat, k: Key, c: int)
    requires Sound(v, ds, rec, cores, k) && c != NOBODY
    ensures v(Core(c), k) <= M && v(Core(NOBODY), k) == I
  {
  }

  lemma OthersOut(v: View, ds: State, rec: set<int>, cores: nat, k: Key, c: int)
    requires SoundBut(v, ds, rec, cores, k, c) && c in rec && (ds == E || ds == M)
    ensures forall d {:trigger v(Core(d), k)} :: d != c ==> v(Core(d), k) == I
  {
  }

  lemma OthersLow(v: View, ds: State, rec: set<int>, cores: nat, k: Key, c: int)
    requires SoundBut(v, ds, rec, cores, k, c) && c in rec
    ensures forall d {:trigger v(Core(d), k)} :: d != c ==> v(Core(d), k) <= S
  {
  }

  lemma SharersLow(v: View, ds: State, rec: set<int>, cores: nat, k: Key, c: int)
    requires Sound(v, ds, rec, cores, k) && v(Core(c), k) == S
    ensures forall d {:trigger v(Core(d), k)} :: d != c ==> v(Core(d), k) <= S
  {
    forall d | d != c
      ensures v(Core(d), k) <= S
    {
      if v(Core(d), k) >= E { OneWriter(v, ds, rec, cores, k, d, c); }
    }
  }

  /** After the only holder lost the block nobody has it. */
  lemma OwnerGone(v: View, w: View, ds: State, rec: set<int>, cores: nat, k: Key, c: int)
    requires Sound(v, ds, rec, cores, k) && v(Core(c), k) >= E && Bounded(v, cores)
    requires forall n: Node {:trigger w(n, k)} :: w(n, k) == if n == Core(c) then I else v(n, k)
    ensures forall n: Node {:trigger w(n, k)} :: w(n, k) == I
  {
    forall n: Node
      ensures w(n, k) == I
    {
      if n != Core(c) && v(n, k) != I {
        OneWriter(v, ds, rec, cores, k, c, n.id);
      }
    }
  }

  lemma RetaggedBounded(v: View, w: View, cores: nat, k: Key, c: int)
    requires Bounded(v, cores) && 0 <= c < cores
    requires forall n: Node, q: Key {:trigger w(n, q)} :: n != Core(c) ==> w(n, q) == v(n, q)
    ensures Bounded(w, cores)
  {
  }

  lemma Unaffected(v: View, w: View, ds: State, rec: set<int>, cores: nat, k: Key, x: int)
    requires SoundBut(v, ds, rec, cores, k, x) && forall n: Node {:trigger w(n, k)} :: n != Core(x) ==> w(n, k) == v(n, k)
    ensures SoundBut(w, ds, rec, cores, k, x)
  {
  }

  /** A read leaves the other copies of its block, as shared ones. */
  ghost predicate OthersShare(v: View, w: View, c: int, k: Key) {
    forall d {:trigger w(Core(d), k)} :: d != c ==> w(Core(d), k) == if v(Core(d), k) >= E then S else v(Core(d), k)
  }

  /** The owner that is told to share is the only one there can be. */
  lemma OwnerShares(v: View, w: View, ds: State, rec: set<int>, cores: nat, k: Key, c: int, o: int)
    requires SoundBut(v, ds, rec, cores, k, c) && (ds == E || ds == M) && o in rec && Shared(v, w, o, k)
    ensures OthersShare(v, w, c, k)
  {
    forall d | d != c
      ensures w(Core(d), k) == if v(Core(d), k) >= E then S else v(Core(d), k)
    {
      assert v(Core(d), k) <= M;
    }
  }

  lemma NoOwnerShares(v: View, ds: State, rec: set<int>, cores: nat, k: Key, c: int)
    requires SoundBut(v, ds, rec, cores, k, c) && (ds == S || ds == B || ds == I)
    ensures OthersShare(v, v, c, k)
  {
    forall d | d != c
      ensures v(Core(d), k) < E
    {
      assert v(Core(d), k) <= M;
    }
  }

  /** Before and after, only core c's own copy changes. */
  lemma SharesThrough(v0: View, v1: View, v2: View, v3: View, c: int, k: Key)
    requires forall d {:trigger v1(Core(d), k)} :: d != c ==> v1(Core(d), k) == v0(Core(d), k)
    requires OthersShare(v1, v2, c, k)
    requires forall d {:trigger v3(Core(d), k)} :: d != c ==> v3(Core(d), k) == v2(Core(d), k)
    ensures OthersShare(v0, v3, c, k)
  {
    forall d | d != c
      ensures v3(Core(d), k) == if v0(Core(d), k) >= E then S else v0(Core(d), k)
    {
      assert v1(Core(d), k) == v0(Core(d), k);
      assert v2(Core(d), k) == if v1(Core(d), k) >= E then S else v1(Core(d), k);
    }
  }

  /** Besides block k, only the requester's victim left its cache, and only the directory's victim left all
      caches. */
  ghost predicate Evictions(v: View, w: View, c: int, k: Key, evicted: Option<Key>, dropped: Option<Key>) {
    && (forall n: Node, q: Key {:trigger w(n, q)} :: q != k && dropped != Some(q) && (evicted != Some(q) || n != Core(c)) ==> w(n, q) == v(n, q))
    && (forall n: Node, q: Key {:trigger w(n, q)} :: dropped == Some(q) ==> q != k && w(n, q) == I)
    && (forall q: Key {:trigger w(Core(c), q)} :: evicted == Some(q) ==> q != k && w(Core(c), q) == I)
  }

  /** The steps of a miss together: the requester's eviction, the directory's, and the grant. */
  lemma EvictionsThrough(v0: View, v1: View, v2: View, v3: View, c: int, k: Key, evicted: Option<Key>, dropped: Option<Key>)
    requires Evictions(v0, v1, c, k, evicted, None)
    requires forall n: Node, q: Key {:trigger v2(n, q)} :: q != k && dropped != Some(q) ==> v2(n, q) == v1(n, q)
    requires forall n: Node, q: Key {:trigger v2(n, q)} :: dropped == Some(q) ==> q != k && v2(n, q) == I
    requires forall n: Node, q: Key {:trigger v3(n, q)} :: q != k ==> v3(n, q) == v2(n, q)
    ensures Evictions(v0, v3, c, k, evicted, dropped)
    ensures evicted.Some? && (forall n: Node {:trigger v1(n, evicted.value)} :: v1(n, evicted.value) == I) ==>
      forall n: Node {:trigger v3(n, evicted.value)} :: v3(n, evicted.value) == I
  {
    var z, u := v2(Core(c), k), v1(Core(c), k);
    assert dropped != Some(k) && evicted != Some(k);
    forall n: Node, q: Key
      ensures q != k && dropped != Some(q) && (evicted != Some(q) || n != Core(c)) ==> v3(n, q) == v0(n, q)
      ensures dropped == Some(q) ==> q != k && v3(n, q) == I
    {
      var x, y := v1(n, q), v2(n, q);
    }
    forall q: Key | evicted == Some(q)
      ensures q != k && v3(Core(c), q) == I
    {
      var x, y := v1(Core(c), q), v2(Core(c), q);
      assert q != k && x == I;
      assert dropped != Some(q) ==> y == x;
    }
    if evicted.Some? && forall n: Node {:trigger v1(n, evicted.value)} :: v1(n, evicted.value) == I {
      forall n: Node
        ensures v3(n, evicted.value) == I
      {
        var x, y := v1(n, evicted.value), v2(n, evicted.value);
        assert dropped != evicted ==> y == x;
      }
    }
  }

  datatype Request = Request(core: int, key: Key, write: bool)

  /** Nobody but a writer holds a block that someone may write. */
  ghost predicate WriterAlone(v: View) {
    forall k: Key, c, d {:trigger v(Core(c), k), v(Core(d), k)} :: c != d && v(Core(c), k) >= E ==> v(Core(d), k) == I
  }

  /** The requester holds the block in a state that fits. */
  ghost predicate Served(v: View, r: Request) {
    if r.write then v(Core(r.core), r.key) == M else v(Core(r.core), r.key) == S || v(Core(r.core), r.key) == E
  }

  class DirectorySystem {
    const caches: LineStore              // one private cache per core
    const dirs: LineStore                // the directory caches of the home nodes
    const cores: nat
    const home: Key -> int               // `getHomeId`
    const limited: bool                  // limited-pointer directory
    const maxSharers: int
    var sharers: map<Slot, set<int>>     // the sharer set of every directory line
    ghost var rec: Key -> set<int>       // the recorded sharers of a block that has an entry

    function Home(k: Key): Node {
      Node(0, home(k))
    }

    /** The directory state of a block, I without an entry. */
    ghost function Entry(k: Key): State
      reads dirs
    {
      dirs.view(Home(k), k)
    }

    ghost predicate Valid()
      reads this, caches, dirs
    {
      && caches != dirs && caches.Valid() && dirs.Valid()
      && |caches.g| == 1 && caches.g[0].count == cores && |dirs.g| == 1
      && (forall k: Key :: 0 <= home(k) < dirs.g[0].count)
      && Homed(dirs.view, home) && Linked(dirs.lines, dirs.g, sharers, rec)
      && Bounded(caches.view, cores)
    }

    ghost predicate SoundAt(k: Key)
      reads this, caches, dirs
    {
      Sound(caches.view, Entry(k), rec(k), cores, k)
    }

    ghost predicate Safe()
      reads this, caches, dirs
    {
      Valid() && forall k: Key :: SoundAt(k)
    }

    /** All caches and directory caches are empty. */
    constructor (own: Geometry, dir: Geometry, home: Key -> int, limited: bool, maxSharers: int)
      requires forall k: Key :: 0 <= home(k) < dir.count
      ensures Safe() && fresh(caches) && fresh(dirs) && cores == own.count && this.home == home
      ensures this.limited == limited && this.maxSharers == maxSharers
      ensures forall n: Node, k: Key {:trigger caches.view(n, k)} :: caches.view(n, k) == I
    {
      hide LineStore.Valid;
      cores, this.home, this.limited, this.maxSharers := own.count, home, limited, maxSharers;
      caches := new LineStore([own]);
      var d := new LineStore([dir]);
      dirs := d;
      sharers := map s | s in d.lines :: {};
      rec := (k: Key) => {};
      new;
    }

    // ----- Messages to the private caches ---------------------------------------------------------

    /** `inval` at the only level */
    method Inval(c: int, k: Key)
      requires caches.Valid() && InTree(caches.g, Core(c))
      modifies caches
      ensures caches.Valid() && Invalidated(old(caches.view), caches.view, {c}, k)
      ensures OnlyLowered(old(caches.lines), caches.lines)
    {
      hide LineStore.Valid, KeyAt;
      var way := caches.AccessLine(Core(c), k);
      if way != -1 {
        caches.SetState(SlotFor(caches.g, Core(c), k, way), I);
      }
    }

    /** `share` at the only level */
    method Share(c: int, k: Key)
      requires caches.Valid() && InTree(caches.g, Core(c)) && caches.view(Core(c), k) <= M
      modifies caches
      ensures caches.Valid() && Shared(old(caches.view), caches.view, c, k)
      ensures OnlyLowered(old(caches.lines), caches.lines)
    {
      hide LineStore.Valid, KeyAt;
      var way := caches.AccessLine(Core(c), k);
      if way != -1 {
        var s := SlotFor(caches.g, Core(c), k, way);
        if caches.lines[s].state == M || caches.lines[s].state == E {
          caches.SetState(s, S);
        }
      }
    }

    /** The invalidations a directory line calls for: its owner, its sharers, or all cores. */
    method Drop(ds: State, recorded: set<int>, k: Key) returns (ghost told: set<int>)
      requires caches.Valid() && |caches.g| == 1 && caches.g[0].count == cores
      requires forall c | c in recorded :: 0 <= c < cores
      requires ds == M || ds == E ==> recorded != {} && forall a, b | a in recorded && b in recorded :: a == b
      modifies caches
      ensures caches.Valid() && Told(told, ds, recorded, cores)
      ensures ds != I && ds != V ==> Invalidated(old(caches.view), caches.view, told, k)
      ensures OnlyLowered(old(caches.lines), caches.lines)
    {
      hide LineStore.Valid;
      ghost var v0 := caches.view;
      told := {};
      if ds == M || ds == E {
        NonEmpty(recorded);
        var o :| o in recorded;
        Single(recorded, o);
        Inval(o, k);
        told := {o};
      } else if ds == S {
        var rest := recorded;
        while rest != {}
          invariant rest <= recorded && told == recorded - rest && caches.Valid()
          invariant Invalidated(v0, caches.view, told, k) && OnlyLowered(old(caches.lines), caches.lines)
          decreases rest
        {
          NonEmpty(rest);
          var c :| c in rest;
          ghost var v1 := caches.view;
          Inval(c, k);
          rest := rest - {c};
          told := told + {c};
        }
      } else if ds == B {
        var i := 0;
        while i < cores
          invariant 0 <= i <= cores && (forall c :: c in told <==> 0 <= c < i) && caches.Valid()
          invariant Invalidated(v0, caches.view, told, k) && OnlyLowered(old(caches.lines), caches.lines)
        {
          Inval(i, k);
          told := told + {i};
          i := i + 1;
        }
      }
    }

    // ----- accessDirectoryCache ---------------------------------------------------------------------

    /** All blocks but k are sound; k is so for everybody but core x, whose line is in use. */
    ghost predicate SafeBut(k: Key, x: int)
      reads this, caches, dirs
    {
      && Valid() && 0 <= x < cores
      && (forall q: Key | q != k :: SoundAt(q))
      && SoundBut(caches.view, Entry(k), rec(k), cores, k, x) && caches.view(Core(NOBODY), k) == I
      && caches.view(Core(x), k) <= M
    }

    /** The same while core x's victim u, which nobody holds any more, is not yet written back. */
    ghost predicate SafeWithout(k: Key, x: int, u: Key)
      reads this, caches, dirs
    {
      && Valid() && 0 <= x < cores && u != k
      && (forall q: Key | q != k && q != u :: SoundAt(q))
      && SoundBut(caches.view, Entry(k), rec(k), cores, k, x) && caches.view(Core(NOBODY), k) == I
      && caches.view(Core(x), k) <= M
      && forall n: Node {:trigger caches.view(n, u)} :: caches.view(n, u) == I
    }

    /** No directory line in use is for a block without an entry. */
    lemma NoOther(k: Key)
      requires dirs.Valid() && Homed(dirs.view, home) && Entry(k) == I
      ensures dirs.view(Home(k), k) == I
      ensures forall t: Slot | t in dirs.lines && dirs.lines[t].state != I :: KeyAt(dirs.g, t, dirs.lines[t]) != k
    {
    }

    lemma DirLines()
      requires dirs.Valid()
      ensures forall t: Slot | t in dirs.lines :: IsSlot(dirs.g, t)
      ensures forall t: Slot | t in dirs.lines && dirs.lines[t].state != I ::
        dirs.view(t.node, KeyAt(dirs.g, t, dirs.lines[t])) == dirs.lines[t].state
    {
    }

    /** A directory line is retagged for k; if it was in use, its old block is dropped everywhere it was
        recorded. */
    method ClearWay(c: int, k: Key) returns (s: Slot, ghost victim: Option<Key>)
      requires SafeBut(k, c) && Entry(k) == I
      modifies caches, dirs
      ensures caches.Valid() && dirs.Valid() && Bounded(caches.view, cores) && OnlyLowered(old(caches.lines), caches.lines)
      ensures s in old(dirs.lines) && IsSlot(dirs.g, s) && s in dirs.lines && s.node == Home(k)
      ensures dirs.lines == old(dirs.lines)[s := dirs.lines[s]]
      ensures KeyAt(dirs.g, s, dirs.lines[s]) == k && (dirs.lines[s].state != I || dirs.view(s.node, k) == I)
      ensures forall m: Node, q: Key {:trigger dirs.view(m, q)} ::
        q != k ==> dirs.view(m, q) == if victim == Some(q) && m == Home(k) then I else old(dirs.view)(m, q)
      ensures forall m: Node {:trigger dirs.view(m, k)} :: m != Home(k) ==> dirs.view(m, k) == old(dirs.view)(m, k)
      ensures victim.Some? <==> InTree(dirs.g, Home(k)) && !dirs.HasFreeWay(old(dirs.lines), Home(k), k)
      ensures victim.Some? ==> victim.value != k && Home(victim.value) == Home(k) && Sound(caches.view, I, rec(victim.value), cores, victim.value)
      ensures forall n: Node, q: Key {:trigger caches.view(n, q)} :: victim != Some(q) ==> caches.view(n, q) == old(caches.view)(n, q)
      ensures forall n: Node, q: Key {:trigger caches.view(n, q)} :: victim == Some(q) ==> caches.view(n, q) == I
    {
      hide LineStore.Valid, KeyAt, LineStore.HasFreeWay, Homed, Sound, SoundBut, Told, Bounded, Invalidated, Linked, LineStore.Valid;
      ghost var v0, d0, l0 := caches.view, dirs.view, dirs.lines;
      NoOther(k);
      DirLines();
      ghost var lines := dirs.lines;
      var h := Home(k);
      var way, old0 := dirs.ReplaceLine(h, k);
      victim := old0;
      s := SlotFor(dirs.g, h, k, way);
      if dirs.lines[s].state != I {
        assert old(SoundAt(victim.value));
        VictimSharers(l0, dirs.g, sharers, rec, s, d0, home, victim.value);
        HomeOf(d0, home, victim.value, h);
        SoundState(v0, dirs.lines[s].state, sharers[s], cores, victim.value);
        ghost var told := Drop(dirs.lines[s].state, sharers[s], old0.value);
        EvictSound(v0, caches.view, dirs.lines[s].state, sharers[s], told, cores, victim.value);
        InvalidatedBounded(v0, caches.view, told, cores, victim.value);
        InvalidatedOthers(v0, caches.view, told, victim.value);
        SoundEmpty(caches.view, sharers[s], cores, victim.value);
      }
    }

    /** The miss branch: a directory line for k in M or E with the requester as its only sharer. */
    method MakeEntry(c: int, k: Key, op: Op) returns (s: Slot, ghost victim: Option<Key>)
      requires SafeBut(k, c) && Entry(k) == I && op != Wb
      modifies this, caches, dirs
      ensures SafeBut(k, c) && s in dirs.lines && dirs.lines[s].state == Entry(k) && KeyAt(dirs.g, s, dirs.lines[s]) == k
      ensures Entry(k) == (if op == Wr then M else E) && rec(k) == {c}
      ensures victim.Some? <==> InTree(dirs.g, Home(k)) && !dirs.HasFreeWay(old(dirs.lines), Home(k), k)
      ensures forall q: Key {:trigger Entry(q)} :: q != k ==>
        Entry(q) == (if victim == Some(q) then I else old(Entry(q))) && rec(q) == old(rec)(q)
      ensures OnlyLowered(old(caches.lines), caches.lines)
      ensures forall n: Node, q: Key {:trigger caches.view(n, q)} :: victim != Some(q) ==> caches.view(n, q) == old(caches.view)(n, q)
      ensures forall n: Node, q: Key {:trigger caches.view(n, q)} :: victim == Some(q) ==> q != k && caches.view(n, q) == I
    {
      hide LineStore.Valid, KeyAt, Homed, Sound, SoundBut, Bounded, Linked;
      ghost var v0, d0, r0, l0 := caches.view, dirs.view, rec, dirs.lines;
      NoOther(k);
      s, victim := ClearWay(c, k);
      dirs.SetState(s, if op == Wr then M else E);
      LinkedSet(l0, dirs.lines, dirs.g, sharers, rec, s, k, {c});
      sharers := sharers[s := {c}];
      rec := Record(rec, k, {c});
      HomedEntry(d0, dirs.view, home, k);
      forall q: Key | q != k
        ensures SoundAt(q)
      {
        assert old(SoundAt(q));
        if victim != Some(q) {
          SoundKept(v0, caches.view, Entry(q), rec(q), cores, q);
        }
      }
      NoHolder(v0, r0(k), cores, k, c);
      EntryGranted(caches.view, Entry(k), cores, k, c);
    }

    /** The line in use for a block is the only one. */
    lemma OnlyLine(s: Slot, k: Key)
      requires dirs.Valid() && Homed(dirs.view, home) && s in dirs.lines && dirs.lines[s].state != I
      requires IsSlot(dirs.g, s) && KeyAt(dirs.g, s, dirs.lines[s]) == k
      ensures s.node == Home(k) && dirs.lines[s].state == Entry(k)
      ensures forall t: Slot | t in dirs.lines && IsSlot(dirs.g, t) && t != s && dirs.lines[t].state != I ::
        KeyAt(dirs.g, t, dirs.lines[t]) != k
    {
      assert dirs.view(s.node, k) != I;
      forall t: Slot | t in dirs.lines && IsSlot(dirs.g, t) && t != s && dirs.lines[t].state != I
        ensures KeyAt(dirs.g, t, dirs.lines[t]) != k
      {
        assert dirs.view(t.node, KeyAt(dirs.g, t, dirs.lines[t])) != I;
      }
    }

    /** The end of every hit: the line gets its new state and sharers. */
    method SetEntry(s: Slot, k: Key, st: State, r: set<int>)
      requires dirs.Valid() && caches != dirs && Homed(dirs.view, home) && Linked(dirs.lines, dirs.g, sharers, rec)
      requires s in dirs.lines && IsSlot(dirs.g, s) && dirs.lines[s].state != I && KeyAt(dirs.g, s, dirs.lines[s]) == k
      modifies this, dirs
      ensures dirs.Valid() && Homed(dirs.view, home) && Linked(dirs.lines, dirs.g, sharers, rec)
      ensures rec == Record(old(rec), k, r) && s in dirs.lines && dirs.lines[s].state == st && dirs.lines.Keys == old(dirs.lines).Keys
      ensures forall q: Key {:trigger Entry(q)} :: Entry(q) == if q == k then st else old(Entry(q))
    {
      hide LineStore.Valid, KeyAt, Homed, Linked;
      ghost var d0, l0 := dirs.view, dirs.lines;
      OnlyLine(s, k);
      dirs.SetState(s, st);
      LinkedSet(l0, dirs.lines, dirs.g, sharers, rec, s, k, r);
      sharers := sharers[s := r];
      rec := Record(rec, k, r);
      HomedEntry(d0, dirs.view, home, k);
    }

    /** A write that hits in the directory: everybody else drops the block. */
    method WriteEntry(c: int, k: Key, s: Slot)
      requires SafeBut(k, c) && s in dirs.lines && IsSlot(dirs.g, s) && dirs.lines[s].state != I && KeyAt(dirs.g, s, dirs.lines[s]) == k
      modifies this, caches, dirs
      ensures SafeBut(k, c) && s in dirs.lines && dirs.lines[s].state == M && Entry(k) == M && rec(k) == {c}
      ensures forall q: Key {:trigger Entry(q)} :: q != k ==> Entry(q) == old(Entry(q)) && rec(q) == old(rec)(q)
      ensures OnlyLowered(old(caches.lines), caches.lines)
      ensures forall n: Node, q: Key {:trigger caches.view(n, q)} :: q != k ==> caches.view(n, q) == old(caches.view)(n, q)
    {
      hide LineStore.Valid, KeyAt, Homed, Sound, SoundBut, Bounded, Linked, Told, Invalidated, OnlyLowered;
      ghost var v0 := caches.view;
      OnlyLine(s, k);
      SharersAre(s, k);
      SoundButState(v0, Entry(k), rec(k), cores, k, c);
      ghost var told := Drop(dirs.lines[s].state, sharers[s], k);
      InvalidatedBounded(v0, caches.view, told, cores, k);
      InvalidatedOthers(v0, caches.view, told, k);
      InvalidatedLower(v0, caches.view, told, k, c);
      NobodyLeft(v0, caches.view, Entry(k), rec(k), told, cores, k, c);
      SetEntry(s, k, M, {c});
      WriteGranted(caches.view, cores, k, c);
      forall q: Key | q != k
        ensures SoundAt(q)
      {
        assert old(SoundAt(q));
        SoundKept(v0, caches.view, Entry(q), rec(q), cores, q);
      }
    }

    lemma SharersAre(s: Slot, k: Key)
      requires Linked(dirs.lines, dirs.g, sharers, rec)
      requires s in dirs.lines && IsSlot(dirs.g, s) && dirs.lines[s].state != I && KeyAt(dirs.g, s, dirs.lines[s]) == k
      ensures s in sharers && sharers[s] == rec(k)
    {
    }

    /** A read that hits in the directory: an owner is downgraded, and the sharers may overflow. */
    method ReadEntry(c: int, k: Key, s: Slot)
      requires SafeBut(k, c) && s in dirs.lines && IsSlot(dirs.g, s) && dirs.lines[s].state != I && KeyAt(dirs.g, s, dirs.lines[s]) == k
      modifies this, caches, dirs
      ensures SafeBut(k, c) && s in dirs.lines && dirs.lines[s].state == Entry(k) && rec(k) == old(rec)(k) + {c}
      ensures Entry(k) == (if old(Entry(k)) == B || (old(Entry(k)) == S && limited && |old(rec)(k)| >= maxSharers) then B else S)
      ensures forall q: Key {:trigger Entry(q)} :: q != k ==> Entry(q) == old(Entry(q)) && rec(q) == old(rec)(q)
      ensures OthersShare(old(caches.view), caches.view, c, k)
      ensures OnlyLowered(old(caches.lines), caches.lines)
      ensures forall n: Node, q: Key {:trigger caches.view(n, q)} :: q != k ==> caches.view(n, q) == old(caches.view)(n, q)
    {
      hide LineStore.Valid, KeyAt, Homed, Sound, SoundBut, Bounded, Linked, Shared, OnlyLowered;
      ghost var v0 := caches.view;
      OnlyLine(s, k);
      SharersAre(s, k);
      SoundButState(v0, Entry(k), rec(k), cores, k, c);
      LoweredSelf(caches.lines);
      var st := dirs.lines[s].state;
      if st == M || st == E {
        NonEmpty(sharers[s]);
        var o :| o in sharers[s];
        HolderLow(v0, Entry(k), rec(k), cores, k, c, o);
        Share(o, k);
        SharedFacts(v0, caches.view, cores, o, k, c);
        OwnerShares(v0, caches.view, Entry(k), rec(k), cores, k, c, o);
        ReadOwned(v0, caches.view, Entry(k), rec(k), cores, k, c, o);
        st := S;
      } else {
        if st == S && limited && |sharers[s]| >= maxSharers {
          st := B;
        }
        NoOwnerShares(v0, Entry(k), rec(k), cores, k, c);
        ReadShared(v0, Entry(k), st, rec(k), cores, k, c);
      }
      SetEntry(s, k, st, sharers[s] + {c});
      forall q: Key | q != k
        ensures SoundAt(q)
      {
        assert old(SoundAt(q));
        SoundKept(v0, caches.view, Entry(q), rec(q), cores, q);
      }
    }

    /** A write-back: the directory forgets a block that nobody holds any more. */
    method Forget(u: Key, s: Slot, ghost k: Key, ghost c: int)
      requires SafeWithout(k, c, u) && s in dirs.lines && IsSlot(dirs.g, s) && dirs.lines[s].state != I
      requires KeyAt(dirs.g, s, dirs.lines[s]) == u
      modifies this, dirs
      ensures SafeBut(k, c) && s in dirs.lines && dirs.lines[s].state == I && Entry(u) == I
      ensures forall q: Key {:trigger Entry(q)} :: q != u ==> Entry(q) == old(Entry(q)) && rec(q) == old(rec)(q)
    {
      hide LineStore.Valid, KeyAt, Homed, Bounded, Linked, SoundBut;
      SetEntry(s, u, I, {});
      UnheldSound(caches.view, cores, u);
      forall q: Key | q != k
        ensures SoundAt(q)
      {
        assert q != u ==> old(SoundAt(q));
      }
    }

    /** `accessDirectoryCache` for block k by core c; the line that c is filling is for block busy. */
    method AccessDirectory(c: int, k: Key, op: Op, ghost busy: Key) returns (state: State, ghost dropped: Option<Key>)
      requires op != Wb ==> SafeBut(busy, c) && busy == k
      requires op == Wb ==> SafeWithout(busy, c, k) && Entry(k) != I
      modifies this, caches, dirs
      ensures SafeBut(busy, c) && OnlyLowered(old(caches.lines), caches.lines)
      ensures op == Wr ==> state == M && Entry(k) == M && rec(k) == {c}
      ensures op == Rd ==> (state == E <==> old(Entry(k)) == I) && (state == E ==> Entry(k) == E && rec(k) == {c})
      ensures op == Rd && state != E ==> state == S && (Entry(k) == S || Entry(k) == B) && rec(k) == old(rec)(k) + {c}
      ensures op == Rd ==> OthersShare(old(caches.view), caches.view, c, k)
      ensures op == Wb ==> state == I && Entry(k) == I
      ensures dropped.Some? <==>
        op != Wb && old(Entry(k)) == I && InTree(dirs.g, Home(k)) && !dirs.HasFreeWay(old(dirs.lines), Home(k), k)
      ensures forall q: Key {:trigger Entry(q)} :: q != k ==>
        Entry(q) == (if dropped == Some(q) then I else old(Entry(q))) && rec(q) == old(rec)(q)
      ensures op == Wb ==> forall n: Node, q: Key {:trigger caches.view(n, q)} :: caches.view(n, q) == old(caches.view)(n, q)
      ensures old(Entry(k)) != I ==> dropped == None
      ensures forall n: Node, q: Key {:trigger caches.view(n, q)} :: q != k && dropped != Some(q) ==>
        caches.view(n, q) == old(caches.view)(n, q)
      ensures forall n: Node, q: Key {:trigger caches.view(n, q)} :: dropped == Some(q) ==> q != k && caches.view(n, q) == I
    {
      hide LineStore.Valid, KeyAt, Homed, Bounded, Linked, Sound, SoundBut, OnlyLowered;
      LoweredSelf(caches.lines);
      DirLines();
      var h := Home(k);
      var way := dirs.AccessLine(h, k);
      var s: Slot;
      dropped := None;
      if way == -1 {
        assert op != Wb;
        if op == Rd { NoOwnerShares(caches.view, Entry(k), rec(k), cores, k, c); }
        ghost var v0 := caches.view;
        s, dropped := MakeEntry(c, k, op);
        if op == Rd { SharesThrough(v0, v0, v0, caches.view, c, k); }
      } else {
        s := SlotFor(dirs.g, h, k, way);
        if op == Wr {
          WriteEntry(c, k, s);
        } else if op == Rd {
          ReadEntry(c, k, s);
        } else {
          Forget(k, s, busy, c);
        }
      }
      state := if dirs.lines[s].state == B then S else dirs.lines[s].state;
    }

    /** The requester's line gets the state that was granted. */
    method Grant(c: int, k: Key, s: Slot, r: State)
      requires SafeBut(k, c) && c in rec(k) && r <= M && (r >= E ==> Entry(k) == E || Entry(k) == M)
      requires Entry(k) == M ==> r == M
      requires (r == S ==> Entry(k) == S || Entry(k) == B) && (Entry(k) == I ==> r == I)
      requires s in caches.lines && s.node == Core(c) && KeyAt(caches.g, s, caches.lines[s]) == k
      requires caches.lines[s].state != I || caches.view(Core(c), k) == I
      modifies caches
      ensures Safe()
      ensures forall n: Node, q: Key {:trigger caches.view(n, q)} ::
        caches.view(n, q) == if n == Core(c) && q == k then r else old(caches.view)(n, q)
    {
      hide LineStore.Valid, KeyAt, Homed, Bounded, Linked, Sound, SoundBut;
      ghost var v0 := caches.view;
      caches.SetState(s, r);
      Granted(v0, caches.view, Entry(k), rec(k), cores, k, c, r);
      GrantedBounded(v0, caches.view, cores, k, c, r);
      forall q: Key
        ensures SoundAt(q)
      {
        assert q != k ==> old(SoundAt(q));
        if q != k { SoundKept(v0, caches.view, Entry(q), rec(q), cores, q); }
      }
    }

    lemma Opened(k: Key, c: int)
      requires Safe() && 0 <= c < cores
      ensures SafeBut(k, c)
      ensures caches.view(Core(c), k) != I ==> Entry(k) != I
      ensures caches.view(Core(c), k) >= E ==> rec(k) == {c} && (Entry(k) == E || Entry(k) == M)
    {
      hide LineStore.Valid, KeyAt, Homed, Bounded, Linked, SoundBut;
      assert SoundAt(k);
      if caches.view(Core(c), k) != I { HoldersRecorded(caches.view, Entry(k), rec(k), cores, k, c); }
      Weaken(caches.view, Entry(k), rec(k), cores, k, c);
      LowHolder(caches.view, Entry(k), rec(k), cores, k, c);
    }

    /** A hit in the core's own cache. */
    method Hit(c: int, k: Key, write: bool, s: Slot) returns (r: State, ghost evicted: Option<Key>, ghost dropped: Option<Key>)
      requires Safe() && 0 <= c < cores && s in caches.lines && s.node == Core(c)
      requires caches.lines[s].state == caches.view(Core(c), k) != I && KeyAt(caches.g, s, caches.lines[s]) == k
      modifies this, caches, dirs
      ensures Safe() && r == caches.view(Core(c), k)
      ensures write ==> r == M && forall d {:trigger caches.view(Core(d), k)} :: d != c ==> caches.view(Core(d), k) == I
      ensures !write ==> (r == S || r == E) && forall d {:trigger caches.view(Core(d), k)} :: d != c ==> caches.view(Core(d), k) <= S
      ensures r == E ==> forall d {:trigger caches.view(Core(d), k)} :: d != c ==> caches.view(Core(d), k) == I
      ensures evicted == None && dropped == None && old(Entry(k)) != I && r == if write then M else S
      ensures forall q: Key {:trigger Entry(q)} :: q != k ==> Entry(q) == old(Entry(q))
      ensures !write ==> OthersShare(old(caches.view), caches.view, c, k)
      ensures Evictions(old(caches.view), caches.view, c, k, evicted, dropped)
      ensures (r == S <==> Entry(k) == S || Entry(k) == B) && (r >= E ==> rec(k) == {c})
    {
      hide OthersShare;
      hide LineStore.Valid, KeyAt, Homed, Bounded, Linked, Sound, SoundBut;
      Opened(k, c);
      evicted, dropped := None, None;
      if write {
        if caches.lines[s].state == S {
          var st;
          st, dropped := AccessDirectory(c, k, Wr, k);
          caches.StillSole(s);
        }
        OthersOut(caches.view, Entry(k), rec(k), cores, k, c);
        Grant(c, k, s, M);
        r := M;
      } else {
        ghost var v0 := caches.view;
        if caches.lines[s].state != S {
          var st;
          st, dropped := AccessDirectory(c, k, Rd, k);
          caches.StillSole(s);
          OthersLow(caches.view, Entry(k), rec(k), cores, k, c);
          ghost var v1 := caches.view;
          Grant(c, k, s, S);
          SharesThrough(v0, v0, v1, caches.view, c, k);
        } else {
          assert SoundAt(k);
          HoldersRecorded(caches.view, Entry(k), rec(k), cores, k, c);
          SharersLow(caches.view, Entry(k), rec(k), cores, k, c);
          NoOwnerShares(caches.view, Entry(k), rec(k), cores, k, c);
        }
        r := S;
      }
    }

    /** A miss: a modified victim is written back, a clean one is dropped silently. */
    method Miss(c: int, k: Key, write: bool) returns (r: State, ghost evicted: Option<Key>, ghost dropped: Option<Key>)
      requires Safe() && 0 <= c < cores && caches.view(Core(c), k) == I
      modifies this, caches, dirs
      ensures Safe() && r == caches.view(Core(c), k)
      ensures write ==> r == M && forall d {:trigger caches.view(Core(d), k)} :: d != c ==> caches.view(Core(d), k) == I
      ensures !write ==> (r == S || r == E) && forall d {:trigger caches.view(Core(d), k)} :: d != c ==> caches.view(Core(d), k) <= S
      ensures r == E ==> forall d {:trigger caches.view(Core(d), k)} :: d != c ==> caches.view(Core(d), k) == I
      ensures !write ==> (r == E <==> old(Entry(k)) == I)
      ensures evicted.Some? <==> InTree(caches.g, Core(c)) && !caches.HasFreeWay(old(caches.lines), Core(c), k)
      ensures dropped.Some? ==> old(Entry(k)) == I
      ensures forall q: Key {:trigger Entry(q)} :: q != k ==> (
        Entry(q) == if dropped == Some(q) || (evicted == Some(q) && old(caches.view)(Core(c), q) == M) then I else old(Entry(q)))
      ensures evicted.Some? && old(caches.view)(Core(c), evicted.value) == M ==>
        forall n: Node {:trigger caches.view(n, evicted.value)} :: caches.view(n, evicted.value) == I
      ensures !write ==> OthersShare(old(caches.view), caches.view, c, k)
      ensures Evictions(old(caches.view), caches.view, c, k, evicted, dropped)
      ensures (r == S <==> Entry(k) == S || Entry(k) == B) && (r >= E ==> rec(k) == {c})
    {
      hide LineStore.Valid, KeyAt, Homed, Bounded, Linked, Sound, SoundBut, Evictions, OthersShare, OnlyLowered, LineStore.HasFreeWay;
      ghost var v0 := caches.view;
      var s;
      s, evicted := MakeRoom(c, k);
      ghost var v1, lines := caches.view, caches.lines;
      label filled:
      r, dropped := AccessDirectory(c, k, if write then Wr else Rd, k);
      ghost var v2 := caches.view;
      LoweredKeys(lines, caches.lines);
      caches.StillSole@filled(s);
      OthersLow(caches.view, Entry(k), rec(k), cores, k, c);
      if r >= E { OthersOut(caches.view, Entry(k), rec(k), cores, k, c); }
      Grant(c, k, s, r);
      EvictionsThrough(v0, v1, v2, caches.view, c, k, evicted, dropped);
      if !write { SharesThrough(v0, v1, v2, caches.view, c, k); }
    }

    /** `replaceLine` and the victim's write-back. */
    method MakeRoom(c: int, k: Key) returns (s: Slot, ghost evicted: Option<Key>)
      requires Safe() && 0 <= c < cores && caches.view(Core(c), k) == I
      modifies this, caches, dirs
      ensures SafeBut(k, c) && s in caches.lines && s.node == Core(c) && KeyAt(caches.g, s, caches.lines[s]) == k
      ensures caches.lines[s].state != I || caches.view(Core(c), k) == I
      ensures evicted.Some? <==> InTree(caches.g, Core(c)) && !caches.HasFreeWay(old(caches.lines), Core(c), k)
      ensures forall q: Key {:trigger Entry(q)} ::
        Entry(q) == if evicted == Some(q) && old(caches.view)(Core(c), q) == M then I else old(Entry(q))
      ensures evicted.Some? && old(caches.view)(Core(c), evicted.value) == M ==>
        forall n: Node {:trigger caches.view(n, evicted.value)} :: caches.view(n, evicted.value) == I
      ensures forall d {:trigger caches.view(Core(d), k)} :: d != c ==> caches.view(Core(d), k) == old(caches.view)(Core(d), k)
      ensures Evictions(old(caches.view), caches.view, c, k, evicted, None)
    {
      hide LineStore.Valid, KeyAt, Homed, Bounded, Linked, Sound, SoundBut, OnlyLowered;
      ghost var v0 := caches.view;
      var victim;
      s, victim := Refill(c, k);
      evicted := victim;
      label filled:
      if caches.lines[s].state == M {
        ghost var lines := caches.lines;
        var st;
        ghost var none;
        st, none := AccessDirectory(c, victim.value, Wb, k);
        LoweredKeys(lines, caches.lines);
        caches.StillSole@filled(s);
      }
    }

    /** The line is retagged for k and keeps the state of the victim, which its core holds no more. */
    method Refill(c: int, k: Key) returns (s: Slot, victim: Option<Key>)
      requires Safe() && 0 <= c < cores && caches.view(Core(c), k) == I
      modifies caches
      ensures Valid() && s in caches.lines && s.node == Core(c) && KeyAt(caches.g, s, caches.lines[s]) == k
      ensures caches.lines[s].state != I || caches.view(Core(c), k) == I
      ensures if caches.lines[s].state == M && victim.Some? then SafeWithout(k, c, victim.value) else SafeBut(k, c)
      ensures victim.Some? <==> InTree(caches.g, Core(c)) && !caches.HasFreeWay(old(caches.lines), Core(c), k)
      ensures victim.Some? ==> caches.lines[s].state == old(caches.view)(Core(c), victim.value)
      ensures caches.lines[s].state == M ==> victim.Some? && Entry(victim.value) != I
      ensures forall d {:trigger caches.view(Core(d), k)} :: d != c ==> caches.view(Core(d), k) == old(caches.view)(Core(d), k)
      ensures Evictions(old(caches.view), caches.view, c, k, victim, None)
    {
      hide LineStore.Valid, KeyAt, Homed, Bounded, Linked, Sound, SoundBut, LineStore.HasFreeWay, OnlyLowered;
      ghost var v0 := caches.view;
      Opened(k, c);
      var way, old0 := caches.ReplaceLine(Core(c), k);
      victim := old0;
      s := SlotFor(caches.g, Core(c), k, way);
      RetaggedBounded(v0, caches.view, cores, k, c);
      Unaffected(v0, caches.view, Entry(k), rec(k), cores, k, c);
      if victim.Some? {
        assert old(SoundAt(victim.value));
        LowHolder(v0, Entry(victim.value), rec(victim.value), cores, victim.value, c);
        if v0(Core(c), victim.value) == M {
          HoldersRecorded(v0, Entry(victim.value), rec(victim.value), cores, victim.value, c);
          OwnerGone(v0, caches.view, Entry(victim.value), rec(victim.value), cores, victim.value, c);
        }
        FilledState(s, k);
      }
      forall q: Key | q != k && !(victim == Some(q) && caches.lines[s].state == M)
        ensures SoundAt(q)
      {
        assert old(SoundAt(q));
        if victim == Some(q) {
          SilentEviction(v0, caches.view, Entry(q), rec(q), cores, q, c);
        } else {
          SoundKept(v0, caches.view, Entry(q), rec(q), cores, q);
        }
      }
    }

    lemma FilledState(s: Slot, k: Key)
      requires caches.Valid() && s in caches.lines && KeyAt(caches.g, s, caches.lines[s]) == k && caches.lines[s].state != I
      ensures caches.view(s.node, k) == caches.lines[s].state
    {
    }

    // ----- mesi_directory at the only level ------------------------------------------------------------

    /** One read or write of block k by core c. */
    method Access(c: int, k: Key, write: bool) returns (r: State, ghost evicted: Option<Key>, ghost dropped: Option<Key>)
      requires Safe() && 0 <= c < cores
      modifies this, caches, dirs
      ensures Safe() && r == caches.view(Core(c), k)
      ensures write ==> r == M && forall d {:trigger caches.view(Core(d), k)} :: d != c ==> caches.view(Core(d), k) == I
      ensures !write ==> (r == S || r == E) && forall d {:trigger caches.view(Core(d), k)} :: d != c ==> caches.view(Core(d), k) <= S
      ensures r == E ==> forall d {:trigger caches.view(Core(d), k)} :: d != c ==> caches.view(Core(d), k) == I
      ensures !write ==> (r == E <==> old(Entry(k)) == I)
      ensures evicted.Some? <==>
        old(caches.view)(Core(c), k) == I && InTree(caches.g, Core(c)) && !caches.HasFreeWay(old(caches.lines), Core(c), k)
      ensures dropped.Some? ==> old(Entry(k)) == I
      ensures forall q: Key {:trigger Entry(q)} :: q != k ==> (
        Entry(q) == if dropped == Some(q) || (evicted == Some(q) && old(caches.view)(Core(c), q) == M) then I else old(Entry(q)))
      ensures evicted.Some? && old(caches.view)(Core(c), evicted.value) == M ==>
        forall n: Node {:trigger caches.view(n, evicted.value)} :: caches.view(n, evicted.value) == I
      ensures !write ==> OthersShare(old(caches.view), caches.view, c, k)
      ensures Evictions(old(caches.view), caches.view, c, k, evicted, dropped)
      ensures (r == S <==> Entry(k) == S || Entry(k) == B) && (r >= E ==> rec(k) == {c})
    {
      hide LineStore.Valid, KeyAt, Homed, Bounded, Linked, Sound, SoundBut, OnlyLowered, LineStore.HasFreeWay;
      assert SoundAt(k);
      var way := caches.AccessLine(Core(c), k);
      if way != -1 {
        r, evicted, dropped := Hit(c, k, write, SlotFor(caches.g, Core(c), k, way));
      } else {
        r, evicted, dropped := Miss(c, k, write);
      }
    }

    /** At most one core may write a block, and then no other core holds it. */
    lemma SafeExcludes(k: Key, c: int, d: int)
      requires Safe() && c != d && caches.view(Core(c), k) >= E
      ensures caches.view(Core(d), k) == I && rec(k) == {c} && (Entry(k) == E || Entry(k) == M)
    {
      hide LineStore.Valid, KeyAt, Homed, Bounded, Linked;
      assert SoundAt(k);
      OneWriter(caches.view, Entry(k), rec(k), cores, k, c, d);
      HoldersRecorded(caches.view, Entry(k), rec(k), cores, k, c);
    }

    /** Along every run a core in M or E excludes every other core, and a requester holds its block. */
    method Run(reqs: seq<Request>) returns (ghost views: seq<View>)
      requires Safe() && forall i :: 0 <= i < |reqs| ==> 0 <= reqs[i].core < cores
      modifies this, caches, dirs
      ensures Safe() && |views| == |reqs| + 1 && views[0] == old(caches.view) && views[|reqs|] == caches.view
      ensures forall i :: 0 <= i < |views| ==> WriterAlone(views[i])
      ensures forall i :: 0 <= i < |reqs| ==> Served(views[i + 1], reqs[i])
    {
      hide LineStore.Valid, KeyAt, Homed, Bounded, Linked, Sound, Evictions, WriterAlone;
      views := [caches.view];
      AllExcluded();
      for j := 0 to |reqs|
        invariant Safe() && |views| == j + 1 && views[0] == old(caches.view) && views[j] == caches.view
        invariant forall i :: 0 <= i < |views| ==> WriterAlone(views[i])
        invariant forall i :: 0 <= i < j ==> Served(views[i + 1], reqs[i])
      {
        var r;
        ghost var evicted, dropped;
        r, evicted, dropped := Access(reqs[j].core, reqs[j].key, reqs[j].write);
        AllExcluded();
        views := views + [caches.view];
      }
    }

    lemma AllExcluded()
      requires Safe()
      ensures WriterAlone(caches.view)
    {
      hide LineStore.Valid, KeyAt, Homed, Bounded, Linked, Sound;
      forall k: Key, c, d | c != d && caches.view(Core(c), k) >= E
        ensures caches.view(Core(d), k) == I
      {
        SafeExcludes(k, c, d);
      }
    }
  }
}
