/** The timestamp scan of `Cache::lru` (`src/cache.cpp`) refines a recency list: with increasing timestamps
    a set holds exactly the most recently used blocks. */
module Lru {
  import opened Sequences
  import opened CacheArray

  /** A TLB line; valid is state V. */
  datatype TlbLine = TlbLine(valid: bool, id: int, tag: nat, page: nat, stamp: int)

  function KeyOf(x: TlbLine, sets: pos, index: nat): Key {
    Compose(sets, x.id, index, x.tag)
  }

  // ----- Recency lists ------------------------------------------------------------------------------

  function Remove<T(==)>(s: seq<T>, x: T): seq<T> {
    if |s| == 0 then [] else if s[0] == x then s[1..] else [s[0]] + Remove(s[1..], x)
  }

  /** The list after x was used. */
  function Touch<T(==)>(s: seq<T>, x: T): seq<T> {
    [x] + Remove(s, x)
  }

  /** The different elements of a history, the most recently used first. */
  function Recency<T(==)>(h: seq<T>): seq<T> {
    if |h| == 0 then [] else Touch(Recency(h[..|h| - 1]), h[|h| - 1])
  }

  lemma {:induction false} RemoveAbsent<T>(s: seq<T>, x: T)
    requires x !in s
    ensures Remove(s, x) == s
  {
    if |s| > 0 {
      RemoveAbsent(s[1..], x);
      assert s == [s[0]] + s[1..];
    }
  }

  lemma {:induction false} RemoveAt<T>(s: seq<T>, n: nat)
    requires n < |s| && forall i :: 0 <= i < n ==> s[i] != s[n]
    ensures Remove(s, s[n]) == s[..n] + s[n + 1..]
  {
    if n > 0 {
      RemoveAt(s[1..], n - 1);
      assert s[1..][n - 1] == s[n];
      assert [s[0]] + (s[1..][..n - 1] + s[1..][n..]) == s[..n] + s[n + 1..];
    }
  }

  lemma TouchMembers<T>(s: seq<T>, x: T)
    ensures forall y :: y in Touch(s, x) ==> y in s || y == x
    ensures forall y :: y in s || y == x ==> y in Touch(s, x)
  {
    RemoveMembers(s, x);
    assert Touch(s, x)[0] == x;
    assert forall y | y in Remove(s, x) :: y in Touch(s, x);
  }

  lemma {:induction false} RemoveMembers<T>(s: seq<T>, x: T)
    ensures forall y :: y in Remove(s, x) ==> y in s
    ensures forall y :: y in s && y != x ==> y in Remove(s, x)
  {
    if |s| > 0 && s[0] != x {
      RemoveMembers(s[1..], x);
      assert s == [s[0]] + s[1..];
    }
  }

  lemma TouchNoDup<T(!new)>(s: seq<T>, x: T)
    requires NoDup(s)
    ensures NoDup(Touch(s, x))
  {
    RemoveNoDup(s, x);
  }

  lemma RemoveNoDup<T(!new)>(s: seq<T>, x: T)
    requires NoDup(s)
    ensures NoDup(Remove(s, x)) && x !in Remove(s, x)
  {
    if x in s {
      var n :| 0 <= n < |s| && s[n] == x;
      RemoveAt(s, n);
      CutNoDup(s, n);
    } else {
      RemoveAbsent(s, x);
    }
  }

  lemma CutNoDup<T(!new)>(s: seq<T>, n: nat)
    requires NoDup(s) && n < |s|
    ensures NoDup(s[..n] + s[n + 1..]) && s[n] !in s[..n] + s[n + 1..]
  {
    var r := s[..n] + s[n + 1..];
    assert forall i | 0 <= i < n :: r[i] == s[i];
    assert forall i | n <= i < |r| :: r[i] == s[i + 1];
  }

  /** The position of the last use. */
  function LastUse<T(==)>(h: seq<T>, x: T): int {
    if |h| == 0 then -1 else if h[|h| - 1] == x then |h| - 1 else LastUse(h[..|h| - 1], x)
  }

  /** The recency list holds every element of the history once, ordered by its last use. */
  lemma {:induction false} RecencyMeaning<T(!new)>(h: seq<T>)
    ensures NoDup(Recency(h)) && forall x :: x in Recency(h) <==> x in h
    ensures forall i, j :: 0 <= i < j < |Recency(h)| ==> LastUse(h, Recency(h)[i]) > LastUse(h, Recency(h)[j])
  {
    if |h| > 0 {
      var n := |h| - 1;
      var x, s := h[n], Recency(h[..n]);
      RecencyMeaning(h[..n]);
      TouchMembers(s, x);
      TouchNoDup(s, x);
      assert h == h[..n] + [x];
      var r := Recency(h);
      forall i, j | 0 <= i < j < |r|
        ensures LastUse(h, r[i]) > LastUse(h, r[j])
      {
        TouchOrder(h[..n], s, x, i, j);
      }
    }
  }

  lemma TouchOrder<T(!new)>(g: seq<T>, s: seq<T>, x: T, i: int, j: int)
    requires NoDup(s) && 0 <= i < j < |Touch(s, x)|
    requires forall a, b :: 0 <= a < b < |s| ==> LastUse(g, s[a]) > LastUse(g, s[b])
    ensures LastUse(g + [x], Touch(s, x)[i]) > LastUse(g + [x], Touch(s, x)[j])
  {
    hide LastUse, Remove;
    TouchNoDup(s, x);
    hide NoDup;
    LastUseStep(g, x, Touch(s, x)[i]);
    LastUseStep(g, x, Touch(s, x)[j]);
    LastUseBelow(g, Touch(s, x)[j]);
    if x in s {
      var n :| 0 <= n < |s| && s[n] == x && forall m :: 0 <= m < n ==> s[m] != x by { FirstAt(s, x, 0); }
      RemoveAt(s, n);
    } else {
      RemoveAbsent(s, x);
    }
    TouchApart(s, x, j);
  }

  lemma LastUseStep<T(!new)>(g: seq<T>, x: T, y: T)
    ensures LastUse(g + [x], y) == if y == x then |g| else LastUse(g, y)
  {
    assert (g + [x])[..|g|] == g;
  }

  lemma TouchApart<T(!new)>(s: seq<T>, x: T, j: int)
    requires NoDup(s) && 0 < j < |Touch(s, x)|
    ensures Touch(s, x)[j] != x
  {
    RemoveNoDup(s, x);
    assert Touch(s, x)[j] in Remove(s, x);
  }

  lemma {:induction false} LastUseBelow<T>(h: seq<T>, x: T)
    ensures LastUse(h, x) < |h|
  {
    if |h| > 0 { LastUseBelow(h[..|h| - 1], x); }
  }

  // ----- Sets ------------------------------------------------------------------------------------------

  function Min(a: nat, b: nat): nat {
    if a < b then a else b
  }

  /** The lines of a set are the first |row| blocks of the list, in the ways that slots names, and their
      timestamps fall along the list. */
  ghost predicate RowLru(row: seq<TlbLine>, sets: pos, index: nat, order: seq<Key>, slots: seq<int>, clock: int) {
    && |slots| == Min(|row|, |order|) && NoDup(slots) && NoDup(order)
    && (forall n :: 0 <= n < |slots| ==> 0 <= slots[n] < |row|)
    && (forall n :: 0 <= n < |slots| ==>
          row[slots[n]].valid && KeyOf(row[slots[n]], sets, index) == order[n] && row[slots[n]].stamp <= clock)
    && (forall n, m :: 0 <= n < m < |slots| ==> row[slots[n]].stamp > row[slots[m]].stamp)
    && (forall j :: 0 <= j < |row| && row[j].valid ==> j in slots)
  }

  /** A set holds a block exactly if it is among the most recently used ones. */
  lemma HoldsMostRecent(row: seq<TlbLine>, sets: pos, index: nat, order: seq<Key>, slots: seq<int>, clock: int, k: Key)
    requires RowLru(row, sets, index, order, slots, clock)
    ensures (exists j :: 0 <= j < |row| && row[j].valid && KeyOf(row[j], sets, index) == k)
      <==> k in order[..Min(|row|, |order|)]
  {
    hide KeyOf;
    if k in order[..Min(|row|, |order|)] {
      var n :| 0 <= n < |slots| && order[n] == k;
      assert row[slots[n]].valid && KeyOf(row[slots[n]], sets, index) == k;
    }
    forall j | 0 <= j < |row| && row[j].valid && KeyOf(row[j], sets, index) == k
      ensures k in order[..Min(|row|, |order|)]
    {
      var n :| 0 <= n < |slots| && slots[n] == j;
      assert order[..Min(|row|, |order|)][n] == k;
    }
  }

  /** The way that `lru` picks: the first with the smallest timestamp. */
  ghost predicate Oldest(row: seq<TlbLine>, way: int) {
    0 <= way < |row| && forall j :: 0 <= j < |row| ==> row[way].stamp <= row[j].stamp
  }

  /** Where a miss puts its block: a free way, or the oldest if there is none. */
  ghost predicate Chosen(row: seq<TlbLine>, way: int) {
    0 <= way < |row| && (!row[way].valid || ((forall j :: 0 <= j < |row| ==> row[j].valid) && Oldest(row, way)))
  }

  ghost predicate Contains(row: seq<TlbLine>, sets: pos, index: nat, k: Key) {
    exists j :: 0 <= j < |row| && row[j].valid && KeyOf(row[j], sets, index) == k
  }

  /** On a miss the chosen way is either in no use, or that of the least recent block held. */
  lemma ChosenIsLast(row: seq<TlbLine>, sets: pos, index: nat, order: seq<Key>, slots: seq<int>, clock: int, way: int)
    requires RowLru(row, sets, index, order, slots, clock) && Chosen(row, way)
    ensures !row[way].valid ==> way !in slots && |slots| == |order| < |row|
    ensures row[way].valid ==> |slots| == |row| && slots[|row| - 1] == way
  {
    hide KeyOf;
    Pigeonhole(slots, |row|);
    if row[way].valid {
      assert forall j :: 0 <= j < |row| ==> j in slots;
      assert |slots| == |row|;
      var n :| 0 <= n < |slots| && slots[n] == way;
      assert row[way].stamp <= row[slots[|row| - 1]].stamp;
    } else {
      assert way !in slots;
    }
  }

  /** The list t is s with position n moved to the front, or with something new in front of its first n. */
  ghost predicate Fronted<T(!new)>(s: seq<T>, t: seq<T>, n: nat, x: T) {
    && |t| > 0 && t[0] == x
    && (forall m {:trigger t[m]} :: 1 <= m <= n && m < |t| && m <= |s| ==> t[m] == s[m - 1])
    && (forall m {:trigger t[m]} :: n < m < |t| && m < |s| ==> t[m] == s[m])
  }

  /** Touching the block at position n, or one that is not among the first n. */
  lemma TouchFronts<T(!new)>(s: seq<T>, x: T, n: nat)
    requires n <= |s| && ((n < |s| && s[n] == x) || n == |s|)
    requires forall i :: 0 <= i < n ==> s[i] != x
    ensures Fronted(s, Touch(s, x), n, x) && |Touch(s, x)| == if n < |s| then |s| else |s| + 1
  {
    if n < |s| {
      RemoveAt(s, n);
    } else {
      RemoveAbsent(s, x);
    }
  }

  /** Touching a block behind the first n leaves those n in their order. */
  lemma TouchBehind<T(!new)>(s: seq<T>, x: T, n: nat)
    requires n <= |s| && forall i :: 0 <= i < n ==> s[i] != x
    ensures |s| <= |Touch(s, x)| <= |s| + 1 && Touch(s, x)[0] == x
    ensures forall m {:trigger Touch(s, x)[m]} :: 1 <= m <= n ==> m < |Touch(s, x)| && Touch(s, x)[m] == s[m - 1]
  {
    if x in s {
      var i :| n <= i < |s| && s[i] == x && forall j :: 0 <= j < i ==> s[j] != x by { FirstAt(s, x, n); }
      RemoveAt(s, i);
    } else {
      RemoveAbsent(s, x);
    }
  }

  lemma {:induction false} FirstAt<T(!new)>(s: seq<T>, x: T, n: nat)
    requires x in s && n <= |s| && forall i :: 0 <= i < n ==> s[i] != x
    ensures exists i :: n <= i < |s| && s[i] == x && forall j :: 0 <= j < i ==> s[j] != x
    decreases |s| - n
  {
    if n < |s| && s[n] != x {
      FirstAt(s, x, n + 1);
    }
  }

  /** What a set looks like after the line in `way` was used for block k at a later time. */
  ghost predicate Used(row: seq<TlbLine>, row1: seq<TlbLine>, sets: pos, index: nat, k: Key, way: int, time: int) {
    && 0 <= way < |row| && |row1| == |row| && (forall j :: 0 <= j < |row| && j != way ==> row1[j] == row[j])
    && row1[way].valid && row1[way].stamp == time && KeyOf(row1[way], sets, index) == k
  }

  lemma FrontKeeps(row: seq<TlbLine>, row1: seq<TlbLine>, sets: pos, index: nat, order: seq<Key>, slots: seq<int>, clock: int,
                   k: Key, way: int, time: int, n: nat, o: seq<Key>, s: seq<int>)
    requires RowLru(row, sets, index, order, slots, clock) && time > clock && Used(row, row1, sets, index, k, way, time)
    requires NoDup(o) && NoDup(s) && |s| == Min(|row|, |o|) && n <= |slots| && |slots| <= |s|
    requires Fronted(slots, s, n, way) && (forall j :: j in s <==> j in slots || j == way)
    requires |o| >= |s| && o[0] == k && (forall m {:trigger o[m]} :: 1 <= m <= n && m < |s| ==> o[m] == order[m - 1])
    requires forall m {:trigger o[m]} :: n < m < |s| ==> m < |slots| && o[m] == order[m]
    ensures RowLru(row1, sets, index, o, s, time)
  {
    hide KeyOf;
    forall m | 0 <= m < |s|
      ensures 0 <= s[m] < |row1| && row1[s[m]].valid && KeyOf(row1[s[m]], sets, index) == o[m] && row1[s[m]].stamp <= time
      ensures m > 0 ==> s[m] != way
    {
      var x, y := o[m], s[m];
      assert m > n ==> m < |slots| && x == order[m] && y == slots[m];
      assert 1 <= m <= n ==> x == order[m - 1] && y == slots[m - 1];
    }
    forall j | 0 <= j < |row1| && row1[j].valid
      ensures j in s
    {
    }
    forall a, b | 0 <= a < b < |s|
      ensures row1[s[a]].stamp > row1[s[b]].stamp
    {
      assert s[b] != way;
    }
  }

  /** Using a block, whether it hits or replaces the oldest line, keeps the set a recency list. */
  lemma UseKeeps(row: seq<TlbLine>, row1: seq<TlbLine>, sets: pos, index: nat, order: seq<Key>, slots: seq<int>, clock: int,
                 k: Key, way: int, time: int)
    requires RowLru(row, sets, index, order, slots, clock) && time > clock && Used(row, row1, sets, index, k, way, time)
    requires if Contains(row, sets, index, k) then row[way].valid && KeyOf(row[way], sets, index) == k else Chosen(row, way)
    ensures RowLru(row1, sets, index, Touch(order, k), Touch(slots, way), time)
  {
    TouchNoDup(order, k);
    TouchNoDup(slots, way);
    TouchMembers(slots, way);
    if Contains(row, sets, index, k) {
      var n :| 0 <= n < |slots| && slots[n] == way;
      TouchFronts(slots, way, n);
      TouchFronts(order, k, n);
      hide KeyOf, Touch, Remove, NoDup, Used;
      FrontKeeps(row, row1, sets, index, order, slots, clock, k, way, time, n, Touch(order, k), Touch(slots, way));
    } else {
      ChosenIsLast(row, sets, index, order, slots, clock, way);
      NotHeld(row, sets, index, order, slots, clock, k);
      TouchBehind(order, k, |slots|);
      hide KeyOf, Touch, Remove, NoDup, Used;
      if row[way].valid {
        LastDistinct(slots);
        TouchFronts(slots, way, |slots| - 1);
        FrontKeeps(row, row1, sets, index, order, slots, clock, k, way, time, |slots| - 1, Touch(order, k), Touch(slots, way));
      } else {
        TouchFronts(slots, way, |slots|);
        TouchFronts(order, k, |slots|);
        FrontKeeps(row, row1, sets, index, order, slots, clock, k, way, time, |slots|, Touch(order, k), Touch(slots, way));
      }
    }
  }

  lemma LastDistinct(s: seq<int>)
    requires NoDup(s) && |s| > 0
    ensures forall i :: 0 <= i < |s| - 1 ==> s[i] != s[|s| - 1]
  {
  }

  /** A block that misses is not among the first of the list. */
  lemma NotHeld(row: seq<TlbLine>, sets: pos, index: nat, order: seq<Key>, slots: seq<int>, clock: int, k: Key)
    requires RowLru(row, sets, index, order, slots, clock) && !Contains(row, sets, index, k)
    ensures forall i :: 0 <= i < |slots| ==> order[i] != k
  {
    hide KeyOf;
    forall i | 0 <= i < |slots|
      ensures order[i] != k
    {
      assert KeyOf(row[slots[i]], sets, index) == order[i];
    }
  }
}
