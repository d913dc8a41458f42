/** Address translation: per-core TLBs in front of a page table that hands out physical pages in order
    (`tlb_translate` in `src/system.cpp`, `src/page_table.cpp`). */
module Tlb {
  import opened Sequences
  import opened CacheArray
  import opened Lru

  /** Pages are handed out once each, in the order 0, 1, 2, ...; pages[n] is the block of page n. */
  ghost predicate TableOk(pageMap: map<Key, nat>, empty: nat, pages: seq<Key>) {
    && |pages| == empty
    && (forall n :: 0 <= n < empty ==> pages[n] in pageMap && pageMap[pages[n]] == n)
    && (forall k | k in pageMap :: pageMap[k] < empty && pages[pageMap[k]] == k)
  }

  /** Different virtual pages have different physical pages. */
  lemma PagesApart(pageMap: map<Key, nat>, empty: nat, pages: seq<Key>, k: Key, q: Key)
    requires TableOk(pageMap, empty, pages) && k in pageMap && q in pageMap
    ensures pageMap[k] == pageMap[q] ==> k == q
  {
  }

  /** Exactly the pages 0 .. empty - 1 are in use. */
  lemma PagesInUse(pageMap: map<Key, nat>, empty: nat, pages: seq<Key>, n: nat)
    requires TableOk(pageMap, empty, pages)
    ensures n < empty <==> exists k :: k in pageMap && pageMap[k] == n
  {
    if n < empty {
      assert pages[n] in pageMap;
    }
  }

  function Virtual(pageSize: pos, prog: int, addr: nat): Key {
    Key(prog, Quo(addr, pageSize))
  }

  /** `(ppage_num << log2(page_size)) | (addr % page_size)`: the two parts occupy different bits. */
  function Physical(pageSize: pos, page: nat, addr: nat): nat {
    Mul(page, pageSize) + Rem(addr, pageSize)
  }

  /** Addresses have one page exactly if they are in one program and one aligned block of the page size. */
  lemma SamePage(size: pos, p: int, a: nat, q: int, b: nat)
    ensures Virtual(size, p, a) == Virtual(size, q, b) <==> p == q && a - Rem(a, size) == b - Rem(b, size)
  {
    DivModSplits(a, size);
    DivModSplits(b, size);
    MulEqual(Quo(a, size), Quo(b, size), size);
  }

  lemma MulEqual(m: nat, n: nat, d: pos)
    ensures Mul(m, d) == Mul(n, d) <==> m == n
  {
    DivModUnique(m, d, 0);
    DivModUnique(n, d, 0);
  }

  /** A physical address lies in its page, and keeps the offset of the virtual one. */
  lemma PhysicalParts(size: pos, page: nat, addr: nat)
    ensures Quo(Physical(size, page, addr), size) == page && Rem(Physical(size, page, addr), size) == Rem(addr, size)
  {
    DivModUnique(page, size, Rem(addr, size));
  }

  /** Translation is injective: equal physical addresses come from the same program and address. */
  lemma TranslationInjective(pageMap: map<Key, nat>, empty: nat, pages: seq<Key>, size: pos, p: int, a: nat, q: int, b: nat)
    requires TableOk(pageMap, empty, pages) && Virtual(size, p, a) in pageMap && Virtual(size, q, b) in pageMap
    requires Physical(size, pageMap[Virtual(size, p, a)], a) == Physical(size, pageMap[Virtual(size, q, b)], b)
    ensures p == q && a == b
  {
    var m, n := pageMap[Virtual(size, p, a)], pageMap[Virtual(size, q, b)];
    DivModUnique(m, size, Rem(a, size));
    DivModUnique(n, size, Rem(b, size));
    PagesApart(pageMap, empty, pages, Virtual(size, p, a), Virtual(size, q, b));
    DivModSplits(a, size);
    DivModSplits(b, size);
  }

  lemma KeyMatches(x: TlbLine, sets: pos, k: Key)
    ensures KeyOf(x, sets, Index(sets, k)) == k <==> x.id == k.prog && x.tag == Tag(sets, k)
  {
    ComposeSplits(sets, x.id, Index(sets, k), x.tag);
    SplitComposes(sets, k);
  }

  /** A line in use agrees with the page table. */
  ghost predicate Agrees(x: TlbLine, sets: pos, i: nat, pageMap: map<Key, nat>) {
    x.valid ==> KeyOf(x, sets, i) in pageMap && pageMap[KeyOf(x, sets, i)] == x.page
  }

  /** The lines of one set agree with the page table. */
  ghost predicate RowAgrees(row: seq<TlbLine>, sets: pos, i: nat, pageMap: map<Key, nat>) {
    forall j :: 0 <= j < |row| ==> Agrees(row[j], sets, i, pageMap)
  }

  /** All sets have their ways, and their lines agree with the page table. */
  ghost predicate RowsAgree(line: map<(nat, nat), seq<TlbLine>>, sets: pos, ways: pos, pageMap: map<Key, nat>) {
    forall r | r in line :: |line[r]| == ways && RowAgrees(line[r], sets, r.1, pageMap)
  }

  lemma RowsStore(line: map<(nat, nat), seq<TlbLine>>, sets: pos, ways: pos, pageMap: map<Key, nat>, r: (nat, nat), way: int, x: TlbLine)
    requires RowsAgree(line, sets, ways, pageMap) && r in line && 0 <= way < |line[r]|
    requires KeyOf(x, sets, r.1) in pageMap && x.page == pageMap[KeyOf(x, sets, r.1)]
    ensures RowsAgree(line[r := line[r][way := x]], sets, ways, pageMap)
  {
    hide KeyOf, RowAgrees;
    StoreAgrees(line[r], sets, r.1, pageMap, way, x);
  }

  /** New pages do not disturb old lines. */
  lemma GrowAgrees(row: seq<TlbLine>, sets: pos, i: nat, pageMap: map<Key, nat>, more: map<Key, nat>)
    requires RowAgrees(row, sets, i, pageMap) && forall k | k in pageMap :: k in more && more[k] == pageMap[k]
    ensures RowAgrees(row, sets, i, more)
  {
    hide KeyOf;
    forall j | 0 <= j < |row|
      ensures Agrees(row[j], sets, i, more)
    {
      assert Agrees(row[j], sets, i, pageMap);
    }
  }

  ghost predicate SetOrdered(line: map<(nat, nat), seq<TlbLine>>, sets: pos, history: map<(nat, nat), seq<Key>>,
                             slots: map<(nat, nat), seq<int>>, clock: seq<int>, r: (nat, nat)) {
    r in line && r in history && r in slots && r.0 < |clock|
      && RowLru(line[r], sets, r.1, Recency(history[r]), slots[r], clock[r.0])
  }

  ghost predicate AllOrdered(line: map<(nat, nat), seq<TlbLine>>, sets: pos, history: map<(nat, nat), seq<Key>>,
                             slots: map<(nat, nat), seq<int>>, clock: seq<int>, c: nat) {
    forall r | r in line && r.0 == c :: SetOrdered(line, sets, history, slots, clock, r)
  }

  /** Storing a used line keeps the sets of its core recency lists, if time has advanced. */
  lemma StoreOrdered(line: map<(nat, nat), seq<TlbLine>>, sets: pos, history: map<(nat, nat), seq<Key>>,
                     slots: map<(nat, nat), seq<int>>, clock: seq<int>, c: nat, r: (nat, nat), way: int, x: TlbLine, k: Key, time: int)
    requires AllOrdered(line, sets, history, slots, clock, c) && c < |clock| && time > clock[c]
    requires r in line && r in history && r in slots && r.0 == c && 0 <= way < |line[r]|
    requires x.valid && x.stamp == time && KeyOf(x, sets, r.1) == k
    requires if Contains(line[r], sets, r.1, k) then line[r][way].valid && KeyOf(line[r][way], sets, r.1) == k
             else Chosen(line[r], way)
    ensures AllOrdered(line[r := line[r][way := x]], sets, history[r := history[r] + [k]], slots[r := Touch(slots[r], way)],
                       clock[c := time], c)
  {
    UsedRow(line[r], sets, r.1, k, way, x, time);
    RecencyStep(history[r], k);
    hide RowLru, KeyOf, Recency, Touch, Contains, Chosen, Used;
    forall s | s in line && s.0 == c
      ensures SetOrdered(line[r := line[r][way := x]], sets, history[r := history[r] + [k]], slots[r := Touch(slots[r], way)], clock[c := time], s)
    {
      assert SetOrdered(line, sets, history, slots, clock, s);
      if s == r {
        UseKeeps(line[r], line[r][way := x], sets, r.1, Recency(history[r]), slots[r], clock[c], k, way, time);
      } else {
        ClockGrows(line[s], sets, s.1, Recency(history[s]), slots[s], clock[c], time);
      }
    }
  }

  lemma OtherOrdered(line: map<(nat, nat), seq<TlbLine>>, sets: pos, history: map<(nat, nat), seq<Key>>,
                     slots: map<(nat, nat), seq<int>>, clock: seq<int>, r: (nat, nat), row: seq<TlbLine>, h: seq<Key>, s: seq<int>, time: int)
    requires r.0 < |clock|
    ensures forall d :: d != r.0 && AllOrdered(line, sets, history, slots, clock, d) ==>
      AllOrdered(line[r := row], sets, history[r := h], slots[r := s], clock[r.0 := time], d)
  {
    hide RowLru, Recency;
    forall d | d != r.0 && AllOrdered(line, sets, history, slots, clock, d)
      ensures AllOrdered(line[r := row], sets, history[r := h], slots[r := s], clock[r.0 := time], d)
    {
      forall q | q in line[r := row] && q.0 == d
        ensures SetOrdered(line[r := row], sets, history[r := h], slots[r := s], clock[r.0 := time], q)
      {
        assert SetOrdered(line, sets, history, slots, clock, q);
      }
    }
  }

  lemma EmptyRow(ways: nat, sets: pos, i: nat)
    ensures var row := seq(ways, _ => TlbLine(false, 0, 0, 0, 0));
      RowLru(row, sets, i, Recency([]), [], 0) && RowAgrees(row, sets, i, map[])
  {
    hide KeyOf;
  }

  lemma NoPages()
    ensures TableOk(map[], 0, [])
  {
  }

  lemma FreshRows(line: map<(nat, nat), seq<TlbLine>>, sets: pos, ways: pos, history: map<(nat, nat), seq<Key>>,
                  slots: map<(nat, nat), seq<int>>, clock: seq<int>)
    requires history.Keys == line.Keys == slots.Keys
    requires forall r | r in line :: line[r] == seq(ways, _ => TlbLine(false, 0, 0, 0, 0)) && history[r] == [] && slots[r] == []
    requires forall c :: 0 <= c < |clock| ==> clock[c] == 0
    ensures RowsAgree(line, sets, ways, map[])
    ensures forall c: nat :: c < |clock| ==> AllOrdered(line, sets, history, slots, clock, c)
  {
    hide RowLru, RowAgrees, Recency;
    forall r | r in line
      ensures RowLru(line[r], sets, r.1, Recency(history[r]), slots[r], 0) && RowAgrees(line[r], sets, r.1, map[])
    {
      EmptyRow(ways, sets, r.1);
    }
  }

  datatype Request = Request(core: nat, prog: int, addr: nat, time: int)

  class TlbSystem {
    const cores: nat
    const sets: pos
    const ways: pos
    const pageSize: pos
    var line: map<(nat, nat), seq<TlbLine>>        // the ways of every set of every core
    var pageMap: map<Key, nat>
    var emptyPage: nat
    ghost var pages: seq<Key>
    ghost var history: map<(nat, nat), seq<Key>>   // the pages used in a set of a core, in order
    ghost var slots: map<(nat, nat), seq<int>>
    ghost var clock: seq<int>

    predicate IsRow(r: (nat, nat)) {
      r.0 < cores && r.1 < sets
    }

    ghost predicate Valid()
      reads this
    {
      && TableOk(pageMap, emptyPage, pages) && |clock| == cores
      && (forall r :: r in line <==> IsRow(r)) && history.Keys == line.Keys && slots.Keys == line.Keys
      && RowsAgree(line, sets, ways, pageMap)
    }

    /** The sets of core c are recency lists. */
    ghost predicate LruOrdered(c: nat)
      reads `line, `history, `slots, `clock
    {
      AllOrdered(line, sets, history, slots, clock, c)
    }

    constructor (cores: nat, sets: pos, ways: pos, pageSize: pos)
      ensures Valid() && this.cores == cores && this.sets == sets && this.ways == ways && this.pageSize == pageSize
      ensures pageMap == map[] && forall c: nat :: c < cores ==> LruOrdered(c)
    {
      hide RowsAgree, AllOrdered, TableOk;
      this.cores, this.sets, this.ways, this.pageSize := cores, sets, ways, pageSize;
      var empty := seq(ways, _ => TlbLine(false, 0, 0, 0, 0));
      line := map c: nat, i: nat | c < cores && i < sets :: (c, i) := empty;
      pageMap, emptyPage, pages := map[], 0, [];
      history := map c: nat, i: nat | c < cores && i < sets :: (c, i) := [];
      slots := map c: nat, i: nat | c < cores && i < sets :: (c, i) := [];
      clock := seq(cores, _ => 0);
      new;
      NoPages();
      FreshRows(line, sets, ways, history, slots, clock);
    }

    /** `PageTable::translate` */
    method TranslatePage(k: Key) returns (page: nat)
      requires TableOk(pageMap, emptyPage, pages)
      modifies `pageMap, `emptyPage, `pages
      ensures TableOk(pageMap, emptyPage, pages) && k in pageMap && page == pageMap[k]
      ensures pageMap == if k in old(pageMap) then old(pageMap) else old(pageMap)[k := old(emptyPage)]
      ensures emptyPage == if k in old(pageMap) then old(emptyPage) else old(emptyPage) + 1
    {
      if k !in pageMap {
        pageMap := pageMap[k := emptyPage];
        page := emptyPage;
        emptyPage := emptyPage + 1;
        pages := pages + [k];
      } else {
        page := pageMap[k];
      }
    }

    /** `accessLine` of a TLB */
    method AccessLine(r: (nat, nat), k: Key) returns (way: int)
      requires r in line && r.1 == Index(sets, k)
      ensures -1 <= way < |line[r]|
      ensures way >= 0 ==> line[r][way].valid && KeyOf(line[r][way], sets, r.1) == k
      ensures way < 0 ==> !Contains(line[r], sets, r.1, k)
    {
      way := 0;
      while way < |line[r]|
        invariant 0 <= way <= |line[r]|
        invariant forall j :: 0 <= j < way ==> !(line[r][j].valid && KeyOf(line[r][j], sets, r.1) == k)
      {
        var x := line[r][way];
        KeyMatches(x, sets, k);
        if x.id == k.prog && x.tag == Tag(sets, k) && x.valid {
          return;
        }
        way := way + 1;
      }
      way := -1;
    }

    /** `lru`: the first way with the smallest timestamp */
    method OldestWay(r: (nat, nat)) returns (way: int)
      requires r in line && |line[r]| > 0
      ensures Oldest(line[r], way) && forall j :: 0 <= j < way ==> line[r][j].stamp > line[r][way].stamp
    {
      way := 0;
      var n := 1;
      while n < |line[r]|
        invariant 1 <= n <= |line[r]| && 0 <= way < n
        invariant forall j :: 0 <= j < n ==> line[r][way].stamp <= line[r][j].stamp
        invariant forall j :: 0 <= j < way ==> line[r][j].stamp > line[r][way].stamp
      {
        if line[r][n].stamp < line[r][way].stamp {
          way := n;
        }
        n := n + 1;
      }
    }

    /** `replaceLine` of a TLB: where the new page goes */
    method ReplaceLine(r: (nat, nat)) returns (way: int)
      requires r in line && |line[r]| > 0
      ensures Chosen(line[r], way)
    {
      way := 0;
      while way < |line[r]|
        invariant 0 <= way <= |line[r]| && forall j :: 0 <= j < way ==> line[r][j].valid
      {
        if !line[r][way].valid {
          return;
        }
        way := way + 1;
      }
      way := OldestWay(r);
    }

    /** `tlb_translate` */
    method Translate(c: nat, prog: int, addr: nat, timer: int) returns (physical: nat)
      requires Valid() && c < cores
      modifies this
      ensures Valid()
      ensures var k := Virtual(pageSize, prog, addr); var r := (c, Index(sets, k));
        && k in pageMap && physical == Physical(pageSize, pageMap[k], addr) && r in old(history)
        && pageMap == (if k in old(pageMap) then old(pageMap) else old(pageMap)[k := old(emptyPage)])
        && history == old(history)[r := old(history)[r] + [k]]
      ensures clock == old(clock)[c := timer]
      ensures old(LruOrdered(c)) && timer > old(clock)[c] ==> LruOrdered(c)
      ensures forall d: nat :: d != c && old(LruOrdered(d)) ==> LruOrdered(d)
    {
      hide KeyOf, Touch, Contains, Chosen, RowAgrees, TableOk, AllOrdered;
      var k := Virtual(pageSize, prog, addr);
      var r := (c, Index(sets, k));
      ghost var row := line[r];
      var way := AccessLine(r, k);
      var x: TlbLine;
      if way < 0 {
        way := ReplaceLine(r);
        ChosenIn(row, way);
        var page := FillPage(k);
        x := TlbLine(true, k.prog, Tag(sets, k), page, line[r][way].stamp);
        KeyMatches(x, sets, k);
      } else {
        x := line[r][way];
        KeyMatches(x, sets, k);
        LineAgrees(row, sets, r.1, pageMap, way, k);
        HitContains(row, sets, r.1, way, k);
      }
      x := x.(stamp := timer);
      KeyMatches(x, sets, k);
      Store(c, r, way, x, k, timer);
      physical := Physical(pageSize, x.page, addr);
    }

    /** The page table is asked on a TLB miss. */
    method FillPage(k: Key) returns (page: nat)
      requires Valid()
      modifies `pageMap, `emptyPage, `pages
      ensures Valid() && k in pageMap && page == pageMap[k]
      ensures pageMap == if k in old(pageMap) then old(pageMap) else old(pageMap)[k := old(emptyPage)]
    {
      hide RowAgrees, TableOk;
      ghost var map0, empty0, pages0 := pageMap, emptyPage, pages;
      page := TranslatePage(k);
      forall r | r in line
        ensures RowAgrees(line[r], sets, r.1, pageMap)
      {
        GrowAgrees(line[r], sets, r.1, map0, pageMap);
      }
    }

    /** The line is stored with its new timestamp. */
    method Store(c: nat, r: (nat, nat), way: int, x: TlbLine, k: Key, timer: int)
      requires Valid() && c < cores && r in line && r.0 == c && 0 <= way < |line[r]|
      requires x.valid && x.stamp == timer && KeyOf(x, sets, r.1) == k && k in pageMap && x.page == pageMap[k]
      requires if Contains(line[r], sets, r.1, k) then line[r][way].valid && KeyOf(line[r][way], sets, r.1) == k
               else Chosen(line[r], way)
      modifies `line, `history, `slots, `clock
      ensures Valid() && line == old(line)[r := old(line)[r][way := x]] && r in old(history)
      ensures history == old(history)[r := old(history)[r] + [k]] && clock == old(clock)[c := timer]
      ensures old(LruOrdered(c)) && timer > old(clock)[c] ==> LruOrdered(c)
      ensures forall d: nat :: d != c && old(LruOrdered(d)) ==> LruOrdered(d)
    {
      hide KeyOf, Touch, Contains, Chosen, RowsAgree, TableOk, AllOrdered, Compose;
      RowsStore(line, sets, ways, pageMap, r, way, x);
      if LruOrdered(c) && timer > clock[c] {
        StoreOrdered(line, sets, history, slots, clock, c, r, way, x, k, timer);
      }
      OtherOrdered(line, sets, history, slots, clock, r, line[r][way := x], history[r] + [k], Touch(slots[r], way), timer);
      line := line[r := line[r][way := x]];
      slots := slots[r := Touch(slots[r], way)];
      history := history[r := history[r] + [k]];
      clock := clock[c := timer];
    }

    /** Along every run of translations on any cores, two requests get one physical address if and only if they
        come from one program and one virtual address. */
    method Run(rs: seq<Request>) returns (physical: seq<nat>)
      requires Valid() && forall i :: 0 <= i < |rs| ==> rs[i].core < cores
      modifies this
      ensures Valid() && |physical| == |rs|
      ensures forall i, j :: 0 <= i < |rs| && 0 <= j < |rs| ==>
        (physical[i] == physical[j] <==> rs[i].prog == rs[j].prog && rs[i].addr == rs[j].addr)
    {
      hide TableOk, RowAgrees, Physical, Virtual, AllOrdered;
      physical := [];
      for n := 0 to |rs|
        invariant Valid() && |physical| == n
        invariant forall i :: 0 <= i < n ==> var k := Virtual(pageSize, rs[i].prog, rs[i].addr);
          k in pageMap && physical[i] == Physical(pageSize, pageMap[k], rs[i].addr)
      {
        var p := Translate(rs[n].core, rs[n].prog, rs[n].addr, rs[n].time);
        physical := physical + [p];
      }
      forall i, j | 0 <= i < |rs| && 0 <= j < |rs| && physical[i] == physical[j]
        ensures rs[i].prog == rs[j].prog && rs[i].addr == rs[j].addr
      {
        TranslationInjective(pageMap, emptyPage, pages, pageSize, rs[i].prog, rs[i].addr, rs[j].prog, rs[j].addr);
      }
    }
  }

  lemma HitContains(row: seq<TlbLine>, sets: pos, i: nat, way: int, k: Key)
    requires 0 <= way < |row| && row[way].valid && KeyOf(row[way], sets, i) == k
    ensures Contains(row, sets, i, k)
  {
  }

  lemma StoreAgrees(row: seq<TlbLine>, sets: pos, i: nat, pageMap: map<Key, nat>, way: int, x: TlbLine)
    requires RowAgrees(row, sets, i, pageMap) && 0 <= way < |row|
    requires KeyOf(x, sets, i) in pageMap && x.page == pageMap[KeyOf(x, sets, i)]
    ensures RowAgrees(row[way := x], sets, i, pageMap)
  {
    hide KeyOf;
  }

  lemma UsedRow(row: seq<TlbLine>, sets: pos, i: nat, k: Key, way: int, x: TlbLine, time: int)
    requires 0 <= way < |row| && x.valid && x.stamp == time && KeyOf(x, sets, i) == k
    ensures Used(row, row[way := x], sets, i, k, way, time)
  {
  }

  lemma RecencyStep(h: seq<Key>, k: Key)
    ensures Recency(h + [k]) == Touch(Recency(h), k)
  {
    assert (h + [k])[..|h|] == h;
  }

  lemma ClockGrows(row: seq<TlbLine>, sets: pos, i: nat, order: seq<Key>, slots: seq<int>, clock: int, time: int)
    requires RowLru(row, sets, i, order, slots, clock) && time > clock
    ensures RowLru(row, sets, i, order, slots, time)
  {
    hide KeyOf;
  }

  lemma ChosenIn(row: seq<TlbLine>, way: int)
    requires Chosen(row, way)
    ensures 0 <= way < |row|
  {
  }

  lemma LineAgrees(row: seq<TlbLine>, sets: pos, i: nat, pageMap: map<Key, nat>, way: int, k: Key)
    requires RowAgrees(row, sets, i, pageMap) && 0 <= way < |row| && row[way].valid && KeyOf(row[way], sets, i) == k
    ensures k in pageMap && row[way].page == pageMap[k]
  {
  }
}
