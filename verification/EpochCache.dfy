/** Buffered epoch persistency in a core's first-level cache: when a modified line leaves, everything of
    older epochs leaves first (`epochPersist` and its callers in `src/system.cpp`). */
module EpochCache {
  import opened CacheArray

  datatype EpochLine = EpochLine(state: State, id: int, tag: nat, dirty: bool, minEpoch: int, maxEpoch: int)

  /** A message from the levels above, on behalf of other cores or of an eviction there. */
  datatype Message = InvalMsg(k: Key) | ShareMsg(k: Key)

  predicate Clean(x: EpochLine) {
    x.state <= E && !x.dirty
  }

  /** A line holds unwritten data exactly if it is modified; its latest epoch is one the core has reached. */
  predicate LineOk(x: EpochLine, last: int) {
    && x.state <= M && (x.state == M <==> x.dirty)
    && (x.state == M ==> x.maxEpoch <= last)
  }

  /** No modified line is older than an epoch that is gone. */
  predicate NotOlder(x: EpochLine, gone: seq<int>) {
    x.state == M ==> forall e | e in gone :: e <= x.maxEpoch
  }

  /** The line after it was written back and dropped. */
  function Dropped(x: EpochLine): EpochLine {
    x.(state := I, dirty := false, minEpoch := 0, maxEpoch := 0)
  }

  /** The line that a conflict at another line with latest epoch c leaves. */
  function AfterFlush(x: EpochLine, c: int): EpochLine {
    if x.state == M && x.maxEpoch < c then Dropped(x) else x
  }

  /** What a modified line held is still there under the same epoch, or its epoch is recorded as gone. */
  ghost predicate Accounted(x: EpochLine, y: EpochLine, gone: seq<int>) {
    x.state == M ==>
      (y.state == M && y.id == x.id && y.tag == x.tag && y.maxEpoch == x.maxEpoch) || x.maxEpoch in gone
  }

  /** The line holds block k. */
  predicate Holds(x: EpochLine, sets: nat, k: Key)
    requires sets > 0
  {
    x.state != I && x.id == k.prog && x.tag == Tag(sets, k)
  }

  /** What one step of the system asks of the cache. */
  datatype Request = Load(k: Key, granted: State, msgs: seq<Message>) | Store(k: Key, epoch: int, msgs: seq<Message>) | Remote(msg: Message)

  /** The epochs of modified lines, and those that left. */
  datatype Moment = Moment(live: set<int>, gone: seq<int>)

  ghost predicate InEpochOrder(m: Moment) {
    forall e, g :: e in m.live && g in m.gone ==> g <= e
  }

  /** Nothing that left comes back to be forgotten, and what was modified is so still or has left. */
  ghost predicate Later(m: Moment, n: Moment) {
    m.gone <= n.gone && forall e :: e in m.live ==> e in n.live || e in n.gone
  }

  lemma LaterTrans(l: Moment, m: Moment, n: Moment)
    requires Later(l, m) && Later(m, n)
    ensures Later(l, n)
  {
    assert forall e | e in m.gone :: e in n.gone;
  }

  class L1 {
    const line: array2<EpochLine>
    ghost var gone: seq<int>   // the epochs of lines that left or were written back, in that order
    ghost var last: int        // the latest epoch in which the core wrote

    ghost predicate Valid()
      reads this, line
    {
      && line.Length0 > 0 && line.Length1 > 0
      && (forall i, j :: 0 <= i < line.Length0 && 0 <= j < line.Length1 ==>
            LineOk(line[i, j], last) && NotOlder(line[i, j], gone))
      && (forall e | e in gone :: e <= last)
    }

    predicate InCache(i: int, j: int) {
      0 <= i < line.Length0 && 0 <= j < line.Length1
    }

    constructor (sets: pos, ways: pos)
      ensures Valid() && fresh(line) && line.Length0 == sets && line.Length1 == ways && gone == []
    {
      line := new EpochLine[sets, ways]((_, _) => EpochLine(I, 0, 0, false, 0, 0));
      gone, last := [], 0;
    }

    function SetOf(k: Key): (i: nat)
      requires line.Length0 > 0
      ensures i < line.Length0
    {
      Index(line.Length0, k)
    }

    /** `accessLine`: the way of a valid line with the block's tag, or -1. */
    method AccessLine(k: Key) returns (way: int)
      requires line.Length0 > 0
      ensures -1 <= way < line.Length1
      ensures way >= 0 ==> Holds(line[SetOf(k), way], line.Length0, k)
      ensures way < 0 ==> forall j :: 0 <= j < line.Length1 ==> !Holds(line[SetOf(k), j], line.Length0, k)
    {
      var i := SetOf(k);
      way := 0;
      while way < line.Length1
        invariant 0 <= way <= line.Length1
        invariant forall j :: 0 <= j < way ==> !Holds(line[i, j], line.Length0, k)
      {
        if line[i, way].id == k.prog && line[i, way].tag == Tag(line.Length0, k) && line[i, way].state != I {
          return;
        }
        way := way + 1;
      }
      way := -1;
    }

    /** `epochPersist`: every other modified line whose latest epoch is older than that of the conflicting
        line is written back and dropped. */
    method EpochPersist(ci: int, cj: int)
      requires Valid() && InCache(ci, cj)
      modifies this`gone, line
      ensures Valid()
      ensures forall i, j :: InCache(i, j) ==>
        line[i, j] == if i == ci && j == cj then old(line[i, j]) else AfterFlush(old(line[i, j]), old(line[ci, cj]).maxEpoch)
      ensures old(gone) <= gone && forall e | e in gone :: e in old(gone) || e < line[ci, cj].maxEpoch
      ensures forall i, j :: InCache(i, j) && !(i == ci && j == cj) && old(line[i, j]).state == M ==>
        if old(line[i, j]).maxEpoch < old(line[ci, cj]).maxEpoch then line[i, j].state == I && !line[i, j].dirty
        else line[i, j] == old(line[i, j])
      ensures forall i, j :: InCache(i, j) ==> Accounted(old(line[i, j]), line[i, j], gone)
    {
      var conflict := line[ci, cj].maxEpoch;
      ghost var g := gone;
      var i := 0;
      while i < line.Length0
        invariant 0 <= i <= line.Length0
        invariant forall a, b :: InCache(a, b) ==>
          line[a, b] == if a < i && !(a == ci && b == cj) then AfterFlush(old(line[a, b]), conflict) else old(line[a, b])
        invariant g <= gone && forall e | e in gone :: e in g || (e < conflict && e <= last)
        invariant forall a, b :: InCache(a, b) ==> Accounted(old(line[a, b]), line[a, b], gone)
      {
        var j := 0;
        while j < line.Length1
          invariant 0 <= j <= line.Length1
          invariant forall a, b :: InCache(a, b) ==>
            line[a, b] == if (a < i || (a == i && b < j)) && !(a == ci && b == cj) then AfterFlush(old(line[a, b]), conflict) else old(line[a, b])
          invariant g <= gone && forall e | e in gone :: e in g || (e < conflict && e <= last)
          invariant forall a, b :: InCache(a, b) ==> Accounted(old(line[a, b]), line[a, b], gone)
        {
          if !(i == ci && j == cj) && line[i, j].state == M {
            if line[i, j].maxEpoch < conflict {
              gone := gone + [line[i, j].maxEpoch];
              line[i, j] := line[i, j].(dirty := false, state := I, minEpoch := 0, maxEpoch := 0);
            }
          }
          j := j + 1;
        }
        i := i + 1;
      }
    }

    /** A line leaves the modified state: older epochs first, then itself. */
    method Release(ci: int, cj: int, to: State)
      requires Valid() && InCache(ci, cj) && to <= S
      modifies this`gone, line
      ensures Valid() && old(gone) <= gone && last == old(last)
      ensures line[ci, cj] == old(line[ci, cj]).(state := to, dirty := false, minEpoch := 0, maxEpoch := 0)
      ensures forall i, j :: InCache(i, j) ==> Accounted(old(line[i, j]), line[i, j], gone)
      ensures forall i, j :: InCache(i, j) && !(i == ci && j == cj) ==>
        line[i, j] == if old(line[ci, cj]).state >= E then AfterFlush(old(line[i, j]), old(line[ci, cj]).maxEpoch) else old(line[i, j])
    {
      if line[ci, cj].state == M || line[ci, cj].state == E {
        EpochPersist(ci, cj);
        if line[ci, cj].state == M {
          gone := gone + [line[ci, cj].maxEpoch];
        }
      }
      line[ci, cj] := line[ci, cj].(state := to, dirty := false, minEpoch := 0, maxEpoch := 0);
    }

    /** `inval` and `share` at level 0 */
    method Deliver(msg: Message) returns (way: int)
      requires Valid()
      modifies this`gone, line
      ensures Valid() && old(gone) <= gone && last == old(last)
      ensures forall i, j :: InCache(i, j) ==> Accounted(old(line[i, j]), line[i, j], gone)
      ensures forall i, j :: InCache(i, j) && old(line[i, j]).state == I ==> line[i, j] == old(line[i, j])
      ensures forall i, j :: InCache(i, j) ==> line[i, j].id == old(line[i, j]).id && line[i, j].tag == old(line[i, j]).tag
      ensures forall i, j :: InCache(i, j) && Clean(old(line[i, j])) ==> Clean(line[i, j])
      ensures way < 0 ==> forall i, j :: InCache(i, j) ==> line[i, j] == old(line[i, j])
      ensures way < 0 ==> forall j :: 0 <= j < line.Length1 ==> !Holds(line[SetOf(msg.k), j], line.Length0, msg.k)
      ensures way >= 0 ==> way < line.Length1 && Holds(old(line[SetOf(msg.k), way]), line.Length0, msg.k)
      ensures way >= 0 ==> line[SetOf(msg.k), way].state == if msg.InvalMsg? then I else S
    {
      way := AccessLine(msg.k);
      if way >= 0 {
        var i := SetOf(msg.k);
        if msg.InvalMsg? {
          Release(i, way, I);
        } else if line[i, way].state == M || line[i, way].state == E {
          Release(i, way, S);
        }
      }
    }

    /** Messages that arrive while the core's own access is in the levels above. */
    method DeliverAll(msgs: seq<Message>)
      requires Valid()
      modifies this`gone, line
      ensures Valid() && old(gone) <= gone && last == old(last)
      ensures msgs == [] ==> gone == old(gone) && forall i, j :: InCache(i, j) ==> line[i, j] == old(line[i, j])
      ensures forall i, j :: InCache(i, j) ==> Accounted(old(line[i, j]), line[i, j], gone)
      ensures forall i, j :: InCache(i, j) && old(line[i, j]).state == I ==> line[i, j] == old(line[i, j])
      ensures forall i, j :: InCache(i, j) ==> line[i, j].id == old(line[i, j]).id && line[i, j].tag == old(line[i, j]).tag
      ensures forall i, j :: InCache(i, j) && Clean(old(line[i, j])) ==> Clean(line[i, j])
    {
      var n := 0;
      while n < |msgs|
        invariant Valid() && old(gone) <= gone && last == old(last) && 0 <= n <= |msgs|
        invariant n == 0 ==> gone == old(gone) && forall i, j :: InCache(i, j) ==> line[i, j] == old(line[i, j])
        invariant forall i, j :: InCache(i, j) ==> Accounted(old(line[i, j]), line[i, j], gone)
        invariant forall i, j :: InCache(i, j) && old(line[i, j]).state == I ==> line[i, j] == old(line[i, j])
        invariant forall i, j :: InCache(i, j) ==> line[i, j].id == old(line[i, j]).id && line[i, j].tag == old(line[i, j]).tag
        invariant forall i, j :: InCache(i, j) && Clean(old(line[i, j])) ==> Clean(line[i, j])
      {
        var way := Deliver(msgs[n]);
        n := n + 1;
      }
    }

    /** Some way of the set is in no use. */
    ghost predicate HasFreeWay(k: Key)
      requires line.Length0 > 0
      reads line
    {
      exists j :: 0 <= j < line.Length1 && line[SetOf(k), j].state == I
    }

    /** `replaceLine` and the eviction of a modified victim: the line has the block's tag and is clean. */
    method Replace(k: Key) returns (way: int)
      requires Valid()
      modifies this`gone, line
      ensures Valid() && old(gone) <= gone && last == old(last) && 0 <= way < line.Length1
      ensures Clean(line[SetOf(k), way]) && line[SetOf(k), way].id == k.prog && line[SetOf(k), way].tag == Tag(line.Length0, k)
      ensures old(HasFreeWay(k)) <==> old(line[SetOf(k), way]).state == I
      ensures old(line[SetOf(k), way]).state != M ==> gone == old(gone)
      ensures forall i, j :: InCache(i, j) && !(i == SetOf(k) && j == way) ==>
        line[i, j] == if old(line[SetOf(k), way]).state == M then AfterFlush(old(line[i, j]), old(line[SetOf(k), way]).maxEpoch) else old(line[i, j])
      ensures forall i, j :: InCache(i, j) ==> Accounted(old(line[i, j]), line[i, j], gone)
    {
      var i := SetOf(k);
      way := 0;
      while way < line.Length1 && line[i, way].state != I
        invariant 0 <= way <= line.Length1 && forall j :: 0 <= j < way ==> line[i, j].state != I
      {
        way := way + 1;
      }
      if way == line.Length1 {
        way :| 0 <= way < line.Length1;
      }
      line[i, way] := line[i, way].(id := k.prog, tag := Tag(line.Length0, k));
      if line[i, way].state == M {
        Release(i, way, I);
      }
    }

    /** A read: a hit changes nothing; on a miss the levels above grant S or E. */
    method Read(k: Key, granted: State, msgs: seq<Message>) returns (way: int)
      requires Valid() && (granted == S || granted == E)
      modifies this`gone, line
      ensures Valid() && old(gone) <= gone && last == old(last)
      ensures forall i, j :: InCache(i, j) ==> Accounted(old(line[i, j]), line[i, j], gone)
      ensures 0 <= way < line.Length1 && Holds(line[SetOf(k), way], line.Length0, k)
      ensures (exists j :: 0 <= j < line.Length1 && Holds(old(line[SetOf(k), j]), line.Length0, k)) ==>
        forall i, j :: InCache(i, j) ==> line[i, j] == old(line[i, j])
      ensures (forall j :: 0 <= j < line.Length1 ==> !Holds(old(line[SetOf(k), j]), line.Length0, k)) ==>
        line[SetOf(k), way].state == granted && (old(HasFreeWay(k)) <==> old(line[SetOf(k), way]).state == I)
      ensures msgs == [] && (Holds(old(line[SetOf(k), way]), line.Length0, k) || old(line[SetOf(k), way]).state != M) ==>
        gone == old(gone) && forall i, j :: InCache(i, j) && !(i == SetOf(k) && j == way) ==> line[i, j] == old(line[i, j])
    {
      way := AccessLine(k);
      if way < 0 {
        way := Replace(k);
        DeliverAll(msgs);
        line[SetOf(k), way] := line[SetOf(k), way].(state := granted);
      }
    }

    /** A write in epoch e, which is not before the core's earlier ones. */
    method Write(k: Key, e: int, msgs: seq<Message>) returns (way: int)
      requires Valid() && e >= last
      modifies this, line
      ensures Valid() && old(gone) <= gone && last == e
      ensures forall i, j :: InCache(i, j) ==> Accounted(old(line[i, j]), line[i, j], gone)
      ensures 0 <= way < line.Length1 && Holds(line[SetOf(k), way], line.Length0, k)
      ensures line[SetOf(k), way].state == M && line[SetOf(k), way].maxEpoch == e
      ensures var x := old(line[SetOf(k), way]);
        line[SetOf(k), way].minEpoch == if Holds(x, line.Length0, k) && x.dirty && x.minEpoch < e then x.minEpoch else e
      ensures var x := old(line[SetOf(k), way]);
        Holds(x, line.Length0, k) || ((forall j :: 0 <= j < line.Length1 ==> !Holds(old(line[SetOf(k), j]), line.Length0, k)) && (old(HasFreeWay(k)) <==> x.state == I))
      ensures var x := old(line[SetOf(k), way]);
        msgs == [] && (if Holds(x, line.Length0, k) then !x.dirty || e <= x.maxEpoch else x.state != M) ==>
          gone == old(gone) && forall i, j :: InCache(i, j) && !(i == SetOf(k) && j == way) ==> line[i, j] == old(line[i, j])
      ensures var x := old(line[SetOf(k), way]);
        msgs == [] && (if Holds(x, line.Length0, k) then x.dirty && e > x.maxEpoch else x.state == M) ==>
          forall i, j :: InCache(i, j) && !(i == SetOf(k) && j == way) ==> line[i, j] == AfterFlush(old(line[i, j]), x.maxEpoch)
    {
      way := AccessLine(k);
      var i := SetOf(k);
      if way >= 0 {
        if line[i, way].dirty && e > line[i, way].maxEpoch {
          EpochPersist(i, way);
          gone := gone + [line[i, way].maxEpoch];
        }
        if line[i, way].state != M {
          line[i, way] := line[i, way].(state := I);
          DeliverAll(msgs);
          line[i, way] := line[i, way].(state := M);
        }
      } else {
        way := Replace(k);
        DeliverAll(msgs);
        line[i, way] := line[i, way].(state := M);
      }
      last := e;
      if line[i, way].dirty {
        if e < line[i, way].minEpoch {
          line[i, way] := line[i, way].(minEpoch := e);
        }
        if e > line[i, way].maxEpoch {
          line[i, way] := line[i, way].(maxEpoch := e);
        }
      } else {
        line[i, way] := line[i, way].(minEpoch := e, maxEpoch := e, dirty := true);
      }
    }

    /** Epoch order, after every completed access: what is still modified is not older than what is gone. */
    lemma EpochOrder(i: int, j: int, e: int)
      requires Valid() && InCache(i, j) && line[i, j].state == M && e in gone
      ensures e <= line[i, j].maxEpoch <= last
    {
    }

    ghost function Now(): (m: Moment)
      reads this, line
    {
      Moment(set i, j | 0 <= i < line.Length0 && 0 <= j < line.Length1 && line[i, j].state == M :: line[i, j].maxEpoch, gone)
    }

    lemma NowInOrder()
      requires Valid()
      ensures InEpochOrder(Now())
    {
    }

    twostate lemma NowLater()
      requires old(gone) <= gone && forall i, j :: InCache(i, j) ==> Accounted(old(line[i, j]), line[i, j], gone)
      ensures Later(old(Now()), Now())
    {
      forall e | e in old(Now()).live
        ensures e in Now().live || e in Now().gone
      {
        var i, j :| 0 <= i < line.Length0 && 0 <= j < line.Length1 && old(line[i, j]).state == M && old(line[i, j]).maxEpoch == e;
        assert InCache(i, j);
        assert Accounted(old(line[i, j]), line[i, j], gone);
      }
    }

    method Step(r: Request)
      requires Valid() && (r.Load? ==> r.granted == S || r.granted == E) && (r.Store? ==> last <= r.epoch)
      modifies this, line
      ensures Valid() && Later(old(Now()), Now()) && last == if r.Store? then r.epoch else old(last)
      ensures r.Store? ==> r.epoch in Now().live
    {
      match r
      case Load(k, granted, msgs) =>
        var way := Read(k, granted, msgs);
        NowLater();
      case Store(k, epoch, msgs) =>
        var way := Write(k, epoch, msgs);
        NowLater();
      case Remote(msg) =>
        var way := Deliver(msg);
        NowLater();
    }

    /** Along every run whose stores come in order of their epochs, nothing modified is older than what has
        left, and every epoch that was ever modified is so still or has left. */
    method Run(rs: seq<Request>) returns (ghost ms: seq<Moment>)
      requires Valid()
      requires forall i :: 0 <= i < |rs| && rs[i].Load? ==> rs[i].granted == S || rs[i].granted == E
      requires forall i :: 0 <= i < |rs| && rs[i].Store? ==> last <= rs[i].epoch
      requires forall i, j :: 0 <= i < j < |rs| && rs[i].Store? && rs[j].Store? ==> rs[i].epoch <= rs[j].epoch
      modifies this, line
      ensures Valid() && |ms| == |rs| + 1 && ms[0] == old(Now()) && ms[|rs|] == Now()
      ensures forall i :: 0 <= i < |ms| ==> InEpochOrder(ms[i])
      ensures forall i, j :: 0 <= i <= j < |ms| ==> Later(ms[i], ms[j])
      ensures forall i :: 0 <= i < |rs| && rs[i].Store? ==> rs[i].epoch in ms[i + 1].live
    {
      hide L1.Valid, L1.Now, InEpochOrder, Later;
      ms := [Now()];
      NowInOrder();
      LaterSelf(Now());
      for n := 0 to |rs|
        invariant Valid() && |ms| == n + 1 && ms[0] == old(Now()) && ms[n] == Now()
        invariant forall i :: n <= i < |rs| && rs[i].Store? ==> last <= rs[i].epoch
        invariant forall i :: 0 <= i < |ms| ==> InEpochOrder(ms[i])
        invariant forall i, j :: 0 <= i <= j < |ms| ==> Later(ms[i], ms[j])
        invariant forall i :: 0 <= i < n && rs[i].Store? ==> rs[i].epoch in ms[i + 1].live
      {
        Step(rs[n]);
        NowInOrder();
        LaterSelf(Now());
        forall i | 0 <= i <= n
          ensures Later(ms[i], Now())
        {
          LaterTrans(ms[i], ms[n], Now());
        }
        ms := ms + [Now()];
      }
    }
  }

  lemma LaterSelf(m: Moment)
    ensures Later(m, m)
  {
  }
}
