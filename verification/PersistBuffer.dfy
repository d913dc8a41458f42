/** Per-core persist buffers in front of a shared memory-controller queue: linked FIFOs that hand the
    same lines from one to the other (`src/pbuff.cpp` and its callers in `src/system.cpp`). */
module PersistBuffer {
  import opened Sequences
  import opened PersistOrder

  const PBUFF_SIZE := 4
  const MCQBUFF_SIZE := 32

  /** `PBuffLine`; pointers are indices into the heap of lines. */
  datatype Line = Line(tag: nat, lastAddr: nat, barrier: bool, core: nat, hasDp: bool, dp: seq<bool>, dpAddr: seq<nat>,
                       writeId: nat, lastWriteId: nat, coalesced: nat, next: int)

  /** The list in a `PBuff` or `MCQBuff` */
  datatype Fifo = Fifo(head: int, tail: int, size: int)

  /** The dependencies a `PBuff` has accumulated for its next line. */
  datatype Deps = Deps(hasDp: bool, dp: seq<bool>, addr: seq<nat>)

  /** `addr >> offset` for blocks of 64 bytes */
  function Tag(addr: nat): nat {
    addr / 64
  }

  /** Two addresses coalesce only if they lie in one aligned block of 64 bytes. */
  lemma TagBlock(a: nat, b: nat)
    ensures Tag(a) == Tag(b) <==> exists n: nat :: InBlock(n, a) && InBlock(n, b)
  {
    assert InBlock(a / 64, a) && InBlock(b / 64, b);
    forall n: nat | InBlock(n, a) && InBlock(n, b)
      ensures Tag(a) == n == Tag(b)
    {
    }
  }

  predicate InBlock(n: nat, addr: nat) {
    64 * n <= addr < 64 * n + 64
  }

  // ----- Lists ------------------------------------------------------------------------------------

  ghost predicate InHeap(h: seq<Line>, ids: seq<int>) {
    forall i :: 0 <= i < |ids| ==> 0 <= ids[i] < |h|
  }

  /** f is a list of exactly the lines ids. */
  ghost predicate Chained(h: seq<Line>, f: Fifo, ids: seq<int>) {
    && |ids| == f.size
    && InHeap(h, ids)
    && f.head == (if |ids| == 0 then NULL else ids[0])
    && (|ids| > 0 ==> f.tail == ids[|ids| - 1] && h[ids[|ids| - 1]].next == NULL)
    && (forall i :: 0 <= i < |ids| - 1 ==> h[ids[i]].next == ids[i + 1])
  }

  lemma ChainedFrame(h: seq<Line>, k: seq<Line>, f: Fifo, ids: seq<int>)
    requires Chained(h, f, ids)
    requires forall x | x in ids :: 0 <= x < |k| && (0 <= x < |h| ==> k[x].next == h[x].next)
    ensures Chained(k, f, ids)
  {
    forall i | 0 <= i < |ids|
      ensures 0 <= ids[i] < |k| && k[ids[i]].next == h[ids[i]].next
    {
      var x := ids[i];
      assert x in ids;
    }
  }

  /** Appending line x. */
  function Pushed(h: seq<Line>, f: Fifo, x: int): seq<Line>
    requires 0 <= x < |h| && (f.size != 0 ==> 0 <= f.tail < |h|)
  {
    var k := h[x := h[x].(next := NULL)];
    if f.size == 0 then k else k[f.tail := k[f.tail].(next := x)]
  }

  lemma PushChained(h: seq<Line>, f: Fifo, ids: seq<int>, x: int)
    requires Chained(h, f, ids) && NoDup(ids) && 0 <= x < |h| && x !in ids
    ensures f.size != 0 ==> 0 <= f.tail < |h| && f.tail in ids
    ensures Chained(Pushed(h, f, x), Fifo(if f.size == 0 then x else f.head, x, f.size + 1), ids + [x])
  {
    var n := |ids|;
    if n > 0 {
      assert ids[n - 1] in ids;
    }
    forall i | 0 <= i < n
      ensures ids[i] != x && (i < n - 1 ==> ids[i] != ids[n - 1])
    {
      assert ids[i] in ids;
    }
  }

  lemma PopChained(h: seq<Line>, f: Fifo, ids: seq<int>)
    requires Chained(h, f, ids) && |ids| > 0
    ensures f.head == ids[0] && 0 <= f.head < |h|
    ensures Chained(h, Fifo(h[f.head].next, f.tail, f.size - 1), ids[1..])
  {
  }

  // ----- Hits ---------------------------------------------------------------------------------------

  /** The line at position at is the last with this tag, and no barrier stands at or behind the first. */
  ghost predicate HitAt(h: seq<Line>, ids: seq<int>, tag: nat, at: int)
    requires InHeap(h, ids)
  {
    && 0 <= at < |ids| && h[ids[at]].tag == tag
    && (forall j :: at < j < |ids| ==> h[ids[j]].tag != tag)
    && (forall i, j :: 0 <= i <= j < |ids| && h[ids[i]].tag == tag ==> !h[ids[j]].barrier)
  }

  ghost predicate Miss(h: seq<Line>, ids: seq<int>, tag: nat)
    requires InHeap(h, ids)
  {
    (exists i :: 0 <= i < |ids| && h[ids[i]].tag == tag) ==>
      exists i, j :: 0 <= i <= j < |ids| && h[ids[i]].tag == tag && h[ids[j]].barrier
  }

  /** There is a hit exactly if a line has the tag and none at or behind such a line is a barrier, and
      otherwise a miss. */
  lemma HitIff(h: seq<Line>, ids: seq<int>, tag: nat)
    requires InHeap(h, ids)
    ensures (exists at :: HitAt(h, ids, tag, at)) <==>
      (exists i :: 0 <= i < |ids| && h[ids[i]].tag == tag)
        && forall i, j :: 0 <= i <= j < |ids| && h[ids[i]].tag == tag ==> !h[ids[j]].barrier
    ensures Miss(h, ids, tag) <==> !exists at :: HitAt(h, ids, tag, at)
  {
    if i :| 0 <= i < |ids| && h[ids[i]].tag == tag {
      var at := LastWith(h, ids, tag, i);
      assert (forall i, j :: 0 <= i <= j < |ids| && h[ids[i]].tag == tag ==> !h[ids[j]].barrier) ==> HitAt(h, ids, tag, at);
    }
  }

  lemma {:induction false} LastWith(h: seq<Line>, ids: seq<int>, tag: nat, i: nat) returns (at: nat)
    requires InHeap(h, ids) && i < |ids| && h[ids[i]].tag == tag
    ensures i <= at < |ids| && h[ids[at]].tag == tag && forall j :: at < j < |ids| ==> h[ids[j]].tag != tag
    decreases |ids| - i
  {
    if j :| i < j < |ids| && h[ids[j]].tag == tag {
      at := LastWith(h, ids, tag, j);
    } else {
      at := i;
    }
  }

  // ----- What stays the same --------------------------------------------------------------------------

  ghost predicate SameLine(a: Line, b: Line) {
    && b.core == a.core && b.barrier == a.barrier && b.tag == a.tag
    && b.hasDp == a.hasDp && b.dp == a.dp && b.dpAddr == a.dpAddr
  }

  /** Lines keep their core and whether they are barriers; new lines may appear. */
  ghost predicate SameLines(h: seq<Line>, k: seq<Line>) {
    |h| <= |k| && forall x :: 0 <= x < |h| ==> SameLine(h[x], k[x])
  }

  ghost predicate Owned(h: seq<Line>, owner: seq<nat>) {
    |owner| == |h| && forall x :: 0 <= x < |h| ==> h[x].core == owner[x]
  }

  ghost predicate DepsOk(h: seq<Line>, cores: nat) {
    forall x :: 0 <= x < |h| && h[x].hasDp ==> |h[x].dp| == cores && |h[x].dpAddr| == cores
  }

  ghost predicate BarrierLine(h: seq<Line>, x: int) {
    0 <= x < |h| && h[x].barrier
  }

  /** The log of a core's writes agrees with its lines. */
  ghost predicate LogOk(h: seq<Line>, enqueued: seq<int>, log: seq<Write>) {
    && Separated(log)
    && (forall w | w in log :: w.line < |enqueued|)
    && (forall w | w in log && w.barrier :: w.line < |enqueued| ==> BarrierLine(h, enqueued[w.line]))
  }

  lemma LogKept(h: seq<Line>, k: seq<Line>, enqueued: seq<int>, log: seq<Write>)
    requires LogOk(h, enqueued, log) && SameLines(h, k)
    ensures LogOk(k, enqueued, log)
  {
    forall w | w in log && w.barrier
      ensures BarrierLine(k, enqueued[w.line])
    {
      assert BarrierLine(h, enqueued[w.line]);
      assert SameLine(h[enqueued[w.line]], k[enqueued[w.line]]);
    }
  }

  // ----- All lists together ---------------------------------------------------------------------------

  /** The buffers and the controller queue are the lists that the paths of the lines say. */
  ghost predicate ListsOk(h: seq<Line>, fs: seq<Fifo>, mcq: Fifo, p: Path) {
    && Conserved(p) && |p.owner| == |h| && |fs| == |p.buffers| == |p.flight| == |p.enqueued|
    && (forall d :: 0 <= d < |fs| ==> Chained(h, fs[d], p.buffers[d]))
    && Chained(h, mcq, p.queue)
  }

  lemma PushedElsewhere(h: seq<Line>, f: Fifo, x: int, k: seq<Line>, g: Fifo, ids: seq<int>)
    requires Chained(k, g, ids) && |k| <= |h| && (forall y :: 0 <= y < |k| ==> h[y] == k[y])
    requires 0 <= x < |h| && (f.size != 0 ==> 0 <= f.tail < |h| && f.tail !in ids) && x !in ids
    ensures Chained(Pushed(h, f, x), g, ids)
  {
    forall y | y in ids
      ensures 0 <= y < |k| && Pushed(h, f, x)[y].next == k[y].next
    {
    }
    ChainedFrame(k, Pushed(h, f, x), g, ids);
  }

  lemma InsertLists(h: seq<Line>, fs: seq<Fifo>, mcq: Fifo, p: Path, c: nat, line: Line)
    requires ListsOk(h, fs, mcq, p) && c < |fs|
    ensures fs[c].size != 0 ==> 0 <= fs[c].tail < |h|
    ensures var f, x := fs[c], |h|;
      ListsOk(Pushed(h + [line], f, x), fs[c := Fifo(if f.size == 0 then x else f.head, x, f.size + 1)], mcq, Enqueue(p, c))
  {
    var f, x := fs[c], |h|;
    var k := h + [line];
    EnqueueKeeps(p, c);
    OnePlace(p, c, c);
    hide Conserved;
    ChainedFrame(h, k, f, p.buffers[c]);
    PushChained(k, f, p.buffers[c], x);
    ChainedKnown(h, mcq, p.queue);
    PushedElsewhere(k, f, x, h, mcq, p.queue);
    forall d | 0 <= d < |fs| && d != c
      ensures Chained(Pushed(k, f, x), fs[d], p.buffers[d])
    {
      OnePlace(p, d, c);
      PushedElsewhere(k, f, x, h, fs[d], p.buffers[d]);
    }
    hide Chained, Pushed;
  }

  lemma ChainedKnown(h: seq<Line>, f: Fifo, ids: seq<int>)
    requires Chained(h, f, ids)
    ensures forall x | x in ids :: 0 <= x < |h|
  {
  }

  /** A core's line on its way is appended to the controller queue. */
  lemma ArriveLists(h: seq<Line>, fs: seq<Fifo>, mcq: Fifo, p: Path, c: nat)
    requires ListsOk(h, fs, mcq, p) && c < |fs| && p.flight[c] != NULL
    ensures 0 <= p.flight[c] < |h| && (mcq.size != 0 ==> 0 <= mcq.tail < |h|)
    ensures var x := p.flight[c];
      ListsOk(Pushed(h, mcq, x), fs, Fifo(if mcq.size == 0 then x else mcq.head, x, mcq.size + 1), Arrive(p, c))
  {
    hide Conserved;
    var x := p.flight[c];
    ListSizes(h, fs, mcq, p);
    ArriveKeeps(p, c);
    InEnqueued(p, c);
    OnePlace(p, c, c);
    QueueNoDup(p);
    PushChained(h, mcq, p.queue, x);
    forall d | 0 <= d < |fs|
      ensures Chained(Pushed(h, mcq, x), fs[d], p.buffers[d])
    {
      OnePlace(p, d, c);
      PushedElsewhere(h, mcq, x, h, fs[d], p.buffers[d]);
    }
    hide Chained, Pushed;
  }

  lemma DepartLists(h: seq<Line>, fs: seq<Fifo>, mcq: Fifo, p: Path, c: nat)
    requires ListsOk(h, fs, mcq, p) && c < |fs| && fs[c].size != 0 && p.flight[c] == NULL
    ensures |p.buffers[c]| > 0 && fs[c].head == p.buffers[c][0] && 0 <= fs[c].head < |h|
    ensures ListsOk(h, fs[c := Fifo(h[fs[c].head].next, fs[c].tail, fs[c].size - 1)], mcq, Depart(p, c))
  {
    PopChained(h, fs[c], p.buffers[c]);
    DepartKeeps(p, c);
    hide Conserved, Chained;
  }

  lemma PersistLists(h: seq<Line>, fs: seq<Fifo>, mcq: Fifo, p: Path)
    requires ListsOk(h, fs, mcq, p) && mcq.size != 0
    ensures |p.queue| > 0 && mcq.head == p.queue[0] && 0 <= mcq.head < |h|
    ensures ListsOk(h, fs, Fifo(h[mcq.head].next, mcq.tail, mcq.size - 1), Persist(p))
  {
    PopChained(h, mcq, p.queue);
    PersistKeeps(p);
    hide Conserved, Chained;
  }

  /** Coalescing changes no link. */
  lemma MergeLists(h: seq<Line>, fs: seq<Fifo>, mcq: Fifo, p: Path, x: int, line: Line)
    requires ListsOk(h, fs, mcq, p) && 0 <= x < |h| && line.next == h[x].next
    ensures ListsOk(h[x := line], fs, mcq, p)
  {
    hide Conserved;
    forall d | 0 <= d < |fs|
      ensures Chained(h[x := line], fs[d], p.buffers[d])
    {
      ChainedKnown(h, fs[d], p.buffers[d]);
      ChainedFrame(h, h[x := line], fs[d], p.buffers[d]);
    }
    ChainedKnown(h, mcq, p.queue);
    ChainedFrame(h, h[x := line], mcq, p.queue);
  }

  /** Lines keep what the invariant says about them when only links and merged writes change. */
  lemma LinesKept(h: seq<Line>, k: seq<Line>, owner: seq<nat>, cores: nat)
    requires Owned(h, owner) && DepsOk(h, cores) && SameLines(h, k) && |k| == |h|
    ensures Owned(k, owner) && DepsOk(k, cores)
  {
    forall x | 0 <= x < |k|
      ensures k[x].core == owner[x] && (k[x].hasDp ==> |k[x].dp| == cores && |k[x].dpAddr| == cores)
    {
      assert SameLine(h[x], k[x]);
    }
  }

  lemma LogsKept(h: seq<Line>, k: seq<Line>, enqueued: seq<seq<int>>, log: seq<seq<Write>>)
    requires SameLines(h, k) && LogsOk(h, enqueued, log)
    ensures LogsOk(k, enqueued, log)
  {
    forall c | 0 <= c < |log|
      ensures LogOk(k, enqueued[c], log[c])
    {
      LogKept(h, k, enqueued[c], log[c]);
    }
  }

  lemma PushedSame(h: seq<Line>, f: Fifo, x: int)
    requires 0 <= x < |h| && (f.size != 0 ==> 0 <= f.tail < |h|)
    ensures SameLines(h, Pushed(h, f, x)) && |Pushed(h, f, x)| == |h|
  {
  }

  lemma ChainedKnownAt(h: seq<Line>, f: Fifo, ids: seq<int>)
    requires Chained(h, f, ids)
    ensures InHeap(h, ids)
    ensures f.head == if |ids| == 0 then NULL else ids[0]
  {
  }

  lemma ListSizes(h: seq<Line>, fs: seq<Fifo>, mcq: Fifo, p: Path)
    requires ListsOk(h, fs, mcq, p)
    ensures |p.owner| == |h| && |fs| == |p.buffers| == |p.flight| == |p.enqueued|
  {
  }

  /** The paths before any line exists. */
  function Fresh(cores: nat): Path {
    Path([], seq(cores, _ => []), seq(cores, _ => NULL), [], [], seq(cores, _ => []))
  }

  lemma FreshLists(cores: nat)
    ensures ListsOk([], seq(cores, _ => Fifo(NULL, NULL, 0)), Fifo(NULL, NULL, 0), Fresh(cores))
  {
    var p := Fresh(cores);
    forall c | 0 <= c < cores
      ensures Lane(p.owner, p.dram, p.queue, p.flight[c], p.buffers[c], p.enqueued[c], c)
    {
      assert p.enqueued[c] == [] && p.buffers[c] == [] && p.flight[c] == NULL;
      assert Of([], [], c) == [];
    }
  }

  lemma FreshRest(cores: nat, log: seq<seq<Write>>)
    requires |log| == cores && forall c :: 0 <= c < cores ==> log[c] == []
    ensures var p := Fresh(cores);
      && Owned([], p.owner) && DepsOk([], cores) && LogsOk([], p.enqueued, log)
      && |p.flight| == cores && forall c :: 0 <= c < cores ==> p.flight[c] == NULL
  {
  }

  lemma HeadExists(h: seq<Line>, f: Fifo, ids: seq<int>)
    requires Chained(h, f, ids)
    ensures |ids| > 0 ==> ids[0] != NULL
  {
  }

  lemma InsertRest(h: seq<Line>, line: Line, owner: seq<nat>, enqueued: seq<seq<int>>, log: seq<seq<Write>>, cores: nat,
                   c: nat, k: seq<Line>)
    requires Owned(h, owner) && DepsOk(h, cores) && LogsOk(h, enqueued, log) && c < |log| && SameLines(h + [line], k)
    requires line.core == c && (line.hasDp ==> |line.dp| == |line.dpAddr| == cores) && |k| == |h| + 1
    ensures Owned(k, owner + [c]) && DepsOk(k, cores)
    ensures c < |enqueued| && LogsOk(k, enqueued[c := enqueued[c] + [|h|]], log)
  {
    assert SameLines(h, k) by {
      assert forall x | 0 <= x < |h| :: SameLine((h + [line])[x], k[x]);
    }
    LinesKept(h + [line], k, owner + [c], cores);
    LogsKept(h, k, enqueued, log);
    hide LogOk, SameLines;
  }

  /** What a flush for a tag leaves of a buffer: everything up to and including the line it hits goes, or
      nothing does. */
  ghost predicate Drained(h: seq<Line>, ids: seq<int>, tag: nat, rest: seq<int>)
    requires InHeap(h, ids)
  {
    (Miss(h, ids, tag) && rest == ids) || exists at :: HitAt(h, ids, tag, at) && rest == ids[at + 1..]
  }

  /** After a flush no line with the tag is left, unless a barrier stood in the way and nothing moved; what is
      left is in order. */
  lemma DrainedMeaning(h: seq<Line>, ids: seq<int>, tag: nat, rest: seq<int>)
    requires InHeap(h, ids) && Drained(h, ids, tag, rest)
    ensures |rest| <= |ids| && rest == ids[|ids| - |rest|..]
    ensures rest == ids || forall j :: |ids| - |rest| <= j < |ids| ==> h[ids[j]].tag != tag
    ensures (exists at :: HitAt(h, ids, tag, at)) <==> rest != ids
    ensures rest != ids ==> h[ids[|ids| - |rest| - 1]].tag == tag
  {
    HitIff(h, ids, tag);
    if rest != ids {
      var at :| HitAt(h, ids, tag, at) && rest == ids[at + 1..];
    }
  }

  lemma DrainedKept(h: seq<Line>, k: seq<Line>, ids: seq<int>, tag: nat, rest: seq<int>)
    requires InHeap(h, ids)
    requires SameLines(h, k)
    ensures Drained(k, ids, tag, rest) <==> Drained(h, ids, tag, rest)
  {
    assert forall i | 0 <= i < |ids| :: SameLine(h[ids[i]], k[ids[i]]);
    forall at
      ensures HitAt(h, ids, tag, at) <==> HitAt(k, ids, tag, at)
    {
    }
  }

  lemma SameLinesSelf(h: seq<Line>)
    ensures SameLines(h, h)
  {
  }

  lemma SameLinesCut(h: seq<Line>, line: Line, k: seq<Line>)
    requires SameLines(h + [line], k)
    ensures SameLines(h, k)
  {
    forall x | 0 <= x < |h|
      ensures SameLine(h[x], k[x])
    {
      assert SameLine((h + [line])[x], k[x]);
    }
  }

  lemma SameLinesTrans(h: seq<Line>, k: seq<Line>, l: seq<Line>)
    requires SameLines(h, k) && SameLines(k, l)
    ensures SameLines(h, l)
  {
    forall x | 0 <= x < |h|
      ensures SameLine(h[x], l[x])
    {
      assert SameLine(h[x], k[x]) && SameLine(k[x], l[x]);
    }
  }

  /** Only the lane of core c moved. */
  ghost predicate OnlyLane(p: Path, q: Path, c: nat) {
    && q.owner == p.owner && q.enqueued == p.enqueued && |q.buffers| == |p.buffers| && |q.flight| == |p.flight|
    && (forall d :: 0 <= d < |p.buffers| && d != c ==> q.buffers[d] == p.buffers[d])
    && (forall d :: 0 <= d < |p.flight| && d != c ==> q.flight[d] == p.flight[d])
  }

  /** A write merged into line `at` of the buffer is behind every barrier of its core. */
  lemma MergeLog(h: seq<Line>, p: Path, c: nat, log: seq<Write>, tag: nat, at: int)
    requires Conserved(p) && c < |p.buffers| && LogOk(h, p.enqueued[c], log)
    requires InHeap(h, p.buffers[c])
    requires HitAt(h, p.buffers[c], tag, at)
    ensures var n := |p.enqueued[c]| - |p.buffers[c]| + at;
      0 <= n < |p.enqueued[c]| && p.enqueued[c][n] == p.buffers[c][at] && LogOk(h, p.enqueued[c], log + [Write(n, false)])
  {
    var b, e := p.buffers[c], p.enqueued[c];
    assert Lane(p.owner, p.dram, p.queue, p.flight[c], b, e, c);
    var n := |e| - |b| + at;
    forall j | n <= j < |e|
      ensures !BarrierLine(h, e[j])
    {
      assert e[j] == b[j - (|e| - |b|)];
    }
    forall k | 0 <= k < |log| && log[k].barrier
      ensures log[k].line < n
    {
      assert log[k] in log;
      assert BarrierLine(h, e[log[k].line]);
    }
    MergeSeparated(log, n);
  }

  ghost predicate LogShort(enqueued: seq<int>, log: seq<Write>) {
    forall w | w in log :: w.line < |enqueued|
  }

  lemma NewLog(h: seq<Line>, enqueued: seq<int>, log: seq<Write>, x: int, barrier: bool)
    requires LogOk(h, enqueued + [x], log) && 0 <= x < |h| && h[x].barrier == barrier
    requires LogShort(enqueued, log)
    ensures LogOk(h, enqueued + [x], log + [Write(|enqueued|, barrier)])
  {
    AppendSeparated(log, |enqueued|, barrier);
    hide Separated;
  }

  lemma HitInRange(h: seq<Line>, ids: seq<int>, tag: nat, at: int)
    requires InHeap(h, ids)
    requires HitAt(h, ids, tag, at)
    ensures 0 <= at < |ids|
  {
  }

  lemma BufferNoDup(h: seq<Line>, fs: seq<Fifo>, mcq: Fifo, p: Path, c: nat)
    requires ListsOk(h, fs, mcq, p) && c < |fs|
    ensures c < |p.buffers| && NoDup(p.buffers[c]) && Conserved(p)
  {
    OnePlace(p, c, c);
  }

  /** No core's lines were lost, gained or reordered; only core c may have a line on its way. */
  ghost predicate SameSupply(p: Path, q: Path, c: nat) {
    && q.owner == p.owner && q.enqueued == p.enqueued && |q.buffers| == |p.buffers| && |q.flight| == |p.flight|
    && forall d :: 0 <= d < |q.flight| && d != c ==> q.flight[d] == NULL
  }

  /** What the removal of a line that depends on other cores leaves of buffer i. */
  ghost predicate Resolved(h: seq<Line>, p: Path, line: Line, i: nat, rest: seq<int>) {
    && i < |p.buffers| && InHeap(h, p.buffers[i])
    && if line.hasDp && i < |line.dp| && i < |line.dpAddr| && line.dp[i]
       then Drained(h, p.buffers[i], Tag(line.dpAddr[i]), rest)
       else rest == p.buffers[i]
  }

  lemma ResolvedNow(h: seq<Line>, k: seq<Line>, p: Path, ids: seq<int>, line: Line, i: nat, rest: seq<int>)
    requires SameLines(h, k) && i < |p.buffers| && p.buffers[i] == ids && line.hasDp && i < |line.dp| && i < |line.dpAddr| && line.dp[i]
    requires InHeap(h, ids) && InHeap(k, ids) && Drained(k, ids, Tag(line.dpAddr[i]), rest)
    ensures Resolved(h, p, line, i, rest)
  {
    DrainedKept(h, k, ids, Tag(line.dpAddr[i]), rest);
  }

  lemma AllKnown(h: seq<Line>, fs: seq<Fifo>, mcq: Fifo, p: Path)
    requires ListsOk(h, fs, mcq, p)
    ensures |p.buffers| == |fs| && forall d :: 0 <= d < |fs| ==> InHeap(h, p.buffers[d])
  {
    forall d | 0 <= d < |fs|
      ensures InHeap(h, p.buffers[d])
    {
      ChainedKnownAt(h, fs[d], p.buffers[d]);
    }
  }

  lemma NothingToResolve(h: seq<Line>, p: Path, line: Line, i: nat)
    requires i < |p.buffers| && InHeap(h, p.buffers[i]) && (line.hasDp && i < |line.dp| ==> !line.dp[i])
    ensures Resolved(h, p, line, i, p.buffers[i])
  {
  }

  lemma FlightExists(h: seq<Line>, fs: seq<Fifo>, mcq: Fifo, p: Path, cores: nat, c: nat)
    requires ListsOk(h, fs, mcq, p) && DepsOk(h, cores) && c < |fs| && p.flight[c] != NULL
    ensures 0 <= p.flight[c] < |h| && (h[p.flight[c]].hasDp ==> |h[p.flight[c]].dp| == |h[p.flight[c]].dpAddr| == cores)
  {
    InEnqueued(p, c);
  }

  lemma SameLineAt(h: seq<Line>, k: seq<Line>, x: int)
    requires SameLines(h, k) && 0 <= x < |h|
    ensures 0 <= x < |k| && SameLine(h[x], k[x])
  {
  }

  lemma SizeIs(h: seq<Line>, fs: seq<Fifo>, mcq: Fifo, p: Path, c: nat)
    requires ListsOk(h, fs, mcq, p) && c < |fs|
    ensures c < |p.buffers| && |p.buffers[c]| == fs[c].size
  {
  }

  /** Removing the line first does not change what its dependencies leave of the other buffers. */
  lemma ResolvedDepart(h: seq<Line>, p: Path, q: Path, c: nat, line: int, rest: seq<seq<int>>, cores: nat)
    requires c < |p.buffers| && |p.buffers| == |p.flight| == cores == |rest| && |p.buffers[c]| > 0 && q == Depart(p, c) && 0 <= line < |h|
    requires forall i :: 0 <= i < cores && i != c ==> Resolved(h, q, h[line], i, rest[i])
    ensures forall i :: 0 <= i < cores && i != c ==> Resolved(h, p, h[line], i, rest[i])
  {
    hide Drained;
  }

  lemma NoneToResolve(h: seq<Line>, p: Path, q: Path, c: nat, line: Line, cores: nat)
    requires c < |p.buffers| && |p.buffers| == |p.flight| == cores && |p.buffers[c]| > 0 && q == Depart(p, c) && !line.hasDp
    requires forall i :: 0 <= i < cores ==> InHeap(h, p.buffers[i])
    ensures forall i :: 0 <= i < cores && i != c ==> Resolved(h, p, line, i, q.buffers[i])
  {
    hide Drained;
  }

  /** The heap after a write was merged into line x. */
  ghost function Merged(h: seq<Line>, x: int, addr: nat, id: nat): seq<Line> {
    if 0 <= x < |h| then h[x := h[x].(lastAddr := addr, writeId := id, lastWriteId := id, coalesced := h[x].coalesced + 1)] else h
  }

  lemma MergedSame(h: seq<Line>, x: int, addr: nat, id: nat)
    ensures SameLines(h, Merged(h, x, addr, id))
  {
  }

  ghost predicate LogsOk(h: seq<Line>, enqueued: seq<seq<int>>, log: seq<seq<Write>>) {
    |log| == |enqueued| && forall c :: 0 <= c < |log| ==> LogOk(h, enqueued[c], log[c])
  }

  lemma LogsAt(h: seq<Line>, enqueued: seq<seq<int>>, log: seq<seq<Write>>, c: nat)
    requires LogsOk(h, enqueued, log) && c < |log|
    ensures c < |enqueued| && LogOk(h, enqueued[c], log[c])
  {
  }

  lemma LogsSet(h: seq<Line>, enqueued: seq<seq<int>>, log: seq<seq<Write>>, c: nat, l: seq<Write>)
    requires LogsOk(h, enqueued, log) && c < |log| && c < |enqueued| && LogOk(h, enqueued[c], l)
    ensures LogsOk(h, enqueued, log[c := l])
  {
    hide LogOk;
  }

  lemma KnownAt(h: seq<Line>, ids: seq<int>, at: nat)
    requires InHeap(h, ids) && at < |ids|
    ensures 0 <= ids[at] < |h|
  {
  }

  lemma MergeAll(h: seq<Line>, fs: seq<Fifo>, mcq: Fifo, p: Path, log: seq<seq<Write>>, cores: nat, c: nat, addr: nat, id: nat, at: nat)
    requires ListsOk(h, fs, mcq, p) && Owned(h, p.owner) && DepsOk(h, cores) && |fs| == cores && LogsOk(h, p.enqueued, log)
    requires c < |p.buffers| && InHeap(h, p.buffers[c]) && at < |p.buffers[c]| && HitAt(h, p.buffers[c], Tag(addr), at)
    ensures var k := Merged(h, p.buffers[c][at], addr, id);
      ListsOk(k, fs, mcq, p) && Owned(k, p.owner) && DepsOk(k, cores) && c < |log| == |p.enqueued|
        && LogsOk(k, p.enqueued, log[c := log[c] + [Write(MergedInto(p, c, at), false)]])
  {
    var x := p.buffers[c][at];
    assert 0 <= x < |h|;
    var k := Merged(h, x, addr, id);
    assert SameLines(h, k) && |k| == |h|;
    BufferNoDup(h, fs, mcq, p, c);
    ListSizes(h, fs, mcq, p);
    hide HitAt, InHeap, Tag, Owned, DepsOk, LogOk, SameLines, ListsOk;
    LogsAt(h, p.enqueued, log, c);
    MergeLog(h, p, c, log[c], Tag(addr), at);
    LogsSet(h, p.enqueued, log, c, log[c] + [Write(MergedInto(p, c, at), false)]);
    hide LogsOk;
    MergeLists(h, fs, mcq, p, x, k[x]);
    LinesKept(h, k, p.owner, cores);
    LogsKept(h, k, p.enqueued, log[c := log[c] + [Write(MergedInto(p, c, at), false)]]);
  }

  /** The number of the line at a position of a core's buffer. */
  function MergedInto(p: Path, c: nat, at: nat): nat
    requires c < |p.buffers| && c < |p.enqueued|
  {
    if |p.enqueued[c]| + at >= |p.buffers[c]| then |p.enqueued[c]| + at - |p.buffers[c]| else 0
  }

  /** The dependencies of a line on buffers below i are resolved; the other buffers are as they were. */
  ghost predicate Resolving(h: seq<Line>, k: seq<Line>, p: Path, q: Path, line: int, c: nat, i: nat) {
    && SameLines(h, k) && |k| == |h| && 0 <= line < |h|
    && SameSupply(p, q, c) && q.flight == p.flight && |p.flight| == |p.buffers| && c < |p.buffers|
    && (forall d :: 0 <= d < |p.buffers| ==> InHeap(h, p.buffers[d]))
    && (forall d :: 0 <= d < i && d < |p.buffers| && d != c ==> Resolved(h, p, h[line], d, q.buffers[d]))
    && (forall d :: 0 <= d < |p.buffers| && (d >= i || d == c) ==> q.buffers[d] == p.buffers[d])
  }

  lemma ResolvingStart(h: seq<Line>, fs: seq<Fifo>, mcq: Fifo, p: Path, line: int, c: nat)
    requires ListsOk(h, fs, mcq, p) && c < |fs| && 0 <= line < |h| && SameSupply(p, p, c)
    ensures Resolving(h, h, p, p, line, c, 0)
  {
    AllKnown(h, fs, mcq, p);
    ListSizes(h, fs, mcq, p);
  }

  /** The oldest line of a full buffer left it, and what it depends on left the other buffers. */
  ghost predicate OthersResolved(h: seq<Line>, p: Path, q: Path, c: nat) {
    && c < |p.buffers| == |q.buffers| && |p.buffers[c]| > 0 && 0 <= p.buffers[c][0] < |h|
    && forall i :: 0 <= i < |p.buffers| && i != c ==> Resolved(h, p, h[p.buffers[c][0]], i, q.buffers[i])
  }

  /** What a step of the system asks of the buffers; contents are those of freshly allocated memory. */
  datatype Request =
    | Store(core: nat, addr: nat, atomic: bool, id: nat, dp: seq<bool>, dpAddr: seq<nat>)
    | Depend(core: nat, from: nat, addr: nat)

  /** Lines with their places, and the writes of every core. */
  datatype Moment = Moment(path: Path, log: seq<seq<Write>>)

  predicate Fits(r: Request, cores: nat) {
    && r.core < cores
    && (r.Store? ==> |r.dp| == |r.dpAddr| == cores)
    && (r.Depend? ==> r.from < cores)
  }

  /** The line of an earlier write is in memory, and in the controller queue, no later than that of a later
      one. */
  ghost predicate Before(p: Path, c: nat, earlier: nat, later: nat) {
    && c < |p.enqueued| && earlier < later < |p.enqueued[c]|
    && (p.enqueued[c][later] in Of(p.owner, p.dram, c) ==> p.enqueued[c][earlier] in Of(p.owner, p.dram, c))
    && (later < |Arrived(p, c)| ==> Arrived(p, c)[earlier] == p.enqueued[c][earlier] && Arrived(p, c)[later] == p.enqueued[c][later])
  }

  /** No line is lost or reordered, no list is overfull, and writes of a core with a barrier line between
      them arrive in order. */
  ghost predicate OrderKept(m: Moment) {
    && Conserved(m.path) && |m.log| == |m.path.enqueued| && Roomy(m.path)
    && forall c, i, k, j {:trigger m.log[c][i], m.log[c][k], m.log[c][j]} ::
         0 <= c < |m.log| && 0 <= i < k <= j < |m.log[c]| && m.log[c][k].barrier ==>
           Before(m.path, c, m.log[c][i].line, m.log[c][j].line)
  }

  ghost predicate Roomy(p: Path) {
    |p.queue| <= MCQBUFF_SIZE && forall c :: 0 <= c < |p.buffers| ==> |p.buffers[c]| <= PBUFF_SIZE
  }

  lemma InOrder(h: seq<Line>, p: Path, log: seq<seq<Write>>)
    requires Conserved(p) && Roomy(p) && LogsOk(h, p.enqueued, log)
    ensures OrderKept(Moment(p, log))
  {
    forall c, i, k, j | 0 <= c < |log| && 0 <= i < k <= j < |log[c]| && log[c][k].barrier
      ensures Before(p, c, log[c][i].line, log[c][j].line)
    {
      assert LogOk(h, p.enqueued[c], log[c]);
      assert log[c][i] in log[c] && log[c][j] in log[c];
      hide Conserved, Of;
      BarrierOrder(p, c, log[c], i, k, j);
    }
    hide Conserved, LogOk, Before, Roomy;
  }

  /** A store adds its write to the log of its core, and nothing else does. */
  ghost predicate Logged(m: Moment, n: Moment, r: Request, w: Write) {
    if r.Depend? then n.log == m.log
    else r.core < |m.log| && n.log == m.log[r.core := m.log[r.core] + [w]]
  }

  /** Core c has a dependency that no store of it has taken along yet, after the first n requests. */
  predicate Waiting(d0: seq<Deps>, rs: seq<Request>, n: nat, c: nat)
    requires n <= |rs| && c < |d0|
  {
    if n == 0 then d0[c].hasDp else if rs[n - 1].core != c then Waiting(d0, rs, n - 1, c) else rs[n - 1].Depend?
  }

  /** The position of the n-th request's write in the log of core c: the stores of the core before it. */
  function Rank(rs: seq<Request>, n: nat, c: nat): nat
    requires n <= |rs|
  {
    if n == 0 then 0 else Rank(rs, n - 1, c) + if rs[n - 1].Store? && rs[n - 1].core == c then 1 else 0
  }

  lemma {:induction false} RankGrows(rs: seq<Request>, i: nat, n: nat, c: nat)
    requires i <= n <= |rs|
    ensures Rank(rs, i, c) <= Rank(rs, n, c)
    ensures i < n && rs[i].Store? && rs[i].core == c ==> Rank(rs, i, c) < Rank(rs, n, c)
  {
    if i < n {
      RankGrows(rs, i, n - 1, c);
    }
  }

  /** The write of the i-th request, a store of core c, is where its rank says. */
  ghost predicate LoggedAs(l0: seq<Write>, l: seq<Write>, rs: seq<Request>, i: nat, c: nat, w: Write)
    requires i <= |rs|
  {
    |l0| + Rank(rs, i, c) < |l| && l[|l0| + Rank(rs, i, c)] == w
  }

  /** The log of core c holds, behind what was there, the writes of its stores in order. */
  ghost predicate Tracked(l0: seq<Write>, l: seq<Write>, rs: seq<Request>, ws: seq<Write>, n: nat, c: nat)
    requires n <= |rs|
  {
    && |l| == |l0| + Rank(rs, n, c) && n <= |ws|
    && forall i :: 0 <= i < n && rs[i].Store? && rs[i].core == c ==> LoggedAs(l0, l, rs, i, c, ws[i])
  }

  lemma TrackedStep(l0: seq<Write>, l: seq<Write>, m: seq<Write>, rs: seq<Request>, ws: seq<Write>, vs: seq<Write>, w: Write, n: nat, c: nat)
    requires n < |rs| && n == |ws| && Tracked(l0, l, rs, ws, n, c) && vs == ws + [w]
    requires m == if rs[n].Store? && rs[n].core == c then l + [w] else l
    ensures Tracked(l0, m, rs, vs, n + 1, c)
  {
    hide Rank;
    RankStep(rs, n, c);
    assert |m| == |l0| + Rank(rs, n + 1, c) && l <= m;
    forall i | 0 <= i < n + 1 && rs[i].Store? && rs[i].core == c
      ensures LoggedAs(l0, m, rs, i, c, vs[i])
    {
      if i < n { assert LoggedAs(l0, l, rs, i, c, ws[i]); }
    }
  }

  lemma RankStep(rs: seq<Request>, n: nat, c: nat)
    requires n < |rs|
    ensures Rank(rs, n + 1, c) == Rank(rs, n, c) + if rs[n].Store? && rs[n].core == c then 1 else 0
  {
  }

  /** A store is ordered behind those of its core before the last barrier, or before itself if it is one. */
  ghost predicate StoresOrdered(p: Path, rs: seq<Request>, ws: seq<Write>, n: nat) {
    n <= |rs| && n <= |ws| && forall i, k, j {:trigger ws[i], ws[k], ws[j]} ::
      0 <= i < k <= j < n && rs[i].Store? && rs[k].Store? && rs[j].Store? && rs[i].core == rs[k].core == rs[j].core && ws[k].barrier ==>
        Before(p, rs[i].core, ws[i].line, ws[j].line)
  }

  lemma OrderedStores(m: Moment, l0: seq<seq<Write>>, rs: seq<Request>, ws: seq<Write>, n: nat)
    requires OrderKept(m) && n <= |rs| && n <= |ws| && |l0| == |m.log|
    requires forall c :: 0 <= c < |m.log| ==> Tracked(l0[c], m.log[c], rs, ws, n, c)
    requires forall i :: 0 <= i < n ==> rs[i].core < |m.log|
    ensures StoresOrdered(m.path, rs, ws, n)
  {
    hide Before, Conserved, Roomy, Tracked, LoggedAs, Rank, OrderKept;
    forall i, k, j {:trigger ws[i], ws[k], ws[j]} | 0 <= i < k <= j < n && rs[i].Store? && rs[k].Store? && rs[j].Store?
        && rs[i].core == rs[k].core == rs[j].core && ws[k].barrier
      ensures Before(m.path, rs[i].core, ws[i].line, ws[j].line)
    {
      var c := rs[i].core;
      InOrderAt(m, l0[c], rs, ws, n, c, i, k, j);
    }
  }

  lemma InOrderAt(m: Moment, l0: seq<Write>, rs: seq<Request>, ws: seq<Write>, n: nat, c: nat, i: nat, k: nat, j: nat)
    requires OrderKept(m) && c < |m.log| && n <= |rs| && Tracked(l0, m.log[c], rs, ws, n, c)
    requires i < k <= j < n && rs[i].Store? && rs[k].Store? && rs[j].Store? && rs[i].core == rs[k].core == rs[j].core == c && ws[k].barrier
    ensures Before(m.path, c, ws[i].line, ws[j].line)
  {
    hide Before, Conserved, Roomy, Rank;
    RankGrows(rs, i, k, c);
    RankGrows(rs, k, j, c);
    assert LoggedAs(l0, m.log[c], rs, i, c, ws[i]) && LoggedAs(l0, m.log[c], rs, k, c, ws[k]) && LoggedAs(l0, m.log[c], rs, j, c, ws[j]);
    var a, b, d := |l0| + Rank(rs, i, c), |l0| + Rank(rs, k, c), |l0| + Rank(rs, j, c);
    assert m.log[c][a] == ws[i] && m.log[c][b] == ws[k] && m.log[c][d] == ws[j];
  }

  /** The line of a store carries the tag of its address. */
  ghost predicate Tagged(h: seq<Line>, p: Path, r: Request, w: Write) {
    r.core < |p.enqueued| && w.line < |p.enqueued[r.core]| && 0 <= p.enqueued[r.core][w.line] < |h|
    && h[p.enqueued[r.core][w.line]].tag == Tag(r.addr)
  }

  /** A merged write goes into a line with its tag. */
  lemma MergedTag(h: seq<Line>, p: Path, c: nat, tag: nat, at: int)
    requires Conserved(p) && c < |p.buffers| && InHeap(h, p.buffers[c]) && HitAt(h, p.buffers[c], tag, at)
    ensures 0 <= at < |p.buffers[c]| && MergedInto(p, c, at) < |p.enqueued[c]|
    ensures p.enqueued[c][MergedInto(p, c, at)] == p.buffers[c][at]
    ensures 0 <= p.buffers[c][at] < |h| && h[p.buffers[c][at]].tag == tag
  {
    assert Lane(p.owner, p.dram, p.queue, p.flight[c], p.buffers[c], p.enqueued[c], c);
    hide Of, NoDup;
  }

  /** Lines stay where they are in the order of their core. */
  ghost predicate Extends(p: Path, q: Path) {
    |p.enqueued| == |q.enqueued| && forall c :: 0 <= c < |p.enqueued| ==> p.enqueued[c] <= q.enqueued[c]
  }

  lemma TaggedKept(h: seq<Line>, k: seq<Line>, p: Path, q: Path, r: Request, w: Write)
    requires Tagged(h, p, r, w) && SameLines(h, k) && Extends(p, q)
    ensures Tagged(k, q, r, w)
  {
    assert SameLine(h[p.enqueued[r.core][w.line]], k[p.enqueued[r.core][w.line]]);
  }

  class PersistSystem {
    const cores: nat
    var heap: seq<Line>
    var buffers: seq<Fifo>
    var deps: seq<Deps>
    var mcq: Fifo
    ghost var path: Path
    ghost var log: seq<seq<Write>>

    /** Everything holds, apart from lines that are on their way to the controller queue. */
    ghost predicate Inv()
      reads this
    {
      && |buffers| == |deps| == |log| == cores && ListsOk(heap, buffers, mcq, path)
      && (forall c :: 0 <= c < cores ==> buffers[c].size <= PBUFF_SIZE) && mcq.size <= MCQBUFF_SIZE
      && Owned(heap, path.owner) && DepsOk(heap, cores)
      && (forall c :: 0 <= c < cores ==> |deps[c].dp| == cores && |deps[c].addr| == cores)
      && LogsOk(heap, path.enqueued, log)
    }

    ghost predicate Valid()
      reads this
    {
      Inv() && forall c :: 0 <= c < cores ==> path.flight[c] == NULL
    }

    /** The dependency vectors start as uninitialised memory. */
    constructor (cores: nat, deps: seq<Deps>)
      requires |deps| == cores && forall c :: 0 <= c < cores ==> !deps[c].hasDp && |deps[c].dp| == |deps[c].addr| == cores
      ensures Valid() && this.cores == cores && heap == [] && this.deps == deps
      ensures path == Fresh(cores) && forall c :: 0 <= c < cores ==> log[c] == []
    {
      hide ListsOk, LogsOk, Conserved, Owned, DepsOk, Fresh;
      this.cores := cores;
      heap, this.deps, mcq := [], deps, Fifo(NULL, NULL, 0);
      buffers := seq(cores, _ => Fifo(NULL, NULL, 0));
      path := Fresh(cores);
      log := seq(cores, _ => []);
      new;
      FreshLists(cores);
      FreshRest(cores, log);
    }

    /** `PBuff::access` */
    method Access(c: nat, addr: nat) returns (line: int, ghost at: int)
      requires Inv() && c < cores
      ensures InHeap(heap, path.buffers[c])
      ensures line == NULL ==> Miss(heap, path.buffers[c], Tag(addr))
      ensures line != NULL ==> HitAt(heap, path.buffers[c], Tag(addr), at) && line == path.buffers[c][at]
    {
      assert Chained(heap, buffers[c], path.buffers[c]);
      ChainedKnownAt(heap, buffers[c], path.buffers[c]);
      hide Chained, Conserved, LogOk, Owned, DepsOk, HitAt, Miss, Tag;
      line, at := Scan(heap, buffers[c], path.buffers[c], Tag(addr));
    }

    /** The walk of `PBuff::access` along the list: it remembers the last line with the tag, and whether a
        barrier came at or after the first one. */
    static method Scan(lines: seq<Line>, list: Fifo, ghost ids: seq<int>, ctag: nat) returns (line: int, ghost at: int)
      requires Chained(lines, list, ids)
      ensures line == NULL ==> Miss(lines, ids, ctag)
      ensures line != NULL ==> HitAt(lines, ids, ctag, at) && line == ids[at]
    {
      ChainedKnownAt(lines, list, ids);
      hide Chained;
      var tmp := list.head;
      var caught := NULL;
      var barrierHit := false;
      ghost var k, bi, bj := 0, 0, 0;
      at := -1;
      while tmp != NULL
        invariant 0 <= k <= |ids| && tmp == (if k < |ids| then ids[k] else NULL)
        invariant -1 <= at < k && caught == (if at >= 0 then ids[at] else NULL)
        invariant at >= 0 ==> lines[ids[at]].tag == ctag
        invariant forall j :: at < j < k ==> lines[ids[j]].tag != ctag
        invariant barrierHit ==> 0 <= bi <= bj < k && lines[ids[bi]].tag == ctag && lines[ids[bj]].barrier
        invariant !barrierHit ==> forall i, j :: 0 <= i <= j < k && lines[ids[i]].tag == ctag ==> !lines[ids[j]].barrier
        decreases |ids| - k
      {
        if lines[tmp].tag == ctag {
          caught := tmp;
          at := k;
        }
        if caught != NULL && lines[tmp].barrier {
          barrierHit := true;
          bi, bj := at, k;
        }
        tmp := lines[tmp].next;
        k := k + 1;
      }
      line := if caught != NULL && !barrierHit then caught else NULL;
    }

    /** `PBuff::remove` */
    method Remove(c: nat) returns (line: int)
      requires Inv() && c < cores && path.flight[c] == NULL
      modifies `buffers, `path
      ensures Inv() && line == if |old(path).buffers[c]| == 0 then NULL else old(path).buffers[c][0]
      ensures line == NULL <==> |old(path).buffers[c]| == 0
      ensures line == NULL ==> path == old(path)
      ensures line != NULL ==> path == Depart(old(path), c) && buffers[c].size == old(buffers)[c].size - 1
    {
      line := NULL;
      assert Chained(heap, buffers[c], path.buffers[c]);
      if buffers[c].size != 0 {
        DepartLists(heap, buffers, mcq, path, c);
        HeadExists(heap, buffers[c], path.buffers[c]);
        hide Conserved, LogsOk, ListsOk, Owned, DepsOk;
        line := buffers[c].head;
        buffers := buffers[c := Fifo(heap[line].next, buffers[c].tail, buffers[c].size - 1)];
        path := Depart(path, c);
      }
    }

    /** The common body of `PBuff::insert` and `MCQBuff::insert` for a list that is not full. */
    method Append(f: Fifo, line: int) returns (g: Fifo)
      requires 0 <= line < |heap| && (f.size != 0 ==> 0 <= f.tail < |heap|)
      modifies `heap
      ensures heap == Pushed(old(heap), f, line)
      ensures g == Fifo(if f.size == 0 then line else f.head, line, f.size + 1)
    {
      if f.size == 0 {
        heap := heap[line := heap[line].(next := NULL)];
        g := Fifo(line, line, f.size + 1);
      } else {
        heap := heap[line := heap[line].(next := NULL)];
        heap := heap[f.tail := heap[f.tail].(next := line)];
        g := Fifo(f.head, line, f.size + 1);
      }
    }

    /** Allocation of a line followed by `PBuff::insert` */
    method Insert(c: nat, line: Line) returns (r: int)
      requires Inv() && c < cores && line.core == c && (line.hasDp ==> |line.dp| == |line.dpAddr| == cores)
      modifies `heap, `buffers, `path
      ensures Inv() && (r == -1 <==> old(buffers)[c].size >= PBUFF_SIZE)
      ensures r == -1 ==> heap == old(heap) && path == old(path)
      ensures r != -1 ==> r == 1 && path == Enqueue(old(path), c) && |heap| == |old(heap)| + 1
      ensures r != -1 ==> SameLines(old(heap) + [line], heap)
    {
      hide Conserved, LogsOk, ListsOk, Owned, DepsOk, SameLines, Chained, Pushed;
      if buffers[c].size >= PBUFF_SIZE {
        return -1;
      }
      ghost var h, k, f, x := heap, heap + [line], buffers[c], |heap|;
      ListSizes(heap, buffers, mcq, path);
      InsertLists(heap, buffers, mcq, path, c, line);
      PushedSame(k, f, x);
      InsertRest(h, line, path.owner, path.enqueued, log, cores, c, Pushed(k, f, x));
      heap := heap + [line];
      var g := Append(buffers[c], |heap| - 1);
      buffers := buffers[c := g];
      path := Enqueue(path, c);
      r := 1;
    }

    /** `accessMCQBuffer`: room is made by writing the oldest line to memory, then the line joins the queue. */
    method AccessMcq(c: nat, line: int)
      requires Inv() && c < cores && path.flight[c] == line != NULL
      modifies `heap, `mcq, `path
      ensures Inv() && SameLines(old(heap), heap) && |heap| == |old(heap)|
      ensures path == Arrive(if old(mcq).size >= MCQBUFF_SIZE then Persist(old(path)) else old(path), c)
    {
      hide Conserved, LogsOk, Owned, DepsOk, SameLines, Chained, Pushed;
      if mcq.size >= MCQBUFF_SIZE {
        PersistLists(heap, buffers, mcq, path);
        mcq := Fifo(heap[mcq.head].next, mcq.tail, mcq.size - 1);
        path := Persist(path);
      }
      ghost var h, f := heap, mcq;
      ArriveLists(heap, buffers, mcq, path, c);
      PushedSame(h, f, line);
      LinesKept(h, Pushed(h, f, line), path.owner, cores);
      LogsKept(h, Pushed(h, f, line), path.enqueued, log);
      mcq := Append(mcq, line);
      hide ListsOk;
      path := Arrive(path, c);
    }

    /** `flushPersistBuffer`: drains exactly the lines up to the one that is hit, or nothing. */
    method Flush(c: nat, addr: nat)
      requires Inv() && c < cores && path.flight[c] == NULL
      modifies `heap, `buffers, `mcq, `path
      ensures Inv() && SameLines(old(heap), heap) && |heap| == |old(heap)|
      ensures OnlyLane(old(path), path, c) && path.flight[c] == NULL
      ensures InHeap(old(heap), old(path).buffers[c])
      ensures Drained(old(heap), old(path).buffers[c], Tag(addr), path.buffers[c])
    {
      var line;
      ghost var at;
      hide Tag, Miss, SameLines, LogsOk, ListsOk, Owned, DepsOk, NoDup;
      line, at := Access(c, addr);
      BufferNoDup(heap, buffers, mcq, path, c);
      SameLinesSelf(heap);
      if line != NULL {
        HitInRange(heap, path.buffers[c], Tag(addr), at);
        hide HitAt;
        Drain(c, line, at);
      }
    }

    /** The loop of `flushPersistBuffer` */
    method Drain(c: nat, line: int, ghost at: int)
      requires Inv() && c < cores && c < |path.buffers| == |path.flight| && path.flight[c] == NULL
      requires 0 <= at < |path.buffers[c]| && NoDup(path.buffers[c]) && path.buffers[c][at] == line
      modifies `heap, `buffers, `mcq, `path
      ensures Inv() && SameLines(old(heap), heap) && |heap| == |old(heap)|
      ensures OnlyLane(old(path), path, c) && path.flight[c] == NULL
      ensures path.buffers[c] == old(path).buffers[c][at + 1..]
    {
      hide SameLines, PersistSystem.Inv;
      ghost var h, p, ids := heap, path, path.buffers[c];
      SameLinesSelf(h);
      ghost var n := 0;
      while true
        invariant Inv() && SameLines(h, heap) && |heap| == |h| && OnlyLane(p, path, c) && path.flight[c] == NULL
        invariant 0 <= n <= at && path.buffers[c] == ids[n..]
        decreases at - n
      {
        ghost var k := heap;
        var rline := MoveOldest(c);
        SameLinesTrans(h, k, heap);
        n := n + 1;
        if rline == line {
          assert n - 1 == at;
          break;
        }
      }
    }

    /** One turn of the flush: the oldest line of a buffer goes into the controller queue. */
    method MoveOldest(c: nat) returns (line: int)
      requires Inv() && c < cores && c < |path.buffers| == |path.flight| && |path.buffers[c]| > 0 && path.flight[c] == NULL
      modifies `heap, `buffers, `mcq, `path
      ensures Inv() && SameLines(old(heap), heap) && |heap| == |old(heap)|
      ensures OnlyLane(old(path), path, c) && path.flight[c] == NULL
      ensures line == old(path).buffers[c][0] && path.buffers[c] == old(path).buffers[c][1..]
    {
      hide SameLines, LogsOk, Owned, DepsOk, Chained;
      ListSizes(heap, buffers, mcq, path);
      hide ListsOk;
      line := Remove(c);
      AccessMcq(c, line);
    }

    /** The dependency loop of `accessPersistBuffer`: before a line with dependencies goes on, the buffers
        it depends on are flushed up to the lines it depends on. */
    method Resolve(c: nat, line: int)
      requires Inv() && c < cores && Resolving(heap, heap, path, path, line, c, 0)
      requires 0 <= line < |heap| && heap[line].hasDp && |heap[line].dp| == |heap[line].dpAddr| == cores
      modifies `heap, `buffers, `mcq, `path
      ensures Inv() && Resolving(old(heap), heap, old(path), path, line, c, cores)
    {
      hide Resolving, PersistSystem.Inv;
      ghost var h, p := heap, path;
      var i := 0;
      while i < cores
        invariant 0 <= i <= cores && Inv() && Resolving(h, heap, p, path, line, c, i)
      {
        ResolveOne(c, line, i, h, p);
        i := i + 1;
      }
    }

    method ResolveOne(c: nat, line: int, i: nat, ghost h: seq<Line>, ghost p: Path)
      requires Inv() && c < cores && i < cores && Resolving(h, heap, p, path, line, c, i)
      requires 0 <= line < |h| && h[line].hasDp && |h[line].dp| == |h[line].dpAddr| == cores
      modifies `heap, `buffers, `mcq, `path
      ensures Inv() && Resolving(h, heap, p, path, line, c, i + 1)
    {
      hide SameLines, Resolved, Tag, InHeap, Drained, LogsOk, ListsOk, Owned, DepsOk;
      SameLineAt(h, heap, line);
      ListSizes(heap, buffers, mcq, path);
      hide PersistSystem.Inv;
      if i != c && heap[line].dp[i] {
        ghost var k := heap;
        Flush(i, heap[line].dpAddr[i]);
        SameLinesTrans(h, k, heap);
        ResolvedNow(h, k, p, p.buffers[i], h[line], i, path.buffers[i]);
      } else {
        if i != c { NothingToResolve(h, p, h[line], i); }
      }
    }

    /** Room in a full buffer: its oldest line, and what that depends on, goes to the controller queue. */
    method MakeRoom(c: nat)
      requires Valid() && c < cores && buffers[c].size >= PBUFF_SIZE
      modifies `heap, `buffers, `mcq, `path
      ensures Valid() && SameLines(old(heap), heap) && |heap| == |old(heap)| && SameSupply(old(path), path, c)
      ensures c < |old(path).buffers| == |path.buffers| && |old(path).buffers[c]| > 0
      ensures path.buffers[c] == old(path).buffers[c][1..] && buffers[c].size < PBUFF_SIZE
      ensures OthersResolved(old(heap), old(path), path, c)
    {
      hide Resolved, Tag, InHeap, Drained, ListsOk, LogsOk, Owned, DepsOk;
      hide SameLines;
      ghost var h, p := heap, path;
      SameLinesSelf(h);
      ListSizes(heap, buffers, mcq, path);
      AllKnown(heap, buffers, mcq, path);
      SizeIs(heap, buffers, mcq, path, c);
      var line := Remove(c);
      FlightExists(heap, buffers, mcq, path, cores, c);
      ghost var q := path;
      ResolvingStart(heap, buffers, mcq, path, line, c);
      hide PersistSystem.Inv;
      if heap[line].hasDp {
        Resolve(c, line);
        ResolvedDepart(h, p, q, c, line, path.buffers, cores);
      } else {
        NoneToResolve(h, p, q, c, h[line], cores);
      }
      ghost var k := heap;
      AccessMcq(c, line);
      SameLinesTrans(h, k, heap);
      SizeIs(heap, buffers, mcq, path, c);
    }

    /** A coherence response from a core whose barrier line was read: the next line will depend on it. */
    method AddDependency(c: nat, from: nat, addr: nat)
      requires Valid() && c < cores && from < cores
      modifies `deps
      ensures Valid() && deps == old(deps)[c := Deps(true, old(deps)[c].dp[from := true], old(deps)[c].addr[from := addr])]
    {
      hide ListsOk, LogsOk, Owned, DepsOk;
      deps := deps[c := Deps(true, deps[c].dp[from := true], deps[c].addr[from := addr])];
    }

    /** `accessPersistBuffer`: a write of core c is merged into a line of its buffer or opens a new line.
        newDp and newAddr are the contents of freshly allocated memory. */
    method AccessPersistBuffer(c: nat, addr: nat, atomic: bool, id: nat, newDp: seq<bool>, newAddr: seq<nat>)
      returns (ghost merged: bool, ghost at: int)
      requires Valid() && c < cores && |newDp| == |newAddr| == cores
      modifies this
      ensures Valid() && c < |old(path).buffers| == |old(path).enqueued| && InHeap(old(heap), old(path).buffers[c])
      ensures merged ==> HitAt(old(heap), old(path).buffers[c], Tag(addr), at) && !old(deps)[c].hasDp
      ensures merged ==> path == old(path) && deps == old(deps) && 0 <= at < |old(path).buffers[c]|
      ensures merged ==> var x := old(path).buffers[c][at];
        0 <= x < |old(heap)| && heap == old(heap)[x := old(heap)[x].(lastAddr := addr, writeId := id, lastWriteId := id,
                                                                      coalesced := old(heap)[x].coalesced + 1)]
      ensures merged ==> log == old(log)[c := old(log)[c] + [Write(MergedInto(old(path), c, at), false)]]
      ensures !merged ==> old(deps)[c].hasDp || Miss(old(heap), old(path).buffers[c], Tag(addr))
      ensures !merged ==> path.enqueued == old(path).enqueued[c := old(path).enqueued[c] + [|old(heap)|]]
      ensures SameLines(old(heap), heap) && (!merged ==> |heap| == |old(heap)| + 1)
      ensures !merged ==> var x := heap[|old(heap)|];
        && x.core == c && x.tag == Tag(addr) && (x.barrier <==> atomic || old(deps)[c].hasDp)
        && (x.hasDp <==> old(deps)[c].hasDp) && (x.hasDp ==> x.dp == old(deps)[c].dp && x.dpAddr == old(deps)[c].addr)
      ensures !merged ==> log == old(log)[c := old(log)[c] + [Write(|old(path).enqueued[c]|, atomic || old(deps)[c].hasDp)]]
      ensures !merged ==> deps == if old(deps)[c].hasDp then old(deps)[c := Deps(false, newDp, newAddr)] else old(deps)
      ensures !merged && old(buffers)[c].size < PBUFF_SIZE ==> path == Enqueue(old(path), c)
      ensures !merged && old(buffers)[c].size >= PBUFF_SIZE ==>
        c < |path.buffers| && |old(path).buffers[c]| > 0 && path.buffers[c] == old(path).buffers[c][1..] + [|old(heap)|]
      ensures !merged && old(buffers)[c].size >= PBUFF_SIZE ==> OthersResolved(old(heap), old(path), path, c)
    {
      hide ListsOk, LogsOk, Owned, DepsOk, SameLines, HitAt, Miss, Tag, InHeap, OthersResolved;
      ListSizes(heap, buffers, mcq, path);
      var line;
      line, at := Access(c, addr);
      if deps[c].hasDp {
        line := NULL;
      }
      merged := line != NULL;
      if line != NULL {
        HitInRange(heap, path.buffers[c], Tag(addr), at);
        MergedSame(heap, line, addr, id);
        KnownAt(heap, path.buffers[c], at);
        Merge(c, addr, id, line, at);
      } else {
        Open(c, addr, atomic, id, newDp, newAddr);
      }
    }

    /** The hit branch of `accessPersistBuffer` */
    method Merge(c: nat, addr: nat, id: nat, line: int, ghost at: int)
      requires Valid() && c < cores && c < |path.buffers| == |path.enqueued| && InHeap(heap, path.buffers[c])
      requires HitAt(heap, path.buffers[c], Tag(addr), at) && 0 <= at < |path.buffers[c]| && line == path.buffers[c][at]
      modifies `heap, `log
      ensures Valid() && heap == Merged(old(heap), line, addr, id)
      ensures log == old(log)[c := old(log)[c] + [Write(MergedInto(path, c, at), false)]]
    {
      hide HitAt, InHeap, Tag, Owned, DepsOk, LogsOk, ListsOk, MergedInto;
      KnownAt(heap, path.buffers[c], at);
      MergeAll(heap, buffers, mcq, path, log, cores, c, addr, id, at);
      log := log[c := log[c] + [Write(MergedInto(path, c, at), false)]];
      heap := heap[line := heap[line].(lastAddr := addr, writeId := id, lastWriteId := id, coalesced := heap[line].coalesced + 1)];
    }

    /** The miss branch of `accessPersistBuffer` */
    method Open(c: nat, addr: nat, atomic: bool, id: nat, newDp: seq<bool>, newAddr: seq<nat>)
      requires Valid() && c < cores && |newDp| == |newAddr| == cores && c < |path.buffers| == |path.enqueued|
      modifies this
      ensures Valid() && path.enqueued == old(path).enqueued[c := old(path).enqueued[c] + [|old(heap)|]]
      ensures SameLines(old(heap), heap) && |heap| == |old(heap)| + 1
      ensures var x := heap[|old(heap)|];
        && x.core == c && x.tag == Tag(addr) && (x.barrier <==> atomic || old(deps)[c].hasDp)
        && (x.hasDp <==> old(deps)[c].hasDp) && (x.hasDp ==> x.dp == old(deps)[c].dp && x.dpAddr == old(deps)[c].addr)
      ensures log == old(log)[c := old(log)[c] + [Write(|old(path).enqueued[c]|, atomic || old(deps)[c].hasDp)]]
      ensures old(buffers)[c].size < PBUFF_SIZE ==> path == Enqueue(old(path), c)
      ensures old(buffers)[c].size >= PBUFF_SIZE ==>
        c < |path.buffers| && |old(path).buffers[c]| > 0 && path.buffers[c] == old(path).buffers[c][1..] + [|old(heap)|]
      ensures deps == if old(deps)[c].hasDp then old(deps)[c := Deps(false, newDp, newAddr)] else old(deps)
      ensures old(buffers)[c].size >= PBUFF_SIZE ==> OthersResolved(old(heap), old(path), path, c)
    {
      hide ListsOk, LogsOk, Owned, DepsOk, SameLines, Tag, Resolved;
      ghost var h := heap;
      SameLinesSelf(h);
      ListSizes(heap, buffers, mcq, path);
      if buffers[c].size >= PBUFF_SIZE {
        MakeRoom(c);
      }
      ListSizes(heap, buffers, mcq, path);
      hide PersistSystem.Inv;
      var line := TakeLine(c, addr, atomic, id, newDp, newAddr);
      ghost var k := heap;
      EnqueueLine(c, line);
      SameLinesTrans(h, k, heap);
    }

    /** The new line with the dependencies its buffer has accumulated, which start afresh. */
    method TakeLine(c: nat, addr: nat, atomic: bool, id: nat, newDp: seq<bool>, newAddr: seq<nat>) returns (line: Line)
      requires Valid() && c < cores == |deps| && |newDp| == |newAddr| == cores
      modifies `deps
      ensures Valid() && line.core == c && line.tag == Tag(addr) && (line.barrier <==> atomic || old(deps)[c].hasDp)
      ensures (line.hasDp <==> old(deps)[c].hasDp) && (line.hasDp ==> line.dp == old(deps)[c].dp && line.dpAddr == old(deps)[c].addr)
      ensures line.hasDp ==> |line.dp| == |line.dpAddr| == cores
      ensures deps == if old(deps)[c].hasDp then old(deps)[c := Deps(false, newDp, newAddr)] else old(deps)
    {
      hide ListsOk, LogsOk, Owned, DepsOk, Tag;
      if deps[c].hasDp {
        line := Line(Tag(addr), addr, true, c, true, deps[c].dp, deps[c].addr, id, id, 1, NULL);
        deps := deps[c := Deps(false, newDp, newAddr)];
      } else {
        line := Line(Tag(addr), addr, atomic, c, false, [], [], id, id, 1, NULL);
      }
    }

    /** The new line joins its buffer. */
    method EnqueueLine(c: nat, line: Line)
      requires Valid() && c < cores && buffers[c].size < PBUFF_SIZE && c < |path.enqueued|
      requires line.core == c && (line.hasDp ==> |line.dp| == |line.dpAddr| == cores)
      modifies `heap, `buffers, `path, `log
      ensures Valid() && c < |old(path).buffers| == |old(path).enqueued| && path == Enqueue(old(path), c)
      ensures SameLines(old(heap), heap) && |heap| == |old(heap)| + 1 && SameLine(line, heap[|old(heap)|])
      ensures |log| == |old(log)| && log == old(log)[c := old(log)[c] + [Write(|old(path).enqueued[c]|, line.barrier)]]
    {
      hide ListsOk, LogsOk, Owned, DepsOk, SameLines;
      ListSizes(heap, buffers, mcq, path);
      ghost var h, e, l := heap, path.enqueued[c], log[c];
      LogsAt(heap, path.enqueued, log, c);
      var r := Insert(c, line);
      SameLineAt(h + [line], heap, |h|);
      SameLinesCut(h, line, heap);
      LogsAt(heap, path.enqueued, log, c);
      NewLog(heap, e, l, |h|, line.barrier);
      LogsSet(heap, path.enqueued, log, c, l + [Write(|e|, line.barrier)]);
      log := log[c := l + [Write(|e|, line.barrier)]];
    }

    /** One request: a store that is not merged opens a barrier line if and only if it is atomic or its buffer
        has a dependency. */
    method Step(r: Request) returns (ghost w: Write, ghost merged: bool)
      requires Valid() && Fits(r, cores)
      modifies this
      ensures Valid() && Logged(old(Moment(path, log)), Moment(path, log), r, w)
      ensures SameLines(old(heap), heap) && Extends(old(path), path)
      ensures r.Store? ==> (w.barrier <==> !merged && (r.atomic || old(deps)[r.core].hasDp))
      ensures r.Store? ==> Tagged(heap, path, r, w) && (old(deps)[r.core].hasDp ==> !merged)
      ensures forall c :: 0 <= c < cores ==> deps[c].hasDp == if c == r.core then r.Depend? else old(deps)[c].hasDp
    {
      hide ListsOk, LogsOk, Owned, DepsOk, SameLines, Miss, Tag, OthersResolved;
      match r
      case Store(c, addr, atomic, id, dp, dpAddr) =>
        ghost var h, p := heap, path;
        ghost var at;
        ListSizes(heap, buffers, mcq, path);
        BufferNoDup(heap, buffers, mcq, path, c);
        merged, at := AccessPersistBuffer(c, addr, atomic, id, dp, dpAddr);
        w := if merged then Write(MergedInto(p, c, at), false) else Write(|p.enqueued[c]|, atomic || old(deps)[c].hasDp);
        if merged {
          MergedTag(h, p, c, Tag(addr), at);
          SameLineAt(h, heap, p.buffers[c][at]);
        }
      case Depend(c, from, addr) =>
        SameLinesSelf(heap);
        w, merged := Write(0, false), false;
        AddDependency(c, from, addr);
    }

    lemma MomentInOrder()
      requires Valid()
      ensures OrderKept(Moment(path, log)) && |log| == cores
    {
      hide LogsOk, Owned, DepsOk, Conserved, OrderKept;
      ListSizes(heap, buffers, mcq, path);
      forall c | 0 <= c < cores
        ensures |path.buffers[c]| <= PBUFF_SIZE
      {
        SizeIs(heap, buffers, mcq, path, c);
      }
      InOrder(heap, path, log);
    }

    /** Along every run no core's line is lost, doubled or reordered on its way to memory, no list is overfull,
        and of three stores of a core the first reaches queue and memory before the last if the middle one was
        not merged and was atomic or had a dependency.  ws names the line of every store. */
    method Run(rs: seq<Request>) returns (ghost ms: seq<Moment>, ghost ws: seq<Write>, ghost merged: seq<bool>)
      requires Valid() && forall i :: 0 <= i < |rs| ==> Fits(rs[i], cores)
      modifies this
      ensures Valid() && |ms| == |rs| + 1 && ms[0] == old(Moment(path, log)) && ms[|rs|] == Moment(path, log)
      ensures |ws| == |merged| == |rs| && |old(deps)| == cores
      ensures forall i :: 0 <= i < |ms| ==> OrderKept(ms[i]) && StoresOrdered(ms[i].path, rs, ws, i)
      ensures forall i :: 0 <= i < |rs| ==> Logged(ms[i], ms[i + 1], rs[i], ws[i])
      ensures forall i :: 0 <= i < |rs| && rs[i].Store? ==>
        rs[i].core < cores && (ws[i].barrier <==> !merged[i] && (rs[i].atomic || Waiting(old(deps), rs, i, rs[i].core)))
      ensures forall i :: 0 <= i < |rs| && rs[i].Store? ==> Tagged(heap, path, rs[i], ws[i])
    {
      hide OrderKept, Logged, Fits, PersistSystem.Valid, StoresOrdered, Tracked, Tagged, Extends, SameLines, Waiting;
      ms, ws, merged := [Moment(path, log)], [], [];
      MomentInOrder();
      Sizes();
      ghost var d0, l0 := deps, log;
      StartOfRun(d0, l0, rs, path);
      for n := 0 to |rs|
        invariant Valid() && |ms| == n + 1 && ms[0] == old(Moment(path, log)) && ms[n] == Moment(path, log)
        invariant |ws| == |merged| == n && |log| == |l0| == cores == |deps| == |d0|
        invariant forall c :: 0 <= c < cores ==> Tracked(l0[c], log[c], rs, ws, n, c) && deps[c].hasDp == Waiting(d0, rs, n, c)
        invariant forall i :: 0 <= i < |ms| ==> OrderKept(ms[i]) && StoresOrdered(ms[i].path, rs, ws, i)
        invariant forall i :: 0 <= i < n ==> Logged(ms[i], ms[i + 1], rs[i], ws[i])
        invariant forall i :: 0 <= i < n && rs[i].Store? ==>
          rs[i].core < cores && (ws[i].barrier <==> !merged[i] && (rs[i].atomic || Waiting(d0, rs, i, rs[i].core)))
        invariant forall i :: 0 <= i < n && rs[i].Store? ==> Tagged(heap, path, rs[i], ws[i])
      {
        ghost var h, p, l, d := heap, path, log, deps;
        FitsCore(rs, cores);
        ghost var w, hit;
        w, hit := Step(rs[n]);
        ghost var vs := ws + [w];
        MomentInOrder();
        Sizes();
        forall i | 0 <= i < n && rs[i].Store?
          ensures Tagged(heap, path, rs[i], ws[i])
        {
          TaggedKept(h, heap, p, path, rs[i], ws[i]);
        }
        forall c | 0 <= c < cores
          ensures Tracked(l0[c], log[c], rs, vs, n + 1, c) && deps[c].hasDp == Waiting(d0, rs, n + 1, c)
        {
          LoggedAt(Moment(p, l), Moment(path, log), rs[n], w, c);
          TrackedStep(l0[c], l[c], log[c], rs, ws, vs, w, n, c);
          WaitingStep(d0, rs, n, c);
        }
        forall i | 0 <= i < |ms|
          ensures StoresOrdered(ms[i].path, rs, vs, i)
        {
          MoreStores(ms[i].path, rs, ws, vs, i);
        }
        OrderedStores(Moment(path, log), l0, rs, vs, n + 1);
        ms, ws, merged := ms + [Moment(path, log)], vs, merged + [hit];
      }
    }

    lemma Sizes()
      requires Valid()
      ensures |log| == |deps| == cores
    {
      hide ListsOk, LogsOk, Owned, DepsOk;
    }
  }

  lemma FitsCore(rs: seq<Request>, cores: nat)
    requires forall i :: 0 <= i < |rs| ==> Fits(rs[i], cores)
    ensures forall i :: 0 <= i < |rs| ==> rs[i].core < cores
  {
    forall i | 0 <= i < |rs|
      ensures rs[i].core < cores
    {
      assert Fits(rs[i], cores);
    }
  }

  lemma StartOfRun(d0: seq<Deps>, l0: seq<seq<Write>>, rs: seq<Request>, p: Path)
    requires |d0| == |l0|
    ensures forall c :: 0 <= c < |l0| ==> Tracked(l0[c], l0[c], rs, [], 0, c) && d0[c].hasDp == Waiting(d0, rs, 0, c)
    ensures StoresOrdered(p, rs, [], 0)
  {
  }

  lemma LoggedAt(m: Moment, n: Moment, r: Request, w: Write, c: nat)
    requires Logged(m, n, r, w) && c < |m.log|
    ensures c < |n.log| && n.log[c] == if r.Store? && r.core == c then m.log[c] + [w] else m.log[c]
  {
  }

  lemma WaitingStep(d0: seq<Deps>, rs: seq<Request>, n: nat, c: nat)
    requires n < |rs| && c < |d0|
    ensures Waiting(d0, rs, n + 1, c) == if rs[n].core != c then Waiting(d0, rs, n, c) else rs[n].Depend?
  {
  }

  lemma MoreStores(p: Path, rs: seq<Request>, ws: seq<Write>, vs: seq<Write>, n: nat)
    requires StoresOrdered(p, rs, ws, n) && ws <= vs
    ensures StoresOrdered(p, rs, vs, n)
  {
    hide Before;
    assert forall i {:trigger vs[i]} | 0 <= i < n :: vs[i] == ws[i];
  }
}
