/** Where the lines of the persist buffers are on their way to memory, and why none is lost or
    reordered (`accessPersistBuffer`, `flushPersistBuffer`, `accessMCQBuffer` in `src/system.cpp`). */
module PersistOrder {
  import opened Sequences

  const NULL := -1

  /** A write of a core: the number of the line it went into, counted in the order in which the core's
      lines were enqueued, and whether it opened a barrier line. */
  datatype Write = Write(line: nat, barrier: bool)

  /** Lines are named by their address; owner tells their core. Every core has a buffer and at most one
      line that was removed from it but is not yet in the controller queue. */
  datatype Path = Path(owner: seq<nat>, buffers: seq<seq<int>>, flight: seq<int>, queue: seq<int>, dram: seq<int>,
                       enqueued: seq<seq<int>>)

  /** The lines of one core in a mixed sequence. */
  function Of(owner: seq<nat>, s: seq<int>, c: nat): seq<int> {
    if |s| == 0 then []
    else
      var x := s[|s| - 1];
      Of(owner, s[..|s| - 1], c) + if 0 <= x < |owner| && owner[x] == c then [x] else []
  }

  function Flying(x: int): seq<int> {
    if x == NULL then [] else [x]
  }

  ghost predicate Known(owner: seq<nat>, s: seq<int>) {
    forall x | x in s :: 0 <= x < |owner|
  }

  /** The lines of core c: those written to memory, then those in the controller queue, then the one on
      its way, then its own buffer, are exactly its enqueued lines in order. */
  ghost predicate Lane(owner: seq<nat>, dram: seq<int>, queue: seq<int>, flight: int, buffer: seq<int>, enqueued: seq<int>, c: nat) {
    && Of(owner, dram, c) + Of(owner, queue, c) + Flying(flight) + buffer == enqueued
    && NoDup(enqueued) && forall x | x in enqueued :: 0 <= x < |owner| && owner[x] == c
  }

  ghost predicate Conserved(p: Path) {
    && |p.buffers| == |p.flight| == |p.enqueued|
    && Known(p.owner, p.dram) && Known(p.owner, p.queue)
    && (forall x | x in p.owner :: x < |p.enqueued|)
    && forall c :: 0 <= c < |p.enqueued| ==> Lane(p.owner, p.dram, p.queue, p.flight[c], p.buffers[c], p.enqueued[c], c)
  }

  // ----- Filtering -------------------------------------------------------------------------------

  lemma {:induction false} OfMembers(owner: seq<nat>, s: seq<int>, c: nat)
    ensures forall x :: x in Of(owner, s, c) <==> x in s && 0 <= x < |owner| && owner[x] == c
  {
    if |s| > 0 {
      OfMembers(owner, s[..|s| - 1], c);
      assert s == s[..|s| - 1] + [s[|s| - 1]];
    }
  }

  lemma {:induction false} OfAppend(owner: seq<nat>, s: seq<int>, r: seq<int>, c: nat)
    ensures Of(owner, s + r, c) == Of(owner, s, c) + Of(owner, r, c)
  {
    if |r| == 0 {
      assert s + r == s;
    } else {
      var n := |r| - 1;
      OfAppend(owner, s, r[..n], c);
      assert (s + r)[..|s| + n] == s + r[..n];
    }
  }

  lemma OfOne(owner: seq<nat>, x: int, c: nat)
    ensures Of(owner, [x], c) == if 0 <= x < |owner| && owner[x] == c then [x] else []
  {
    assert Of(owner, [x][..0], c) == [];
  }

  /** New lines do not matter to old sequences. */
  lemma {:induction false} OfGrow(owner: seq<nat>, more: seq<nat>, s: seq<int>, c: nat)
    requires Known(owner, s)
    ensures Of(owner + more, s, c) == Of(owner, s, c)
  {
    if |s| > 0 {
      assert s[|s| - 1] in s;
      var r := s[..|s| - 1];
      assert forall x | x in r :: x in s;
      assert Known(owner, r);
      OfGrow(owner, more, r, c);
    }
  }

  // ----- The moves of a line ------------------------------------------------------------------------

  /** A new line is appended to a core's buffer. */
  function Enqueue(p: Path, c: nat): Path
    requires c < |p.buffers| && |p.buffers| == |p.enqueued|
  {
    var x := |p.owner|;
    p.(owner := p.owner + [c], buffers := p.buffers[c := p.buffers[c] + [x]], enqueued := p.enqueued[c := p.enqueued[c] + [x]])
  }

  /** The oldest line leaves a core's buffer. */
  function Depart(p: Path, c: nat): Path
    requires c < |p.buffers| && |p.buffers| == |p.flight| && |p.buffers[c]| > 0
  {
    p.(buffers := p.buffers[c := p.buffers[c][1..]], flight := p.flight[c := p.buffers[c][0]])
  }

  /** The oldest line of the controller queue is written to memory. */
  function Persist(p: Path): Path
    requires |p.queue| > 0
  {
    p.(queue := p.queue[1..], dram := p.dram + [p.queue[0]])
  }

  /** A core's line on its way joins the controller queue. */
  function Arrive(p: Path, c: nat): Path
    requires c < |p.flight|
  {
    p.(queue := p.queue + [p.flight[c]], flight := p.flight[c := NULL])
  }

  lemma EnqueueKeeps(p: Path, c: nat)
    requires Conserved(p) && c < |p.buffers|
    ensures Conserved(Enqueue(p, c))
  {
    var q := Enqueue(p, c);
    hide Of, Lane;
    forall d | 0 <= d < |p.enqueued|
      ensures Lane(q.owner, q.dram, q.queue, q.flight[d], q.buffers[d], q.enqueued[d], d)
    {
      LaneEnqueue(p.owner, p.dram, p.queue, p.flight[d], p.buffers[d], p.enqueued[d], d, c);
    }
  }

  lemma LaneEnqueue(owner: seq<nat>, dram: seq<int>, queue: seq<int>, flight: int, buffer: seq<int>, enqueued: seq<int>, d: nat, c: nat)
    requires Lane(owner, dram, queue, flight, buffer, enqueued, d) && Known(owner, dram) && Known(owner, queue)
    ensures var x := |owner|;
      Lane(owner + [c], dram, queue, flight, if c == d then buffer + [x] else buffer, if c == d then enqueued + [x] else enqueued, d)
  {
    OfGrow(owner, [c], dram, d);
    OfGrow(owner, [c], queue, d);
    var a := Of(owner, dram, d) + Of(owner, queue, d) + Flying(flight);
    assert a + (buffer + [|owner|]) == (a + buffer) + [|owner|];
    hide Of;
    assert forall i | 0 <= i < |enqueued| :: enqueued[i] in enqueued;
  }

  lemma DepartKeeps(p: Path, c: nat)
    requires Conserved(p) && c < |p.buffers| && |p.buffers[c]| > 0 && p.flight[c] == NULL
    ensures Conserved(Depart(p, c)) && p.buffers[c][0] != NULL
  {
    InEnqueued(p, c);
    var x := p.buffers[c][0];
    assert x in p.buffers[c];
    var a := Of(p.owner, p.dram, c) + Of(p.owner, p.queue, c);
    hide Of;
    assert a + [] + p.buffers[c] == a + [x] + p.buffers[c][1..];
  }

  lemma PersistKeeps(p: Path)
    requires Conserved(p) && |p.queue| > 0
    ensures Conserved(Persist(p))
  {
    var q := Persist(p);
    var x := p.queue[0];
    assert x in p.queue;
    assert forall y | y in q.queue :: y in p.queue;
    assert forall y | y in q.dram :: y in p.dram || y == x;
    hide Of, Lane;
    forall c | 0 <= c < |p.enqueued|
      ensures Lane(q.owner, q.dram, q.queue, q.flight[c], q.buffers[c], q.enqueued[c], c)
    {
      LanePersist(p.owner, p.dram, p.queue, p.flight[c], p.buffers[c], p.enqueued[c], c);
    }
  }

  lemma LanePersist(owner: seq<nat>, dram: seq<int>, queue: seq<int>, flight: int, buffer: seq<int>, enqueued: seq<int>, c: nat)
    requires Lane(owner, dram, queue, flight, buffer, enqueued, c) && |queue| > 0
    ensures Lane(owner, dram + [queue[0]], queue[1..], flight, buffer, enqueued, c)
  {
    var x := queue[0];
    assert queue == [x] + queue[1..];
    OfAppend(owner, [x], queue[1..], c);
    OfAppend(owner, dram, [x], c);
    hide Of;
    assert (Of(owner, dram, c) + Of(owner, [x], c)) + Of(owner, queue[1..], c) == Of(owner, dram, c) + (Of(owner, [x], c) + Of(owner, queue[1..], c));
  }

  lemma ArriveKeeps(p: Path, c: nat)
    requires Conserved(p) && c < |p.flight| && p.flight[c] != NULL
    ensures Conserved(Arrive(p, c))
  {
    var q := Arrive(p, c);
    var x := p.flight[c];
    InEnqueued(p, c);
    hide Of, Lane;
    forall d | 0 <= d < |p.enqueued|
      ensures Lane(q.owner, q.dram, q.queue, q.flight[d], q.buffers[d], q.enqueued[d], d)
    {
      LaneArrive(p.owner, p.dram, p.queue, p.flight[d], p.buffers[d], p.enqueued[d], d, x);
    }
  }

  lemma LaneArrive(owner: seq<nat>, dram: seq<int>, queue: seq<int>, flight: int, buffer: seq<int>, enqueued: seq<int>, d: nat, x: int)
    requires Lane(owner, dram, queue, flight, buffer, enqueued, d) && 0 <= x < |owner|
    requires owner[x] == d ==> x == flight
    ensures Lane(owner, dram, queue + [x], if owner[x] == d then NULL else flight, buffer, enqueued, d)
  {
    OfAppend(owner, queue, [x], d);
    OfOne(owner, x, d);
    var a, b := Of(owner, dram, d), Of(owner, queue, d);
    hide Of;
    assert a + (b + [x]) + [] + buffer == a + b + [x] + buffer;
    assert a + (b + []) + Flying(flight) + buffer == a + b + Flying(flight) + buffer;
  }

  /** A line is in one place only. */
  lemma OnePlace(p: Path, c: nat, d: nat)
    requires Conserved(p) && c < |p.buffers| && d < |p.buffers|
    ensures forall x | x in p.buffers[c] :: x !in p.queue && x != p.flight[d] && (c != d ==> x !in p.buffers[d])
    ensures p.flight[c] != NULL ==> p.flight[c] !in p.queue && (c != d ==> p.flight[c] != p.flight[d])
    ensures NoDup(p.buffers[c]) && (forall x | x in p.buffers[c] :: 0 <= x < |p.owner|)
  {
    InEnqueued(p, c);
    InEnqueued(p, d);
    OfMembers(p.owner, p.queue, c);
    PartsApart(Of(p.owner, p.dram, c), Of(p.owner, p.queue, c), Flying(p.flight[c]), p.buffers[c]);
    hide Of, NoDup;
  }

  lemma InEnqueued(p: Path, c: nat)
    requires Conserved(p) && c < |p.buffers|
    ensures forall x | x in p.buffers[c] :: x in p.enqueued[c] && 0 <= x < |p.owner| && p.owner[x] == c
    ensures p.flight[c] != NULL ==> p.flight[c] in p.enqueued[c] && 0 <= p.flight[c] < |p.owner| && p.owner[p.flight[c]] == c
    ensures NoDup(p.enqueued[c])
  {
    assert Lane(p.owner, p.dram, p.queue, p.flight[c], p.buffers[c], p.enqueued[c], c);
    var a, f, b := Of(p.owner, p.dram, c) + Of(p.owner, p.queue, c), Flying(p.flight[c]), p.buffers[c];
    hide Of;
    assert forall i | 0 <= i < |f| :: (a + f + b)[|a| + i] == f[i];
    assert forall i | 0 <= i < |b| :: (a + f + b)[|a| + |f| + i] == b[i];
    if p.flight[c] != NULL {
      assert f[0] == p.flight[c];
    }
    assert forall x | x in b :: x in a + f + b;
    assert forall x | x in f :: x in a + f + b;
  }

  lemma PartsApart(a: seq<int>, b: seq<int>, f: seq<int>, t: seq<int>)
    requires NoDup(a + b + f + t)
    ensures NoDup(b) && NoDup(t)
    ensures forall x | x in t :: x !in b && x !in f
    ensures forall x | x in f :: x !in b
  {
    var s := a + b + f + t;
    assert forall i | 0 <= i < |b| :: s[|a| + i] == b[i];
    assert forall i | 0 <= i < |f| :: s[|a| + |b| + i] == f[i];
    assert forall i | 0 <= i < |t| :: s[|a| + |b| + |f| + i] == t[i];
  }

  /** The controller queue holds no line twice. */
  lemma QueueNoDup(p: Path)
    requires Conserved(p)
    ensures NoDup(p.queue)
  {
    forall i, j | 0 <= i < j < |p.queue|
      ensures p.queue[i] != p.queue[j]
    {
      assert p.queue[i] in p.queue;
      var c := p.owner[p.queue[i]];
      assert c in p.owner;
      assert Lane(p.owner, p.dram, p.queue, p.flight[c], p.buffers[c], p.enqueued[c], c);
      PartsApart(Of(p.owner, p.dram, c), Of(p.owner, p.queue, c), Flying(p.flight[c]), p.buffers[c]);
      if p.queue[i] == p.queue[j] {
        OfTwice(p.owner, p.queue, c, i, j);
      }
    }
  }

  lemma OfTwice(owner: seq<nat>, s: seq<int>, c: nat, i: int, j: int)
    requires 0 <= i < j < |s| && s[i] == s[j] && 0 <= s[i] < |owner| && owner[s[i]] == c
    ensures !NoDup(Of(owner, s, c))
  {
    var a, b := s[..j], s[j..];
    assert s == a + b && s[i] in a && s[i] in b by { assert a[i] == s[i] && b[0] == s[j]; }
    OfAppend(owner, a, b, c);
    OfMembers(owner, a, c);
    OfMembers(owner, b, c);
    var x, y := Of(owner, a, c), Of(owner, b, c);
    var k :| 0 <= k < |x| && x[k] == s[i];
    var l :| 0 <= l < |y| && y[l] == s[i];
    assert (x + y)[k] == (x + y)[|x| + l];
  }

  // ----- Order of writes ------------------------------------------------------------------------------

  /** A barrier line separates what a core wrote before it from what it wrote after it. */
  ghost predicate Separated(log: seq<Write>) {
    && (forall k, i :: 0 <= i < k < |log| && log[k].barrier ==> log[i].line < log[k].line)
    && (forall k, j :: 0 <= k < j < |log| && log[k].barrier ==> log[k].line < log[j].line)
  }

  /** The lines of a core that have reached the controller queue. */
  function Arrived(p: Path, c: nat): seq<int> {
    Of(p.owner, p.dram, c) + Of(p.owner, p.queue, c)
  }

  /** What leaves the front of a buffer has arrived in the controller queue behind everything of its core
      that arrived before. */
  lemma DrainArrives(p: Path, q: Path, c: nat, n: nat)
    requires Conserved(p) && Conserved(q) && c < |p.enqueued| == |q.enqueued| && q.enqueued[c] == p.enqueued[c]
    requires p.flight[c] == NULL && q.flight[c] == NULL && n <= |p.buffers[c]| && q.buffers[c] == p.buffers[c][n..]
    ensures Arrived(q, c) == Arrived(p, c) + p.buffers[c][..n]
  {
    assert Lane(p.owner, p.dram, p.queue, p.flight[c], p.buffers[c], p.enqueued[c], c);
    assert Lane(q.owner, q.dram, q.queue, q.flight[c], q.buffers[c], q.enqueued[c], c);
    var a, b, r := Arrived(p, c), p.buffers[c][..n], q.buffers[c];
    hide Of;
    assert p.buffers[c] == b + r;
    assert Arrived(q, c) + r == p.enqueued[c];
    assert (a + b) + r == p.enqueued[c];
    assert Arrived(q, c) == p.enqueued[c][..|p.enqueued[c]| - |r|] == a + b;
  }

  /** Two writes of a core with a barrier line between them reach the controller queue, and memory, in that
      order: if the later one's line is there then so is the earlier one's, before it. */
  lemma BarrierOrder(p: Path, c: nat, log: seq<Write>, i: nat, k: nat, j: nat)
    requires Conserved(p) && c < |p.enqueued| && Separated(log)
    requires i < k <= j < |log| && log[k].barrier && (forall w | w in log :: w.line < |p.enqueued[c]|)
    ensures log[i].line < log[j].line
    ensures var later, earlier := p.enqueued[c][log[j].line], p.enqueued[c][log[i].line];
      && (later in Of(p.owner, p.dram, c) ==> earlier in Of(p.owner, p.dram, c))
      && (later in Arrived(p, c) ==> earlier in Arrived(p, c))
      && (log[j].line < |Arrived(p, c)| ==> Arrived(p, c)[log[i].line] == earlier && Arrived(p, c)[log[j].line] == later)
  {
    assert log[i].line < log[j].line;
    assert log[i] in log && log[j] in log;
    assert Lane(p.owner, p.dram, p.queue, p.flight[c], p.buffers[c], p.enqueued[c], c);
    var e, d, a := p.enqueued[c], Of(p.owner, p.dram, c), Arrived(p, c);
    assert e == d + (Of(p.owner, p.queue, c) + Flying(p.flight[c]) + p.buffers[c]);
    assert e == a + (Flying(p.flight[c]) + p.buffers[c]);
    PrefixOrder(d, e, log[i].line, log[j].line);
    PrefixOrder(a, e, log[i].line, log[j].line);
  }

  lemma PrefixOrder(d: seq<int>, e: seq<int>, i: nat, j: nat)
    requires d <= e && NoDup(e) && i < j < |e|
    ensures e[j] in d ==> e[i] in d
  {
    if e[j] in d {
      var k :| 0 <= k < |d| && d[k] == e[j];
      assert e[k] == e[j];
      assert d[i] == e[i];
    }
  }

  /** A write that opens a new line at the end of its core's lines. */
  lemma AppendSeparated(log: seq<Write>, n: nat, barrier: bool)
    requires Separated(log) && forall w | w in log :: w.line < n
    ensures Separated(log + [Write(n, barrier)])
  {
    assert forall i | 0 <= i < |log| :: log[i] in log;
  }

  /** A write merged into a line behind every barrier. */
  lemma MergeSeparated(log: seq<Write>, n: nat)
    requires Separated(log) && forall k :: 0 <= k < |log| && log[k].barrier ==> log[k].line < n
    ensures Separated(log + [Write(n, false)])
  {
  }
}
