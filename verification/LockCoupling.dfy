/** The hand-over-hand locked list of `pbench/syncbench/src/lock-coupling-list/coupling.cc` as a
    transition system: any number of threads, one memory access at a time, any interleaving. */
module LockCoupling {
  import opened Sequences

  const NULL := -1
  const VAL_MIN := -0x8000_0000
  const VAL_MAX := 0x7FFF_FFFF

  datatype Op = Find | Insert | Delete

  /** `node_l_t`; the lock holds the thread that has it, or NULL. */
  datatype Cell = Cell(val: int, next: int, owner: int)

  /** Where a thread is in `lockc_find`, `lockc_insert` or `lockc_delete`, with its local pointers. */
  datatype PC =
    | Idle
    | AtHead                                  // LOCK(&set->head->lock)
    | Aim(curr: int)                          // about to read curr->next for the next LOCK
    | Grab(curr: int, target: int)            // LOCK(&target->lock)
    | Load(curr: int, target: int)            // next = curr->next
    | Test(curr: int, next: int)              // while (next->val < val)
    | Advance(curr: int, next: int)           // UNLOCK(&curr->lock); curr = next
    | Check(curr: int, next: int)             // found = (val == next->val)
    | Unlink(curr: int, next: int)            // curr->next = next->next
    | UnlockGone(curr: int, gone: int)        // UNLOCK(&next->lock) of the unlinked node
    | Free(curr: int, gone: int)              // node_delete_l(next)
    | Alloc(curr: int, next: int)             // newnode = new_node_l(val, next, 0)
    | Publish(curr: int, next: int, made: int)  // curr->next = newnode
    | UnlockCurr(curr: int, next: int, result: bool)
    | UnlockLast(last: int, result: bool)
    | Return(result: bool)

  datatype Thread = Thread(op: Op, val: int, pc: PC)

  /** What an observer sees, and the steps at which operations take effect. */
  datatype Event =
    | Called(t: int, op: Op, val: int)
    | Effect(t: int, op: Op, val: int, result: bool)
    | Returned(t: int, op: Op, val: int, result: bool)

  datatype State = State(heap: map<int, Cell>, head: int, threads: seq<Thread>, trace: seq<Event>)

  /** One step of thread t; op and val are used when a call begins, addr when a node is allocated. */
  datatype Action = Action(t: int, op: Op, val: int, addr: int)

  // ----- Steps -----------------------------------------------------------------------------------

  /** The addresses the next step of a thread reads or writes. */
  function Touches(s: State, t: int): set<int>
    requires 0 <= t < |s.threads|
  {
    match s.threads[t].pc
    case Idle => {}
    case AtHead => {s.head}
    case Aim(c) => {c}
    case Grab(_, g) => {g}
    case Load(c, _) => {c}
    case Test(_, n) => {n}
    case Advance(c, _) => {c}
    case Check(_, n) => {n}
    case Unlink(c, n) => {c, n}
    case UnlockGone(_, g) => {g}
    case Free(_, g) => {g}
    case Alloc(_, _) => {}
    case Publish(c, _, _) => {c}
    case UnlockCurr(c, _, _) => {c}
    case UnlockLast(a, _) => {a}
    case Return(_) => {}
  }

  /** The lock a thread spins on, or NULL. */
  function WaitsFor(s: State, t: int): int
    requires 0 <= t < |s.threads|
  {
    match s.threads[t].pc
    case AtHead => s.head
    case Grab(_, g) => g
    case _ => NULL
  }

  /** A step is possible: its memory is there, a lock it takes is free, and a new node is new memory. */
  predicate CanStep(s: State, a: Action) {
    && 0 <= a.t < |s.threads|
    && (forall x | x in Touches(s, a.t) :: x in s.heap)
    && (WaitsFor(s, a.t) != NULL ==> WaitsFor(s, a.t) in s.heap && s.heap[WaitsFor(s, a.t)].owner == NULL)
    && (s.threads[a.t].pc.Alloc? ==> a.addr != NULL && a.addr !in s.heap)
  }

  /** The same for calls with a value below the upper sentinel; `LoneCall` shows that no others are right. */
  predicate Enabled(s: State, a: Action) {
    CanStep(s, a) && (s.threads[a.t].pc.Idle? ==> a.val < VAL_MAX)
  }

  function Go(s: State, t: int, pc: PC): State
    requires 0 <= t < |s.threads|
  {
    s.(threads := s.threads[t := s.threads[t].(pc := pc)])
  }

  function SetOwner(s: State, x: int, owner: int): State
    requires x in s.heap
  {
    s.(heap := s.heap[x := s.heap[x].(owner := owner)])
  }

  function SetNext(s: State, x: int, next: int): State
    requires x in s.heap
  {
    s.(heap := s.heap[x := s.heap[x].(next := next)])
  }

  function Log(s: State, e: Event): State {
    s.(trace := s.trace + [e])
  }

  function Do(s: State, a: Action): State
    requires CanStep(s, a)
  {
    var t, th := a.t, s.threads[a.t];
    match th.pc
    case Idle => Log(s.(threads := s.threads[t := Thread(a.op, a.val, AtHead)]), Called(t, a.op, a.val))
    case AtHead => Go(SetOwner(s, s.head, t), t, Aim(s.head))
    case Aim(c) => Go(s, t, Grab(c, s.heap[c].next))
    case Grab(c, g) => Go(SetOwner(s, g, t), t, Load(c, g))
    case Load(c, _) => Go(s, t, Test(c, s.heap[c].next))
    case Test(c, n) => Go(s, t, if s.heap[n].val < th.val then Advance(c, n) else Check(c, n))
    case Advance(c, n) => Go(SetOwner(s, c, NULL), t, Aim(n))
    case Check(c, n) => Decide(s, t, c, n, s.heap[n].val == th.val)
    case Unlink(c, n) => Log(Go(SetNext(s, c, s.heap[n].next), t, UnlockGone(c, n)), Effect(t, th.op, th.val, true))
    case UnlockGone(c, g) => Go(SetOwner(s, g, NULL), t, Free(c, g))
    case Free(c, g) => Go(s.(heap := s.heap - {g}), t, UnlockLast(c, true))
    case Alloc(c, n) => Go(s.(heap := s.heap[a.addr := Cell(th.val, n, NULL)]), t, Publish(c, n, a.addr))
    case Publish(c, n, w) => Log(Go(SetNext(s, c, w), t, UnlockCurr(c, n, true)), Effect(t, th.op, th.val, true))
    case UnlockCurr(c, n, r) => Go(SetOwner(s, c, NULL), t, UnlockLast(n, r))
    case UnlockLast(x, r) => Go(SetOwner(s, x, NULL), t, Return(r))
    case Return(r) => Log(Go(s, t, Idle), Returned(t, th.op, th.val, r))
  }

  /** After the comparison: change the list, or release the locks with the answer. */
  function Decide(s: State, t: int, c: int, n: int, found: bool): State
    requires 0 <= t < |s.threads|
  {
    var th := s.threads[t];
    if th.op.Delete? && found then Go(s, t, Unlink(c, n))
    else if th.op.Insert? && !found then Go(s, t, Alloc(c, n))
    else
      var r := if th.op.Find? then found else false;
      Log(Go(s, t, UnlockCurr(c, n, r)), Effect(t, th.op, th.val, r))
  }

  ghost predicate Init(s: State) {
    && (forall t :: 0 <= t < |s.threads| ==> s.threads[t].pc.Idle?)
    && s.trace == []
    && exists max :: max in s.heap && s.head != max && s.head != NULL && max != NULL
         && s.heap == map[s.head := Cell(VAL_MIN, max, NULL), max := Cell(VAL_MAX, NULL, NULL)]
  }

  // ----- The sequential set ------------------------------------------------------------------------

  function Answer(elements: set<int>, op: Op, v: int): bool {
    if op.Insert? then v !in elements else v in elements
  }

  function Effects(elements: set<int>, op: Op, v: int): set<int> {
    match op
    case Find => elements
    case Insert => elements + {v}
    case Delete => elements - {v}
  }

  /** The set after the effects of a trace in their order. */
  function Elements(trace: seq<Event>): set<int> {
    if |trace| == 0 then {}
    else
      var before, e := Elements(trace[..|trace| - 1]), trace[|trace| - 1];
      if e.Effect? then Effects(before, e.op, e.val) else before
  }

  /** Every effect has the result the sequential set gives. */
  ghost predicate Legal(trace: seq<Event>) {
    forall i :: 0 <= i < |trace| && trace[i].Effect? ==> trace[i].result == Answer(Elements(trace[..i]), trace[i].op, trace[i].val)
  }

  /** How far the last call of a thread has come according to a trace. */
  datatype Phase = Outside | Pending(op: Op, val: int) | Done(op: Op, val: int, result: bool) | Broken

  function Advance1(p: Phase, e: Event): Phase {
    match e
    case Called(_, op, v) => if p.Outside? then Pending(op, v) else Broken
    case Effect(_, op, v, r) => if p == Pending(op, v) then Done(op, v, r) else Broken
    case Returned(_, op, v, r) => if p == Done(op, v, r) then Outside else Broken
  }

  function PhaseOf(trace: seq<Event>, t: int): Phase {
    if |trace| == 0 then Outside
    else
      var before, e := PhaseOf(trace[..|trace| - 1], t), trace[|trace| - 1];
      if e.t == t then Advance1(before, e) else before
  }

  // ----- The invariant -------------------------------------------------------------------------------

  /** The list from one sentinel to the other, strictly sorted behind the first, whose value nobody reads. */
  ghost predicate Chain(h: map<int, Cell>, head: int, ch: seq<int>) {
    && |ch| >= 2 && ch[0] == head && NULL !in h
    && (forall i :: 0 <= i < |ch| ==> ch[i] in h)
    && (forall i :: 0 <= i < |ch| - 1 ==> h[ch[i]].next == ch[i + 1])
    && (forall i :: 1 <= i < |ch| ==> ch[i] != head)
    && (forall i, j :: 1 <= i < j < |ch| ==> h[ch[i]].val < h[ch[j]].val)
    && h[ch[|ch| - 1]].val == VAL_MAX && h[ch[|ch| - 1]].next == NULL
  }

  /** The values in the list, without the sentinels. */
  ghost function Values(h: map<int, Cell>, ch: seq<int>): set<int>
    requires |ch| > 0 && forall x | x in ch :: x in h
  {
    set x | x in ch && x != ch[0] && h[x].val < VAL_MAX :: h[x].val
  }

  /** The locks a thread holds. */
  function Held(pc: PC): set<int> {
    match pc
    case Aim(c) => {c}
    case Grab(c, _) => {c}
    case Load(c, g) => {c, g}
    case Test(c, n) => {c, n}
    case Advance(c, n) => {c, n}
    case Check(c, n) => {c, n}
    case Unlink(c, n) => {c, n}
    case UnlockGone(c, g) => {c, g}
    case Free(c, _) => {c}
    case Alloc(c, n) => {c, n}
    case Publish(c, n, _) => {c, n}
    case UnlockCurr(c, n, _) => {c, n}
    case UnlockLast(x, _) => {x}
    case _ => {}
  }

  /** The node outside the list that only this thread knows, or NULL. */
  function Private(pc: PC): int {
    match pc
    case UnlockGone(_, g) => g
    case Free(_, g) => g
    case Publish(_, _, w) => w
    case _ => NULL
  }

  /** Two neighbours in the list around v. */
  ghost predicate Around(h: map<int, Cell>, ch: seq<int>, c: int, n: int, v: int) {
    c in ch && n in ch && c in h && n in h && h[c].next == n && (c == ch[0] || h[c].val < v)
  }

  ghost predicate Place(h: map<int, Cell>, ch: seq<int>, th: Thread) {
    var v := th.val;
    match th.pc
    case Aim(c) => c in ch && c in h && (c == ch[0] || h[c].val < v)
    case Grab(c, g) => Around(h, ch, c, g, v)
    case Load(c, g) => Around(h, ch, c, g, v)
    case Test(c, n) => Around(h, ch, c, n, v)
    case Advance(c, n) => Around(h, ch, c, n, v) && h[n].val < v
    case Check(c, n) => Around(h, ch, c, n, v) && v <= h[n].val
    case Unlink(c, n) => th.op.Delete? && Around(h, ch, c, n, v) && h[n].val == v
    case UnlockGone(c, g) => c in ch
    case Free(c, g) => c in ch && g in h && h[g].owner == NULL
    case Alloc(c, n) => th.op.Insert? && Around(h, ch, c, n, v) && v < h[n].val
    case Publish(c, n, w) => th.op.Insert? && Around(h, ch, c, n, v) && v < h[n].val && w in h && h[w] == Cell(v, n, NULL)
    case UnlockCurr(c, n, _) => c in ch && n in ch && c != n
    case UnlockLast(x, _) => x in ch
    case _ => true
  }

  ghost predicate ThreadOk(h: map<int, Cell>, ch: seq<int>, t: int, th: Thread) {
    && (forall x | x in Held(th.pc) :: x in h && h[x].owner == t)
    && (Private(th.pc) != NULL ==> Private(th.pc) in h && Private(th.pc) !in ch)
    && Place(h, ch, th)
    && (!th.pc.Idle? ==> th.val < VAL_MAX)
  }

  /** Every lock that is taken is held by the thread it names. */
  ghost predicate Owners(h: map<int, Cell>, ts: seq<Thread>) {
    forall x | x in h && h[x].owner != NULL :: 0 <= h[x].owner < |ts| && x in Held(ts[h[x].owner].pc)
  }

  ghost predicate PrivatesApart(ts: seq<Thread>) {
    forall t, u :: 0 <= t < u < |ts| && Private(ts[t].pc) != NULL ==> Private(ts[t].pc) != Private(ts[u].pc)
  }

  /** No memory is lost: a node is in the list or some thread is about to link or free it. */
  ghost predicate NoLeak(h: map<int, Cell>, ch: seq<int>, ts: seq<Thread>) {
    forall x | x in h && x !in ch :: exists t :: 0 <= t < |ts| && Private(ts[t].pc) == x
  }

  function ExpectedPhase(th: Thread): Phase {
    match th.pc
    case Idle => Outside
    case UnlockGone(_, _) => Done(th.op, th.val, true)
    case Free(_, _) => Done(th.op, th.val, true)
    case UnlockCurr(_, _, r) => Done(th.op, th.val, r)
    case UnlockLast(_, r) => Done(th.op, th.val, r)
    case Return(r) => Done(th.op, th.val, r)
    case _ => Pending(th.op, th.val)
  }

  ghost predicate Phases(s: State) {
    forall t :: 0 <= t < |s.threads| ==> PhaseOf(s.trace, t) == ExpectedPhase(s.threads[t])
  }

  ghost predicate Structure(s: State, ch: seq<int>) {
    && Chain(s.heap, s.head, ch)
    && (forall t :: 0 <= t < |s.threads| ==> ThreadOk(s.heap, ch, t, s.threads[t]))
    && Owners(s.heap, s.threads) && PrivatesApart(s.threads) && NoLeak(s.heap, ch, s.threads)
  }

  ghost predicate Inv(s: State, ch: seq<int>) {
    Structure(s, ch) && Phases(s) && Legal(s.trace) && Elements(s.trace) == Values(s.heap, ch)
  }

  // ----- Facts about the list -----------------------------------------------------------------------

  lemma Index(h: map<int, Cell>, head: int, ch: seq<int>, c: int, n: int) returns (i: nat)
    requires Chain(h, head, ch) && c in ch && c in h && n in ch && h[c].next == n
    ensures i < |ch| - 1 && ch[i] == c && ch[i + 1] == n
  {
    i :| 0 <= i < |ch| && ch[i] == c;
  }

  lemma DistinctInChain(h: map<int, Cell>, head: int, ch: seq<int>, i: int, j: int)
    requires Chain(h, head, ch) && 0 <= i < |ch| && 0 <= j < |ch|
    ensures ch[i] == ch[j] ==> i == j
  {
  }

  lemma Apart(h: map<int, Cell>, head: int, ch: seq<int>, c: int, n: int)
    requires Chain(h, head, ch) && c in ch && c in h && n in ch && h[c].next == n
    ensures c != n
  {
    var i := Index(h, head, ch, c, n);
    DistinctInChain(h, head, ch, i, i + 1);
  }

  /** The list only looks at values and successors. */
  lemma ChainFrame(h: map<int, Cell>, k: map<int, Cell>, head: int, ch: seq<int>)
    requires Chain(h, head, ch) && NULL !in k
    requires forall x | x in ch && x in h :: x in k && k[x].val == h[x].val && k[x].next == h[x].next
    ensures Chain(k, head, ch)
  {
    forall i | 0 <= i < |ch|
      ensures ch[i] in h && ch[i] in k && k[ch[i]].val == h[ch[i]].val && k[ch[i]].next == h[ch[i]].next
    {
      var x := ch[i];
      assert x in ch;
      assert x in h;
      assert x in k;
    }
  }

  lemma ValuesFrame(h: map<int, Cell>, k: map<int, Cell>, ch: seq<int>)
    requires |ch| > 0 && forall x | x in ch :: x in h && x in k && k[x].val == h[x].val
    ensures Values(h, ch) == Values(k, ch)
  {
  }

  /** A value is in the set exactly if the neighbour that a traversal stopped at carries it. */
  lemma Found(h: map<int, Cell>, head: int, ch: seq<int>, c: int, n: int, v: int)
    requires Chain(h, head, ch) && Around(h, ch, c, n, v) && v <= h[n].val && v < VAL_MAX
    ensures |ch| > 0 && (forall x | x in ch :: x in h) && (v in Values(h, ch) <==> h[n].val == v)
  {
    var i := Index(h, head, ch, c, n);
    assert forall j | i + 1 < j < |ch| :: h[ch[i + 1]].val < h[ch[j]].val;
    assert forall j | 1 <= j < i :: h[ch[j]].val < h[ch[i]].val;
  }

  // ----- Threads other than the one that moves --------------------------------------------------------

  /** The cells a thread relies on are as before. */
  ghost predicate Untouched(h: map<int, Cell>, ch: seq<int>, k: map<int, Cell>, dh: seq<int>, pc: PC) {
    && |ch| > 0 && |dh| > 0 && ch[0] == dh[0]
    && (forall x | x in Held(pc) :: x in h ==> x in k && k[x] == h[x] && (x in ch ==> x in dh))
    && (Private(pc) != NULL ==> Private(pc) in h ==> Private(pc) in k && k[Private(pc)] == h[Private(pc)] && Private(pc) !in dh)
    && (pc.Grab? ==> pc.target in h ==> pc.target in k && k[pc.target].val == h[pc.target].val && pc.target in dh)
  }

  lemma ThreadKept(h: map<int, Cell>, ch: seq<int>, k: map<int, Cell>, dh: seq<int>, u: int, th: Thread)
    requires ThreadOk(h, ch, u, th) && Untouched(h, ch, k, dh, th.pc) && NULL !in h
    ensures ThreadOk(k, dh, u, th)
  {
  }

  ghost predicate OthersUntouched(s: State, ch: seq<int>, k: map<int, Cell>, dh: seq<int>, t: int) {
    forall u :: 0 <= u < |s.threads| && u != t ==> Untouched(s.heap, ch, k, dh, s.threads[u].pc)
  }

  lemma OthersKept(s: State, ch: seq<int>, k: map<int, Cell>, dh: seq<int>, t: int)
    requires forall u :: 0 <= u < |s.threads| ==> ThreadOk(s.heap, ch, u, s.threads[u])
    requires OthersUntouched(s, ch, k, dh, t) && NULL !in s.heap
    ensures forall u :: 0 <= u < |s.threads| && u != t ==> ThreadOk(k, dh, u, s.threads[u])
  {
    forall u | 0 <= u < |s.threads| && u != t
      ensures ThreadOk(k, dh, u, s.threads[u])
    {
      ThreadKept(s.heap, ch, k, dh, u, s.threads[u]);
    }
  }

  // ----- Steps that change at most one lock ---------------------------------------------------------------

  /** Thread t moves on without touching memory. */
  lemma LocalStep(s: State, ch: seq<int>, t: int, th: Thread)
    requires Structure(s, ch) && 0 <= t < |s.threads|
    requires Held(th.pc) == Held(s.threads[t].pc) && Private(th.pc) == Private(s.threads[t].pc)
    requires Place(s.heap, ch, th) && (!th.pc.Idle? ==> th.val < VAL_MAX)
    ensures Structure(s.(threads := s.threads[t := th]), ch)
  {
    hide Chain, Held, Private, Place, NoLeak, PrivatesApart;
    var ts := s.threads[t := th];
    assert ThreadOk(s.heap, ch, t, s.threads[t]);
    assert forall u | 0 <= u < |ts| :: Private(ts[u].pc) == Private(s.threads[u].pc) && Held(ts[u].pc) == Held(s.threads[u].pc);
    assert ThreadOk(s.heap, ch, t, th);
    LeakFrame(s.heap, ch, s.threads, ts);
    ApartFrame(s.threads, ts);
  }

  lemma ApartFrame(ts: seq<Thread>, us: seq<Thread>)
    requires PrivatesApart(ts) && |us| == |ts|
    requires forall u | 0 <= u < |ts| :: Private(us[u].pc) == Private(ts[u].pc)
    ensures PrivatesApart(us)
  {
    hide Private;
  }

  lemma LeakFrame(h: map<int, Cell>, ch: seq<int>, ts: seq<Thread>, us: seq<Thread>)
    requires NoLeak(h, ch, ts) && |us| == |ts|
    requires forall u | 0 <= u < |ts| :: Private(us[u].pc) == Private(ts[u].pc)
    ensures NoLeak(h, ch, us)
  {
    forall x | x in h && x !in ch
      ensures exists t :: 0 <= t < |us| && Private(us[t].pc) == x
    {
      var t :| 0 <= t < |ts| && Private(ts[t].pc) == x;
      assert Private(us[t].pc) == x;
    }
  }

  /** Thread t takes or releases the lock of x. */
  lemma OwnerStep(s: State, ch: seq<int>, t: int, x: int, o: int, pc: PC)
    requires Structure(s, ch) && 0 <= t < |s.threads| && x in s.heap
    requires (s.heap[x].owner == NULL && o == t) || (s.heap[x].owner == t && o == NULL)
    requires x in ch || x == Private(s.threads[t].pc)
    requires Held(pc) == if o == t then Held(s.threads[t].pc) + {x} else Held(s.threads[t].pc) - {x}
    requires Private(pc) == Private(s.threads[t].pc) && !s.threads[t].pc.Idle?
    requires Place(s.heap[x := s.heap[x].(owner := o)], ch, s.threads[t].(pc := pc))
    ensures Structure(Go(SetOwner(s, x, o), t, pc), ch)
    ensures |ch| > 0 && (forall y | y in ch :: y in s.heap) && Values(Go(SetOwner(s, x, o), t, pc).heap, ch) == Values(s.heap, ch)
  {
    hide Chain, Held, Private, Place, Owners, ThreadOk, OthersUntouched, Values, NoLeak, PrivatesApart;
    var k := s.heap[x := s.heap[x].(owner := o)];
    var th := s.threads[t].(pc := pc);
    var ts := s.threads[t := th];
    ChainIn(s.heap, s.head, ch);
    OwnerUntouched(s, ch, t, x, o);
    OwnerSelf(s, ch, t, x, o, pc);
    assert forall u | 0 <= u < |ts| :: Private(ts[u].pc) == Private(s.threads[u].pc);
    ApartFrame(s.threads, ts);
    ChainFrame(s.heap, k, s.head, ch);
    ValuesFrame(s.heap, k, ch);
    OthersKept(s, ch, k, ch, t);
    OwnerOwners(s, t, x, o, pc);
    LeakFrame(s.heap, ch, s.threads, ts);
    LeakHeap(s.heap, k, ch, ts);
  }

  lemma ChainIn(h: map<int, Cell>, head: int, ch: seq<int>)
    requires Chain(h, head, ch)
    ensures NULL !in h && |ch| > 0 && ch[0] == head && forall x | x in ch :: x in h
  {
  }

  lemma OwnerSelf(s: State, ch: seq<int>, t: int, x: int, o: int, pc: PC)
    requires 0 <= t < |s.threads| && x in s.heap && ThreadOk(s.heap, ch, t, s.threads[t])
    requires (s.heap[x].owner == NULL && o == t) || (s.heap[x].owner == t && o == NULL)
    requires Held(pc) == if o == t then Held(s.threads[t].pc) + {x} else Held(s.threads[t].pc) - {x}
    requires Private(pc) == Private(s.threads[t].pc) && !s.threads[t].pc.Idle?
    requires Place(s.heap[x := s.heap[x].(owner := o)], ch, s.threads[t].(pc := pc))
    ensures ThreadOk(s.heap[x := s.heap[x].(owner := o)], ch, t, s.threads[t].(pc := pc))
  {
    hide Place, Held, Private;
  }

  lemma LeakHeap(h: map<int, Cell>, k: map<int, Cell>, ch: seq<int>, ts: seq<Thread>)
    requires NoLeak(h, ch, ts) && k.Keys == h.Keys
    ensures NoLeak(k, ch, ts)
  {
  }

  lemma OwnerUntouched(s: State, ch: seq<int>, t: int, x: int, o: int)
    requires Structure(s, ch) && 0 <= t < |s.threads| && x in s.heap
    requires s.heap[x].owner == NULL || s.heap[x].owner == t
    requires x in ch || x == Private(s.threads[t].pc)
    ensures OthersUntouched(s, ch, s.heap[x := s.heap[x].(owner := o)], ch, t)
  {
    forall u | 0 <= u < |s.threads| && u != t
      ensures Untouched(s.heap, ch, s.heap[x := s.heap[x].(owner := o)], ch, s.threads[u].pc)
    {
      assert ThreadOk(s.heap, ch, u, s.threads[u]);
      if Private(s.threads[t].pc) != NULL { PrivateOnly(s.threads, t, u); }
    }
  }

  lemma PrivateOnly(ts: seq<Thread>, t: int, u: int)
    requires PrivatesApart(ts) && 0 <= t < |ts| && 0 <= u < |ts| && t != u && Private(ts[t].pc) != NULL
    ensures Private(ts[t].pc) != Private(ts[u].pc)
  {
  }

  lemma OwnerOwners(s: State, t: int, x: int, o: int, pc: PC)
    requires Owners(s.heap, s.threads) && 0 <= t < |s.threads| && x in s.heap
    requires o == t || o == NULL
    requires Held(pc) == if o == t then Held(s.threads[t].pc) + {x} else Held(s.threads[t].pc) - {x}
    ensures Owners(s.heap[x := s.heap[x].(owner := o)], s.threads[t := s.threads[t].(pc := pc)])
  {
    hide Held;
  }

  // ----- Steps that change the list ---------------------------------------------------------------------

  lemma WithoutMembers(ch: seq<int>, i: nat)
    requires i < |ch| && forall j :: 0 <= j < |ch| && j != i ==> ch[j] != ch[i]
    ensures forall x :: x in Without(ch, i) <==> x in ch && x != ch[i]
    ensures forall j :: 0 <= j < |ch| - 1 ==> Without(ch, i)[j] == ch[if j < i then j else j + 1]
  {
    var d := Without(ch, i);
    forall x
      ensures x in d <==> x in ch && x != ch[i]
    {
      if x in ch && x != ch[i] {
        var j :| 0 <= j < |ch| && ch[j] == x;
        assert d[if j < i then j else j - 1] == x;
      }
    }
  }

  lemma WithMembers(ch: seq<int>, i: nat, w: int)
    requires i <= |ch|
    ensures forall x :: x in With(ch, i, w) <==> x in ch || x == w
    ensures With(ch, i, w)[i] == w && |With(ch, i, w)| == |ch| + 1
    ensures forall j {:trigger With(ch, i, w)[j]} :: 0 <= j < i ==> With(ch, i, w)[j] == ch[j]
    ensures forall j {:trigger With(ch, i, w)[j]} :: i < j <= |ch| ==> With(ch, i, w)[j] == ch[j - 1]
  {
    var d := With(ch, i, w);
    forall x
      ensures x in d <==> x in ch || x == w
    {
      assert d[i] == w;
      if x in ch {
        var j :| 0 <= j < |ch| && ch[j] == x;
        assert d[if j < i then j else j + 1] == x;
      }
    }
  }

  /** Taking the node after position i out of the list. */
  lemma ChainWithout(h: map<int, Cell>, head: int, ch: seq<int>, i: nat)
    requires Chain(h, head, ch) && i + 2 < |ch|
    ensures ch[i + 1] in h && ch[i] in h
    ensures Chain(h[ch[i] := h[ch[i]].(next := h[ch[i + 1]].next)], head, Without(ch, i + 1))
    ensures ch[i + 1] !in Without(ch, i + 1) && forall x | x in ch :: x in Without(ch, i + 1) || x == ch[i + 1]
    ensures forall x | x in Without(ch, i + 1) :: x in ch
  {
    SortedChain(h, head, ch);
    WithoutMembers(ch, i + 1);
    hide Chain, Without;
    ChainShorter(h, head, ch, i, Without(ch, i + 1));
  }

  lemma ChainShorter(h: map<int, Cell>, head: int, ch: seq<int>, i: nat, d: seq<int>)
    requires Chain(h, head, ch) && i + 2 < |ch| && |d| == |ch| - 1
    requires forall j :: 0 <= j < |d| ==> d[j] == ch[if j < i + 1 then j else j + 1]
    ensures ch[i + 1] in h && ch[i] in h
    ensures Chain(h[ch[i] := h[ch[i]].(next := h[ch[i + 1]].next)], head, d)
  {
    ChainEnds(h, head, ch);
    SortedChain(h, head, ch);
    hide Chain;
    var k := h[ch[i] := h[ch[i]].(next := h[ch[i + 1]].next)];
    forall j | 0 <= j < |d| - 1
      ensures d[j] in h && k[d[j]].next == d[j + 1]
    {
      NextInChain(h, head, ch, if j <= i then j else j + 1, i);
      NextInChain(h, head, ch, i + 1, i);
    }
    ChainFrom(k, head, d);
  }

  lemma SortedChain(h: map<int, Cell>, head: int, ch: seq<int>)
    requires Chain(h, head, ch)
    ensures forall j :: 0 <= j < |ch| ==> ch[j] in h
    ensures forall j, l :: 1 <= j < l < |ch| ==> h[ch[j]].val < h[ch[l]].val
    ensures forall j, l :: 0 <= j < l < |ch| ==> ch[j] != ch[l]
  {
  }

  lemma ChainFrom(k: map<int, Cell>, head: int, d: seq<int>)
    requires |d| >= 2 && d[0] == head && NULL !in k
    requires forall i :: 0 <= i < |d| ==> d[i] in k
    requires forall i :: 0 <= i < |d| - 1 ==> k[d[i]].next == d[i + 1]
    requires forall i :: 1 <= i < |d| ==> d[i] != head
    requires forall i, j :: 1 <= i < j < |d| ==> k[d[i]].val < k[d[j]].val
    requires k[d[|d| - 1]].val == VAL_MAX && k[d[|d| - 1]].next == NULL
    ensures Chain(k, head, d)
  {
  }

  /** Hanging node w in after position i. */
  lemma ChainWith(h: map<int, Cell>, head: int, ch: seq<int>, i: nat, w: int)
    requires Chain(h, head, ch) && i + 1 < |ch| && w in h && w !in ch
    requires (i == 0 || h[ch[i]].val < h[w].val) && h[w].val < h[ch[i + 1]].val && h[w].next == ch[i + 1]
    ensures ch[i] in h && Chain(h[ch[i] := h[ch[i]].(next := w)], head, With(ch, i + 1, w))
    ensures forall x :: x in With(ch, i + 1, w) <==> x in ch || x == w
  {
    SortedChain(h, head, ch);
    WithMembers(ch, i + 1, w);
    hide Chain, With;
    ChainLonger(h, head, ch, i, w, With(ch, i + 1, w));
  }

  ghost predicate Longer(ch: seq<int>, i: nat, w: int, d: seq<int>) {
    && i + 1 < |ch| && |d| == |ch| + 1 && d[i + 1] == w
    && (forall j {:trigger d[j]} :: 0 <= j <= i ==> d[j] == ch[j])
    && (forall j {:trigger d[j]} :: i + 1 < j < |d| ==> d[j] == ch[j - 1])
  }

  lemma ChainLonger(h: map<int, Cell>, head: int, ch: seq<int>, i: nat, w: int, d: seq<int>)
    requires Chain(h, head, ch) && i + 1 < |ch| && w in h && w !in ch && Longer(ch, i, w, d)
    requires (i == 0 || h[ch[i]].val < h[w].val) && h[w].val < h[ch[i + 1]].val && h[w].next == ch[i + 1]
    ensures ch[i] in h && Chain(h[ch[i] := h[ch[i]].(next := w)], head, d)
  {
    ChainEnds(h, head, ch);
    SortedChain(h, head, ch);
    LongerSorted(h, head, ch, i, w, d);
    hide Chain;
    var k := h[ch[i] := h[ch[i]].(next := w)];
    assert forall j | 0 <= j < |d| :: d[j] in k && k[d[j]].val == h[d[j]].val;
    forall j | 0 <= j < |d| - 1
      ensures k[d[j]].next == d[j + 1]
    {
      NextInChain(h, head, ch, if j <= i then j else if j == i + 1 then i else j - 1, i);
    }
    ChainFrom(k, head, d);
  }

  lemma LongerSorted(h: map<int, Cell>, head: int, ch: seq<int>, i: nat, w: int, d: seq<int>)
    requires Chain(h, head, ch) && i + 1 < |ch| && w in h && Longer(ch, i, w, d)
    requires (i == 0 || h[ch[i]].val < h[w].val) && h[w].val < h[ch[i + 1]].val
    ensures forall j :: 0 <= j < |d| ==> d[j] in h
    ensures forall j, l :: 1 <= j < l < |d| ==> h[d[j]].val < h[d[l]].val
  {
    SortedChain(h, head, ch);
    hide Chain;
    assert forall a | 1 <= a <= i :: h[ch[a]].val < h[w].val;
    assert forall a | i + 1 <= a < |ch| :: h[w].val < h[ch[a]].val;
  }

  lemma ChainEnds(h: map<int, Cell>, head: int, ch: seq<int>)
    requires Chain(h, head, ch)
    ensures |ch| >= 2 && ch[0] == head && NULL !in h
    ensures ch[|ch| - 1] in h && ch[0] in h && h[ch[|ch| - 1]].val == VAL_MAX
    ensures h[ch[|ch| - 1]].next == NULL
  {
  }

  lemma NextInChain(h: map<int, Cell>, head: int, ch: seq<int>, j: int, i: int)
    requires Chain(h, head, ch) && 0 <= i < |ch| - 1 && 0 <= j < |ch|
    ensures ch[j] in h && (j < |ch| - 1 ==> h[ch[j]].next == ch[j + 1]) && (j != i ==> ch[j] != ch[i])
  {
  }

  /** A neighbour pair in the list is determined by its second node. */
  lemma OnePredecessor(h: map<int, Cell>, head: int, ch: seq<int>, c: int, d: int, n: int)
    requires Chain(h, head, ch) && c in ch && d in ch && n in ch && c in h && d in h && h[c].next == n && h[d].next == n
    ensures c == d
  {
    var i := Index(h, head, ch, c, n);
    var j := Index(h, head, ch, d, n);
    DistinctInChain(h, head, ch, i + 1, j + 1);
  }

  /** `curr->next = next->next` in `lockc_delete` */
  lemma UnlinkStep(s: State, ch: seq<int>, t: int, c: int, n: int) returns (dh: seq<int>)
    requires Structure(s, ch) && 0 <= t < |s.threads| && s.threads[t].pc == Unlink(c, n)
    ensures c in s.heap && n in s.heap && Structure(Go(SetNext(s, c, s.heap[n].next), t, UnlockGone(c, n)), dh)
    ensures |ch| > 0 && |dh| > 0 && (forall x | x in ch :: x in s.heap) && (forall x | x in dh :: x in s.heap)
    ensures s.threads[t].op.Delete? && s.threads[t].val in Values(s.heap, ch)
    ensures Values(Go(SetNext(s, c, s.heap[n].next), t, UnlockGone(c, n)).heap, dh) == Values(s.heap, ch) - {s.threads[t].val}
  {
    var th := s.threads[t];
    assert ThreadOk(s.heap, ch, t, th);
    var i := Index(s.heap, s.head, ch, c, n);
    BelowMax(s.heap, s.head, ch, i + 1);
    ChainWithout(s.heap, s.head, ch, i);
    dh := Without(ch, i + 1);
    var k := s.heap[c := s.heap[c].(next := s.heap[n].next)];
    ChainIn(s.heap, s.head, ch);
    UnlinkValues(s.heap, k, s.head, ch, dh, n);
    UnlinkOthers(s, ch, t, c, n, k, dh);
    NotPrivate(s, ch, n);
    hide Chain, Values, OthersUntouched, Without;
    OthersKept(s, ch, k, dh, t);
    UnlinkRest(s, ch, t, c, n, k, dh);
  }

  lemma BelowMax(h: map<int, Cell>, head: int, ch: seq<int>, i: nat)
    requires Chain(h, head, ch) && i < |ch| && h[ch[i]].val < VAL_MAX
    ensures i < |ch| - 1
  {
  }

  lemma UnlinkValues(h: map<int, Cell>, k: map<int, Cell>, head: int, ch: seq<int>, dh: seq<int>, n: int)
    requires Chain(h, head, ch) && n in ch && n !in dh && n != head && h[n].val < VAL_MAX
    requires |dh| > 0 && dh[0] == head
    requires forall x | x in ch :: x in h && (x in dh || x == n)
    requires forall x | x in dh :: x in ch
    requires k.Keys == h.Keys && forall x | x in h :: k[x].val == h[x].val
    ensures Values(k, dh) == Values(h, ch) - {h[n].val} && h[n].val in Values(h, ch)
  {
    forall x | x in dh && x != head
      ensures h[x].val != h[n].val
    {
      var i :| 0 <= i < |ch| && ch[i] == x;
      var j :| 0 <= j < |ch| && ch[j] == n;
    }
  }

  lemma UnlinkOthers(s: State, ch: seq<int>, t: int, c: int, n: int, k: map<int, Cell>, dh: seq<int>)
    requires Structure(s, ch) && 0 <= t < |s.threads| && s.threads[t].pc == Unlink(c, n)
    requires c in s.heap && n in s.heap && k == s.heap[c := s.heap[c].(next := s.heap[n].next)]
    requires (forall x | x in ch :: x in dh || x == n) && (forall x | x in dh :: x in ch) && |dh| > 0 && dh[0] == ch[0]
    ensures OthersUntouched(s, ch, k, dh, t)
  {
    forall u | 0 <= u < |s.threads| && u != t
      ensures Untouched(s.heap, ch, k, dh, s.threads[u].pc)
    {
      assert ThreadOk(s.heap, ch, u, s.threads[u]) && ThreadOk(s.heap, ch, t, s.threads[t]);
      if s.threads[u].pc.Grab? && s.threads[u].pc.target == n {
        OnePredecessor(s.heap, s.head, ch, c, s.threads[u].pc.curr, n);
      }
    }
  }

  lemma NotPrivate(s: State, ch: seq<int>, n: int)
    requires Structure(s, ch) && n in ch && NULL !in s.heap
    ensures forall u :: 0 <= u < |s.threads| ==> Private(s.threads[u].pc) != n
  {
    ChainIn(s.heap, s.head, ch);
    forall u | 0 <= u < |s.threads|
      ensures Private(s.threads[u].pc) != n
    {
      assert ThreadOk(s.heap, ch, u, s.threads[u]);
    }
  }

  lemma UnlinkRest(s: State, ch: seq<int>, t: int, c: int, n: int, k: map<int, Cell>, dh: seq<int>)
    requires Structure(s, ch) && 0 <= t < |s.threads| && s.threads[t].pc == Unlink(c, n)
    requires c in s.heap && n in s.heap && k == s.heap[c := s.heap[c].(next := s.heap[n].next)]
    requires Chain(k, s.head, dh) && n !in dh && (forall x | x in ch :: x in dh || x == n)
    requires forall u :: 0 <= u < |s.threads| ==> Private(s.threads[u].pc) != n
    requires forall u :: 0 <= u < |s.threads| && u != t ==> ThreadOk(k, dh, u, s.threads[u])
    ensures Structure(s.(heap := k, threads := s.threads[t := s.threads[t].(pc := UnlockGone(c, n))]), dh)
  {
    var ts := s.threads[t := s.threads[t].(pc := UnlockGone(c, n))];
    assert ThreadOk(s.heap, ch, t, s.threads[t]);
    assert c != n;
    assert ThreadOk(k, dh, t, ts[t]);
    assert Private(ts[t].pc) == n;
    assert NoLeak(k, dh, ts) by {
      LeakSwap(s.heap, ch, s.threads, k, dh, ts, t, n);
    }
    hide Chain, Place;
  }

  /** Thread t may stop knowing its private node, or get to know x; everything else is as before. */
  lemma LeakSwap(h: map<int, Cell>, ch: seq<int>, ts: seq<Thread>, k: map<int, Cell>, dh: seq<int>, us: seq<Thread>, t: int, x: int)
    requires NoLeak(h, ch, ts) && |us| == |ts| && 0 <= t < |ts|
    requires forall u | 0 <= u < |ts| && u != t :: us[u] == ts[u]
    requires forall y | y in k && y !in dh :: y == Private(us[t].pc) || (y in h && y !in ch && y != Private(ts[t].pc))
    ensures NoLeak(k, dh, us)
  {
    forall y | y in k && y !in dh
      ensures exists u :: 0 <= u < |us| && Private(us[u].pc) == y
    {
      if y != Private(us[t].pc) {
        var u :| 0 <= u < |ts| && Private(ts[u].pc) == y;
        assert Private(us[u].pc) == y;
      }
    }
  }

  /** `curr->next = newnode` in `lockc_insert` */
  lemma PublishStep(s: State, ch: seq<int>, t: int, c: int, n: int, w: int) returns (dh: seq<int>)
    requires Structure(s, ch) && 0 <= t < |s.threads| && s.threads[t].pc == Publish(c, n, w)
    ensures c in s.heap && Structure(Go(SetNext(s, c, w), t, UnlockCurr(c, n, true)), dh)
    ensures |ch| > 0 && |dh| > 0 && (forall x | x in ch :: x in s.heap) && (forall x | x in dh :: x in s.heap)
    ensures s.threads[t].op.Insert? && s.threads[t].val !in Values(s.heap, ch)
    ensures Values(Go(SetNext(s, c, w), t, UnlockCurr(c, n, true)).heap, dh) == Values(s.heap, ch) + {s.threads[t].val}
  {
    var th := s.threads[t];
    assert ThreadOk(s.heap, ch, t, th);
    var i := Index(s.heap, s.head, ch, c, n);
    Found(s.heap, s.head, ch, c, n, th.val);
    ChainWith(s.heap, s.head, ch, i, w);
    dh := With(ch, i + 1, w);
    var k := s.heap[c := s.heap[c].(next := w)];
    ChainIn(s.heap, s.head, ch);
    PublishOthers(s, ch, t, c, n, w, k, dh);
    hide Chain, OthersUntouched, With;
    assert Values(k, dh) == Values(s.heap, ch) + {th.val} by { PublishValues(s.heap, k, ch, dh, w); }
    hide Values;
    OthersKept(s, ch, k, dh, t);
    PublishRest(s, ch, t, c, n, w, k, dh);
  }

  lemma PublishValues(h: map<int, Cell>, k: map<int, Cell>, ch: seq<int>, dh: seq<int>, w: int)
    requires |ch| > 0 && |dh| > 0 && dh[0] == ch[0] && w !in ch
    requires (forall x | x in ch :: x in h) && w in h && h[w].val < VAL_MAX
    requires forall x :: x in dh <==> x in ch || x == w
    requires k.Keys == h.Keys && forall x | x in h :: k[x].val == h[x].val
    ensures Values(k, dh) == Values(h, ch) + {h[w].val}
  {
    assert w in dh;
  }

  lemma PublishOthers(s: State, ch: seq<int>, t: int, c: int, n: int, w: int, k: map<int, Cell>, dh: seq<int>)
    requires Structure(s, ch) && 0 <= t < |s.threads| && s.threads[t].pc == Publish(c, n, w)
    requires c in s.heap && k == s.heap[c := s.heap[c].(next := w)]
    requires |dh| > 0 && dh[0] == s.head && forall x :: x in dh <==> x in ch || x == w
    ensures OthersUntouched(s, ch, k, dh, t)
  {
    ChainIn(s.heap, s.head, ch);
    forall u | 0 <= u < |s.threads| && u != t
      ensures Untouched(s.heap, ch, k, dh, s.threads[u].pc)
    {
      assert ThreadOk(s.heap, ch, u, s.threads[u]) && ThreadOk(s.heap, ch, t, s.threads[t]);
      if Private(s.threads[t].pc) != NULL { PrivateOnly(s.threads, t, u); }
    }
  }

  lemma PublishRest(s: State, ch: seq<int>, t: int, c: int, n: int, w: int, k: map<int, Cell>, dh: seq<int>)
    requires Structure(s, ch) && 0 <= t < |s.threads| && s.threads[t].pc == Publish(c, n, w)
    requires c in s.heap && k == s.heap[c := s.heap[c].(next := w)]
    requires Chain(k, s.head, dh) && forall x :: x in dh <==> x in ch || x == w
    requires forall u :: 0 <= u < |s.threads| && u != t ==> ThreadOk(k, dh, u, s.threads[u])
    ensures Structure(s.(heap := k, threads := s.threads[t := s.threads[t].(pc := UnlockCurr(c, n, true))]), dh)
  {
    hide Chain, Place, ThreadOk;
    var ts := s.threads[t := s.threads[t].(pc := UnlockCurr(c, n, true))];
    PublishSelf(s, ch, t, c, n, w, k, dh);
    assert NoLeak(k, dh, ts) by {
      hide Held, Owners, PrivatesApart;
      LeakSwap(s.heap, ch, s.threads, k, dh, ts, t, w);
    }
    hide NoLeak;
  }

  lemma PublishSelf(s: State, ch: seq<int>, t: int, c: int, n: int, w: int, k: map<int, Cell>, dh: seq<int>)
    requires Structure(s, ch) && 0 <= t < |s.threads| && s.threads[t].pc == Publish(c, n, w)
    requires c in s.heap && k == s.heap[c := s.heap[c].(next := w)]
    requires forall x :: x in dh <==> x in ch || x == w
    ensures ThreadOk(k, dh, t, s.threads[t].(pc := UnlockCurr(c, n, true)))
  {
    hide Chain, Owners, PrivatesApart, NoLeak;
    assert ThreadOk(s.heap, ch, t, s.threads[t]);
    Apart(s.heap, s.head, ch, c, n);
  }

  /** `new_node_l` */
  lemma AllocStep(s: State, ch: seq<int>, t: int, c: int, n: int, addr: int)
    requires Structure(s, ch) && 0 <= t < |s.threads| && s.threads[t].pc == Alloc(c, n)
    requires addr != NULL && addr !in s.heap
    ensures var k := s.heap[addr := Cell(s.threads[t].val, n, NULL)];
      && Structure(s.(heap := k, threads := s.threads[t := s.threads[t].(pc := Publish(c, n, addr))]), ch)
      && |ch| > 0 && (forall x | x in ch :: x in s.heap) && Values(k, ch) == Values(s.heap, ch)
  {
    var k := s.heap[addr := Cell(s.threads[t].val, n, NULL)];
    ChainIn(s.heap, s.head, ch);
    ChainFrame(s.heap, k, s.head, ch);
    ValuesFrame(s.heap, k, ch);
    NewUntouched(s, ch, t, k);
    PrivatesIn(s, ch);
    hide Chain, Values, OthersUntouched, ThreadOk, Place, Held, Private;
    OthersKept(s, ch, k, ch, t);
    hide Untouched;
    AllocRest(s, ch, t, c, n, addr, k);
  }

  lemma PrivatesIn(s: State, ch: seq<int>)
    requires Structure(s, ch)
    ensures forall u | 0 <= u < |s.threads| :: Private(s.threads[u].pc) != NULL ==> Private(s.threads[u].pc) in s.heap
  {
    hide Place, Held, Private, Chain;
    assert forall u | 0 <= u < |s.threads| :: ThreadOk(s.heap, ch, u, s.threads[u]);
  }

  lemma AllocRest(s: State, ch: seq<int>, t: int, c: int, n: int, addr: int, k: map<int, Cell>)
    requires Structure(s, ch) && 0 <= t < |s.threads| && s.threads[t].pc == Alloc(c, n)
    requires addr != NULL && addr !in s.heap && k == s.heap[addr := Cell(s.threads[t].val, n, NULL)]
    requires Chain(k, s.head, ch) && forall x | x in ch :: x in s.heap
    requires forall u | 0 <= u < |s.threads| :: Private(s.threads[u].pc) != NULL ==> Private(s.threads[u].pc) in s.heap
    requires forall u :: 0 <= u < |s.threads| && u != t ==> ThreadOk(k, ch, u, s.threads[u])
    ensures Structure(s.(heap := k, threads := s.threads[t := s.threads[t].(pc := Publish(c, n, addr))]), ch)
  {
    var ts := s.threads[t := s.threads[t].(pc := Publish(c, n, addr))];
    AllocSelf(s, ch, t, c, n, addr, k);
    hide Chain, Place, ThreadOk;
    assert NoLeak(k, ch, ts) by {
      hide Held, Owners, PrivatesApart;
      LeakSwap(s.heap, ch, s.threads, k, ch, ts, t, addr);
    }
    hide NoLeak;
  }

  lemma AllocSelf(s: State, ch: seq<int>, t: int, c: int, n: int, addr: int, k: map<int, Cell>)
    requires Structure(s, ch) && 0 <= t < |s.threads| && s.threads[t].pc == Alloc(c, n)
    requires addr != NULL && addr !in s.heap && k == s.heap[addr := Cell(s.threads[t].val, n, NULL)]
    requires forall x | x in ch :: x in s.heap
    ensures ThreadOk(k, ch, t, s.threads[t].(pc := Publish(c, n, addr)))
  {
    hide Chain, NoLeak, Owners, PrivatesApart;
    assert ThreadOk(s.heap, ch, t, s.threads[t]);
  }

  lemma NewUntouched(s: State, ch: seq<int>, t: int, k: map<int, Cell>)
    requires Structure(s, ch) && 0 <= t < |s.threads|
    requires forall x | x in s.heap :: x in k && k[x] == s.heap[x]
    ensures OthersUntouched(s, ch, k, ch, t)
  {
    forall u | 0 <= u < |s.threads| && u != t
      ensures Untouched(s.heap, ch, k, ch, s.threads[u].pc)
    {
      assert ThreadOk(s.heap, ch, u, s.threads[u]);
    }
  }

  /** `node_delete_l` */
  lemma FreeStep(s: State, ch: seq<int>, t: int, c: int, g: int)
    requires Structure(s, ch) && 0 <= t < |s.threads| && s.threads[t].pc == Free(c, g)
    ensures var k := s.heap - {g};
      && Structure(s.(heap := k, threads := s.threads[t := s.threads[t].(pc := UnlockLast(c, true))]), ch)
      && |ch| > 0 && (forall x | x in ch :: x in s.heap && x in k) && Values(k, ch) == Values(s.heap, ch)
  {
    var k := s.heap - {g};
    ChainIn(s.heap, s.head, ch);
    FreeSelf(s, ch, t, c, g);
    ChainFrame(s.heap, k, s.head, ch);
    ValuesFrame(s.heap, k, ch);
    hide Chain, Values, ThreadOk, Place, Held;
    FreeUntouched(s, ch, t, g);
    hide OthersUntouched, Untouched;
    OthersKept(s, ch, k, ch, t);
    FreeRest(s, ch, t, c, g, k);
  }

  lemma FreeSelf(s: State, ch: seq<int>, t: int, c: int, g: int)
    requires Structure(s, ch) && 0 <= t < |s.threads| && s.threads[t].pc == Free(c, g)
    ensures NULL !in s.heap && g != NULL && g !in ch && g in s.heap && s.heap[g].owner == NULL
    ensures ThreadOk(s.heap - {g}, ch, t, s.threads[t].(pc := UnlockLast(c, true)))
  {
    hide Owners, PrivatesApart, NoLeak;
    ChainIn(s.heap, s.head, ch);
    assert ThreadOk(s.heap, ch, t, s.threads[t]);
    hide Chain;
  }

  lemma FreeRest(s: State, ch: seq<int>, t: int, c: int, g: int, k: map<int, Cell>)
    requires Structure(s, ch) && 0 <= t < |s.threads| && s.threads[t].pc == Free(c, g) && k == s.heap - {g}
    requires s.heap[g].owner == NULL && Chain(k, s.head, ch)
    requires forall u :: 0 <= u < |s.threads| && u != t ==> ThreadOk(k, ch, u, s.threads[u])
    requires ThreadOk(k, ch, t, s.threads[t].(pc := UnlockLast(c, true)))
    ensures Structure(s.(heap := k, threads := s.threads[t := s.threads[t].(pc := UnlockLast(c, true))]), ch)
  {
    hide Chain, Place, ThreadOk;
    var ts := s.threads[t := s.threads[t].(pc := UnlockLast(c, true))];
    assert NoLeak(k, ch, ts) by {
      hide Held, Owners, PrivatesApart;
      LeakSwap(s.heap, ch, s.threads, k, ch, ts, t, g);
    }
    hide NoLeak;
  }

  /** No thread holds, waits for or is about to follow a node that is freed. */
  lemma FreeUntouched(s: State, ch: seq<int>, t: int, g: int)
    requires Structure(s, ch) && 0 <= t < |s.threads| && Private(s.threads[t].pc) == g && g != NULL
    requires g in s.heap && s.heap[g].owner == NULL
    ensures OthersUntouched(s, ch, s.heap - {g}, ch, t)
  {
    ChainIn(s.heap, s.head, ch);
    assert ThreadOk(s.heap, ch, t, s.threads[t]);
    forall u | 0 <= u < |s.threads| && u != t
      ensures Untouched(s.heap, ch, s.heap - {g}, ch, s.threads[u].pc)
    {
      assert ThreadOk(s.heap, ch, u, s.threads[u]);
      PrivateOnly(s.threads, t, u);
      assert u != NULL;
    }
  }

  // ----- Traces ------------------------------------------------------------------------------------------

  lemma TraceAppend(trace: seq<Event>, e: Event, t: int)
    ensures Elements(trace + [e]) == if e.Effect? then Effects(Elements(trace), e.op, e.val) else Elements(trace)
    ensures PhaseOf(trace + [e], t) == if e.t == t then Advance1(PhaseOf(trace, t), e) else PhaseOf(trace, t)
  {
    assert (trace + [e])[..|trace|] == trace;
  }

  lemma LegalAppend(trace: seq<Event>, e: Event)
    requires Legal(trace) && (e.Effect? ==> e.result == Answer(Elements(trace), e.op, e.val))
    ensures Legal(trace + [e])
  {
    var r := trace + [e];
    assert r[..|trace|] == trace;
    forall i | 0 <= i < |r| && r[i].Effect?
      ensures r[i].result == Answer(Elements(r[..i]), r[i].op, r[i].val)
    {
      if i < |trace| { assert r[..i] == trace[..i]; }
    }
  }

  /** A step that is not an event leaves the phase of its thread alone. */
  lemma Silent(s: State, r: State, t: int)
    requires Phases(s) && 0 <= t < |s.threads| && r.trace == s.trace && |r.threads| == |s.threads|
    requires r.threads == s.threads[t := r.threads[t]] && ExpectedPhase(r.threads[t]) == ExpectedPhase(s.threads[t])
    ensures Phases(r)
  {
    hide PhaseOf, ExpectedPhase;
  }

  lemma Logged(s: State, r: State, t: int, e: Event)
    requires Phases(s) && 0 <= t < |s.threads| && r.trace == s.trace + [e] && e.t == t && |r.threads| == |s.threads|
    requires r.threads == s.threads[t := r.threads[t]]
    requires ExpectedPhase(r.threads[t]) == Advance1(ExpectedPhase(s.threads[t]), e)
    ensures Phases(r)
  {
    hide PhaseOf, ExpectedPhase, Advance1, Elements;
    forall u | 0 <= u < |r.threads|
      ensures PhaseOf(r.trace, u) == ExpectedPhase(r.threads[u])
    {
      TraceAppend(s.trace, e, u);
    }
  }

  // ----- Every step keeps the invariant --------------------------------------------------------------------

  /** Steps of thread t that are no events and leave the set alone. */
  lemma SilentKeeps(s: State, ch: seq<int>, r: State, t: int)
    requires Inv(s, ch) && Structure(r, ch) && 0 <= t < |s.threads| && r.trace == s.trace && |r.threads| == |s.threads|
    requires r.threads == s.threads[t := r.threads[t]] && ExpectedPhase(r.threads[t]) == ExpectedPhase(s.threads[t])
    requires |ch| > 0 && (forall x | x in ch :: x in s.heap && x in r.heap) && Values(r.heap, ch) == Values(s.heap, ch)
    ensures Inv(r, ch)
  {
    hide Structure, ExpectedPhase, Values;
    Silent(s, r, t);
  }

  /** Steps that are events. */
  lemma EventKeeps(s: State, ch: seq<int>, r: State, dh: seq<int>, t: int, e: Event)
    requires Inv(s, ch) && Structure(r, dh) && 0 <= t < |s.threads| && r.trace == s.trace + [e] && e.t == t
    requires |r.threads| == |s.threads| && r.threads == s.threads[t := r.threads[t]]
    requires ExpectedPhase(r.threads[t]) == Advance1(ExpectedPhase(s.threads[t]), e)
    requires |ch| > 0 && |dh| > 0 && (forall x | x in ch :: x in s.heap) && (forall x | x in dh :: x in r.heap)
    requires e.Effect? ==> e.result == Answer(Values(s.heap, ch), e.op, e.val)
    requires e.Effect? ==> Values(r.heap, dh) == Effects(Values(s.heap, ch), e.op, e.val)
    requires !e.Effect? ==> Values(r.heap, dh) == Values(s.heap, ch)
    ensures Inv(r, dh)
  {
    hide Structure, ExpectedPhase, Values, Legal, Effects, Answer, Advance1;
    Logged(s, r, t, e);
    TraceAppend(s.trace, e, t);
    LegalAppend(s.trace, e);
  }

  /** Calls, returns, and the moves between memory accesses that change nothing. */
  lemma LocalKeeps(s: State, ch: seq<int>, a: Action)
    requires Inv(s, ch) && Enabled(s, a)
    requires var pc := s.threads[a.t].pc; pc.Idle? || pc.Return? || pc.Aim? || pc.Load? || pc.Test?
    ensures Inv(Do(s, a), ch)
  {
    var t, th, r := a.t, s.threads[a.t], Do(s, a);
    assert ThreadOk(s.heap, ch, t, th);
    ChainIn(s.heap, s.head, ch);
    if th.pc.Aim? { NextHere(s.heap, s.head, ch, th.pc.curr); }
    LocalStep(s, ch, t, r.threads[t]);
    hide Chain, Place, Held, Private, Values, Structure, Inv, ThreadOk, Phases, Legal;
    assert r == s.(threads := s.threads[t := r.threads[t]], trace := r.trace);
    if th.pc.Idle? || th.pc.Return? {
      EventKeeps(s, ch, r, ch, t, r.trace[|s.trace|]);
    } else {
      SilentKeeps(s, ch, r, t);
    }
  }

  lemma NextHere(h: map<int, Cell>, head: int, ch: seq<int>, c: int)
    requires Chain(h, head, ch) && c in ch && c in h && (c == head || h[c].val < VAL_MAX)
    ensures h[c].next in ch && h[c].next in h
  {
    var i :| 0 <= i < |ch| && ch[i] == c;
    if i > 0 { BelowMax(h, head, ch, i); }
    assert ch[i + 1] in ch;
  }

  /** The lock a step takes or releases, and its new holder. */
  function LockOf(s: State, pc: PC): int {
    match pc
    case AtHead => s.head
    case Grab(_, g) => g
    case Advance(c, _) => c
    case UnlockGone(_, g) => g
    case UnlockCurr(c, _, _) => c
    case UnlockLast(x, _) => x
    case _ => NULL
  }

  lemma LockKeeps(s: State, ch: seq<int>, a: Action)
    requires Inv(s, ch) && Enabled(s, a)
    requires LockOf(s, s.threads[a.t].pc) != NULL || s.threads[a.t].pc.AtHead?
    ensures Inv(Do(s, a), ch)
  {
    var t, th, r := a.t, s.threads[a.t], Do(s, a);
    var x, o := LockOf(s, th.pc), if th.pc.AtHead? || th.pc.Grab? then t else NULL;
    assert ThreadOk(s.heap, ch, t, th);
    ChainIn(s.heap, s.head, ch);
    ChainEnds(s.heap, s.head, ch);
    LockPlace(s, ch, t, x, o, r.threads[t].pc);
    hide Chain, Place, Values, Structure, Inv, ThreadOk, Phases, Legal;
    assert r == Go(SetOwner(s, x, o), t, r.threads[t].pc);
    OwnerStep(s, ch, t, x, o, r.threads[t].pc);
    hide Do, Held, Private;
    SilentKeeps(s, ch, r, t);
  }

  lemma LockPlace(s: State, ch: seq<int>, t: int, x: int, o: int, pc: PC)
    requires Structure(s, ch) && 0 <= t < |s.threads| && x in s.heap
    requires x == LockOf(s, s.threads[t].pc) && !s.threads[t].pc.Idle?
    requires o == if s.threads[t].pc.AtHead? || s.threads[t].pc.Grab? then t else NULL
    requires match s.threads[t].pc
      case AtHead => pc == Aim(s.head)
      case Grab(c, g) => pc == Load(c, g)
      case Advance(_, n) => pc == Aim(n)
      case UnlockGone(c, g) => pc == Free(c, g)
      case UnlockCurr(_, n, r) => pc == UnlockLast(n, r)
      case UnlockLast(_, r) => pc == Return(r)
      case _ => false
    ensures Place(s.heap[x := s.heap[x].(owner := o)], ch, s.threads[t].(pc := pc))
    ensures Held(pc) == if o == t then Held(s.threads[t].pc) + {x} else Held(s.threads[t].pc) - {x}
    ensures Private(pc) == Private(s.threads[t].pc) && (x in ch || x == Private(s.threads[t].pc))
    ensures o == NULL ==> s.heap[x].owner == t
  {
    assert ThreadOk(s.heap, ch, t, s.threads[t]);
    ChainEnds(s.heap, s.head, ch);
    assert s.head in ch;
    if s.threads[t].pc.UnlockGone? {
      assert s.threads[t].pc.gone != s.threads[t].pc.curr;
    }
    if s.threads[t].pc.Advance? {
      var i := Index(s.heap, s.head, ch, s.threads[t].pc.curr, s.threads[t].pc.next);
      DistinctInChain(s.heap, s.head, ch, i, i + 1);
    }
    hide Chain, NoLeak, Owners, PrivatesApart;
  }

  /** The comparison at the end of a traversal: here calls that change nothing take effect. */
  lemma CheckKeeps(s: State, ch: seq<int>, a: Action)
    requires Inv(s, ch) && Enabled(s, a) && s.threads[a.t].pc.Check?
    ensures Inv(Do(s, a), ch)
  {
    var t, th, r := a.t, s.threads[a.t], Do(s, a);
    var c, n := th.pc.curr, th.pc.next;
    assert ThreadOk(s.heap, ch, t, th);
    ChainIn(s.heap, s.head, ch);
    Found(s.heap, s.head, ch, c, n, th.val);
    Apart(s.heap, s.head, ch, c, n);
    LocalStep(s, ch, t, r.threads[t]);
    hide Chain, Place, Held, Private, Values, Structure, Inv, ThreadOk, Phases, Legal;
    assert r == s.(threads := s.threads[t := r.threads[t]], trace := r.trace);
    if r.threads[t].pc.UnlockCurr? {
      EventKeeps(s, ch, r, ch, t, r.trace[|s.trace|]);
    } else {
      SilentKeeps(s, ch, r, t);
    }
  }

  lemma NodeKeeps(s: State, ch: seq<int>, a: Action)
    requires Inv(s, ch) && Enabled(s, a) && (s.threads[a.t].pc.Alloc? || s.threads[a.t].pc.Free?)
    ensures Inv(Do(s, a), ch)
  {
    var t, th, r := a.t, s.threads[a.t], Do(s, a);
    assert Structure(s, ch);
    assert th.pc.Alloc? ==> a.addr != NULL && a.addr !in s.heap;
    assert r == s.(heap := r.heap, threads := s.threads[t := r.threads[t]]);
    hide Chain, Place, Held, Private, Values, Structure, ThreadOk, Phases, Legal, Inv, Enabled;
    if th.pc.Alloc? {
      AllocStep(s, ch, t, th.pc.curr, th.pc.next, a.addr);
    } else {
      FreeStep(s, ch, t, th.pc.curr, th.pc.gone);
    }
    SilentKeeps(s, ch, r, t);
  }

  lemma DoUnlink(s: State, a: Action)
    requires Enabled(s, a) && s.threads[a.t].pc.Unlink?
    ensures var th := s.threads[a.t]; var c, n := th.pc.curr, th.pc.next;
      && c in s.heap && n in s.heap
      && Do(s, a) == Log(Go(SetNext(s, c, s.heap[n].next), a.t, UnlockGone(c, n)), Effect(a.t, th.op, th.val, true))
  {
  }

  lemma DoPublish(s: State, a: Action)
    requires Enabled(s, a) && s.threads[a.t].pc.Publish?
    ensures var th := s.threads[a.t]; var c, n, w := th.pc.curr, th.pc.next, th.pc.made;
      && c in s.heap
      && Do(s, a) == Log(Go(SetNext(s, c, w), a.t, UnlockCurr(c, n, true)), Effect(a.t, th.op, th.val, true))
  {
  }

  /** The two steps that change the set. */
  lemma UnlinkKeeps(s: State, ch: seq<int>, a: Action) returns (dh: seq<int>)
    requires Inv(s, ch) && Enabled(s, a) && s.threads[a.t].pc.Unlink?
    ensures Inv(Do(s, a), dh)
  {
    DoUnlink(s, a);
    assert Structure(s, ch);
    hide Chain, Place, Held, Private, Values, Structure, ThreadOk, Phases, Legal, Inv, Do, Enabled;
    var t, th := a.t, s.threads[a.t];
    var c, n, e := th.pc.curr, th.pc.next, Effect(t, th.op, th.val, true);
    dh := UnlinkStep(s, ch, t, c, n);
    LoggedStructure(Go(SetNext(s, c, s.heap[n].next), t, UnlockGone(c, n)), Do(s, a), dh);
    EventKeeps(s, ch, Do(s, a), dh, t, e);
  }

  lemma PublishKeeps(s: State, ch: seq<int>, a: Action) returns (dh: seq<int>)
    requires Inv(s, ch) && Enabled(s, a) && s.threads[a.t].pc.Publish?
    ensures Inv(Do(s, a), dh)
  {
    DoPublish(s, a);
    assert Structure(s, ch);
    hide Chain, Place, Held, Private, Values, Structure, ThreadOk, Phases, Legal, Inv, Do, Enabled;
    var t, th := a.t, s.threads[a.t];
    var c, n, w, e := th.pc.curr, th.pc.next, th.pc.made, Effect(t, th.op, th.val, true);
    dh := PublishStep(s, ch, t, c, n, w);
    LoggedStructure(Go(SetNext(s, c, w), t, UnlockCurr(c, n, true)), Do(s, a), dh);
    EventKeeps(s, ch, Do(s, a), dh, t, e);
  }

  lemma LoggedStructure(s: State, r: State, ch: seq<int>)
    requires Structure(s, ch) && r == s.(trace := r.trace)
    ensures Structure(r, ch) && |ch| > 0 && forall x | x in ch :: x in s.heap
  {
    ChainIn(s.heap, s.head, ch);
  }

  /** Every step of every thread keeps the invariant. */
  lemma StepKeeps(s: State, ch: seq<int>, a: Action) returns (dh: seq<int>)
    requires Inv(s, ch) && Enabled(s, a)
    ensures Inv(Do(s, a), dh)
  {
    LockNotNull(s, ch, a.t);
    hide Inv, Do, Enabled;
    dh := ch;
    match s.threads[a.t].pc
    case Idle => LocalKeeps(s, ch, a);
    case Return(_) => LocalKeeps(s, ch, a);
    case Aim(_) => LocalKeeps(s, ch, a);
    case Load(_, _) => LocalKeeps(s, ch, a);
    case Test(_, _) => LocalKeeps(s, ch, a);
    case AtHead => LockKeeps(s, ch, a);
    case Grab(_, _) => LockKeeps(s, ch, a);
    case Advance(_, _) => LockKeeps(s, ch, a);
    case UnlockGone(_, _) => LockKeeps(s, ch, a);
    case UnlockCurr(_, _, _) => LockKeeps(s, ch, a);
    case UnlockLast(_, _) => LockKeeps(s, ch, a);
    case Check(_, _) => CheckKeeps(s, ch, a);
    case Alloc(_, _) => NodeKeeps(s, ch, a);
    case Free(_, _) => NodeKeeps(s, ch, a);
    case Unlink(_, _) => dh := UnlinkKeeps(s, ch, a);
    case Publish(_, _, _) => dh := PublishKeeps(s, ch, a);
  }

  lemma LockNotNull(s: State, ch: seq<int>, t: int)
    requires Inv(s, ch) && 0 <= t < |s.threads|
    ensures var pc := s.threads[t].pc;
      pc.AtHead? || pc.Grab? || pc.Advance? || pc.UnlockGone? || pc.UnlockCurr? || pc.UnlockLast? ==> LockOf(s, pc) != NULL
  {
    assert ThreadOk(s.heap, ch, t, s.threads[t]);
    ChainIn(s.heap, s.head, ch);
    ChainEnds(s.heap, s.head, ch);
    hide Chain;
  }

  // ----- Runs ------------------------------------------------------------------------------------------------

  /** ss is a run of the system under the actions as. */
  ghost predicate Run(ss: seq<State>, actions: seq<Action>) {
    && |ss| == |actions| + 1 && Init(ss[0])
    && forall i :: 0 <= i < |actions| ==> Enabled(ss[i], actions[i]) && ss[i + 1] == Do(ss[i], actions[i])
  }

  lemma InitHolds(s: State) returns (ch: seq<int>)
    requires Init(s)
    ensures Inv(s, ch)
  {
    var max :| max in s.heap && s.head != max && s.head != NULL && max != NULL
      && s.heap == map[s.head := Cell(VAL_MIN, max, NULL), max := Cell(VAL_MAX, NULL, NULL)];
    ch := [s.head, max];
    assert forall x | x in s.heap :: x == ch[0] || x == ch[1];
    assert forall x | x in s.heap :: x in ch;
    assert Values(s.heap, ch) == {};
  }

  /** In every state of every run the list is well formed and agrees with the trace. */
  lemma {:induction false} RunHolds(ss: seq<State>, actions: seq<Action>, k: nat) returns (ch: seq<int>)
    requires Run(ss, actions) && k < |ss|
    ensures Inv(ss[k], ch)
  {
    if k == 0 {
      ch := InitHolds(ss[0]);
    } else {
      var before := RunHolds(ss, actions, k - 1);
      hide Inv, Do, Enabled;
      ch := StepKeeps(ss[k - 1], before, actions[k - 1]);
    }
  }

  // ----- Linearizability ---------------------------------------------------------------------------------------

  /** In every run the effects, in the order they happened, form a legal history of a set of integers, and
      the list holds exactly that set. */
  lemma Linearizable(ss: seq<State>, actions: seq<Action>, k: nat) returns (ch: seq<int>)
    requires Run(ss, actions) && k < |ss|
    ensures Legal(ss[k].trace) && Chain(ss[k].heap, ss[k].head, ch)
    ensures |ch| > 0 && (forall x | x in ch :: x in ss[k].heap) && Elements(ss[k].trace) == Values(ss[k].heap, ch)
    ensures forall t :: 0 <= t < |ss[k].threads| ==> PhaseOf(ss[k].trace, t) != Broken
  {
    ch := RunHolds(ss, actions, k);
    hide PhaseOf, Chain, Legal, Values, Elements;
    assert Phases(ss[k]);
  }

  lemma {:induction false} PhasePrefix(trace: seq<Event>, t: int, j: nat)
    requires PhaseOf(trace, t) != Broken && j <= |trace|
    ensures PhaseOf(trace[..j], t) != Broken
  {
    if j < |trace| {
      PhasePrefix(trace[..|trace| - 1], t, j);
      assert trace[..|trace| - 1][..j] == trace[..j];
    } else {
      assert trace[..j] == trace;
    }
  }

  /** Thread t has no event strictly between two positions. */
  ghost predicate Quiet(trace: seq<Event>, t: int, i: int, j: int) {
    forall m :: i < m < j && 0 <= m < |trace| ==> trace[m].t != t
  }

  lemma {:induction false} LastCall(trace: seq<Event>, t: int) returns (i: nat)
    requires PhaseOf(trace, t).Pending?
    ensures i < |trace| && trace[i] == Called(t, PhaseOf(trace, t).op, PhaseOf(trace, t).val)
    ensures Quiet(trace, t, i, |trace|)
  {
    var n := |trace| - 1;
    if trace[n].t == t {
      i := n;
    } else {
      i := LastCall(trace[..n], t);
    }
  }

  lemma {:induction false} LastEffect(trace: seq<Event>, t: int) returns (i: nat, k: nat)
    requires PhaseOf(trace, t).Done?
    ensures var p := PhaseOf(trace, t);
      i < k < |trace| && trace[i] == Called(t, p.op, p.val) && trace[k] == Effect(t, p.op, p.val, p.result)
    ensures Quiet(trace, t, i, k) && Quiet(trace, t, k, |trace|)
  {
    var n := |trace| - 1;
    if trace[n].t == t {
      i := LastCall(trace[..n], t);
      k := n;
    } else {
      i, k := LastEffect(trace[..n], t);
    }
  }

  /** Every operation that returns took effect exactly once, between its call and its return, with the
      result it returned. */
  lemma EffectInside(trace: seq<Event>, t: int, j: nat) returns (i: nat, k: nat)
    requires PhaseOf(trace, t) != Broken && j < |trace| && trace[j].Returned? && trace[j].t == t
    ensures i < k < j && trace[i] == Called(t, trace[j].op, trace[j].val)
    ensures trace[k] == Effect(t, trace[j].op, trace[j].val, trace[j].result)
    ensures Quiet(trace, t, i, k) && Quiet(trace, t, k, j)
  {
    PhasePrefix(trace, t, j + 1);
    assert trace[..j + 1][..j] == trace[..j];
    i, k := LastEffect(trace[..j], t);
    assert forall m | 0 <= m < j :: trace[..j][m] == trace[m];
  }

  // ----- Memory safety -------------------------------------------------------------------------------------------

  /** No step reads or writes a node that was freed. */
  lemma SafeAccess(s: State, ch: seq<int>, t: int)
    requires Inv(s, ch) && 0 <= t < |s.threads|
    ensures forall x | x in Touches(s, t) :: x in s.heap
  {
    assert ThreadOk(s.heap, ch, t, s.threads[t]);
    ChainEnds(s.heap, s.head, ch);
    hide Chain;
  }

  /** When a node is about to be freed no thread holds it, waits for it or can still reach it. */
  lemma NobodyAtFreed(s: State, ch: seq<int>, t: int, u: int)
    requires Inv(s, ch) && 0 <= t < |s.threads| && s.threads[t].pc.Free? && 0 <= u < |s.threads| && u != t
    ensures var g := s.threads[t].pc.gone; g !in Touches(s, u) && g !in Held(s.threads[u].pc) && g != WaitsFor(s, u) && g !in ch
  {
    assert ThreadOk(s.heap, ch, t, s.threads[t]) && ThreadOk(s.heap, ch, u, s.threads[u]);
    ChainEnds(s.heap, s.head, ch);
    assert s.head in ch;
    PrivateOnly(s.threads, t, u);
    hide Chain;
  }

  // ----- Progress ------------------------------------------------------------------------------------------------

  /** How many nodes of the list are behind the lock a thread waits for, counted up. */
  ghost function WaitRank(s: State, ch: seq<int>, t: int): int
    requires 0 <= t < |s.threads|
  {
    match s.threads[t].pc
    case AtHead => |ch| + 1
    case Grab(c, _) => |ch| - Position(ch, c)
    case _ => 0
  }

  /** No deadlock: when some call is in progress, some call in progress can make a step. It is found by
      following locks towards the end of the list. */
  lemma {:induction false} SomeoneRuns(s: State, ch: seq<int>, t: int, addr: int) returns (u: int)
    requires Inv(s, ch) && 0 <= t < |s.threads| && !s.threads[t].pc.Idle? && addr != NULL && addr !in s.heap
    ensures 0 <= u < |s.threads| && !s.threads[u].pc.Idle? && Enabled(s, Action(u, Find, 0, addr))
    decreases WaitRank(s, ch, t)
  {
    u := t;
    var x := WaitsFor(s, t);
    SafeAccess(s, ch, t);
    LockedInHeap(s, ch, t);
    hide Inv, Position;
    if x != NULL && s.heap[x].owner != NULL {
      RankFalls(s, ch, t);
      u := SomeoneRuns(s, ch, s.heap[x].owner, addr);
    }
  }

  lemma LockedInHeap(s: State, ch: seq<int>, t: int)
    requires Inv(s, ch) && 0 <= t < |s.threads|
    ensures WaitsFor(s, t) != NULL ==> WaitsFor(s, t) in s.heap
  {
    assert ThreadOk(s.heap, ch, t, s.threads[t]);
    ChainEnds(s.heap, s.head, ch);
    hide Chain;
  }

  /** The thread that holds a lock waits, if at all, for one further down. */
  lemma RankFalls(s: State, ch: seq<int>, t: int)
    requires Inv(s, ch) && 0 <= t < |s.threads|
    requires WaitsFor(s, t) != NULL && WaitsFor(s, t) in s.heap && s.heap[WaitsFor(s, t)].owner != NULL
    ensures var u := s.heap[WaitsFor(s, t)].owner;
      0 <= u < |s.threads| && !s.threads[u].pc.Idle? && 0 <= WaitRank(s, ch, u) < WaitRank(s, ch, t)
  {
    var x := WaitsFor(s, t);
    var u := s.heap[x].owner;
    assert x in Held(s.threads[u].pc);
    assert ThreadOk(s.heap, ch, t, s.threads[t]);
    WalkPositions(s, ch, t);
    WalkPositions(s, ch, u);
    if s.threads[t].pc.Grab? {
      PairAt(s.heap, s.head, ch, s.threads[t].pc.curr, x);
    }
    hide Chain, NoLeak, Owners, Position, Inv;
  }

  /** A thread is never stopped by itself: alone it can always move. */
  lemma AloneEnabled(s: State, ch: seq<int>, a: Action)
    requires Inv(s, ch) && 0 <= a.t < |s.threads| && !s.threads[a.t].pc.Idle?
    requires forall u :: 0 <= u < |s.threads| && u != a.t ==> s.threads[u].pc.Idle?
    requires s.threads[a.t].pc.Alloc? ==> a.addr != NULL && a.addr !in s.heap
    ensures Enabled(s, a)
  {
    SafeAccess(s, ch, a.t);
    LockedInHeap(s, ch, a.t);
    assert ThreadOk(s.heap, ch, a.t, s.threads[a.t]);
    if s.threads[a.t].pc.Grab? {
      Apart(s.heap, s.head, ch, s.threads[a.t].pc.curr, s.threads[a.t].pc.target);
    }
    hide Chain, NoLeak;
  }

  function Position(ch: seq<int>, c: int): nat {
    if |ch| == 0 || ch[0] == c then 0 else 1 + Position(ch[1..], c)
  }

  lemma {:induction false} PositionAt(ch: seq<int>, i: nat)
    requires i < |ch| && forall j :: 0 <= j < i ==> ch[j] != ch[i]
    ensures Position(ch, ch[i]) == i
  {
    if i > 0 {
      assert ch[1..][i - 1] == ch[i];
      PositionAt(ch[1..], i - 1);
    }
  }

  /** Steps a thread has left if no other thread changes the list. */
  function StepsLeft(pc: PC, ch: seq<int>): int {
    match pc
    case Idle => 0
    case AtHead => 5 * |ch| + 7
    case Aim(c) => 5 * (|ch| - Position(ch, c)) + 6
    case Grab(c, _) => 5 * (|ch| - Position(ch, c)) + 5
    case Load(c, _) => 5 * (|ch| - Position(ch, c)) + 4
    case Test(c, _) => 5 * (|ch| - Position(ch, c)) + 3
    case Advance(c, _) => 5 * (|ch| - Position(ch, c)) + 2
    case Check(_, _) => 6
    case Unlink(_, _) => 5
    case UnlockGone(_, _) => 4
    case Free(_, _) => 3
    case Alloc(_, _) => 5
    case Publish(_, _, _) => 4
    case UnlockCurr(_, _, _) => 3
    case UnlockLast(_, _) => 2
    case Return(_) => 1
  }

  /** The list does not change while a thread walks, so every step of its walk counts. */
  lemma WalkKeeps(s: State, ch: seq<int>, a: Action) returns (dh: seq<int>)
    requires Inv(s, ch) && Enabled(s, a) && !s.threads[a.t].pc.Idle?
    ensures Inv(Do(s, a), dh)
    ensures !s.threads[a.t].pc.Unlink? && !s.threads[a.t].pc.Publish? ==> dh == ch
  {
    LockNotNull(s, ch, a.t);
    hide Inv, Do, Enabled;
    var pc := s.threads[a.t].pc;
    dh := ch;
    if pc.Unlink? || pc.Publish? {
      dh := StepKeeps(s, ch, a);
    } else if pc.Return? || pc.Aim? || pc.Load? || pc.Test? {
      LocalKeeps(s, ch, a);
    } else if pc.Check? {
      CheckKeeps(s, ch, a);
    } else if pc.Alloc? || pc.Free? {
      NodeKeeps(s, ch, a);
    } else {
      LockKeeps(s, ch, a);
    }
  }

  lemma StepsFall(s: State, ch: seq<int>, a: Action) returns (dh: seq<int>)
    requires Inv(s, ch) && Enabled(s, a) && !s.threads[a.t].pc.Idle?
    ensures Inv(Do(s, a), dh) && |Do(s, a).threads| == |s.threads|
    ensures 0 <= StepsLeft(Do(s, a).threads[a.t].pc, dh) < StepsLeft(s.threads[a.t].pc, ch)
  {
    NextPc(s, a);
    hide Inv, Position, Do, Enabled;
    dh := WalkKeeps(s, ch, a);
    WalkPositions(s, ch, a.t);
    WalkPositions(Do(s, a), dh, a.t);
    hide WalkPlace, Follows, StepsLeft;
    LeftFalls(s.head, s.threads[a.t].pc, Do(s, a).threads[a.t].pc, ch, dh);
  }

  lemma LeftFalls(head: int, pc: PC, next: PC, ch: seq<int>, dh: seq<int>)
    requires Follows(head, pc, next) && WalkPlace(ch, pc) && WalkPlace(dh, next) && !pc.Idle?
    requires Position(ch, head) == 0 && |ch| >= 2 && (!pc.Unlink? && !pc.Publish? ==> dh == ch)
    ensures 0 <= StepsLeft(next, dh) < StepsLeft(pc, ch)
  {
    hide Position;
  }

  /** Which program point follows which. */
  predicate Follows(head: int, pc: PC, next: PC) {
    match pc
    case Idle => next == AtHead
    case AtHead => next == Aim(head)
    case Aim(c) => next.Grab? && next.curr == c
    case Grab(c, g) => next == Load(c, g)
    case Load(c, _) => next.Test? && next.curr == c
    case Test(c, n) => next == Advance(c, n) || next == Check(c, n)
    case Advance(_, n) => next == Aim(n)
    case Check(c, n) => next.Unlink? || next.Alloc? || next.UnlockCurr?
    case Unlink(c, n) => next == UnlockGone(c, n)
    case UnlockGone(c, g) => next == Free(c, g)
    case Free(c, _) => next == UnlockLast(c, true)
    case Alloc(_, _) => next.Publish?
    case Publish(c, n, _) => next == UnlockCurr(c, n, true)
    case UnlockCurr(_, n, r) => next == UnlockLast(n, r)
    case UnlockLast(_, r) => next == Return(r)
    case Return(_) => next == Idle
  }

  lemma NextPc(s: State, a: Action)
    requires Enabled(s, a)
    ensures |Do(s, a).threads| == |s.threads| && Do(s, a).head == s.head
    ensures Follows(s.head, s.threads[a.t].pc, Do(s, a).threads[a.t].pc)
  {
  }

  predicate WalkPlace(ch: seq<int>, pc: PC) {
    match pc
    case Aim(c) => Position(ch, c) < |ch|
    case Grab(c, _) => Position(ch, c) < |ch|
    case Load(c, _) => Position(ch, c) < |ch| - 1
    case Test(c, _) => Position(ch, c) < |ch| - 1
    case Advance(c, n) => Position(ch, c) < |ch| - 1 && Position(ch, n) == Position(ch, c) + 1
    case _ => true
  }

  /** Where the pointers of a walking thread stand in the list. */
  lemma WalkPositions(s: State, ch: seq<int>, t: int)
    requires Inv(s, ch) && 0 <= t < |s.threads|
    ensures Position(ch, s.head) == 0 && |ch| >= 2
    ensures WalkPlace(ch, s.threads[t].pc)
  {
    assert ThreadOk(s.heap, ch, t, s.threads[t]);
    ChainEnds(s.heap, s.head, ch);
    match s.threads[t].pc
    case Aim(c) => PlaceAt(s.heap, s.head, ch, c);
    case Grab(c, _) => PlaceAt(s.heap, s.head, ch, c);
    case Load(c, g) => PairAt(s.heap, s.head, ch, c, g);
    case Test(c, n) => PairAt(s.heap, s.head, ch, c, n);
    case Advance(c, n) => PairAt(s.heap, s.head, ch, c, n);
    case _ =>
  }

  lemma PlaceAt(h: map<int, Cell>, head: int, ch: seq<int>, c: int)
    requires Chain(h, head, ch) && c in ch
    ensures Position(ch, c) < |ch|
  {
    var i :| 0 <= i < |ch| && ch[i] == c;
    forall j | 0 <= j < i
      ensures ch[j] != ch[i]
    {
      DistinctInChain(h, head, ch, j, i);
    }
    PositionAt(ch, i);
  }

  lemma PairAt(h: map<int, Cell>, head: int, ch: seq<int>, c: int, n: int)
    requires Chain(h, head, ch) && c in ch && c in h && n in ch && h[c].next == n
    ensures Position(ch, c) < |ch| - 1 && Position(ch, n) == Position(ch, c) + 1
  {
    var i := Index(h, head, ch, c, n);
    forall j | 0 <= j < i + 1
      ensures ch[j] != ch[i + 1] && (j < i ==> ch[j] != ch[i])
    {
      DistinctInChain(h, head, ch, j, i + 1);
      DistinctInChain(h, head, ch, j, i);
    }
    PositionAt(ch, i);
    PositionAt(ch, i + 1);
  }

  /** A call that runs alone returns after a number of steps linear in the length of the list. */
  lemma {:induction false} AloneTerminates(ss: seq<State>, actions: seq<Action>, ch: seq<int>, t: int)
    requires |ss| == |actions| + 1 && Inv(ss[0], ch) && 0 <= t < |ss[0].threads|
    requires forall i :: 0 <= i < |actions| ==> (
      actions[i].t == t && Enabled(ss[i], actions[i]) && !ss[i].threads[t].pc.Idle? && ss[i + 1] == Do(ss[i], actions[i]))
    ensures |actions| <= StepsLeft(ss[0].threads[t].pc, ch) <= 5 * |ch| + 7
  {
    WalkPositions(ss[0], ch, t);
    if |actions| > 0 {
      var dh := StepsFall(ss[0], ch, actions[0]);
      hide Inv, Do, Enabled, StepsLeft;
      AloneTerminates(ss[1..], actions[1..], dh, t);
    }
  }

  // ----- Calls that run alone, with any value --------------------------------------------------------------------

  /** A call has its answer, or its next step is impossible. */
  predicate Over(s: State, a: Action)
    requires 0 <= a.t < |s.threads|
  {
    s.threads[a.t].pc.Idle? || s.threads[a.t].pc.Return? || !CanStep(s, a)
  }

  /** The state after n steps of one thread, or fewer if its call is over, while no other thread moves. */
  function Alone(s: State, a: Action, n: nat): (r: State)
    requires 0 <= a.t < |s.threads|
    ensures |r.threads| == |s.threads|
    decreases n
  {
    if n == 0 || Over(s, a) then s else Alone(Do(s, a), a, n - 1)
  }

  /** A call that runs alone from state s is over in state q. */
  ghost predicate Ends(s: State, a: Action, q: State)
    requires 0 <= a.t < |s.threads|
  {
    |q.threads| == |s.threads| && Over(q, a) && exists n: nat :: Alone(s, a, n) == q
  }

  lemma OverCan(s: State, a: Action)
    requires 0 <= a.t < |s.threads| && !Over(s, a)
    ensures CanStep(s, a) && |Do(s, a).threads| == |s.threads|
  {
  }

  lemma {:induction false} AloneOver(s: State, a: Action, m: nat, n: nat)
    requires 0 <= a.t < |s.threads| && m <= n && Over(Alone(s, a, m), a)
    ensures Alone(s, a, n) == Alone(s, a, m)
    decreases m
  {
    hide Over, Do;
    if m > 0 && !Over(s, a) {
      OverCan(s, a);
      AloneOver(Do(s, a), a, m - 1, n - 1);
    }
  }

  /** A call that runs alone ends in one way only. */
  lemma EndsOnce(s: State, a: Action, q: State, n: nat)
    requires 0 <= a.t < |s.threads| && Ends(s, a, q) && Over(Alone(s, a, n), a)
    ensures Alone(s, a, n) == q
  {
    var m: nat :| Alone(s, a, m) == q;
    if m <= n { AloneOver(s, a, m, n); } else { AloneOver(s, a, n, m); }
  }

  lemma EndsLater(s: State, a: Action, q: State)
    requires 0 <= a.t < |s.threads| && !Over(s, a) && Ends(Do(s, a), a, q)
    ensures Ends(s, a, q)
  {
    hide CanStep;
    var m: nat :| Alone(Do(s, a), a, m) == q;
    assert Alone(s, a, m + 1) == q;
  }

  /** Nobody is inside a call. */
  predicate Quiescent(s: State) {
    forall u :: 0 <= u < |s.threads| ==> s.threads[u].pc.Idle?
  }

  /** A call by a thread of a quiescent list, with memory left for a new node. */
  predicate LoneCaller(s: State, a: Action) {
    Quiescent(s) && 0 <= a.t < |s.threads| && a.addr != NULL && a.addr !in s.heap
  }

  /** The call ends with the answer of the sequential set and leaves the set that the sequential set leaves. */
  ghost predicate RightEnd(s: State, ch: seq<int>, a: Action, q: State, dh: seq<int>)
    requires LoneCaller(s, a) && |ch| > 0 && forall x | x in ch :: x in s.heap
  {
    && Ends(Do(s, a), a, q) && Chain(q.heap, q.head, dh) && (forall x | x in dh :: x in q.heap)
    && q.threads[a.t].pc == Return(Answer(Values(s.heap, ch), a.op, a.val))
    && Values(q.heap, dh) == Effects(Values(s.heap, ch), a.op, a.val)
  }

  /** Before its effect, and after it with its result. */
  ghost predicate OnCourse(s: State, r: State, a: Action) {
    && 0 <= a.t < |r.threads| && r.threads[a.t].op == a.op && r.threads[a.t].val == a.val && !r.threads[a.t].pc.Idle?
    && (forall u :: 0 <= u < |r.threads| && u != a.t ==> r.threads[u].pc.Idle?)
    && (NotAllocated(r.threads[a.t].pc) ==> a.addr != NULL && a.addr !in r.heap)
    && r.trace == s.trace + [Called(a.t, a.op, a.val)] + EffectOf(a, ExpectedPhase(r.threads[a.t]))
  }

  predicate NotAllocated(pc: PC) {
    pc.AtHead? || pc.Aim? || pc.Grab? || pc.Load? || pc.Test? || pc.Advance? || pc.Check? || pc.Alloc?
  }

  function EffectOf(a: Action, p: Phase): seq<Event> {
    if p.Done? then [Effect(a.t, a.op, a.val, p.result)] else []
  }

  lemma CourseStep(s: State, r: State, a: Action)
    requires OnCourse(s, r, a) && Enabled(r, a) && !r.threads[a.t].pc.Return?
    ensures OnCourse(s, Do(r, a), a)
  {
  }

  lemma CourseEnd(s: State, ch: seq<int>, r: State, rh: seq<int>, a: Action)
    requires Inv(s, ch) && Inv(r, rh) && OnCourse(s, r, a) && r.threads[a.t].pc.Return?
    ensures |ch| > 0 && |rh| > 0 && (forall x | x in ch :: x in s.heap) && (forall x | x in rh :: x in r.heap)
    ensures r.threads[a.t].pc.result == Answer(Values(s.heap, ch), a.op, a.val)
    ensures Values(r.heap, rh) == Effects(Values(s.heap, ch), a.op, a.val)
  {
    ChainIn(s.heap, s.head, ch);
    ChainIn(r.heap, r.head, rh);
    var call, e := Called(a.t, a.op, a.val), Effect(a.t, a.op, a.val, r.threads[a.t].pc.result);
    var n := |s.trace| + 1;
    assert r.trace == s.trace + [call] + [e];
    TraceAppend(s.trace, call, a.t);
    TraceAppend(s.trace + [call], e, a.t);
    assert r.trace[..n] == s.trace + [call] && r.trace[n] == e;
    hide Values, Structure, Phases, Elements, Effects, Answer;
  }

  lemma {:induction false} CourseEnds(s: State, ch: seq<int>, r: State, rh: seq<int>, a: Action) returns (q: State, dh: seq<int>)
    requires Inv(r, rh) && OnCourse(s, r, a)
    ensures Ends(r, a, q) && Inv(q, dh) && OnCourse(s, q, a) && q.threads[a.t].pc.Return?
    decreases if 0 <= a.t < |r.threads| then StepsLeft(r.threads[a.t].pc, rh) else 0
  {
    if r.threads[a.t].pc.Return? {
      q, dh := r, rh;
      assert Alone(r, a, 0) == q;
    } else {
      AloneEnabled(r, rh, a);
      var eh := StepsFall(r, rh, a);
      CourseStep(s, r, a);
      hide Inv, OnCourse, Do, StepsLeft;
      q, dh := CourseEnds(s, ch, Do(r, a), eh, a);
      EndsLater(r, a, q);
    }
  }

  /** Values below the upper sentinel: a call that runs alone does what the sequential set does. */
  lemma LoneCallRight(s: State, ch: seq<int>, a: Action) returns (q: State, dh: seq<int>)
    requires Inv(s, ch) && LoneCaller(s, a) && a.val < VAL_MAX
    ensures |ch| > 0 && (forall x | x in ch :: x in s.heap) && RightEnd(s, ch, a, q, dh)
  {
    var r := Do(s, a);
    LocalKeeps(s, ch, a);
    hide Inv, Phases, Structure;
    assert OnCourse(s, r, a);
    hide Do;
    q, dh := CourseEnds(s, ch, r, ch, a);
    hide OnCourse, Ends;
    CourseEnd(s, ch, q, dh, a);
    InvChain(q, dh);
  }

  lemma InvChain(s: State, ch: seq<int>)
    requires Inv(s, ch)
    ensures Chain(s.heap, s.head, ch)
  {
  }

  // ----- Calls with a value at or above the upper sentinel ---------------------------------------------------------

  /** A lone call stands between two neighbours of the list and holds their locks. */
  function Between(s: State, a: Action, c: int, n: int, pc: PC): State
    requires 0 <= a.t < |s.threads| && c in s.heap && n in s.heap
  {
    var h := s.heap[c := s.heap[c].(owner := a.t)];
    s.(heap := h[n := h[n].(owner := a.t)], threads := s.threads[a.t := Thread(a.op, a.val, pc)],
       trace := s.trace + [Called(a.t, a.op, a.val)])
  }

  /** The list of a quiescent state: sorted, and nothing is locked. */
  ghost predicate Resting(s: State, ch: seq<int>, a: Action) {
    && Chain(s.heap, s.head, ch) && LoneCaller(s, a)
    && (forall x | x in s.heap :: s.heap[x].owner == NULL)
  }

  lemma AtRest(s: State, ch: seq<int>, a: Action)
    requires Inv(s, ch) && LoneCaller(s, a)
    ensures Resting(s, ch, a)
  {
  }

  /** It holds the lock of one node. */
  function Holding(s: State, a: Action, n: int, pc: PC): State
    requires 0 <= a.t < |s.threads| && n in s.heap
  {
    s.(heap := s.heap[n := s.heap[n].(owner := a.t)], threads := s.threads[a.t := Thread(a.op, a.val, pc)],
       trace := s.trace + [Called(a.t, a.op, a.val)])
  }

  /** One step, after which the call may be over. */
  ghost predicate Steps(r: State, a: Action, next: State) {
    0 <= a.t < |r.threads| && !Over(r, a) && Do(r, a) == next
  }

  lemma EndsVia(r: State, a: Action, next: State, q: State)
    requires Steps(r, a, next) && 0 <= a.t < |next.threads| && Ends(next, a, q)
    ensures Ends(r, a, q)
  {
    EndsLater(r, a, q);
  }

  lemma TestOn(s: State, a: Action, c: int, n: int)
    requires 0 <= a.t < |s.threads| && c in s.heap && n in s.heap && c != n
    ensures s.heap[n].val < a.val ==> Steps(Between(s, a, c, n, Test(c, n)), a, Between(s, a, c, n, Advance(c, n)))
    ensures s.heap[n].val >= a.val ==> Steps(Between(s, a, c, n, Test(c, n)), a, Between(s, a, c, n, Check(c, n)))
  {
  }

  lemma LetGo(s: State, a: Action, c: int, n: int)
    requires 0 <= a.t < |s.threads| && c in s.heap && n in s.heap && c != n && s.heap[c].owner == NULL
    ensures Steps(Between(s, a, c, n, Advance(c, n)), a, Holding(s, a, n, Aim(n)))
  {
    var r := Between(s, a, c, n, Advance(c, n));
    assert r.heap[c := r.heap[c].(owner := NULL)] == s.heap[n := s.heap[n].(owner := a.t)];
  }

  lemma AimOn(s: State, a: Action, n: int)
    requires 0 <= a.t < |s.threads| && n in s.heap
    ensures Steps(Holding(s, a, n, Aim(n)), a, Holding(s, a, n, Grab(n, s.heap[n].next)))
  {
  }

  lemma GrabOn(s: State, a: Action, n: int, m: int)
    requires 0 <= a.t < |s.threads| && n in s.heap && m in s.heap && n != m && s.heap[m].owner == NULL && s.heap[n].next == m
    ensures Steps(Holding(s, a, n, Grab(n, m)), a, Between(s, a, n, m, Load(n, m)))
    ensures Steps(Between(s, a, n, m, Load(n, m)), a, Between(s, a, n, m, Test(n, m)))
  {
  }

  /** From the lock of one node to the comparison with the next. */
  lemma HoldingEnds(s: State, a: Action, n: int, m: int, q: State)
    requires 0 <= a.t < |s.threads| && n in s.heap && m in s.heap && n != m && s.heap[m].owner == NULL && s.heap[n].next == m
    requires Ends(Between(s, a, n, m, Test(n, m)), a, q)
    ensures Ends(Holding(s, a, n, Aim(n)), a, q)
  {
    AimOn(s, a, n);
    GrabOn(s, a, n, m);
    hide Ends, Steps;
    EndsVia(Between(s, a, n, m, Load(n, m)), a, Between(s, a, n, m, Test(n, m)), q);
    EndsVia(Holding(s, a, n, Grab(n, m)), a, Between(s, a, n, m, Load(n, m)), q);
    EndsVia(Holding(s, a, n, Aim(n)), a, Holding(s, a, n, Grab(n, m)), q);
  }

  /** From one pair of neighbours to the next, as long as the value is not reached. */
  lemma NextPair(s: State, ch: seq<int>, a: Action, i: nat, q: State)
    requires Resting(s, ch, a) && i + 2 < |ch| && VAL_MAX <= a.val && (forall x | x in ch :: x in s.heap)
    requires Ends(Between(s, a, ch[i + 1], ch[i + 2], Test(ch[i + 1], ch[i + 2])), a, q)
    ensures Ends(Between(s, a, ch[i], ch[i + 1], Test(ch[i], ch[i + 1])), a, q)
  {
    var c, n, m := ch[i], ch[i + 1], ch[i + 2];
    Three(s, ch, a, i);
    TestOn(s, a, c, n);
    LetGo(s, a, c, n);
    hide Chain, Resting, Ends, Steps;
    HoldingEnds(s, a, n, m, q);
    EndsVia(Between(s, a, c, n, Advance(c, n)), a, Holding(s, a, n, Aim(n)), q);
    EndsVia(Between(s, a, c, n, Test(c, n)), a, Between(s, a, c, n, Advance(c, n)), q);
  }

  lemma Three(s: State, ch: seq<int>, a: Action, i: nat)
    requires Resting(s, ch, a) && i + 2 < |ch|
    ensures ch[i] in s.heap && ch[i + 1] in s.heap && ch[i + 2] in s.heap && NULL !in s.heap && 0 <= a.t < |s.threads|
    ensures s.heap[ch[i]].next == ch[i + 1] && s.heap[ch[i + 1]].next == ch[i + 2]
    ensures ch[i] != ch[i + 1] && ch[i] != ch[i + 2] && ch[i + 1] != ch[i + 2]
    ensures s.heap[ch[i]].owner == NULL && s.heap[ch[i + 1]].owner == NULL && s.heap[ch[i + 2]].owner == NULL
    ensures s.heap[ch[i + 1]].val < VAL_MAX
  {
  }

  lemma {:induction false} ToTail(s: State, ch: seq<int>, a: Action, i: nat, q: State)
    requires Resting(s, ch, a) && i + 1 < |ch| && VAL_MAX <= a.val && (forall x | x in ch :: x in s.heap)
    requires Ends(Between(s, a, ch[|ch| - 2], ch[|ch| - 1], Test(ch[|ch| - 2], ch[|ch| - 1])), a, q)
    ensures Ends(Between(s, a, ch[i], ch[i + 1], Test(ch[i], ch[i + 1])), a, q)
    decreases |ch| - i
  {
    if i + 2 < |ch| {
      ToTail(s, ch, a, i + 1, q);
      NextPair(s, ch, a, i, q);
    }
  }

  /** From the call to the first comparison. */
  lemma ToFirst(s: State, ch: seq<int>, a: Action, q: State)
    requires Resting(s, ch, a) && (forall x | x in ch :: x in s.heap) && |ch| >= 2
    requires Ends(Between(s, a, ch[0], ch[1], Test(ch[0], ch[1])), a, q)
    ensures Ends(Do(s, a), a, q)
  {
    Two(s, ch, a);
    assert Steps(Do(s, a), a, Holding(s, a, ch[0], Aim(ch[0])));
    hide Chain, Resting, Ends, Steps;
    HoldingEnds(s, a, ch[0], ch[1], q);
    EndsVia(Do(s, a), a, Holding(s, a, ch[0], Aim(ch[0])), q);
  }

  lemma Two(s: State, ch: seq<int>, a: Action)
    requires Resting(s, ch, a) && |ch| >= 2
    ensures ch[0] == s.head && ch[0] in s.heap && ch[1] in s.heap && NULL !in s.heap && s.heap[ch[0]].next == ch[1]
    ensures ch[0] != ch[1] && s.heap[ch[0]].owner == NULL && s.heap[ch[1]].owner == NULL
    ensures 0 <= a.t < |s.threads| && s.threads[a.t].pc.Idle?
  {
  }

  lemma LastTwo(s: State, ch: seq<int>, a: Action)
    requires Resting(s, ch, a)
    ensures |ch| >= 2 && ch[|ch| - 2] in s.heap && ch[|ch| - 1] in s.heap && NULL !in s.heap
    ensures s.heap[ch[|ch| - 2]].next == ch[|ch| - 1] && s.heap[ch[|ch| - 1]].next == NULL && s.heap[ch[|ch| - 1]].val == VAL_MAX
    ensures ch[|ch| - 2] != ch[|ch| - 1] && s.heap[ch[|ch| - 2]].owner == NULL && s.heap[ch[|ch| - 1]].owner == NULL
    ensures 0 <= a.t < |s.threads| && forall x | x in ch :: x in s.heap
  {
  }

  /** What a call with the value of the upper sentinel leaves: a delete has taken the sentinel out. */
  function HeapAtSentinel(s: State, c: int, n: int, op: Op): map<int, Cell>
    requires c in s.heap && n in s.heap
  {
    if op.Delete? then s.heap[c := s.heap[c].(next := s.heap[n].next)] - {n} else s.heap
  }

  /** The comparison finds the upper sentinel; without a delete the locks are given back. */
  lemma LookAtSentinel(s: State, ch: seq<int>, a: Action) returns (q: State)
    requires Resting(s, ch, a) && a.val == VAL_MAX && !a.op.Delete? && |ch| >= 2 && (forall x | x in ch :: x in s.heap)
    ensures Ends(Between(s, a, ch[|ch| - 2], ch[|ch| - 1], Test(ch[|ch| - 2], ch[|ch| - 1])), a, q)
    ensures q.threads[a.t].pc == Return(!a.op.Insert?) && q.heap == s.heap && q.head == s.head
  {
    var c, n := ch[|ch| - 2], ch[|ch| - 1];
    LastTwo(s, ch, a);
    TestOn(s, a, c, n);
    hide Chain, Resting, Ends;
    var r1 := Between(s, a, c, n, Check(c, n));
    var r2 := Do(r1, a);
    assert Steps(r1, a, r2) && r2.threads[a.t].pc == UnlockCurr(c, n, !a.op.Insert?);
    q := GiveBack(s, a, c, n, r2);
    hide Steps, Do;
    EndsVia(r1, a, r2, q);
    EndsVia(Between(s, a, c, n, Test(c, n)), a, r1, q);
  }

  lemma GiveBack(s: State, a: Action, c: int, n: int, r: State) returns (q: State)
    requires 0 <= a.t < |s.threads| && |r.threads| == |s.threads| && c in s.heap && n in s.heap && c != n
    requires s.heap[c].owner == NULL && s.heap[n].owner == NULL && r.threads[a.t].pc.UnlockCurr?
    requires r.threads[a.t].pc.curr == c && r.threads[a.t].pc.next == n && r.heap == Between(s, a, c, n, Idle).heap
    ensures Ends(r, a, q) && q.threads[a.t].pc == Return(r.threads[a.t].pc.result) && q.heap == s.heap && q.head == r.head
  {
    var r1 := Do(r, a);
    q := Do(r1, a);
    assert q.heap == s.heap;
    EndsHere(q, a);
    hide Ends;
    EndsVia(r1, a, q, q);
    EndsVia(r, a, r1, q);
  }

  lemma EndsHere(q: State, a: Action)
    requires 0 <= a.t < |q.threads| && (q.threads[a.t].pc.Return? || !CanStep(q, a))
    ensures Ends(q, a, q)
  {
    assert Alone(q, a, 0) == q;
  }

  lemma DeleteSentinel(s: State, ch: seq<int>, a: Action) returns (q: State)
    requires Resting(s, ch, a) && a.val == VAL_MAX && a.op.Delete? && |ch| >= 2 && (forall x | x in ch :: x in s.heap)
    ensures Ends(Between(s, a, ch[|ch| - 2], ch[|ch| - 1], Test(ch[|ch| - 2], ch[|ch| - 1])), a, q)
    ensures q.threads[a.t].pc == Return(true) && q.head == s.head
    ensures q.heap == HeapAtSentinel(s, ch[|ch| - 2], ch[|ch| - 1], Delete)
  {
    var c, n := ch[|ch| - 2], ch[|ch| - 1];
    LastTwo(s, ch, a);
    TestOn(s, a, c, n);
    hide Chain, Resting, Ends;
    var r1 := Between(s, a, c, n, Check(c, n));
    var r2 := Between(s, a, c, n, Unlink(c, n));
    assert Steps(r1, a, r2);
    q := TakeOut(s, a, c, n);
    hide Steps, Do;
    EndsVia(r1, a, r2, q);
    EndsVia(Between(s, a, c, n, Test(c, n)), a, r1, q);
  }

  lemma TakeOut(s: State, a: Action, c: int, n: int) returns (q: State)
    requires 0 <= a.t < |s.threads| && c in s.heap && n in s.heap && c != n && s.heap[c].owner == NULL
    ensures Ends(Between(s, a, c, n, Unlink(c, n)), a, q) && q.threads[a.t].pc == Return(true) && q.head == s.head
    ensures q.heap == HeapAtSentinel(s, c, n, Delete)
  {
    var r0 := Between(s, a, c, n, Unlink(c, n));
    var r1 := Do(r0, a);
    var r2 := Do(r1, a);
    var r3 := Do(r2, a);
    assert r3.heap == r1.heap - {n} && r3.threads[a.t].pc == UnlockLast(c, true);
    q := Do(r3, a);
    assert q.heap == HeapAtSentinel(s, c, n, Delete);
    assert Steps(r0, a, r1) && Steps(r1, a, r2) && Steps(r2, a, r3) && Steps(r3, a, q);
    EndsHere(q, a);
    hide Ends, Steps;
    EndsVia(r3, a, q, q);
    EndsVia(r2, a, r3, q);
    EndsVia(r1, a, r2, q);
    EndsVia(r0, a, r1, q);
  }

  /** A call with the value of the upper sentinel takes the sentinel for an element: find and delete answer
      true and insert false, although the value is in no set, and a delete unlinks and frees the sentinel. */
  lemma AtSentinel(s: State, ch: seq<int>, a: Action) returns (q: State)
    requires Inv(s, ch) && LoneCaller(s, a) && a.val == VAL_MAX
    ensures |ch| >= 2 && forall x | x in ch :: x in s.heap
    ensures Ends(Do(s, a), a, q) && q.threads[a.t].pc == Return(!a.op.Insert?) && a.val !in Values(s.heap, ch)
    ensures q.heap == HeapAtSentinel(s, ch[|ch| - 2], ch[|ch| - 1], a.op)
  {
    AtRest(s, ch, a);
    LastTwo(s, ch, a);
    if a.op.Delete? {
      q := DeleteSentinel(s, ch, a);
    } else {
      q := LookAtSentinel(s, ch, a);
    }
    hide Inv, Resting, Chain, Ends;
    ToTail(s, ch, a, 0, q);
    ToFirst(s, ch, a, q);
  }

  /** A call with a larger value holds the lock of the upper sentinel and wants to lock what is behind it:
      it follows the NULL pointer. */
  lemma BeyondSentinel(s: State, ch: seq<int>, a: Action) returns (q: State)
    requires Inv(s, ch) && LoneCaller(s, a) && VAL_MAX < a.val
    ensures |ch| >= 2 && Ends(Do(s, a), a, q) && q.threads[a.t].pc == Grab(ch[|ch| - 1], NULL)
    ensures NULL in Touches(q, a.t) && NULL !in q.heap
  {
    AtRest(s, ch, a);
    LastTwo(s, ch, a);
    var c, n := ch[|ch| - 2], ch[|ch| - 1];
    TestOn(s, a, c, n);
    LetGo(s, a, c, n);
    AimOn(s, a, n);
    q := Holding(s, a, n, Grab(n, NULL));
    assert NULL in Touches(q, a.t) && NULL !in q.heap;
    EndsHere(q, a);
    hide Inv, Chain, Ends, Steps, Resting;
    EndsVia(Holding(s, a, n, Aim(n)), a, q, q);
    EndsVia(Between(s, a, c, n, Advance(c, n)), a, Holding(s, a, n, Aim(n)), q);
    EndsVia(Between(s, a, c, n, Test(c, n)), a, Between(s, a, c, n, Advance(c, n)), q);
    ToTail(s, ch, a, 0, q);
    ToFirst(s, ch, a, q);
  }

  /** The exact condition: from every quiescent state, a call that runs alone behaves like the sequential
      set if and only if its value is below the upper sentinel. */
  lemma LoneCall(s: State, ch: seq<int>, a: Action)
    requires Inv(s, ch) && LoneCaller(s, a)
    ensures |ch| > 0 && forall x | x in ch :: x in s.heap
    ensures (exists q, dh :: RightEnd(s, ch, a, q, dh)) <==> a.val < VAL_MAX
  {
    AtRest(s, ch, a);
    LastTwo(s, ch, a);
    if a.val < VAL_MAX {
      var q, dh := LoneCallRight(s, ch, a);
    } else {
      var p := WrongEnd(s, ch, a);
      forall q, dh
        ensures !RightEnd(s, ch, a, q, dh)
      {
        if RightEnd(s, ch, a, q, dh) { OneEnd(Do(s, a), a, p, q); }
      }
    }
  }

  lemma OneEnd(s: State, a: Action, p: State, q: State)
    requires 0 <= a.t < |s.threads| && Ends(s, a, p) && Ends(s, a, q)
    ensures p == q
  {
    var n: nat :| Alone(s, a, n) == q;
    EndsOnce(s, a, p, n);
  }

  lemma WrongEnd(s: State, ch: seq<int>, a: Action) returns (p: State)
    requires Inv(s, ch) && LoneCaller(s, a) && VAL_MAX <= a.val
    ensures |ch| > 0 && (forall x | x in ch :: x in s.heap) && Ends(Do(s, a), a, p)
    ensures p.threads[a.t].pc != Return(Answer(Values(s.heap, ch), a.op, a.val))
  {
    AtRest(s, ch, a);
    LastTwo(s, ch, a);
    if a.val == VAL_MAX {
      p := AtSentinel(s, ch, a);
    } else {
      p := BeyondSentinel(s, ch, a);
    }
  }

  /** The list as it is made, and one thread. */
  function EmptyList(): State {
    State(map[0 := Cell(VAL_MIN, 1, NULL), 1 := Cell(VAL_MAX, NULL, NULL)], 0, [Thread(Find, 0, Idle)], [])
  }

  lemma EmptyListHolds()
    ensures Inv(EmptyList(), [0, 1]) && Values(EmptyList().heap, [0, 1]) == {}
    ensures LoneCaller(EmptyList(), Action(0, Find, VAL_MAX, 2))
  {
    var s := EmptyList();
    assert forall x | x in s.heap :: x in [0, 1];
  }

  /** find(INT_MAX) on the empty list answers true. */
  lemma EmptyFindsMax() returns (q: State)
    ensures Ends(Do(EmptyList(), Action(0, Find, VAL_MAX, 2)), Action(0, Find, VAL_MAX, 2), q)
    ensures q.threads[0].pc == Return(true)
  {
    EmptyListHolds();
    q := AtSentinel(EmptyList(), [0, 1], Action(0, Find, VAL_MAX, 2));
  }

  /** delete(INT_MAX) on the empty list answers true and leaves only the lower sentinel. */
  lemma EmptyDeletesMax() returns (q: State)
    ensures Ends(Do(EmptyList(), Action(0, Delete, VAL_MAX, 2)), Action(0, Delete, VAL_MAX, 2), q)
    ensures q.threads[0].pc == Return(true) && q.heap == map[0 := Cell(VAL_MIN, NULL, NULL)]
  {
    EmptyListHolds();
    q := AtSentinel(EmptyList(), [0, 1], Action(0, Delete, VAL_MAX, 2));
  }

  /** find(INT_MAX + 1) on the empty list follows the NULL pointer of the upper sentinel. */
  lemma EmptyRunsOff() returns (q: State)
    ensures Ends(Do(EmptyList(), Action(0, Find, VAL_MAX + 1, 2)), Action(0, Find, VAL_MAX + 1, 2), q)
    ensures q.threads[0].pc == Grab(1, NULL) && NULL in Touches(q, 0) && NULL !in q.heap
  {
    EmptyListHolds();
    q := BeyondSentinel(EmptyList(), [0, 1], Action(0, Find, VAL_MAX + 1, 2));
  }
}
