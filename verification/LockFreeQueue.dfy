/** The single-producer, single-consumer queue of `pbench/LFQueue/src/LockFreeQueue.cc` as a transition
    system: the two threads interleave between any two memory accesses, which are sequentially
    consistent. */
module LockFreeQueue {

  const NULL := -1

  datatype Node = Node(value: int, next: int)

  /** Where the producer is in `Produce`, with its local pointers. */
  datatype Producer =
    | PIdle
    | PNew(value: int)      // new Node(t)
    | PLink(made: int)      // last->next = made
    | PRead                 // read last->next
    | PStore(node: int)     // last = node
    | PTest                 // while (first != divider)
    | PTake                 // tmp = first
    | PMove(tmp: int)       // first = first->next
    | PDelete(tmp: int)     // delete tmp

  /** Where the consumer is in `Consume`. */
  datatype Consumer =
    | CIdle
    | CTest                              // if (divider != last)
    | CAim                               // read divider->next
    | CCopy(node: int)                   // result = node->value
    | CRead(result: int)                 // read divider->next
    | CStore(result: int, node: int)     // divider = node
    | CReturn(found: bool, result: int)

  /** The queue with what was produced and consumed so far. */
  datatype State = State(heap: map<int, Node>, first: int, divider: int, last: int,
                         p: Producer, c: Consumer, produced: seq<int>, consumed: seq<int>)

  /** A step of one of the two threads; the value is used when `Produce` is called, the address when a
      node is allocated. */
  datatype Action = ProducerStep(value: int, addr: int) | ConsumerStep

  // ----- Steps --------------------------------------------------------------------------------------

  /** The nodes a step reads or writes. */
  function Touches(s: State, a: Action): set<int> {
    if a.ConsumerStep? then
      match s.c
      case CAim => {s.divider}
      case CCopy(n) => {n}
      case CRead(_) => {s.divider}
      case _ => {}
    else
      match s.p
      case PLink(_) => {s.last}
      case PRead => {s.last}
      case PMove(_) => {s.first}
      case PDelete(x) => {x}
      case _ => {}
  }

  predicate Enabled(s: State, a: Action) {
    && (forall x | x in Touches(s, a) :: x in s.heap)
    && (a.ProducerStep? && s.p.PNew? ==> a.addr != NULL && a.addr !in s.heap)
  }

  function Do(s: State, a: Action): State
    requires Enabled(s, a)
  {
    if a.ConsumerStep? then
      match s.c
      case CIdle => s.(c := CTest)
      case CTest => s.(c := if s.divider != s.last then CAim else CReturn(false, 0))
      case CAim => s.(c := CCopy(s.heap[s.divider].next))
      case CCopy(n) => s.(c := CRead(s.heap[n].value))
      case CRead(r) => s.(c := CStore(r, s.heap[s.divider].next))
      case CStore(r, n) => s.(c := CReturn(true, r), divider := n, consumed := s.consumed + [r])
      case CReturn(_, _) => s.(c := CIdle)
    else
      match s.p
      case PIdle => s.(p := PNew(a.value))
      case PNew(v) => s.(p := PLink(a.addr), heap := s.heap[a.addr := Node(v, NULL)])
      case PLink(x) => s.(p := PRead, heap := s.heap[s.last := s.heap[s.last].(next := x)])
      case PRead => s.(p := PStore(s.heap[s.last].next))
      case PStore(x) => s.(p := PTest, last := x, produced := s.produced + if x in s.heap then [s.heap[x].value] else [])
      case PTest => s.(p := if s.first != s.divider then PTake else PIdle)
      case PTake => s.(p := PMove(s.first))
      case PMove(x) => s.(p := PDelete(x), first := s.heap[s.first].next)
      case PDelete(x) => s.(p := PTest, heap := s.heap - {x})
  }

  ghost predicate Init(s: State) {
    && s.p.PIdle? && s.c.CIdle? && s.produced == [] && s.consumed == []
    && s.first == s.divider == s.last != NULL && s.heap == map[s.first := Node(0, NULL)]
  }

  // ----- The invariant --------------------------------------------------------------------------------

  /** The nodes from first on, and the places of the divider and of the last published node in them. */
  datatype View = View(ch: seq<int>, d: nat, l: nat)

  ghost predicate Chain(h: map<int, Node>, ch: seq<int>) {
    && |ch| > 0 && NULL !in h
    && (forall i :: 0 <= i < |ch| ==> ch[i] in h)
    && (forall i, j :: 0 <= i < j < |ch| ==> ch[i] != ch[j])
    && (forall i :: 0 <= i < |ch| - 1 ==> h[ch[i]].next == ch[i + 1])
    && h[ch[|ch| - 1]].next == NULL
  }

  /** first precedes the divider, which precedes last, on one chain with at most one unpublished node. */
  ghost predicate Placed(s: State, v: View) {
    && Chain(s.heap, v.ch) && v.d <= v.l < |v.ch|
    && v.ch[0] == s.first && v.ch[v.d] == s.divider && v.ch[v.l] == s.last
    && |v.ch| == v.l + if s.p.PRead? || s.p.PStore? then 2 else 1
  }

  /** The values between the divider and last. */
  function Pending(h: map<int, Node>, v: View): (r: seq<int>)
    requires v.d <= v.l < |v.ch| && forall i :: 0 <= i < |v.ch| ==> v.ch[i] in h
    ensures |r| == v.l - v.d && forall i :: 0 <= i < |r| ==> r[i] == h[v.ch[v.d + 1 + i]].value
  {
    seq(v.l - v.d, i requires 0 <= i < v.l - v.d => h[v.ch[v.d + 1 + i]].value)
  }

  /** The node outside the chain that only the producer knows, or NULL. */
  function Private(p: Producer): int {
    match p
    case PLink(x) => x
    case PDelete(x) => x
    case _ => NULL
  }

  ghost predicate ProducerOk(s: State, v: View)
    requires |v.ch| > 0
  {
    && (Private(s.p) != NULL ==> Private(s.p) in s.heap && Private(s.p) !in v.ch)
    && match s.p
       case PLink(x) => x in s.heap && s.heap[x].next == NULL
       case PStore(x) => x == v.ch[|v.ch| - 1]
       case PTake => v.d > 0
       case PMove(x) => v.d > 0 && x == s.first
       case PDelete(x) => x in s.heap
       case _ => true
  }

  ghost predicate ConsumerOk(s: State, v: View)
    requires v.d <= v.l < |v.ch|
  {
    match s.c
    case CAim => v.d < v.l
    case CCopy(n) => v.d < v.l && n == v.ch[v.d + 1]
    case CRead(r) => v.d < v.l && v.ch[v.d + 1] in s.heap && r == s.heap[v.ch[v.d + 1]].value
    case CStore(r, n) => v.d < v.l && n == v.ch[v.d + 1] && n in s.heap && r == s.heap[n].value
    case CReturn(true, r) => |s.consumed| > 0 && r == s.consumed[|s.consumed| - 1]
    case _ => true
  }

  /** No memory is lost. */
  ghost predicate NoLeak(s: State, v: View) {
    forall x | x in s.heap :: x in v.ch || x == Private(s.p)
  }

  ghost predicate Inv(s: State, v: View) {
    && Placed(s, v) && ProducerOk(s, v) && ConsumerOk(s, v) && NoLeak(s, v)
    && s.consumed + Pending(s.heap, v) == s.produced
  }

  // ----- Every step keeps it ------------------------------------------------------------------------------

  /** The nodes of the chain keep their values and successors. */
  ghost predicate SameNodes(h: map<int, Node>, k: map<int, Node>, ch: seq<int>) {
    NULL !in k && forall x | x in ch :: x in h && x in k && k[x] == h[x]
  }

  lemma ChainKept(h: map<int, Node>, k: map<int, Node>, ch: seq<int>)
    requires Chain(h, ch) && SameNodes(h, k, ch)
    ensures Chain(k, ch) && forall i :: 0 <= i < |ch| ==> k[ch[i]] == h[ch[i]]
  {
    forall i | 0 <= i < |ch|
      ensures ch[i] in h && ch[i] in k && k[ch[i]] == h[ch[i]]
    {
      var x := ch[i];
      assert x in ch;
    }
  }

  lemma ConsumerKeeps(s: State, v: View) returns (w: View)
    requires Inv(s, v) && Enabled(s, ConsumerStep)
    ensures Inv(Do(s, ConsumerStep), w) && w == v.(d := if s.c.CStore? then v.d + 1 else v.d)
  {
    if s.c.CStore? {
      w := TakeKeeps(s, v);
    } else {
      w := v;
      if v.d < v.l { NextAt(s.heap, v.ch, v.d); }
      assert s.divider != s.last ==> v.d != v.l;
      hide Chain, Pending, NoLeak, ProducerOk;
    }
  }

  lemma NextAt(h: map<int, Node>, ch: seq<int>, i: nat)
    requires Chain(h, ch) && i < |ch| - 1
    ensures ch[i] in h && ch[i + 1] in h && h[ch[i]].next == ch[i + 1]
  {
  }

  lemma PendingHead(h: map<int, Node>, v: View)
    requires v.d < v.l < |v.ch| && forall i :: 0 <= i < |v.ch| ==> v.ch[i] in h
    ensures Pending(h, v) == [h[v.ch[v.d + 1]].value] + Pending(h, v.(d := v.d + 1))
  {
  }

  /** `divider = divider->next` */
  lemma TakeKeeps(s: State, v: View) returns (w: View)
    requires Inv(s, v) && s.c.CStore? && Enabled(s, ConsumerStep)
    ensures Inv(Do(s, ConsumerStep), w) && w == v.(d := v.d + 1)
  {
    w := v.(d := v.d + 1);
    PendingHead(s.heap, v);
    hide Pending, NoLeak, Chain;
    assert s.consumed + ([s.c.result] + Pending(s.heap, w)) == (s.consumed + [s.c.result]) + Pending(s.heap, w);
  }

  /** The steps of `Produce` that leave nodes and pointers alone. */
  lemma ProducerLocal(s: State, v: View, a: Action)
    requires Inv(s, v) && a.ProducerStep? && Enabled(s, a) && (s.p.PIdle? || s.p.PRead? || s.p.PTest? || s.p.PTake?)
    ensures Inv(Do(s, a), v)
  {
    if s.p.PTest? && s.first != s.divider {
      assert v.d != 0;
    }
    assert s.p.PRead? ==> s.heap[v.ch[v.l]].next == v.ch[v.l + 1];
  }

  lemma NewKeeps(s: State, v: View, a: Action)
    requires Inv(s, v) && a.ProducerStep? && Enabled(s, a) && s.p.PNew?
    ensures Inv(Do(s, a), v)
  {
    var k := Do(s, a).heap;
    assert SameNodes(s.heap, k, v.ch);
    ChainKept(s.heap, k, v.ch);
    assert Pending(k, v) == Pending(s.heap, v);
  }

  lemma LinkKeeps(s: State, v: View, a: Action) returns (w: View)
    requires Inv(s, v) && a.ProducerStep? && Enabled(s, a) && s.p.PLink?
    ensures Inv(Do(s, a), w) && w == v.(ch := v.ch + [s.p.made])
  {
    var x, k := s.p.made, Do(s, a).heap;
    w := v.(ch := v.ch + [x]);
    LinkChain(s.heap, v.ch, x);
    assert Pending(k, w) == Pending(s.heap, v);
    hide Chain, Pending;
  }

  lemma LinkChain(h: map<int, Node>, ch: seq<int>, x: int)
    requires Chain(h, ch) && x in h && x !in ch && h[x].next == NULL
    ensures Chain(h[ch[|ch| - 1] := h[ch[|ch| - 1]].(next := x)], ch + [x])
  {
    assert ch[|ch| - 1] in ch;
  }

  lemma StoreKeeps(s: State, v: View, a: Action) returns (w: View)
    requires Inv(s, v) && a.ProducerStep? && Enabled(s, a) && s.p.PStore?
    ensures Inv(Do(s, a), w) && w == v.(l := v.l + 1)
  {
    w := v.(l := v.l + 1);
    assert Pending(s.heap, w) == Pending(s.heap, v) + [s.heap[s.p.node].value];
  }

  lemma MoveKeeps(s: State, v: View, a: Action) returns (w: View)
    requires Inv(s, v) && a.ProducerStep? && Enabled(s, a) && s.p.PMove?
    ensures v.d > 0 && w == View(v.ch[1..], v.d - 1, v.l - 1) && Inv(Do(s, a), w)
  {
    w := View(v.ch[1..], v.d - 1, v.l - 1);
    var r := Do(s, a);
    assert r == s.(p := PDelete(s.first), first := s.heap[s.first].next) && s.p.tmp == s.first;
    MovePlaced(s, v, r, w);
    ChainTail(s.heap, v.ch);
    PendingTail(s.heap, v);
    MoveConsumer(s, v, r, w);
    hide Chain, Pending, ConsumerOk, Placed, Do;
  }

  lemma MovePlaced(s: State, v: View, r: State, w: View)
    requires Placed(s, v) && v.d > 0 && s.p.PMove? && w == View(v.ch[1..], v.d - 1, v.l - 1)
    requires s.first in s.heap && r == s.(p := r.p, first := s.heap[s.first].next) && r.p.PDelete?
    ensures Placed(r, w)
  {
    ChainTail(s.heap, v.ch);
    NextAt(s.heap, v.ch, 0);
    hide Chain;
  }

  lemma MoveConsumer(s: State, v: View, r: State, w: View)
    requires v.d <= v.l < |v.ch| && ConsumerOk(s, v) && v.d > 0 && w == View(v.ch[1..], v.d - 1, v.l - 1)
    requires r.c == s.c && r.heap == s.heap && r.consumed == s.consumed
    ensures ConsumerOk(r, w)
  {
    assert v.d < v.l ==> w.ch[w.d + 1] == v.ch[v.d + 1];
  }

  lemma ChainTail(h: map<int, Node>, ch: seq<int>)
    requires Chain(h, ch) && |ch| > 1
    ensures Chain(h, ch[1..]) && ch[0] !in ch[1..] && forall x :: x in ch <==> x == ch[0] || x in ch[1..]
  {
    assert ch == [ch[0]] + ch[1..];
  }

  lemma PendingTail(h: map<int, Node>, v: View)
    requires 0 < v.d <= v.l < |v.ch| && forall i :: 0 <= i < |v.ch| ==> v.ch[i] in h
    ensures Pending(h, View(v.ch[1..], v.d - 1, v.l - 1)) == Pending(h, v)
  {
  }

  lemma DeleteKeeps(s: State, v: View, a: Action)
    requires Inv(s, v) && a.ProducerStep? && Enabled(s, a) && s.p.PDelete?
    ensures Inv(Do(s, a), v)
  {
    var k := Do(s, a).heap;
    assert s.p.tmp !in v.ch;
    assert SameNodes(s.heap, k, v.ch);
    ChainKept(s.heap, k, v.ch);
    assert Pending(k, v) == Pending(s.heap, v);
  }

  /** Every step of either thread keeps the invariant. */
  lemma StepKeeps(s: State, v: View, a: Action) returns (w: View)
    requires Inv(s, v) && Enabled(s, a)
    ensures Inv(Do(s, a), w)
    ensures a.ProducerStep? && s.p.PMove? ==> v.l > 0
    ensures w.l == if a.ProducerStep? && s.p.PStore? then v.l + 1 else if a.ProducerStep? && s.p.PMove? then v.l - 1 else v.l
  {
    hide Inv, Enabled, Do;
    w := v;
    if a.ConsumerStep? {
      w := ConsumerKeeps(s, v);
    } else {
      match s.p
      case PIdle => ProducerLocal(s, v, a);
      case PRead => ProducerLocal(s, v, a);
      case PTest => ProducerLocal(s, v, a);
      case PTake => ProducerLocal(s, v, a);
      case PNew(_) => NewKeeps(s, v, a);
      case PLink(_) => w := LinkKeeps(s, v, a);
      case PStore(_) => w := StoreKeeps(s, v, a);
      case PMove(_) => w := MoveKeeps(s, v, a);
      case PDelete(_) => DeleteKeeps(s, v, a);
    }
  }

  // ----- Runs ---------------------------------------------------------------------------------------------

  ghost predicate Run(ss: seq<State>, actions: seq<Action>) {
    && |ss| == |actions| + 1 && Init(ss[0])
    && forall i :: 0 <= i < |actions| ==> Enabled(ss[i], actions[i]) && ss[i + 1] == Do(ss[i], actions[i])
  }

  lemma {:induction false} RunHolds(ss: seq<State>, actions: seq<Action>, k: nat) returns (v: View)
    requires Run(ss, actions) && k < |ss|
    ensures Inv(ss[k], v)
  {
    if k == 0 {
      v := View([ss[0].first], 0, 0);
    } else {
      var before := RunHolds(ss, actions, k - 1);
      hide Inv, Do, Enabled;
      v := StepKeeps(ss[k - 1], before, actions[k - 1]);
    }
  }

  /** The arguments of the first k steps' calls of `Produce`, in order. */
  function Arguments(ss: seq<State>, actions: seq<Action>, k: nat): seq<int>
    requires k <= |actions| < |ss|
  {
    if k == 0 then []
    else
      Arguments(ss, actions, k - 1)
        + if actions[k - 1].ProducerStep? && ss[k - 1].p.PIdle? then [actions[k - 1].value] else []
  }

  /** What calls of `Consume` that reported success returned in the first k steps, in order. */
  function Results(ss: seq<State>, actions: seq<Action>, k: nat): seq<int>
    requires k <= |actions| < |ss|
  {
    if k == 0 then []
    else
      Results(ss, actions, k - 1)
        + if actions[k - 1].ConsumerStep? then match ss[k - 1].c case CReturn(true, r) => [r] case _ => [] else []
  }

  function ValueAt(h: map<int, Node>, x: int): seq<int> {
    if x in h then [h[x].value] else []
  }

  /** The argument of a call that has not published its node yet. */
  function Unpublished(s: State): seq<int> {
    match s.p
    case PNew(v) => [v]
    case PLink(x) => ValueAt(s.heap, x)
    case PRead => if s.last in s.heap then ValueAt(s.heap, s.heap[s.last].next) else []
    case PStore(x) => ValueAt(s.heap, x)
    case _ => []
  }

  /** The result of a call that is about to return. */
  function InHand(s: State): seq<int> {
    match s.c
    case CReturn(true, r) => [r]
    case _ => []
  }

  lemma ArgumentsStep(s: State, v: View, a: Action)
    requires Inv(s, v) && Enabled(s, a)
    ensures Do(s, a).produced + Unpublished(Do(s, a))
      == s.produced + Unpublished(s) + if a.ProducerStep? && s.p.PIdle? then [a.value] else []
  {
    hide Pending, ConsumerOk, NoLeak;
    if s.p.PRead? || s.p.PStore? { NextAt(s.heap, v.ch, v.l); }
  }

  lemma {:induction false} ArgumentsHold(ss: seq<State>, actions: seq<Action>, k: nat)
    requires Run(ss, actions) && k < |ss|
    ensures Arguments(ss, actions, k) == ss[k].produced + Unpublished(ss[k])
  {
    if k > 0 {
      ArgumentsHold(ss, actions, k - 1);
      var v := RunHolds(ss, actions, k - 1);
      ArgumentsStep(ss[k - 1], v, actions[k - 1]);
    }
  }

  lemma {:induction false} ResultsHold(ss: seq<State>, actions: seq<Action>, k: nat)
    requires Run(ss, actions) && k < |ss|
    ensures ss[k].consumed == Results(ss, actions, k) + InHand(ss[k])
  {
    if k > 0 {
      ResultsHold(ss, actions, k - 1);
    }
  }

  /** In every state of every interleaving, what `Consume` returned, then the result in hand, then the values
      in the queue, then the one that is not published yet, are the arguments of `Produce` in order. */
  lemma FirstInFirstOut(ss: seq<State>, actions: seq<Action>, k: nat) returns (v: View)
    requires Run(ss, actions) && k < |ss|
    ensures Placed(ss[k], v)
    ensures Results(ss, actions, k) + InHand(ss[k]) + Pending(ss[k].heap, v) + Unpublished(ss[k]) == Arguments(ss, actions, k)
    ensures Results(ss, actions, k) <= Arguments(ss, actions, k)
    ensures ss[k].p.PIdle? && ss[k].c.CIdle? ==> Results(ss, actions, k) + Pending(ss[k].heap, v) == Arguments(ss, actions, k)
  {
    v := RunHolds(ss, actions, k);
    ArgumentsHold(ss, actions, k);
    ResultsHold(ss, actions, k);
    hide Results, Arguments, Pending;
  }

  /** `Consume` reports an empty queue exactly if nothing is pending at its test. */
  lemma EmptyIsTrue(s: State, v: View)
    requires Inv(s, v) && s.c.CTest?
    ensures Enabled(s, ConsumerStep) && (Do(s, ConsumerStep).c == CReturn(false, 0) <==> Pending(s.heap, v) == [])
  {
    if s.divider == s.last { assert v.d == v.l; }
  }

  /** `Produce` ends exactly when no node that the consumer has passed is left. */
  lemma TrimsAll(s: State, v: View, a: Action)
    requires Inv(s, v) && s.p.PTest? && a.ProducerStep?
    ensures Enabled(s, a) && (Do(s, a).p.PIdle? <==> v.d == 0) && (v.d > 0 ==> Do(s, a).p.PTake?)
  {
    if s.first == s.divider { assert v.d == 0; }
  }

  // ----- Memory safety and progress --------------------------------------------------------------------------

  /** No step reads or writes a deleted node: both threads can always go on, whatever the other does. */
  lemma NeverBlocked(s: State, v: View, a: Action)
    requires Inv(s, v) && (a.ProducerStep? ==> a.addr != NULL && a.addr !in s.heap)
    ensures Enabled(s, a)
  {
  }

  /** The consumer never touches a node that the producer has taken out for deletion or not yet published. */
  lemma ConsumerKeepsOut(s: State, v: View)
    requires Inv(s, v)
    ensures Private(s.p) !in Touches(s, ConsumerStep) && (s.p.PMove? ==> s.p.tmp !in Touches(s, ConsumerStep))
    ensures s.p.PRead? || s.p.PStore? ==> v.ch[|v.ch| - 1] !in Touches(s, ConsumerStep)
  {
    assert s.divider in v.ch;
    assert forall n | s.c == CCopy(n) :: n in v.ch;
  }

  /** Steps `Consume` has left. */
  function ConsumerLeft(c: Consumer): nat {
    match c
    case CIdle => 0
    case CTest => 6
    case CAim => 5
    case CCopy(_) => 4
    case CRead(_) => 3
    case CStore(_, _) => 2
    case CReturn(_, _) => 1
  }

  /** Steps `Produce` has left at most: it deletes no more nodes than there are before last. */
  function ProducerLeft(p: Producer, l: nat): nat {
    match p
    case PIdle => 0
    case PNew(_) => 4 * l + 10
    case PLink(_) => 4 * l + 9
    case PRead => 4 * l + 8
    case PStore(_) => 4 * l + 7
    case PTest => 4 * l + 2
    case PTake => 4 * l + 1
    case PMove(_) => 4 * l
    case PDelete(_) => 4 * l + 3
  }

  lemma ConsumerFalls(s: State)
    requires Enabled(s, ConsumerStep)
    ensures Do(s, ConsumerStep).p == s.p && (!s.c.CIdle? ==> ConsumerLeft(Do(s, ConsumerStep).c) < ConsumerLeft(s.c))
  {
  }

  lemma ProducerFalls(s: State, a: Action, l: nat, m: nat)
    requires a.ProducerStep? && Enabled(s, a) && (s.p.PMove? ==> l > 0)
    requires m == if s.p.PStore? then l + 1 else if s.p.PMove? then l - 1 else l
    ensures Do(s, a).c == s.c && (!s.p.PIdle? ==> ProducerLeft(Do(s, a).p, m) < ProducerLeft(s.p, l))
  {
  }

  /** Both operations are wait-free: every own step brings a call closer to its end, and no step of the
      other thread takes it further away. */
  lemma WaitFree(s: State, v: View, a: Action) returns (w: View)
    requires Inv(s, v) && Enabled(s, a)
    ensures Inv(Do(s, a), w)
    ensures a.ConsumerStep? ==> ProducerLeft(Do(s, a).p, w.l) == ProducerLeft(s.p, v.l)
    ensures a.ConsumerStep? && !s.c.CIdle? ==> ConsumerLeft(Do(s, a).c) < ConsumerLeft(s.c)
    ensures a.ProducerStep? ==> ConsumerLeft(Do(s, a).c) == ConsumerLeft(s.c)
    ensures a.ProducerStep? && !s.p.PIdle? ==> ProducerLeft(Do(s, a).p, w.l) < ProducerLeft(s.p, v.l)
  {
    hide Inv, Enabled, Do, ProducerLeft, ConsumerLeft;
    w := StepKeeps(s, v, a);
    if a.ConsumerStep? {
      ConsumerFalls(s);
    } else {
      ProducerFalls(s, a, v.l, w.l);
    }
  }
}
