/**
  The lock-free queue of src/linear_fcgi_queue.h as a machine of micro-steps.

  Memory is a map from the addresses that are allocated now to their nodes; `new` may hand
  out any address that is not allocated, so an address freed earlier can come back.  Every
  pointer write of `produce` and `consume` is one atomic step, and the steps of the one
  producer and the one consumer interleave freely.
 */
module QueueMachine {

  datatype Ptr = Null | At(addr: nat)

  datatype Node<T> = Node(value: T, next: Ptr)

  /** What both threads can see. */
  datatype Shared<T> = Shared(mem: map<nat, Node<T>>, first: Ptr, divider: Ptr, last: Ptr) {

    /** Dereferencing `p` touches memory that is allocated now. */
    predicate Valid(p: Ptr) {
      p.At? && p.addr in mem
    }

    function Load(p: Ptr): Node<T>
      requires Valid(p)
    {
      mem[p.addr]
    }

    function StoreNext(p: Ptr, q: Ptr): Shared<T>
      requires Valid(p)
    {
      this.(mem := mem[p.addr := mem[p.addr].(next := q)])
    }

    function Free(p: Ptr): Shared<T>
      requires Valid(p)
    {
      this.(mem := mem - {p.addr})
    }
  }

  /** The queue as its constructor leaves it: one dummy node. */
  function Empty<T>(a: nat, dummy: T): Shared<T> {
    Shared(map[a := Node(dummy, Null)], At(a), At(a), At(a))
  }

  /** Where the producer is inside `produce`. */
  datatype Producer = PIdle | PLink(node: nat) | PPublish | PTest | PDelete(tmp: Ptr)

  /** Where the consumer is inside `consume` or `size`. */
  datatype Consumer<T> = CIdle | CRead | CAdvance(v: T) | CWalk(it: Ptr, num: nat)

  datatype State<T> = State(q: Shared<T>, p: Producer, c: Consumer<T>)

  datatype Step<T> =
    | Alloc(t: T, a: nat)  // new Node(t)
    | Link                 // last->next = ...
    | Publish              // swap of last
    | Test                 // first != divider, and on to the next node if so
    | Delete               // delete tmp
    | TestEmpty            // divider != last
    | Read                 // result = divider->next->value
    | Advance              // swap of divider
    | SizeStart            // it = divider->next
    | SizeNext             // it = it->next; num++

  datatype Event<T> = Silent | Enqueued(t: T) | Dequeued(t: T) | FoundEmpty | Sized(n: nat)

  /** The thread that takes the step is at the program point of the step. */
  predicate AtPc<T>(s: State<T>, a: Step<T>) {
    match a
    case Alloc(_, addr) => s.p.PIdle? && addr !in s.q.mem
    case Link => s.p.PLink?
    case Publish => s.p.PPublish?
    case Test => s.p.PTest?
    case Delete => s.p.PDelete?
    case TestEmpty => s.c.CIdle?
    case Read => s.c.CRead?
    case Advance => s.c.CAdvance?
    case SizeStart => s.c.CIdle?
    case SizeNext => s.c.CWalk?
  }

  /** Every pointer the step follows or frees leads to allocated memory. */
  predicate NoFault<T>(s: State<T>, a: Step<T>)
    requires AtPc(s, a)
  {
    match a
    case Alloc(_, _) => true
    case Link => s.q.Valid(s.q.last)
    case Publish => s.q.Valid(s.q.last) && s.q.Valid(s.q.Load(s.q.last).next)
    case Test => s.q.first == s.q.divider || s.q.Valid(s.q.first)
    case Delete => s.q.Valid(s.p.tmp)
    case TestEmpty => true
    case Read => s.q.Valid(s.q.divider) && s.q.Valid(s.q.Load(s.q.divider).next)
    case Advance => s.q.Valid(s.q.divider)
    case SizeStart => s.q.Valid(s.q.divider)
    case SizeNext => s.q.Valid(s.c.it)
  }

  function Walk<T>(it: Ptr, num: nat): Consumer<T> {
    if it.Null? then CIdle else CWalk(it, num)
  }

  function Apply<T>(s: State<T>, a: Step<T>): State<T>
    requires AtPc(s, a) && NoFault(s, a)
  {
    match a
    case Alloc(t, addr) => s.(q := s.q.(mem := s.q.mem[addr := Node(t, Null)]), p := PLink(addr))
    case Link => s.(q := s.q.StoreNext(s.q.last, At(s.p.node)), p := PPublish)
    case Publish => s.(q := s.q.(last := s.q.Load(s.q.last).next), p := PTest)
    case Test =>
      if s.q.first == s.q.divider then s.(p := PIdle)
      else s.(q := s.q.(first := s.q.Load(s.q.first).next), p := PDelete(s.q.first))
    case Delete => s.(q := s.q.Free(s.p.tmp), p := PTest)
    case TestEmpty => if s.q.divider == s.q.last then s else s.(c := CRead)
    case Read => s.(c := CAdvance(s.q.Load(s.q.Load(s.q.divider).next).value))
    case Advance => s.(q := s.q.(divider := s.q.Load(s.q.divider).next), c := CIdle)
    case SizeStart => s.(c := Walk(s.q.Load(s.q.divider).next, 0))
    case SizeNext => s.(c := Walk(s.q.Load(s.c.it).next, s.c.num + 1))
  }

  /** What a caller observes: the moments at which the operations take effect. */
  function EventOf<T>(s: State<T>, a: Step<T>): Event<T>
    requires AtPc(s, a) && NoFault(s, a)
  {
    match a
    case Publish => Enqueued(s.q.Load(s.q.Load(s.q.last).next).value)
    case TestEmpty => if s.q.divider == s.q.last then FoundEmpty else Silent
    case Advance => Dequeued(s.c.v)
    case SizeStart => if s.q.Load(s.q.divider).next.Null? then Sized(0) else Silent
    case SizeNext => if s.q.Load(s.c.it).next.Null? then Sized(s.c.num + 1) else Silent
    case _ => Silent
  }

  /** The specification: one atomic FIFO.  `size` may count a node that is not published yet. */
  ghost predicate FifoStep<T>(fifo: seq<T>, e: Event<T>, fifo': seq<T>) {
    match e
    case Silent => fifo' == fifo
    case Enqueued(t) => fifo' == fifo + [t]
    case Dequeued(t) => fifo == [t] + fifo'
    case FoundEmpty => fifo == [] && fifo' == fifo
    case Sized(n) => fifo' == fifo && |fifo| <= n <= |fifo| + 1
  }

  // ---------- the invariant ----------

  /**
    The history of the memory: `chain[i]` is the address of the i-th node ever linked and
    `values[i]` the value stored there.  Nodes before `f` are gone, `d` and `l` are the
    positions of `divider` and `last`.
   */
  datatype History<T> = History(chain: seq<nat>, values: seq<T>, f: nat, d: nat, l: nat) {

    ghost predicate Bounds() {
      f <= d <= l < |chain| == |values| <= l + 2
    }

    ghost function Produced(): seq<T>
      requires Bounds()
    {
      values[1..l + 1]
    }

    ghost function Consumed(): seq<T>
      requires Bounds()
    {
      values[1..d + 1]
    }

    ghost function Fifo(): seq<T>
      requires Bounds()
    {
      values[d + 1..l + 1]
    }

    ghost function OnChain(): set<nat>
      requires f <= |chain|
    {
      set i | f <= i < |chain| :: chain[i]
    }
  }

  /** first ->* divider ->* last, acyclic, with nothing beyond it but one unpublished node. */
  ghost predicate Chained<T>(q: Shared<T>, h: History<T>) {
    && h.Bounds()
    && (forall i, j :: h.f <= i < j < |h.chain| ==> h.chain[i] != h.chain[j])
    && q.first == At(h.chain[h.f])
    && q.divider == At(h.chain[h.d])
    && q.last == At(h.chain[h.l])
    && (forall i :: h.f <= i < |h.chain| ==> NodeAt(q.mem, h.chain, h.values, i))
  }

  /** Node `i` of the history is allocated, keeps its value, and links to node `i + 1`. */
  ghost predicate NodeAt<T>(mem: map<nat, Node<T>>, chain: seq<nat>, values: seq<T>, i: int)
    requires 0 <= i < |chain| == |values|
  {
    && chain[i] in mem
    && mem[chain[i]] == Node(values[i], if i + 1 < |chain| then At(chain[i + 1]) else Null)
  }

  /** The node that is allocated but not on the chain, by the program point of the producer. */
  function OffChain(p: Producer): set<nat> {
    match p
    case PLink(a) => {a}
    case PDelete(At(a)) => {a}
    case _ => {}
  }

  ghost predicate ProducerOk<T>(s: State<T>, h: History<T>)
    requires h.Bounds()
  {
    && |h.chain| == (if s.p.PPublish? then h.l + 2 else h.l + 1)
    && s.q.mem.Keys == h.OnChain() + OffChain(s.p)
    && OffChain(s.p) !! h.OnChain()
    && (s.p.PLink? ==> s.q.mem[s.p.node].next == Null)
    && (s.p.PDelete? ==> h.f > 0 && s.p.tmp == At(h.chain[h.f - 1]))
  }

  ghost predicate ConsumerOk<T>(s: State<T>, h: History<T>)
    requires h.Bounds()
  {
    match s.c
    case CIdle => true
    case CRead => h.d < h.l
    case CAdvance(v) => h.d < h.l && v == h.values[h.d + 1]
    case CWalk(it, num) => h.d + 1 + num < |h.chain| && it == At(h.chain[h.d + 1 + num])
  }

  ghost predicate Inv<T>(s: State<T>, h: History<T>) {
    Chained(s.q, h) && ProducerOk(s, h) && ConsumerOk(s, h)
  }

  /** How a step extends the history. */
  ghost function Track<T>(s: State<T>, h: History<T>, a: Step<T>): History<T>
    requires AtPc(s, a)
  {
    match a
    case Link =>
      if s.p.node in s.q.mem then
        h.(chain := h.chain + [s.p.node], values := h.values + [s.q.mem[s.p.node].value])
      else h
    case Publish => h.(l := h.l + 1)
    case Test => if s.q.first == s.q.divider then h else h.(f := h.f + 1)
    case Advance => h.(d := h.d + 1)
    case _ => h
  }

  // ---------- one step ----------

  /** Neither thread ever follows or frees a pointer to memory that is not allocated. */
  lemma NeverFaults<T>(s: State<T>, h: History<T>, a: Step<T>)
    requires Inv(s, h) && AtPc(s, a)
    ensures NoFault(s, a)
  {
    assert NodeAt(s.q.mem, h.chain, h.values, h.f);
    assert NodeAt(s.q.mem, h.chain, h.values, h.d) && NodeAt(s.q.mem, h.chain, h.values, h.l);
    match a {
      case Publish => assert NodeAt(s.q.mem, h.chain, h.values, h.l + 1);
      case Delete => assert s.p.tmp.addr in OffChain(s.p);
      case Read => assert NodeAt(s.q.mem, h.chain, h.values, h.d + 1);
      case SizeNext => assert NodeAt(s.q.mem, h.chain, h.values, h.d + 1 + s.c.num);
      case _ =>
    }
  }

  /** Memory changes away from the chain leave the nodes of the chain as they are. */
  lemma ChainKept<T>(q: Shared<T>, q': Shared<T>, h: History<T>)
    requires Chained(q, h)
    requires q' == q.(mem := q'.mem)
    requires forall n :: n in h.OnChain() ==> n in q.mem && n in q'.mem && q'.mem[n] == q.mem[n]
    ensures Chained(q', h)
  {
    forall i | h.f <= i < |h.chain| ensures NodeAt(q'.mem, h.chain, h.values, i) {
      assert NodeAt(q.mem, h.chain, h.values, i) && h.chain[i] in h.OnChain();
    }
  }

  /** Hanging a private node behind the last one extends the chain. */
  lemma LinkExtendsChain<T>(q: Shared<T>, h: History<T>, a: nat, h': History<T>)
    requires Chained(q, h) && |h.chain| == h.l + 1 && q.Valid(q.last)
    requires a in q.mem && a !in h.OnChain() && q.mem[a].next == Null
    requires h' == h.(chain := h.chain + [a], values := h.values + [q.mem[a].value])
    ensures h'.OnChain() == h.OnChain() + {a}
    ensures Chained(q.StoreNext(q.last, At(a)), h')
  {
    var q' := q.StoreNext(q.last, At(a));
    assert h'.chain[|h.chain|] == a;
    assert forall i :: h.f <= i < |h.chain| ==> h'.chain[i] == h.chain[i] && h.chain[i] in h.OnChain();
    assert NodeAt(q.mem, h.chain, h.values, h.l);
    forall i | h'.f <= i < |h'.chain| ensures NodeAt(q'.mem, h'.chain, h'.values, i) {
      if i < |h.chain| {
        assert NodeAt(q.mem, h.chain, h.values, i);
      }
    }
  }

  lemma LinkKeepsInv<T>(s: State<T>, h: History<T>)
    requires Inv(s, h) && s.p.PLink? && NoFault(s, Link)
    ensures Inv(Apply(s, Link), Track(s, h, Link))
  {
    LinkExtendsChain(s.q, h, s.p.node, Track(s, h, Link));
  }

  lemma AllocKeepsInv<T>(s: State<T>, h: History<T>, t: T, a: nat)
    requires Inv(s, h) && AtPc(s, Alloc(t, a))
    ensures Inv(Apply(s, Alloc(t, a)), h)
  {
    var s' := Apply(s, Alloc(t, a));
    assert a !in h.OnChain();
    ChainKept(s.q, s'.q, h);
  }

  lemma DeleteKeepsInv<T>(s: State<T>, h: History<T>)
    requires Inv(s, h) && s.p.PDelete? && NoFault(s, Delete)
    ensures Inv(Apply(s, Delete), h)
  {
    var s' := Apply(s, Delete);
    assert s.p.tmp.addr !in h.OnChain();
    ChainKept(s.q, s'.q, h);
  }

  lemma TestKeepsInv<T>(s: State<T>, h: History<T>)
    requires Inv(s, h) && s.p.PTest? && NoFault(s, Test)
    ensures Inv(Apply(s, Test), Track(s, h, Test))
  {
    var s', h' := Apply(s, Test), Track(s, h, Test);
    assert NodeAt(s.q.mem, h.chain, h.values, h.f) && NodeAt(s.q.mem, h.chain, h.values, h.d);
    if s.q.first != s.q.divider {
      assert h.OnChain() == h'.OnChain() + {h.chain[h.f]};
    }
  }

  lemma PublishKeepsInv<T>(s: State<T>, h: History<T>)
    requires Inv(s, h) && s.p.PPublish? && NoFault(s, Publish)
    ensures Inv(Apply(s, Publish), Track(s, h, Publish))
  {
    assert NodeAt(s.q.mem, h.chain, h.values, h.l);
    assert Track(s, h, Publish).OnChain() == h.OnChain();
  }

  lemma AdvanceKeepsInv<T>(s: State<T>, h: History<T>)
    requires Inv(s, h) && s.c.CAdvance? && NoFault(s, Advance)
    ensures Inv(Apply(s, Advance), Track(s, h, Advance))
  {
    assert NodeAt(s.q.mem, h.chain, h.values, h.d);
    assert Track(s, h, Advance).OnChain() == h.OnChain();
  }

  lemma ReadKeepsInv<T>(s: State<T>, h: History<T>, a: Step<T>)
    requires Inv(s, h) && AtPc(s, a) && NoFault(s, a)
    requires a.TestEmpty? || a.Read? || a.SizeStart? || a.SizeNext?
    ensures Inv(Apply(s, a), h)
  {
    assert NodeAt(s.q.mem, h.chain, h.values, h.d) && NodeAt(s.q.mem, h.chain, h.values, h.l);
    match a {
      case Read => assert NodeAt(s.q.mem, h.chain, h.values, h.d + 1);
      case SizeNext => assert NodeAt(s.q.mem, h.chain, h.values, h.d + 1 + s.c.num);
      case _ =>
    }
  }

  /** One step keeps the whole invariant. */
  lemma StepKeepsInv<T>(s: State<T>, h: History<T>, a: Step<T>)
    requires Inv(s, h) && AtPc(s, a) && NoFault(s, a)
    ensures Inv(Apply(s, a), Track(s, h, a))
  {
    match a {
      case Alloc(t, addr) => AllocKeepsInv(s, h, t, addr);
      case Link => LinkKeepsInv(s, h);
      case Test => TestKeepsInv(s, h);
      case Delete => DeleteKeepsInv(s, h);
      case Publish => PublishKeepsInv(s, h);
      case Advance => AdvanceKeepsInv(s, h);
      case _ => ReadKeepsInv(s, h, a);
    }
  }

  /** The event of a step, told from the history alone. */
  lemma EventIs<T>(s: State<T>, h: History<T>, a: Step<T>)
    requires Inv(s, h) && AtPc(s, a) && NoFault(s, a)
    ensures a.Publish? ==> EventOf(s, a) == Enqueued(h.values[h.l + 1])
    ensures a.Advance? ==> EventOf(s, a) == Dequeued(h.values[h.d + 1])
    ensures EventOf(s, a).Enqueued? ==> a.Publish?
    ensures EventOf(s, a).Dequeued? ==> a.Advance?
    ensures EventOf(s, a).FoundEmpty? ==> a.TestEmpty? && h.d == h.l
    ensures EventOf(s, a).Sized? ==> EventOf(s, a).n == |h.chain| - 1 - h.d && (a.SizeStart? || a.SizeNext?)
  {
    assert NodeAt(s.q.mem, h.chain, h.values, h.d) && NodeAt(s.q.mem, h.chain, h.values, h.l);
    match a {
      case Publish => assert NodeAt(s.q.mem, h.chain, h.values, h.l + 1);
      case SizeNext => assert NodeAt(s.q.mem, h.chain, h.values, h.d + 1 + s.c.num);
      case _ =>
    }
  }

  /** What a step does to the FIFO that the history stands for. */
  lemma FifoAfter<T>(s: State<T>, h: History<T>, a: Step<T>)
    requires Inv(s, h) && AtPc(s, a) && Track(s, h, a).Bounds()
    ensures a.Publish? ==> Track(s, h, a).Fifo() == h.Fifo() + [h.values[h.l + 1]]
    ensures a.Advance? ==> h.Fifo() == [h.values[h.d + 1]] + Track(s, h, a).Fifo()
    ensures !a.Publish? && !a.Advance? ==> Track(s, h, a).Fifo() == h.Fifo()
  {
    match a {
      case Link => Window(h, Track(s, h, a));
      case Publish => PublishedNext(h, Track(s, h, a));
      case Advance => AdvancedNext(h, Track(s, h, a));
      case _ =>
    }
  }

  lemma PublishedNext<T>(h: History<T>, h': History<T>)
    requires h.Bounds() && h'.Bounds() && h' == h.(l := h.l + 1)
    ensures h'.Fifo() == h.Fifo() + [h.values[h.l + 1]]
  {
  }

  lemma AdvancedNext<T>(h: History<T>, h': History<T>)
    requires h.Bounds() && h'.Bounds() && h' == h.(d := h.d + 1)
    ensures h.Fifo() == [h.values[h.d + 1]] + h'.Fifo()
  {
  }

  /** More values behind `last` do not change the FIFO. */
  lemma Window<T>(h: History<T>, h': History<T>)
    requires h.Bounds() && h'.Bounds() && h.values <= h'.values && h'.d == h.d && h'.l == h.l
    ensures h'.Fifo() == h.Fifo()
  {
    assert h.values[h.d + 1..h.l + 1] == h'.values[h.d + 1..h.l + 1];
  }

  /** Every step is a step of the FIFO: produce at the swap of `last`, consume at the swap of `divider`. */
  lemma StepRefines<T>(s: State<T>, h: History<T>, a: Step<T>)
    requires Inv(s, h) && AtPc(s, a) && NoFault(s, a)
    ensures Track(s, h, a).Bounds()
    ensures FifoStep(h.Fifo(), EventOf(s, a), Track(s, h, a).Fifo())
    ensures EventOf(s, a).Sized? && !s.p.PPublish? ==> EventOf(s, a).n == |h.Fifo()|
  {
    assert Track(s, h, a).Bounds() by { StepKeepsInv(s, h, a); }
    EventIs(s, h, a);
    FifoAfter(s, h, a);
  }

  // ---------- whole runs ----------

  /** A run of the two threads from a queue just constructed, under any interleaving. */
  ghost predicate Run<T>(ss: seq<State<T>>, steps: seq<Step<T>>) {
    && |ss| == |steps| + 1
    && Initial(ss[0])
    && forall i {:trigger steps[i]} :: 0 <= i < |steps| ==> Follows(ss[i], steps[i], ss[i + 1])
  }

  ghost predicate Initial<T>(s: State<T>) {
    && s.p.PIdle? && s.c.CIdle? && s.q.first.At?
    && s.q.first.addr in s.q.mem
    && s.q == Empty(s.q.first.addr, s.q.mem[s.q.first.addr].value)
  }

  ghost predicate Follows<T>(s: State<T>, a: Step<T>, s': State<T>) {
    AtPc(s, a) && NoFault(s, a) && s' == Apply(s, a)
  }

  /** The history after `n` steps. */
  ghost function HistoryAt<T>(ss: seq<State<T>>, steps: seq<Step<T>>, n: nat): (h: History<T>)
    requires Run(ss, steps) && n <= |steps|
  {
    if n == 0 then
      History([ss[0].q.first.addr], [ss[0].q.mem[ss[0].q.first.addr].value], 0, 0, 0)
    else
      assert Follows(ss[n - 1], steps[n - 1], ss[n - 1 + 1]);
      Track(ss[n - 1], HistoryAt(ss, steps, n - 1), steps[n - 1])
  }

  /** The invariant holds all along every run. */
  lemma {:induction false} RunsKeepInv<T>(ss: seq<State<T>>, steps: seq<Step<T>>, n: nat)
    requires Run(ss, steps) && n <= |steps|
    ensures Inv(ss[n], HistoryAt(ss, steps, n))
    ensures HistoryAt(ss, steps, n).Bounds()
  {
    if n == 0 {
      var h := HistoryAt(ss, steps, n);
      assert h.chain[0] == ss[0].q.first.addr && NodeAt(ss[0].q.mem, h.chain, h.values, 0);
      assert h.OnChain() == {ss[0].q.first.addr};
    } else {
      RunsKeepInv(ss, steps, n - 1);
      assert Follows(ss[n - 1], steps[n - 1], ss[n - 1 + 1]);
      StepKeepsInv(ss[n - 1], HistoryAt(ss, steps, n - 1), steps[n - 1]);
    }
  }

  ghost function Events<T>(ss: seq<State<T>>, steps: seq<Step<T>>, n: nat): (es: seq<Event<T>>)
    requires Run(ss, steps) && n <= |steps|
  {
    if n == 0 then []
    else
      assert Follows(ss[n - 1], steps[n - 1], ss[n - 1 + 1]);
      Events(ss, steps, n - 1) + [EventOf(ss[n - 1], steps[n - 1])]
  }

  ghost function Produced<T>(es: seq<Event<T>>): seq<T> {
    if es == [] then []
    else
      var e := es[|es| - 1];
      Produced(es[..|es| - 1]) + ProducedBy(e)
  }

  ghost function Consumed<T>(es: seq<Event<T>>): seq<T> {
    if es == [] then []
    else
      var e := es[|es| - 1];
      Consumed(es[..|es| - 1]) + ConsumedBy(e)
  }

  /** No run ever reaches a state in which a thread is about to touch freed memory. */
  lemma RunsNeverFault<T>(ss: seq<State<T>>, steps: seq<Step<T>>, n: nat, a: Step<T>)
    requires Run(ss, steps) && n <= |steps| && AtPc(ss[n], a)
    ensures NoFault(ss[n], a)
  {
    RunsKeepInv(ss, steps, n);
    NeverFaults(ss[n], HistoryAt(ss, steps, n), a);
  }

  /** The content of the FIFO after `n` steps of a run. */
  ghost function FifoAt<T>(ss: seq<State<T>>, steps: seq<Step<T>>, n: nat): seq<T>
    requires Run(ss, steps) && n <= |steps|
  {
    RunsKeepInv(ss, steps, n);
    HistoryAt(ss, steps, n).Fifo()
  }

  /**
    Linearizability of every run: the FIFO is empty at first, and every step is the atomic
    FIFO operation of its event.  `size` is exact unless a node waits to be published.
   */
  lemma RunsRefineFifo<T>(ss: seq<State<T>>, steps: seq<Step<T>>, n: nat)
    requires Run(ss, steps) && n < |steps|
    ensures FifoAt(ss, steps, 0) == []
    ensures Follows(ss[n], steps[n], ss[n + 1])
    ensures FifoStep(FifoAt(ss, steps, n), EventOf(ss[n], steps[n]), FifoAt(ss, steps, n + 1))
    ensures EventOf(ss[n], steps[n]).Sized? && !ss[n].p.PPublish? ==>
              EventOf(ss[n], steps[n]).n == |FifoAt(ss, steps, n)|
  {
    assert Follows(ss[n], steps[n], ss[n + 1]);
    RunsKeepInv(ss, steps, n);
    StepRefines(ss[n], HistoryAt(ss, steps, n), steps[n]);
  }

  /** What one event adds to the produced and to the consumed sequence. */
  function ProducedBy<T>(e: Event<T>): seq<T> {
    if e.Enqueued? then [e.t] else []
  }

  function ConsumedBy<T>(e: Event<T>): seq<T> {
    if e.Dequeued? then [e.t] else []
  }

  /** Step `n` of a run, seen from the history. */
  lemma StepExtends<T>(ss: seq<State<T>>, steps: seq<Step<T>>, n: nat)
    requires Run(ss, steps) && n < |steps|
    ensures var h, h' := HistoryAt(ss, steps, n), HistoryAt(ss, steps, n + 1);
            && h.Bounds() && h'.Bounds() && Follows(ss[n], steps[n], ss[n + 1])
            && h'.Produced() == h.Produced() + ProducedBy(EventOf(ss[n], steps[n]))
            && h'.Consumed() == h.Consumed() + ConsumedBy(EventOf(ss[n], steps[n]))
  {
    RunsKeepInv(ss, steps, n);
    assert Follows(ss[n], steps[n], ss[n + 1]);
    TrackExtends(ss[n], HistoryAt(ss, steps, n), steps[n]);
  }

  lemma TrackExtends<T>(s: State<T>, h: History<T>, a: Step<T>)
    requires Inv(s, h) && AtPc(s, a) && NoFault(s, a)
    ensures Track(s, h, a).Bounds()
    ensures Track(s, h, a).Produced() == h.Produced() + ProducedBy(EventOf(s, a))
    ensures Track(s, h, a).Consumed() == h.Consumed() + ConsumedBy(EventOf(s, a))
  {
    assert Track(s, h, a).Bounds() by { StepKeepsInv(s, h, a); }
    EventIs(s, h, a);
  }

  lemma {:induction false} EventsAreHistory<T>(ss: seq<State<T>>, steps: seq<Step<T>>, n: nat)
    requires Run(ss, steps) && n <= |steps|
    ensures HistoryAt(ss, steps, n).Bounds()
    ensures Produced(Events(ss, steps, n)) == HistoryAt(ss, steps, n).Produced()
    ensures Consumed(Events(ss, steps, n)) == HistoryAt(ss, steps, n).Consumed()
  {
    if n > 0 {
      EventsAreHistory(ss, steps, n - 1);
      StepExtends(ss, steps, n - 1);
      assert Events(ss, steps, n)[..|Events(ss, steps, n)| - 1] == Events(ss, steps, n - 1);
    }
  }

  /** What has been consumed is always a prefix of what has been produced, in order. */
  lemma ConsumedIsPrefix<T>(ss: seq<State<T>>, steps: seq<Step<T>>, n: nat)
    requires Run(ss, steps) && n <= |steps|
    ensures Consumed(Events(ss, steps, n)) <= Produced(Events(ss, steps, n))
    ensures Consumed(Events(ss, steps, n)) + FifoAt(ss, steps, n) == Produced(Events(ss, steps, n))
  {
    EventsAreHistory(ss, steps, n);
    HistorySplits(HistoryAt(ss, steps, n));
  }

  lemma HistorySplits<T>(h: History<T>)
    requires h.Bounds()
    ensures h.Consumed() + h.Fifo() == h.Produced()
  {
  }

  function Allocs<T>(steps: seq<Step<T>>): nat {
    if steps == [] then 0
    else Allocs(steps[..|steps| - 1]) + if steps[|steps| - 1].Alloc? then 1 else 0
  }

  function Deletes<T>(steps: seq<Step<T>>): nat {
    if steps == [] then 0
    else Deletes(steps[..|steps| - 1]) + if steps[|steps| - 1].Delete? then 1 else 0
  }

  /** `delete` number k frees node k, and only after the consumer has passed it. */
  lemma {:induction false} FreedInOrder<T>(ss: seq<State<T>>, steps: seq<Step<T>>, n: nat)
    requires Run(ss, steps) && n <= |steps|
    ensures var h := HistoryAt(ss, steps, n);
            && Deletes(steps[..n]) + (if ss[n].p.PDelete? then 1 else 0) == h.f <= h.d < |h.chain|
            && (ss[n].p.PDelete? ==> ss[n].p.tmp == At(h.chain[Deletes(steps[..n])]))
  {
    if n > 0 {
      FreedInOrder(ss, steps, n - 1);
      assert steps[..n][..n - 1] == steps[..n - 1];
      assert Follows(ss[n - 1], steps[n - 1], ss[n - 1 + 1]);
    }
    RunsKeepInv(ss, steps, n);
  }

  /** Every allocation, the dummy included, is freed exactly once or still on the chain. */
  lemma {:induction false} AllocatedIsFreedOrLive<T>(ss: seq<State<T>>, steps: seq<Step<T>>, n: nat)
    requires Run(ss, steps) && n <= |steps|
    ensures 1 + Allocs(steps[..n]) == Deletes(steps[..n]) + |ss[n].q.mem|
  {
    if n == 0 {
      assert ss[0].q.mem.Keys == {ss[0].q.first.addr};
      assert |ss[0].q.mem| == |ss[0].q.mem.Keys|;
    } else {
      AllocatedIsFreedOrLive(ss, steps, n - 1);
      assert steps[..n][..n - 1] == steps[..n - 1];
      assert Follows(ss[n - 1], steps[n - 1], ss[n - 1 + 1]);
      MemSize(ss[n - 1], steps[n - 1]);
    }
  }

  lemma MemSize<T>(s: State<T>, a: Step<T>)
    requires AtPc(s, a) && NoFault(s, a)
    ensures |Apply(s, a).q.mem| == |s.q.mem| + (if a.Alloc? then 1 else 0) - (if a.Delete? then 1 else 0)
  {
    var s' := Apply(s, a);
    assert |s'.q.mem| == |s'.q.mem.Keys| && |s.q.mem| == |s.q.mem.Keys|;
    match a {
      case Alloc(t, addr) => assert s'.q.mem.Keys == s.q.mem.Keys + {addr};
      case Delete => assert s'.q.mem.Keys == s.q.mem.Keys - {s.p.tmp.addr};
      case Link => assert s'.q.mem.Keys == s.q.mem.Keys;
      case _ =>
    }
  }
}
