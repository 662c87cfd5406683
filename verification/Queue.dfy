/**
  The queue class of src/linear_fcgi_queue.h, its calls made one after the other.  Each
  assignment to shared memory is the micro-step of the same name in QueueMachine, so these
  methods are the runs of the machine in which no other thread takes a step meanwhile.
 */
module Queues {
  import opened QueueMachine

  class Queue<T> {
    // The allocated memory, address by address: `delete` takes an address out of it.
    var mem: map<nat, Node<T>>
    var first: Ptr
    var divider: Ptr
    var last: Ptr
    ghost var h: History<T>

    ghost function Shared(): Shared<T>
      reads this
    {
      QueueMachine.Shared(mem, first, divider, last)
    }

    ghost predicate At(p: Producer, c: Consumer<T>)
      reads this
    {
      Inv(State(Shared(), p, c), h)
    }

    ghost predicate Valid()
      reads this
    {
      At(PIdle, CIdle)
    }

    ghost function Contents(): seq<T>
      reads this
      requires Valid()
    {
      h.Fifo()
    }

    /** `a` is the address that the allocator hands out for the dummy node. */
    constructor (dummy: T, a: nat)
      ensures Valid() && Contents() == []
      ensures |mem| == 1
    {
      mem := map[a := Node(dummy, Null)];
      first, divider, last := QueueMachine.At(a), QueueMachine.At(a), QueueMachine.At(a);
      h := History([a], [dummy], 0, 0, 0);
      new;
      assert h.chain[0] == a && NodeAt(mem, h.chain, h.values, 0);
      assert h.OnChain() == {a};
    }

    /** Appends `t`, then frees every node that has been consumed: only live items and the dummy remain. */
    method Produce(t: T, a: nat)
      requires Valid() && a !in mem
      modifies this
      ensures Valid() && Contents() == old(Contents()) + [t]
      ensures first == divider == old(divider)
      ensures |mem| == |Contents()| + 1
    {
      ghost var h0 := h;
      LinkNew(t, a);
      SwapLast();
      Reclaim();
      FifoGrows(h0, h, a, t);
      LiveNodes(Shared(), h);
    }

    /** last->next = new Node(t): the new node hangs behind `last`, still unpublished. */
    method LinkNew(t: T, a: nat)
      requires Valid() && a !in mem
      modifies this`mem, this`h
      ensures At(PPublish, CIdle)
      ensures h == old(h.(chain := h.chain + [a], values := h.values + [t]))
    {
      ghost var s := State(Shared(), PIdle, CIdle);
      ghost var s' := Apply(s, Alloc(t, a));
      StepKeepsInv(s, h, Alloc(t, a));
      NeverFaults(s', h, Link);
      StepKeepsInv(s', h, Link);
      h := Track(s', h, Link);
      mem := mem[a := Node(t, Null)];
      mem := mem[last.addr := mem[last.addr].(next := QueueMachine.At(a))];
    }

    /** The swap of `last`: the item becomes visible. */
    method SwapLast()
      requires At(PPublish, CIdle)
      modifies this`last, this`h
      ensures At(PTest, CIdle)
      ensures h == old(h.(l := h.l + 1))
    {
      ghost var s := State(Shared(), PPublish, CIdle);
      NeverFaults(s, h, Publish);
      StepKeepsInv(s, h, Publish);
      h := Track(s, h, Publish);
      last := mem[last.addr].next;
    }

    /** The reclaiming loop: frees the nodes before `divider`, one by one. */
    method Reclaim()
      requires At(PTest, CIdle)
      modifies this`mem, this`first, this`h
      ensures Valid() && h == old(h).(f := h.f)
      ensures first == divider
    {
      while first != divider
        invariant At(PTest, CIdle) && h == old(h).(f := h.f)
        decreases h.d - h.f
      {
        DeleteFirst();
      }
    }

    /** One round of that loop. */
    method DeleteFirst()
      requires At(PTest, CIdle) && first != divider
      modifies this`mem, this`first, this`h
      ensures At(PTest, CIdle) && h == old(h).(f := old(h).f + 1)
      ensures h.f <= h.d
    {
      ghost var s := State(Shared(), PTest, CIdle);
      NeverFaults(s, h, Test);
      StepKeepsInv(s, h, Test);
      ghost var s' := Apply(s, Test);
      h := Track(s, h, Test);
      NeverFaults(s', h, Delete);
      StepKeepsInv(s', h, Delete);
      var tmp := first;
      first := mem[first.addr].next;
      mem := mem - {tmp.addr};
    }

    /** Takes the oldest item out, or reports that there is none and changes nothing. */
    method Consume(into: T) returns (r: bool, result: T)
      requires Valid()
      modifies this`divider, this`h
      ensures Valid()
      ensures r <==> old(Contents()) != []
      ensures r ==> [result] + Contents() == old(Contents())
      ensures !r ==> result == into && Contents() == old(Contents()) && divider == old(divider)
    {
      ghost var s := State(Shared(), PIdle, CIdle);
      EventIs(s, h, TestEmpty);
      StepKeepsInv(s, h, TestEmpty);
      r, result := false, into;
      if divider != last {
        result := ReadNext();
        SwapDivider(result);
        r := true;
      }
    }

    /** Reads the value of the node behind `divider`. */
    method ReadNext() returns (result: T)
      requires At(PIdle, CRead)
      ensures At(PIdle, CAdvance(result))
    {
      ghost var s := State(Shared(), PIdle, CRead);
      NeverFaults(s, h, Read);
      StepKeepsInv(s, h, Read);
      result := mem[mem[divider.addr].next.addr].value;
    }

    /** Moves `divider` to that node. */
    method SwapDivider(ghost result: T)
      requires At(PIdle, CAdvance(result))
      modifies this`divider, this`h
      ensures Valid() && old(h.Bounds()) && [result] + Contents() == old(h.Fifo())
    {
      ghost var s := State(Shared(), PIdle, CAdvance(result));
      NeverFaults(s, h, Advance);
      StepKeepsInv(s, h, Advance);
      EventIs(s, h, Advance);
      FifoAfter(s, h, Advance);
      h := Track(s, h, Advance);
      divider := mem[divider.addr].next;
    }

    /** Whether nothing is left to consume. */
    method IsEmpty() returns (r: bool)
      requires Valid()
      ensures r <==> Contents() == []
    {
      ghost var s := State(Shared(), PIdle, CIdle);
      EventIs(s, h, TestEmpty);
      r := divider == last;
    }

    /** Walks the nodes behind `divider` and counts them. */
    method Size() returns (num: nat)
      requires Valid()
      ensures num == |Contents()|
    {
      num := 0;
      ghost var s := State(Shared(), PIdle, CIdle);
      NeverFaults(s, h, SizeStart);
      StepKeepsInv(s, h, SizeStart);
      EventIs(s, h, SizeStart);
      var it := mem[divider.addr].next;
      while it.At?
        invariant At(PIdle, Walk(it, num)) && Valid()
        invariant it.Null? ==> num == |Contents()|
        decreases |h.chain| - num
      {
        SizeRound(it, num);
        it := mem[it.addr].next;
        num := num + 1;
      }
    }

    /** One round of that loop: the walk goes on to the next node, or has counted them all. */
    lemma SizeRound(it: Ptr, num: nat)
      requires it.At? && At(PIdle, CWalk(it, num)) && Valid()
      ensures it.addr in mem && num < |h.chain|
      ensures At(PIdle, Walk(mem[it.addr].next, num + 1))
      ensures mem[it.addr].next.Null? ==> num + 1 == |Contents()|
    {
      var s := State(Shared(), PIdle, CWalk(it, num));
      NeverFaults(s, h, SizeNext);
      StepKeepsInv(s, h, SizeNext);
      EventIs(s, h, SizeNext);
    }

    /** The destructor: every node that is still allocated is freed. */
    method Destroy()
      requires Valid()
      modifies this`mem, this`first
      ensures mem == map[] && first == Null
    {
      ghost var i := h.f;
      AllRest(Shared(), h);
      while first.At?
        invariant Rest(mem, first, h, i)
        decreases |h.chain| - i
      {
        RestStep(mem, first, h, i);
        var tmp := first;
        first := mem[tmp.addr].next;
        mem := mem - {tmp.addr};
        i := i + 1;
      }
      NoneRest(mem, first, h, i);
    }
  }

  /** The memory from node `i` on, with `first` at its start. */
  ghost predicate Rest<T>(mem: map<nat, Node<T>>, first: Ptr, h: History<T>, i: nat) {
    && i <= |h.chain| == |h.values|
    && first == (if i < |h.chain| then At(h.chain[i]) else Null)
    && (forall a :: a in mem ==> exists j :: i <= j < |h.chain| && a == h.chain[j])
    && (forall j :: i <= j < |h.chain| ==> NodeAt(mem, h.chain, h.values, j))
    && (forall j, k :: i <= j < k < |h.chain| ==> h.chain[j] != h.chain[k])
  }

  lemma AllRest<T>(q: Shared<T>, h: History<T>)
    requires Inv(State(q, PIdle, CIdle), h)
    ensures Rest(q.mem, q.first, h, h.f)
  {
    forall a | a in q.mem ensures exists j :: h.f <= j < |h.chain| && a == h.chain[j] {
      assert a in h.OnChain();
    }
  }

  lemma NoneRest<T>(mem: map<nat, Node<T>>, first: Ptr, h: History<T>, i: nat)
    requires Rest(mem, first, h, i) && first.Null?
    ensures mem == map[]
  {
  }

  /** Freeing the first of these nodes leaves the others as they are. */
  lemma RestStep<T>(mem: map<nat, Node<T>>, first: Ptr, h: History<T>, i: nat)
    requires Rest(mem, first, h, i) && first.At?
    ensures i < |h.chain| && first.addr in mem
    ensures Rest(mem - {first.addr}, mem[first.addr].next, h, i + 1)
  {
    var mem' := mem - {first.addr};
    assert NodeAt(mem, h.chain, h.values, i);
    forall j | i + 1 <= j < |h.chain| ensures NodeAt(mem', h.chain, h.values, j) {
      assert NodeAt(mem, h.chain, h.values, j);
    }
  }

  lemma FifoGrows<T>(h: History<T>, h': History<T>, a: nat, t: T)
    requires h.Bounds() && h'.Bounds() && |h.values| == h.l + 1
    requires h' == History(h.chain + [a], h.values + [t], h'.f, h.d, h.l + 1)
    ensures h'.Fifo() == h.Fifo() + [t]
  {
  }

  /** After reclamation the memory holds the items of the FIFO and one node more. */
  lemma LiveNodes<T>(q: Shared<T>, h: History<T>)
    requires Inv(State(q, PIdle, CIdle), h) && q.first == q.divider
    ensures h.f == h.d && |q.mem| == |h.Fifo()| + 1
  {
    assert |q.mem| == |q.mem.Keys|;
    SetSize(h.chain, h.f);
  }

  lemma {:induction false} SetSize(chain: seq<nat>, f: nat)
    requires f <= |chain|
    requires forall i, j :: f <= i < j < |chain| ==> chain[i] != chain[j]
    ensures |set i | f <= i < |chain| :: chain[i]| == |chain| - f
    decreases |chain| - f
  {
    var s := set i | f <= i < |chain| :: chain[i];
    if f < |chain| {
      SetSize(chain, f + 1);
      assert s == (set i | f + 1 <= i < |chain| :: chain[i]) + {chain[f]};
    } else {
      assert s == {};
    }
  }
}
