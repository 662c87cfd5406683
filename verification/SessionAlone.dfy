/**
  The two-thread machine, left to one thread from the start of a call to its end, does what
  Calls says of the call.  With the proofs in Relay, the methods of the classes and the steps of
  the machine describe the same code.
 */
module SessionAlone {
  import opened Bytes
  import opened Options
  import opened ClientState
  import opened Session
  import opened Calls

  /** These steps lead from one state to the other. */
  ghost predicate Leads(s: State, steps: seq<Step>, s': State)
    decreases |steps|
  {
    if steps == [] then s' == s
    else Ready(s, steps[0]) && Leads(Next(s, steps[0]), steps[1..], s')
  }

  predicate OfLoop(steps: seq<Step>) {
    forall i :: 0 <= i < |steps| ==> steps[i].LoopStep?
  }

  predicate OfServer(steps: seq<Step>) {
    forall i :: 0 <= i < |steps| ==> steps[i].ServerStep?
  }

  lemma {:induction false} LeadsOn(s: State, a: seq<Step>, s1: State, b: seq<Step>, s2: State)
    requires Leads(s, a, s1) && Leads(s1, b, s2)
    ensures Leads(s, a + b, s2)
    decreases |a|
  {
    if a == [] {
      assert a + b == b;
    } else {
      assert (a + b)[1..] == a[1..] + b;
      LeadsOn(Next(s, a[0]), a[1..], s1, b, s2);
    }
  }

  lemma LeadsOne(s: State, a: Step)
    requires Ready(s, a)
    ensures Leads(s, [a], Next(s, a))
  {
    assert [a][1..] == [];
    assert Leads(Next(s, a), [], Next(s, a));
  }

  lemma LeadsTwo(s: State, a: Step, b: Step)
    requires Ready(s, a) && Ready(Next(s, a), b)
    ensures Leads(s, [a, b], Next(Next(s, a), b))
  {
    LeadsOne(Next(s, a), b);
    assert [a, b][1..] == [b];
  }

  /** A step of the loop thread with these results of libuv and of the clock. */
  function Turn(ok: bool, clock: int): Step {
    LoopStep(LoopIn(Async, ok, clock, 0))
  }

  function Call(clock: int): Step {
    ServerStep(ServerIn(Poll(""), 0, clock))
  }

  /** No thread is inside a critical section of `c`. */
  predicate Free(s: State, c: Ref) {
    c in s.clients && s.clients[c].owner.Nobody?
  }

  // ---------- the loop thread ----------

  /** onConnect */
  lemma OnConnectAlone(s: State, c: Ref, ok: bool, now: int) returns (steps: seq<Step>, s': State)
    requires s.loop == LComplete(c, Want, ok) && Free(s, c)
    ensures OfLoop(steps) && Leads(s, steps, s') && s'.loop.LIdle?
    ensures s'.clients == s.clients[c := AfterOnConnect(s.clients[c], ok, now)] && s'.reqs == s.reqs
  {
    var a := Turn(ok, now);
    steps, s' := [a, a], Next(Next(s, a), a);
    LeadsTwo(s, a, a);
    if s'.loop.LComplete? {
      LeadsOne(s', a);
      LeadsOn(s, steps, s', [a], Next(s', a));
      steps, s' := steps + [a], Next(s', a);
    }
  }

  /** onRead */
  lemma OnReadAlone(s: State, c: Ref, chunk: Option<Bytes>) returns (steps: seq<Step>, s': State)
    requires s.loop == LRead(c, Want, chunk) && Free(s, c)
    ensures OfLoop(steps) && Leads(s, steps, s') && s'.loop.LIdle?
    ensures s'.clients == s.clients[c := AfterOnRead(s.clients[c], chunk)] && s'.reqs == s.reqs
  {
    var a := Turn(true, 0);
    steps, s' := [a, a], Next(Next(s, a), a);
    LeadsTwo(s, a, a);
    if s'.loop.LRead? {
      LeadsOne(s', a);
      LeadsOn(s, steps, s', [a], Next(s', a));
      steps, s' := steps + [a], Next(s', a);
    }
  }

  /** onTimer of one client */
  lemma OnTimerAlone(s: State, c: Ref) returns (steps: seq<Step>, s': State)
    requires s.loop.LTimer? && s.loop.c == c && !s.loop.held && Free(s, c)
    ensures OfLoop(steps) && Leads(s, steps, s') && s'.loop.LSweep?
    ensures s'.clients == s.clients[c := Swept(s.clients[c], s.loop.past)] && s'.reqs == s.reqs
  {
    var a := Turn(true, 0);
    steps, s' := [a, a], Next(Next(s, a), a);
    LeadsTwo(s, a, a);
  }

  /** _write, from its first item on; `ok(k)` is the result of the k-th uv_write. */
  lemma {:induction false} WriteItemsAlone(s: State, c: Ref, ok: nat -> bool, k: nat)
    returns (steps: seq<Step>, s': State)
    requires s.loop.LWrite? && s.loop.c == c && c in s.clients
    ensures OfLoop(steps) && Leads(s, steps, s') && s'.loop.LDrain?
    ensures s' == s.(clients := s.clients[c := Drained(s.cfg.decode, s.clients[c], ok, k)], loop := LDrain)
    decreases |s.clients[c].writeq|
  {
    var a := Turn(ok(k), 0);
    steps, s' := [a], Next(s, a);
    LeadsOne(s, a);
    if s'.loop.LWrite? {
      var more, s'' := WriteItemsAlone(s', c, ok, k + 1);
      LeadsOn(s, [a], s', more, s'');
      steps, s' := [a] + more, s'';
    }
  }

  /** One request, from the switch of onAsync back to it. */
  lemma RequestAlone(s: State, kind: Kind, c: Ref, ok: nat -> bool) returns (steps: seq<Step>, s': State)
    requires s.loop == Handler(Request(kind, c)) && Free(s, c)
    ensures OfLoop(steps) && Leads(s, steps, s') && s'.loop.LDrain? && s'.reqs == s.reqs && s'.cfg == s.cfg
    ensures s'.clients == s.clients[c := Carry(s.cfg.decode, kind, s.clients[c], ok)]
  {
    var a := Turn(ok(0), 0);
    match kind {
      case CONNECT =>
        steps, s' := [a, a], Next(Next(s, a), a);
        LeadsTwo(s, a, a);
      case DISCONNECT =>
        steps, s' := [a], Next(s, a);
        LeadsOne(s, a);
      case WRITE =>
        steps, s' := WriteItemsAlone(s, c, ok, 0);
    }
  }

  /** No request takes or leaves a state mutex. */
  lemma CarryKeepsOwner(decode: Bytes -> Option<Bytes>, kind: Kind, r: Client, ok: nat -> bool)
    ensures Carry(decode, kind, r, ok).owner == r.owner
  {
    if kind.WRITE? {
      DrainedTakes(decode, r, ok, 0);
    }
  }

  /** Every client of `s` ends as its own requests leave it. */
  ghost predicate AllServed(s: State, after: map<Ref, Client>, ok: (nat, nat) -> bool, n: nat) {
    && after.Keys == s.clients.Keys
    && forall c :: c in s.clients ==> after[c] == Served(s.cfg.decode, Own(s.reqs, c, n), s.clients[c], ok)
  }

  predicate AllFree(s: State) {
    && (forall c :: c in s.clients ==> s.clients[c].owner.Nobody?)
    && (forall i :: 0 <= i < |s.reqs| ==> s.reqs[i].client in s.clients)
  }

  /** onAsync: every client ends as its own requests leave it. */
  lemma {:induction false} OnAsyncAlone(s: State, ok: (nat, nat) -> bool, n: nat) returns (steps: seq<Step>, s': State)
    requires s.loop.LDrain? && AllFree(s)
    ensures OfLoop(steps) && Leads(s, steps, s') && s'.loop.LIdle? && s'.reqs == []
    ensures AllServed(s, s'.clients, ok, n)
    decreases |s.reqs|
  {
    if s.reqs == [] {
      LeadsOne(s, Turn(true, 0));
      steps, s' := [Turn(true, 0)], s.(loop := LIdle);
    } else {
      var first, s1 := NextRequestAlone(s, Row(ok, n));
      var rest;
      rest, s' := OnAsyncAlone(s1, ok, n + 1);
      LeadsOn(s, first, s1, rest, s');
      FirstServed(s, s1, s'.clients, ok, n);
      steps := first + rest;
    }
  }

  lemma FirstServed(s: State, s1: State, after: map<Ref, Client>, ok: (nat, nat) -> bool, n: nat)
    requires s.reqs != [] && s.reqs[0].client in s.clients
    requires s1.reqs == s.reqs[1..] && s1.cfg == s.cfg
    requires var c := s.reqs[0].client;
             s1.clients == s.clients[c := Carry(s.cfg.decode, s.reqs[0].kind, s.clients[c], Row(ok, n))]
    requires AllServed(s1, after, ok, n + 1)
    ensures AllServed(s, after, ok, n)
  {
    forall c | c in s.clients ensures after[c] == Served(s.cfg.decode, Own(s.reqs, c, n), s.clients[c], ok) {
      ServedStep(s.cfg.decode, s.reqs, c, n, s.clients[c], ok);
    }
  }

  /** One round of the loop of onAsync. */
  lemma NextRequestAlone(s: State, ok: nat -> bool) returns (steps: seq<Step>, s': State)
    requires s.loop.LDrain? && s.reqs != [] && AllFree(s)
    ensures OfLoop(steps) && Leads(s, steps, s') && s'.loop.LDrain? && s'.reqs == s.reqs[1..] && s'.cfg == s.cfg
    ensures var c := s.reqs[0].client;
            && s'.clients == s.clients[c := Carry(s.cfg.decode, s.reqs[0].kind, s.clients[c], ok)]
            && AllFree(s')
  {
    var a, request := Turn(true, 0), s.reqs[0];
    var s1 := Next(s, a);
    LeadsOne(s, a);
    var more;
    more, s' := RequestAlone(s1, request.kind, request.client, ok);
    LeadsOn(s, [a], s1, more, s');
    CarryKeepsOwner(s.cfg.decode, request.kind, s.clients[request.client], ok);
    steps := [a] + more;
  }

  // ---------- the server thread ----------

  /** disconnect */
  lemma DisconnectAlone(s: State, c: Ref) returns (steps: seq<Step>, s': State)
    requires s.server == SDisconnect(c, DWant) && Free(s, c)
    ensures OfServer(steps) && Leads(s, steps, s') && s'.server.SLeave?
    ensures s'.clients == s.clients[c := AfterDisconnect(s.clients[c])]
    ensures if Disconnectable(s.clients[c]) then s'.reqs == s.reqs + [Request(DISCONNECT, c)] && s'.pending
            else s'.reqs == s.reqs && s'.pending == s.pending
  {
    var a := Call(0);
    steps, s' := [a, a], Next(Next(s, a), a);
    LeadsTwo(s, a, a);
    if s'.server.SDisconnect? {
      LeadsTwo(s', a, a);
      LeadsOn(s, steps, s', [a, a], Next(Next(s', a), a));
      steps, s' := steps + [a, a], Next(Next(s', a), a);
    }
  }

  /** write */
  lemma WriteAlone(s: State, c: Ref, data: Bytes) returns (steps: seq<Step>, s': State)
    requires s.server == SWrite(c, WWant, data) && Free(s, c)
    ensures OfServer(steps) && Leads(s, steps, s') && s'.server.SLeave?
    ensures s'.clients == s.clients[c := AfterWrite(s.clients[c], data)]
    ensures if Writable(s.clients[c]) then s'.reqs == s.reqs + [Request(WRITE, c)] && s'.pending
            else s'.reqs == s.reqs && s'.pending == s.pending
  {
    var a := Call(0);
    steps, s' := [a, a], Next(Next(s, a), a);
    LeadsTwo(s, a, a);
    if s'.server.SWrite? {
      var s1 := Next(Next(s', a), a);
      LeadsTwo(s', a, a);
      LeadsOn(s, steps, s', [a, a], s1);
      LeadsOne(s1, a);
      LeadsOn(s, steps + [a, a], s1, [a], Next(s1, a));
      steps, s' := steps + [a, a] + [a], Next(s1, a);
    }
  }

  /** The loop of onPoll, with `acc` collected so far. */
  lemma {:induction false} PollAlone(s: State, c: Ref, acc: Bytes, now: int) returns (steps: seq<Step>, s': State)
    requires s.server == SRead(c, RWant, acc) && |acc| < DATA_THRESHOLD && Free(s, c) && Readable(s.clients[c])
    ensures OfServer(steps) && Leads(s, steps, s') && s'.server.SLeave? && s'.reqs == s.reqs
    ensures s'.clients == s.clients[c := Answered(s.clients[c], acc, now)]
    decreases |s.clients[c].readq|
  {
    steps, s' := RoundAlone(s, c, acc, now);
    var r := s.clients[c];
    if r.readq == [] {
      PolledNone(r, acc, now);
    } else {
      PolledFirst(r, acc, now);
      if s'.server.SRead? {
        var more, s'' := PollAlone(s', c, acc + r.readq[0], now);
        LeadsOn(s, steps, s', more, s'');
        steps, s' := steps + more, s'';
      }
    }
  }

  /** What a poll makes of a client, its answer included. */
  function Answered(r: Client, acc: Bytes, now: int): Client {
    var n := PollTakes(r.readq, |acc|);
    Delivered(Polled(r, now, n), acc + Flatten(r.readq[..n]))
  }

  lemma PolledNone(r: Client, acc: Bytes, now: int)
    requires r.readq == []
    ensures Answered(r, acc, now) == Delivered(Touched(r, now), acc)
  {
    assert r.readq[..0] == [] && acc + [] == acc && r.rx.taken + [] == r.rx.taken;
  }

  lemma PolledFirst(r: Client, acc: Bytes, now: int)
    requires r.readq != []
    ensures var chunk, r1 := r.readq[0], TakeChunk(Touched(r, now));
            Answered(r, acc, now)
            == if |chunk| > 0 && |acc + chunk| < DATA_THRESHOLD then Answered(r1, acc + chunk, now)
               else Delivered(r1, acc + chunk)
  {
    var chunk, rest, n := r.readq[0], r.readq[1..], PollTakes(r.readq, |acc|);
    assert r.readq[..n][0] == chunk && r.readq[..n][1..] == rest[..n - 1] && r.readq[n..] == rest[n - 1..];
    Regroup(acc, chunk, Flatten(rest[..n - 1]));
    Regroup(r.rx.taken, chunk, Flatten(rest[..n - 1]));
    if n == 1 {
      assert rest[..0] == [] && acc + chunk + [] == acc + chunk && r.rx.taken + chunk + [] == r.rx.taken + chunk;
    }
  }

  lemma Regroup(a: Bytes, b: Bytes, c: Bytes)
    ensures (a + b) + c == a + (b + c)
  {
  }

  /** One round of that loop: test, access time, one chunk. */
  lemma RoundAlone(s: State, c: Ref, acc: Bytes, now: int) returns (steps: seq<Step>, s': State)
    requires s.server == SRead(c, RWant, acc) && Free(s, c) && Readable(s.clients[c])
    ensures OfServer(steps) && Leads(s, steps, s')
    ensures var e := OnRead(c, RTake, acc, Touched(s.clients[c], now), now);
            s' == s.(clients := s.clients[c := e.r], server := e.pc)
  {
    var a := Call(now);
    var s1 := Next(Next(s, a), a);
    LeadsTwo(s, a, a);
    assert s1 == s.(server := SRead(c, RTouch, acc), clients := s.clients[c := s.clients[c]]);
    LeadsTwo(s1, a, a);
    s' := Next(Next(s1, a), a);
    LeadsOn(s, [a, a], s1, [a, a], s');
    steps := [a, a] + [a, a];
  }

  /** A poll of a session that is not open is answered GONE and takes nothing. */
  lemma PollGoneAlone(s: State, c: Ref, acc: Bytes) returns (steps: seq<Step>, s': State)
    requires s.server == SRead(c, RWant, acc) && Free(s, c) && !Readable(s.clients[c])
    ensures OfServer(steps) && Leads(s, steps, s') && s'.server.SLeave? && s'.reqs == s.reqs
    ensures s'.clients == s.clients[c := AnsweredGone(s.clients[c])] && s.clients[c].id in s'.gone
  {
    var a := Call(0);
    steps, s' := [a, a], Next(Next(s, a), a);
    LeadsTwo(s, a, a);
  }
}
