/**
  The invariant of the session machine.  Nearly all of it speaks of one client at a time, so
  it is stated over the view of one client: its record, the requests queued for it, and the
  program points of the two threads as far as they concern it.  A step changes the view of at
  most one client (SessionSteps), so the proofs here are about single views.
 */
module SessionInvariant {
  import opened Bytes
  import opened Options
  import opened ClientState
  import opened Session

  /**
    `stored`: the storage maps the client's id to it.  `reading`: the clock reading at which
    the current sweep visited it, if it has.
   */
  datatype View = View(r: Client, q: seq<Kind>, sp: ServerPc, lp: LoopPc, stored: bool, reading: Option<int>)

  /** The requests of one client, in queue order. */
  function Requests(reqs: seq<Request<Ref>>, c: Ref): seq<Kind> {
    if reqs == [] then []
    else (if reqs[0].client == c then [reqs[0].kind] else []) + Requests(reqs[1..], c)
  }

  function Count(q: seq<Kind>, k: Kind): nat {
    if q == [] then 0 else (if q[0] == k then 1 else 0) + Count(q[1..], k)
  }

  /** A program point that concerns another client, or none, counts as idle. */
  function ServerAt(pc: ServerPc, c: Ref): ServerPc {
    if ServerClient(pc) == Some(c) then pc else SIdle
  }

  function LoopAt(pc: LoopPc, c: Ref): LoopPc {
    if LoopClient(pc) == Some(c) then pc else LIdle
  }

  function SweepDone(pc: LoopPc): map<Ref, int> {
    if pc.LSweep? || pc.LTimer? then pc.done else map[]
  }

  function ReadingAt(pc: LoopPc, c: Ref): Option<int> {
    if c in SweepDone(pc) then Some(SweepDone(pc)[c]) else None
  }

  predicate IsStored(storage: map<Id, Ref>, id: Id, c: Ref) {
    id in storage && storage[id] == c
  }

  function ViewOf(s: State, c: Ref): View
    requires c in s.clients
  {
    View(s.clients[c], Requests(s.reqs, c), ServerAt(s.server, c), LoopAt(s.loop, c),
         IsStored(s.storage, s.clients[c].id, c), ReadingAt(s.loop, c))
  }

  // ---------- the invariant of one client ----------

  function One(b: bool): nat {
    if b then 1 else 0
  }

  /** Inside `connect`, before its first wait. */
  ghost predicate Starting(pc: ServerPc) {
    pc.SConnect? && (pc.con.CWant? || pc.con.CHold? || pc.con.CSend? || pc.con.CSet?)
  }

  /** Inside `connect` from its first wait on, and in the `disconnect` after a timeout. */
  ghost predicate Awaiting(pc: ServerPc) {
    || (pc.SConnect? && (pc.con.CWait? || pc.con.CWake? || pc.con.CCheck?))
    || (pc.SDisconnect? && (pc.dis.DWant? || pc.dis.DHold?))
  }

  ghost predicate Completing(pc: LoopPc) {
    pc.LComplete? && !pc.at.After?
  }

  /** In a callback that libuv makes for an open handle only. */
  ghost predicate Receiving(pc: LoopPc) {
    pc.LRead? || (pc.LComplete? && pc.at.After?)
  }

  /** The state mutex is owned exactly by the thread that is inside a critical section. */
  ghost predicate Locks(v: View) {
    && (v.r.owner.Server? <==> ServerHoldsState(v.sp))
    && (v.r.owner.Loop? <==> LoopHoldsState(v.lp))
  }

  /** Living clients are the stored ones, and the threads hold pointers to living clients. */
  ghost predicate Life(v: View) {
    && (v.r.alive <==> v.stored)
    && (!v.sp.SIdle? ==> v.r.alive)
    && (!v.lp.LIdle? && !v.lp.LDisconnect? && !v.lp.LWrite? ==> v.r.alive)
    && (!v.r.alive ==> v.r.log.closes >= 1 && !v.r.handle.closing)
  }

  /** The handle: opened once, then closed, one close callback, no callback after that. */
  ghost predicate HandleOk(v: View) {
    && (v.r.handle.inflight ==> v.r.alive && v.r.log.tried)
    && (v.r.handle.reading || Receiving(v.lp) ==>
          v.r.alive && v.r.log.tried && v.r.log.closes == 0 && !v.r.handle.inflight && !Completing(v.lp))
    && (v.r.handle.closed <==> v.r.log.closes >= 1)
    && (v.r.handle.closing ==> v.r.handle.closed)
    && (v.r.log.closes >= 1 && v.r.alive ==> v.r.handle.closing || v.lp.LClose?)
    && (v.lp.LClose? ==> v.r.log.closes >= 1 && !v.r.handle.closing && !v.r.handle.inflight)
    && (Completing(v.lp) ==> v.r.log.tried && !v.r.handle.inflight)
  }

  /** From `connect` to the one outcome: a connection or FAIL_CONNECT, signalled once. */
  ghost predicate Opening(v: View) {
    && (v.r.log.tried ==> v.r.log.asked)
    && (!v.r.log.asked <==> v.sp.SConnect? && (v.sp.con.CWant? || v.sp.con.CHold?))
    && (!v.r.log.asked ==> v.q == [] && v.r.log.entries == 0 && v.lp.LIdle?)
    && (v.r.phase.Disconnected? <==> Starting(v.sp))
    && (Starting(v.sp) ==> !v.r.log.tried)
    && (v.r.phase.Connecting? ==> Awaiting(v.sp) && v.r.log.signals == 0)
    && (Waiting(v.sp) ==> v.r.phase.Connecting? || v.r.phase.Disconnecting?)
    && (v.sp.SConnect? && v.r.phase.Disconnecting? ==> v.r.log.signals == 1)
    && Count(v.q, CONNECT) + One(v.lp.LConnect?) == One(v.r.log.asked && !v.r.log.tried)
    && (Count(v.q, CONNECT) > 0 ==> v.q[0] == CONNECT)
    && (v.lp.LDisconnect? || v.lp.LWrite? ==> v.r.log.tried)
    && v.r.log.signals == One(v.r.log.tried && !v.r.handle.inflight && !Completing(v.lp))
    && (v.r.phase.Connected? || v.r.phase.FailConnect? ==> v.r.log.signals == 1)
  }

  /** Every entry into DISCONNECTING is paid by one uv_close, done or still to come. */
  ghost predicate Ledger(v: View) {
    && v.r.log.entries == v.r.log.overwrites + One(v.r.phase.Disconnecting?)
    && v.r.log.entries == v.r.log.closes + Count(v.q, DISCONNECT)
                          + One(v.sp.SDisconnect? && v.sp.dis.DQueue?) + One(v.lp.LDisconnect?)
    && v.r.log.overwrites <= v.r.log.signals
    && (v.r.log.overwrites >= 1 ==> v.r.phase.FailConnect? || v.r.phase.Disconnecting?)
    && (v.r.log.closes >= 1 ==> v.r.log.tried)
  }

  function Collected(pc: ServerPc): Bytes {
    if pc.SRead? then pc.acc else []
  }

  ghost predicate ChunkOk(chunk: Bytes, biggest: nat) {
    0 < |chunk| <= biggest
  }

  /** Bytes of the read queue: put in = taken + still there, and polls answer what they take. */
  ghost predicate Reads(v: View) {
    && v.r.rx.queued == v.r.rx.taken + Flatten(v.r.readq)
    && (forall i :: 0 <= i < |v.r.readq| ==> ChunkOk(v.r.readq[i], v.r.rx.biggest))
    && |Collected(v.sp)| < DATA_THRESHOLD
    && (!v.r.log.gone ==> v.r.rx.taken == v.r.rx.delivered + Collected(v.sp))
    && (v.r.log.gone ==> v.r.rx.delivered <= v.r.rx.taken && Collected(v.sp) == []
                         && (v.r.phase.FailConnect? || v.r.phase.Disconnecting?)
                         && (v.sp.SRead? ==> v.sp.rd.RWant? || v.sp.rd.RHold?))
    && (v.lp.LRead? && v.lp.at.After? ==> v.lp.chunk.Some? && v.lp.chunk.value != [])
    && |InHand(v.lp)| <= v.r.rx.biggest
  }

  /** The chunk that onRead has been called with. */
  function InHand(pc: LoopPc): Bytes {
    if pc.LRead? && pc.chunk.Some? then pc.chunk.value else []
  }

  /** Every byte that arrived is in the read queue, was there, or is in the hand of onRead. */
  ghost predicate Complete(v: View) {
    v.r.rx.arrived == v.r.rx.queued + InHand(v.lp)
  }

  /** A poll has found the session open and goes for a chunk. */
  ghost predicate Taking(pc: ServerPc) {
    pc.SRead? && (pc.rd.RTouch? || pc.rd.RTake?)
  }

  /** onRead drops a chunk only of a session that is not connected, never will be again, and that no poll reads. */
  ghost predicate Arrivals(v: View) {
    && (Complete(v)
        || (v.r.rx.queued <= v.r.rx.arrived && !v.r.phase.Connected? && v.r.log.signals == 1
            && !(v.lp.LRead? && v.lp.at.After?) && !Taking(v.sp)))
    && (Taking(v.sp) ==> v.r.phase.Connected? || v.r.log.closes >= 1)
  }

  /** What `_write` makes of a list of items when the socket takes them all. */
  function Decodable(decode: Bytes -> Option<Bytes>, items: seq<Bytes>): seq<Bytes> {
    if items == [] then []
    else
      var d := decode(items[|items| - 1]);
      Decodable(decode, items[..|items| - 1]) + if d.Some? then [d.value] else []
  }

  /** The item that `write` has accepted and not yet put in the queue. */
  function ToPut(pc: ServerPc): seq<Bytes> {
    if pc.SWrite? && pc.wr.WPut? then [pc.data] else []
  }

  /** Items to the backend: every queued item has a WRITE request that will fetch it. */
  ghost predicate Writes(cfg: Config, v: View) {
    && Accounted(v.r, ToPut(v.sp))
    && |v.r.writeq| <= Count(v.q, WRITE) + One(v.sp.SWrite? && v.sp.wr.WQueue?) + One(v.lp.LWrite? && v.lp.first)
    && InOrder(cfg.decode, v.r.tx)
  }

  /** What was posted was taken, is in the queue, or comes next. */
  ghost predicate Accounted(r: Client, more: seq<Bytes>) {
    r.tx.posted == r.tx.popped + r.writeq + more
  }

  ghost predicate InOrder(decode: Bytes -> Option<Bytes>, tx: Outbound) {
    && Subsequence(tx.sent, Decodable(decode, tx.popped))
    && (!tx.refused ==> tx.sent == Decodable(decode, tx.popped))
  }

  /** A wait after the first is paid by a signal or a spurious wakeup. */
  ghost predicate Waits(v: View) {
    && v.r.log.waits <= 1 + v.r.log.signals + v.r.log.spurious
    && (v.sp.SConnect? && (v.sp.con == CWake(false) || v.sp.con == CCheck(false)) ==>
          v.r.log.waits <= v.r.log.signals + v.r.log.spurious)
    && (v.sp.SConnect? ==> (Starting(v.sp) <==> v.r.log.waits == 0))
  }

  /** A client that the sweep has passed is closing, or was accessed within the timeout. */
  ghost predicate Fresh(r: Client, now: int) {
    r.phase.Disconnecting? || (r.phase.Connected? && now - r.lastAccess < r.timeout)
  }

  ghost predicate Sweep(v: View) {
    && (v.reading.Some? ==> v.r.alive && Fresh(v.r, v.reading.value))
    && (v.lp.LTimer? ==> v.lp.past == v.lp.now - v.r.lastAccess)
  }

  ghost predicate Control(v: View) {
    && Locks(v)
    && Life(v)
    && HandleOk(v)
    && Opening(v)
    && Ledger(v)
    && Waits(v)
    && Sweep(v)
  }

  ghost predicate ClientInv(cfg: Config, v: View) {
    Control(v) && Reads(v) && Arrivals(v) && Writes(cfg, v)
  }

  // ---------- the rest of the invariant ----------

  ghost predicate SendDue(pc: ServerPc) {
    || (pc.SConnect? && pc.con.CSend?)
    || (pc.SDisconnect? && pc.dis.DSend?)
    || (pc.SWrite? && pc.wr.WSend?)
  }

  /** The loop is inside onAsync and will test the queue again. */
  ghost predicate Draining(pc: LoopPc) {
    pc.LDrain? || pc.LConnect? || pc.LDisconnect? || pc.LWrite?
  }

  ghost predicate InSweep(pc: LoopPc) {
    pc.LSweep? || pc.LTimer?
  }

  function SweepTodo(pc: LoopPc): set<Ref> {
    if pc.LSweep? || pc.LTimer? then pc.todo else {}
  }

  function Current(pc: LoopPc): set<Ref> {
    if pc.LTimer? then {pc.c} else {}
  }

  /** Each stored client is still to visit, being visited, or visited: exactly one of these. */
  ghost predicate SweepOnce(pc: LoopPc, all: set<Ref>) {
    && SweepTodo(pc) + Current(pc) + SweepDone(pc).Keys == all
    && SweepTodo(pc) !! Current(pc)
    && SweepTodo(pc) !! SweepDone(pc).Keys
    && Current(pc) !! SweepDone(pc).Keys
  }

  /** The storage mutex, the storage, the pointers the threads hold, the wakeup. */
  ghost predicate StoredClient(s: State, c: Ref)
    requires c in s.clients
  {
    IsStored(s.storage, s.clients[c].id, c)
  }

  ghost predicate GlobalInv(s: State) {
    && (s.lock.Server? <==> ServerHoldsStorage(s.server))
    && (s.lock.Loop? <==> LoopHoldsStorage(s.loop))
    && (ServerClient(s.server).Some? ==> ServerClient(s.server).value in s.clients)
    && (LoopClient(s.loop).Some? ==> LoopClient(s.loop).value in s.clients)
    && (ServerClient(s.server).Some? ==> StoredClient(s, s.server.c))
    && (s.loop.LClose? ==> StoredClient(s, s.loop.c))
    && (forall i :: 0 <= i < |s.reqs| ==> s.reqs[i].client in s.clients)
    && |s.storage| <= s.cfg.maxClients
    && (forall id :: id in s.storage ==> s.storage[id] in s.clients && s.clients[s.storage[id]].id == id)
    && (s.reqs != [] ==> s.pending || SendDue(s.server) || Draining(s.loop))
    && (InSweep(s.loop) ==> SweepOnce(s.loop, s.storage.Values))
    && (forall id :: id in s.gone && id in s.storage ==> s.clients[s.storage[id]].log.gone)
  }

  ghost predicate ClientsInv(s: State) {
    forall c {:trigger ViewOf(s, c)} :: c in s.clients ==> ClientInv(s.cfg, ViewOf(s, c))
  }

  ghost predicate Inv(s: State) {
    GlobalInv(s) && ClientsInv(s)
  }

  // ---------- steps, seen by the client they concern ----------

  lemma {:induction false} CountSnoc(q: seq<Kind>, x: Kind, k: Kind)
    ensures Count(q + [x], k) == Count(q, k) + One(x == k)
  {
    if q == [] {
      assert [] + [x] == [x];
    } else {
      assert (q + [x])[1..] == q[1..] + [x];
      CountSnoc(q[1..], x, k);
    }
  }

  function ServerView(v: View, c: Ref, e: ServerEffect): View {
    v.(r := e.r, q := if e.post.Some? then v.q + [e.post.value] else v.q, sp := ServerAt(e.pc, c))
  }

  ghost predicate ServerCan(v: View, c: Ref) {
    && Control(v)
    && ServerClient(v.sp) == Some(c) && !Waiting(v.sp)
    && (ServerWantsState(v.sp) ==> v.r.owner.Nobody?)
    && v.reading.None? && !v.lp.LTimer?
  }

  /** The request that a server step queues keeps the counts of the other kinds. */
  lemma CountPosted(v: View, c: Ref, e: ServerEffect, k: Kind)
    ensures Count(ServerView(v, c, e).q, k) == Count(v.q, k) + One(e.post == Some(k))
  {
    if e.post.Some? {
      CountSnoc(v.q, e.post.value, k);
    }
  }

  lemma CheckKeepsControl(v: View, c: Ref)
    requires ServerCan(v, c) && v.sp.SConnect? && (v.sp.con.CWake? || v.sp.con.CCheck?)
    ensures Control(ServerView(v, c, OnConnect(c, v.sp.con, v.r)))
  {
  }

  lemma ConnectKeepsControl(v: View, c: Ref)
    requires ServerCan(v, c) && Starting(v.sp)
    ensures Control(ServerView(v, c, OnConnect(c, v.sp.con, v.r)))
  {
    var e := OnConnect(c, v.sp.con, v.r);
    CountPosted(v, c, e, CONNECT);
    CountPosted(v, c, e, DISCONNECT);
  }

  lemma DisconnectKeepsControl(v: View, c: Ref)
    requires ServerCan(v, c) && v.sp.SDisconnect?
    ensures Control(ServerView(v, c, OnDisconnect(c, v.sp.dis, v.r)))
  {
    var e := OnDisconnect(c, v.sp.dis, v.r);
    CountPosted(v, c, e, CONNECT);
    CountPosted(v, c, e, DISCONNECT);
  }

  lemma ReadKeepsControl(v: View, c: Ref, clock: int)
    requires ServerCan(v, c) && v.sp.SRead? && !v.sp.rd.RTake?
    ensures Control(ServerView(v, c, OnRead(c, v.sp.rd, v.sp.acc, v.r, clock)))
  {
  }

  lemma TakeKeepsControl(v: View, c: Ref, clock: int)
    requires ServerCan(v, c) && v.sp.SRead? && v.sp.rd.RTake?
    ensures Control(ServerView(v, c, OnRead(c, v.sp.rd, v.sp.acc, v.r, clock)))
  {
  }

  lemma WriteKeepsControl(v: View, c: Ref)
    requires ServerCan(v, c) && v.sp.SWrite?
    ensures Control(ServerView(v, c, OnWrite(c, v.sp.wr, v.sp.data, v.r)))
  {
    var e := OnWrite(c, v.sp.wr, v.sp.data, v.r);
    CountPosted(v, c, e, CONNECT);
    CountPosted(v, c, e, DISCONNECT);
  }

  /** A call that is not a read neither takes, delivers nor adds bytes, and does not open a session. */
  ghost predicate NoReading(r: Client, e: ServerEffect) {
    && e.r.readq == r.readq && !e.pc.SRead?
    && e.r.rx == r.rx && e.r.log.gone == r.log.gone
    && (e.r.phase == r.phase || e.r.phase.Disconnecting? || e.r.phase.Connecting?)
  }

  lemma ConnectReadsNothing(c: Ref, at: ConnectAt, r: Client)
    requires !at.CWait?
    ensures NoReading(r, OnConnect(c, at, r)) && (OnConnect(c, at, r).r.phase != r.phase ==> at.CSet?)
  {
  }

  lemma DisconnectReadsNothing(c: Ref, at: DisconnectAt, r: Client)
    ensures NoReading(r, OnDisconnect(c, at, r))
    ensures OnDisconnect(c, at, r).r.phase.Connecting? ==> r.phase.Connecting?
  {
  }

  lemma WriteReadsNothing(c: Ref, at: WriteAt, data: Bytes, r: Client)
    ensures NoReading(r, OnWrite(c, at, data, r)) && OnWrite(c, at, data, r).r.phase == r.phase
  {
  }

  lemma OnlyReadReads(v: View, c: Ref, clock: int)
    requires ServerClient(v.sp) == Some(c) && !Waiting(v.sp) && !v.sp.SRead?
    ensures var e := ServerOnClient(v.sp, v.r, clock);
            NoReading(v.r, e) && (e.r.phase.Connecting? && !v.r.phase.Connecting? ==> Starting(v.sp))
  {
    match v.sp {
      case SConnect(_, at) => ConnectReadsNothing(c, at, v.r);
      case SDisconnect(_, at) => DisconnectReadsNothing(c, at, v.r);
      case SWrite(_, at, data) => WriteReadsNothing(c, at, data, v.r);
    }
  }

  lemma TakeKeepsReads(v: View, c: Ref, clock: int)
    requires ServerClient(v.sp) == Some(c) && Reads(v) && v.sp.SRead? && v.sp.rd.RTake?
    ensures Reads(ServerView(v, c, OnRead(c, v.sp.rd, v.sp.acc, v.r, clock)))
  {
    if v.r.readq != [] {
      var chunk, rest := v.r.readq[0], Flatten(v.r.readq[1..]);
      assert v.r.rx.taken + (chunk + rest) == (v.r.rx.taken + chunk) + rest;
      assert ChunkOk(chunk, v.r.rx.biggest);
    }
  }

  lemma ReadKeepsReads(v: View, c: Ref, clock: int)
    requires ServerCan(v, c) && Reads(v) && v.sp.SRead? && !v.sp.rd.RTake?
    ensures Reads(ServerView(v, c, OnRead(c, v.sp.rd, v.sp.acc, v.r, clock)))
  {
  }

  lemma ServerKeepsReads(v: View, c: Ref, clock: int)
    requires ServerCan(v, c) && Reads(v)
    ensures Reads(ServerView(v, c, ServerOnClient(v.sp, v.r, clock)))
  {
    if v.sp.SRead? {
      if v.sp.rd.RTake? { TakeKeepsReads(v, c, clock); } else { ReadKeepsReads(v, c, clock); }
    } else {
      OnlyReadReads(v, c, clock);
    }
  }

  lemma ServerKeepsArrivals(v: View, c: Ref, clock: int)
    requires ServerCan(v, c) && Arrivals(v)
    ensures Arrivals(ServerView(v, c, ServerOnClient(v.sp, v.r, clock)))
  {
    var e := ServerOnClient(v.sp, v.r, clock);
    assert e.r.rx == v.r.rx.(taken := e.r.rx.taken, delivered := e.r.rx.delivered);
    if v.sp.SRead? {
      assert Taking(e.pc) ==> Taking(v.sp) || (v.sp.rd.RHold? && Readable(v.r));
    } else {
      OnlyReadReads(v, c, clock);
    }
  }

  /** What every call but `write` leaves alone. */
  lemma OnlyWriteWrites(v: View, c: Ref, clock: int)
    requires ServerClient(v.sp) == Some(c) && !Waiting(v.sp) && !v.sp.SWrite?
    ensures var e := ServerOnClient(v.sp, v.r, clock);
            && e.r.writeq == v.r.writeq && !e.pc.SWrite? && e.post != Some(WRITE)
            && e.r.tx == v.r.tx
  {
  }

  lemma ServerKeepsWrites(cfg: Config, v: View, c: Ref, clock: int)
    requires ServerCan(v, c) && Writes(cfg, v)
    ensures Writes(cfg, ServerView(v, c, ServerOnClient(v.sp, v.r, clock)))
  {
    CountPosted(v, c, ServerOnClient(v.sp, v.r, clock), WRITE);
    if !v.sp.SWrite? {
      OnlyWriteWrites(v, c, clock);
    }
  }

  /** A step of the server thread keeps the invariant of the client it works on. */
  lemma ServerKeepsClient(cfg: Config, v: View, c: Ref, clock: int)
    requires ServerCan(v, c) && ClientInv(cfg, v)
    ensures ClientInv(cfg, ServerView(v, c, ServerOnClient(v.sp, v.r, clock)))
  {
    ServerKeepsReads(v, c, clock);
    ServerKeepsArrivals(v, c, clock);
    ServerKeepsWrites(cfg, v, c, clock);
    assert Control(ServerView(v, c, ServerOnClient(v.sp, v.r, clock))) by {
      match v.sp {
        case SConnect(_, _) =>
          if Starting(v.sp) { ConnectKeepsControl(v, c); } else { CheckKeepsControl(v, c); }
        case SDisconnect(_, _) => DisconnectKeepsControl(v, c);
        case SRead(_, rd, _) =>
          if rd.RTake? { TakeKeepsControl(v, c, clock); } else { ReadKeepsControl(v, c, clock); }
        case SWrite(_, _, _) => WriteKeepsControl(v, c);
      }
    }
  }

  // ---------- the loop thread ----------

  function LoopView(v: View, c: Ref, e: LoopEffect): View {
    v.(r := e.r, lp := LoopAt(e.pc, c), sp := if e.signal then Signalled(v.sp, c) else v.sp,
       reading := ReadingAt(e.pc, c))
  }

  ghost predicate LoopCan(v: View, c: Ref) {
    && Control(v)
    && LoopClient(v.lp) == Some(c) && !v.lp.LClose?
    && (LoopWantsState(v.lp) ==> v.r.owner.Nobody?)
    && v.reading.None? && c !in SweepDone(v.lp)
    && (v.lp.LTimer? ==> v.sp.SIdle?)
    && (v.sp.SIdle? || ServerClient(v.sp) == Some(c))
  }

  lemma DialKeepsControl(cfg: Config, v: View, c: Ref, i: LoopIn)
    requires LoopCan(v, c) && v.lp.LConnect?
    ensures Control(LoopView(v, c, LoopOnClient(cfg, v.lp, v.r, i)))
  {
  }

  lemma CloseKeepsControl(cfg: Config, v: View, c: Ref, i: LoopIn)
    requires LoopCan(v, c) && v.lp.LDisconnect?
    ensures Control(LoopView(v, c, LoopOnClient(cfg, v.lp, v.r, i)))
  {
  }

  lemma SendKeepsControl(cfg: Config, v: View, c: Ref, ok: bool)
    requires LoopCan(v, c) && v.lp.LWrite?
    ensures Control(LoopView(v, c, OnWriteRequest(cfg, c, v.r, ok)))
  {
    var e := OnWriteRequest(cfg, c, v.r, ok);
    assert e.r == v.r.(writeq := e.r.writeq, tx := e.r.tx);
  }

  lemma VisitKeepsControl(cfg: Config, v: View, c: Ref, i: LoopIn)
    requires LoopCan(v, c) && v.lp.LTimer?
    ensures Control(LoopView(v, c, LoopOnClient(cfg, v.lp, v.r, i)))
  {
  }

  lemma OutcomeKeepsControl(v: View, c: Ref, clock: int)
    requires LoopCan(v, c) && v.lp.LComplete? && v.lp.at.Hold?
    ensures Control(LoopView(v, c, OnComplete(c, v.lp.at, v.lp.ok, v.r, clock)))
  {
  }

  lemma CompleteKeepsControl(v: View, c: Ref, clock: int)
    requires LoopCan(v, c) && v.lp.LComplete? && !v.lp.at.Hold?
    ensures Control(LoopView(v, c, OnComplete(c, v.lp.at, v.lp.ok, v.r, clock)))
  {
  }

  ghost predicate IsReadError(v: View) {
    v.lp.LRead? && v.lp.at.Hold? && v.r.phase.Connected? && v.lp.chunk.None?
  }

  lemma ReadErrorKeepsControl(v: View, c: Ref)
    requires LoopCan(v, c) && IsReadError(v)
    ensures Control(LoopView(v, c, OnIncoming(c, v.lp.at, v.lp.chunk, v.r)))
  {
  }

  lemma IncomingKeepsControl(v: View, c: Ref)
    requires LoopCan(v, c) && v.lp.LRead? && !IsReadError(v)
    ensures Control(LoopView(v, c, OnIncoming(c, v.lp.at, v.lp.chunk, v.r)))
  {
    var e := OnIncoming(c, v.lp.at, v.lp.chunk, v.r);
    assert e.r == v.r.(owner := e.r.owner, readq := e.r.readq, rx := e.r.rx);
  }

  lemma LoopKeepsControl(cfg: Config, v: View, c: Ref, i: LoopIn)
    requires LoopCan(v, c)
    ensures Control(LoopView(v, c, LoopOnClient(cfg, v.lp, v.r, i)))
  {
    match v.lp {
      case LConnect(_, _) => DialKeepsControl(cfg, v, c, i);
      case LDisconnect(_) => CloseKeepsControl(cfg, v, c, i);
      case LWrite(_, _) => SendKeepsControl(cfg, v, c, i.ok);
      case LTimer(_, _, _, _, _, _) => VisitKeepsControl(cfg, v, c, i);
      case LComplete(_, at, _) =>
        if at.Hold? { OutcomeKeepsControl(v, c, i.clock); } else { CompleteKeepsControl(v, c, i.clock); }
      case LRead(_, _, _) =>
        if IsReadError(v) { ReadErrorKeepsControl(v, c); } else { IncomingKeepsControl(v, c); }
    }
  }

  /** Only an incoming chunk adds to the bytes of a client. */
  lemma OnlyIncomingReads(cfg: Config, v: View, c: Ref, i: LoopIn)
    requires LoopCan(v, c) && !v.lp.LRead?
    ensures var e := LoopOnClient(cfg, v.lp, v.r, i);
            && e.r.readq == v.r.readq && !e.pc.LRead?
            && e.r.rx == v.r.rx && e.r.log.gone == v.r.log.gone
            && (e.r.phase == v.r.phase || e.r.phase.Disconnecting? || e.r.phase.FailConnect? || v.r.phase.Connecting?)
  {
  }

  lemma IncomingKeepsReads(v: View, c: Ref)
    requires v.lp.LRead? && v.lp.c == c && Reads(v)
    ensures Reads(LoopView(v, c, OnIncoming(c, v.lp.at, v.lp.chunk, v.r)))
  {
    var e := OnIncoming(c, v.lp.at, v.lp.chunk, v.r);
    if v.lp.at.After? {
      QueueingKeepsReads(v, v.lp.chunk.value);
    } else {
      assert e.r.readq == v.r.readq && e.r.rx == v.r.rx && e.r.log.gone == v.r.log.gone;
    }
  }

  lemma QueueingKeepsReads(v: View, chunk: Bytes)
    requires Reads(v) && 0 < |chunk| <= v.r.rx.biggest
    ensures Reads(v.(r := PutChunk(v.r, chunk), lp := LIdle))
  {
    FlattenSnoc(v.r.readq, chunk);
    assert v.r.rx.queued + chunk == v.r.rx.taken + (Flatten(v.r.readq) + chunk);
  }

  lemma LoopKeepsReads(cfg: Config, v: View, c: Ref, i: LoopIn)
    requires LoopCan(v, c) && Reads(v)
    ensures Reads(LoopView(v, c, LoopOnClient(cfg, v.lp, v.r, i)))
  {
    if v.lp.LRead? {
      IncomingKeepsReads(v, c);
    } else {
      OnlyIncomingReads(cfg, v, c, i);
    }
  }

  lemma IncomingKeepsArrivals(v: View, c: Ref)
    requires LoopCan(v, c) && Arrivals(v) && v.lp.LRead?
    ensures Arrivals(LoopView(v, c, OnIncoming(c, v.lp.at, v.lp.chunk, v.r)))
  {
  }

  lemma LoopKeepsArrivals(cfg: Config, v: View, c: Ref, i: LoopIn)
    requires LoopCan(v, c) && Arrivals(v)
    ensures Arrivals(LoopView(v, c, LoopOnClient(cfg, v.lp, v.r, i)))
  {
    if v.lp.LRead? {
      IncomingKeepsArrivals(v, c);
    } else {
      OnlyIncomingReads(cfg, v, c, i);
    }
  }

  lemma OnlyWriteRequestWrites(cfg: Config, v: View, c: Ref, i: LoopIn)
    requires LoopCan(v, c) && !v.lp.LWrite?
    ensures var e := LoopOnClient(cfg, v.lp, v.r, i);
            && e.r.writeq == v.r.writeq && !e.pc.LWrite?
            && e.r.tx == v.r.tx
  {
  }

  lemma DecodableSnoc(decode: Bytes -> Option<Bytes>, items: seq<Bytes>, x: Bytes)
    ensures Decodable(decode, items + [x])
         == Decodable(decode, items) + if decode(x).Some? then [decode(x).value] else []
  {
    assert (items + [x])[..|items|] == items;
  }

  lemma SendKeepsWrites(cfg: Config, v: View, c: Ref, ok: bool)
    requires v.lp.LWrite? && v.lp.c == c && Writes(cfg, v)
    ensures Writes(cfg, LoopView(v, c, OnWriteRequest(cfg, c, v.r, ok)))
  {
    SendKeepsAccount(cfg, c, v.r, ToPut(v.sp), ok);
    SendKeepsOrder(cfg, c, v.r, ok);
  }

  lemma SendKeepsAccount(cfg: Config, c: Ref, r: Client, more: seq<Bytes>, ok: bool)
    requires Accounted(r, more)
    ensures Accounted(OnWriteRequest(cfg, c, r, ok).r, more)
  {
    if r.writeq != [] {
      assert r.tx.popped + r.writeq == (r.tx.popped + [r.writeq[0]]) + r.writeq[1..];
    }
  }

  lemma SendKeepsOrder(cfg: Config, c: Ref, r: Client, ok: bool)
    requires InOrder(cfg.decode, r.tx)
    ensures InOrder(cfg.decode, OnWriteRequest(cfg, c, r, ok).r.tx)
  {
    if r.writeq != [] {
      var x := r.writeq[0];
      if cfg.decode(x).None? {
        DropInOrder(cfg.decode, r.tx, x);
      } else {
        SendInOrder(cfg.decode, r.tx, x);
      }
    }
  }

  lemma DropInOrder(decode: Bytes -> Option<Bytes>, tx: Outbound, x: Bytes)
    requires InOrder(decode, tx) && decode(x).None?
    ensures InOrder(decode, tx.(popped := tx.popped + [x]))
  {
    DecodableSnoc(decode, tx.popped, x);
    assert Decodable(decode, tx.popped) + [] == Decodable(decode, tx.popped);
  }

  lemma SendInOrder(decode: Bytes -> Option<Bytes>, tx: Outbound, x: Bytes)
    requires InOrder(decode, tx) && decode(x).Some?
    ensures var popped := tx.popped + [x];
            && InOrder(decode, tx.(popped := popped, sent := tx.sent + [decode(x).value]))
            && InOrder(decode, tx.(popped := popped, refused := true))
  {
    DecodableSnoc(decode, tx.popped, x);
    SubsequenceKeep(tx.sent, Decodable(decode, tx.popped), decode(x).value);
    SubsequenceDrop(tx.sent, Decodable(decode, tx.popped), decode(x).value);
  }

  lemma LoopKeepsWrites(cfg: Config, v: View, c: Ref, i: LoopIn)
    requires LoopCan(v, c) && Writes(cfg, v)
    ensures Writes(cfg, LoopView(v, c, LoopOnClient(cfg, v.lp, v.r, i)))
  {
    if v.lp.LWrite? {
      SendKeepsWrites(cfg, v, c, i.ok);
    } else {
      OnlyWriteRequestWrites(cfg, v, c, i);
    }
  }

  /** A step of the loop thread keeps the invariant of the client it works on. */
  lemma LoopKeepsClient(cfg: Config, v: View, c: Ref, i: LoopIn)
    requires LoopCan(v, c) && ClientInv(cfg, v)
    ensures ClientInv(cfg, LoopView(v, c, LoopOnClient(cfg, v.lp, v.r, i)))
  {
    LoopKeepsControl(cfg, v, c, i);
    LoopKeepsReads(cfg, v, c, i);
    LoopKeepsArrivals(cfg, v, c, i);
    LoopKeepsWrites(cfg, v, c, i);
  }

  // ---------- steps that hand a client to a thread ----------

  lemma CreatedInv(cfg: Config, id: Id, timeout: int, garbage: int, c: Ref)
    ensures ClientInv(cfg, View(Created(id, timeout, garbage), [], SConnect(c, CWant), LIdle, true, None))
  {
  }

  lemma LookupKeepsClient(cfg: Config, v: View, c: Ref, sp: ServerPc)
    requires ClientInv(cfg, v) && v.sp.SIdle? && v.stored
    requires sp == SDisconnect(c, DWant) || sp == SRead(c, RWant, []) || (sp.SWrite? && sp.wr.WWant?)
    ensures ClientInv(cfg, v.(sp := sp))
  {
  }

  lemma DequeueKeepsClient(cfg: Config, v: View, c: Ref)
    requires ClientInv(cfg, v) && v.lp.LIdle? && v.q != [] && v.reading.None?
    ensures ClientInv(cfg, v.(q := v.q[1..], lp := Handler(Request(v.q[0], c))))
  {
  }

  lemma ConnectDoneKeepsClient(cfg: Config, v: View, c: Ref, ok: bool)
    requires ClientInv(cfg, v) && v.lp.LIdle? && v.r.handle.inflight
    ensures ClientInv(cfg, v.(r := v.r.(handle := v.r.handle.(inflight := false)), lp := LComplete(c, Want, ok)))
  {
  }

  lemma IncomingKeepsClient(cfg: Config, v: View, c: Ref, chunk: Option<Bytes>)
    requires ClientInv(cfg, v) && v.lp.LIdle? && v.r.handle.reading
    ensures ClientInv(cfg, v.(r := Heard(v.r, chunk), lp := LRead(c, Want, chunk)))
  {
  }

  lemma CloseDoneKeepsClient(cfg: Config, v: View, c: Ref)
    requires ClientInv(cfg, v) && v.lp.LIdle? && v.r.handle.closing && !v.r.handle.inflight
    ensures ClientInv(cfg, v.(r := v.r.(handle := v.r.handle.(closing := false)), lp := LClose(c, false)))
  {
  }

  lemma VisitStartsKeepsClient(cfg: Config, v: View, c: Ref, now: int, todo: set<Ref>, done: map<Ref, int>)
    requires ClientInv(cfg, v) && v.lp.LIdle? && v.sp.SIdle? && v.stored
    ensures ClientInv(cfg, v.(lp := LTimer(c, false, now, now - v.r.lastAccess, todo, done)))
  {
  }

  lemma CloseLockedKeepsClient(cfg: Config, v: View, c: Ref)
    requires ClientInv(cfg, v) && v.lp == LClose(c, false)
    ensures ClientInv(cfg, v.(lp := LClose(c, true)))
  {
  }

  lemma DestroyKeepsClient(cfg: Config, v: View)
    requires ClientInv(cfg, v) && v.lp.LClose? && v.sp.SIdle?
    ensures ClientInv(cfg, v.(r := v.r.(alive := false), lp := LIdle, stored := false, reading := None))
  {
  }

  function WokenView(v: View, c: Ref, spurious: bool): View {
    if spurious then
      v.(sp := SConnect(c, CWake(false)), r := v.r.(log := v.r.log.(spurious := v.r.log.spurious + 1)))
    else v.(sp := SConnect(c, CWake(true)))
  }

  lemma WakeKeepsClient(cfg: Config, v: View, c: Ref, spurious: bool)
    requires ClientInv(cfg, v) && v.sp == SConnect(c, CWait)
    ensures ClientInv(cfg, WokenView(v, c, spurious))
  {
  }

  lemma SweepEndsKeepsClient(cfg: Config, v: View)
    requires ClientInv(cfg, v)
    ensures ClientInv(cfg, v.(reading := None))
  {
  }
}
