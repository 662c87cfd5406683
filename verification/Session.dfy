/**
  The session relay as a machine of two threads: the server thread that answers requests
  (src/linear_fcgi_server.cc) and the libuv loop thread (src/linear_fcgi_loop.cc), sharing the
  client storage under its mutex, every client under its state mutex, and queues.

  One step is one of: taking a mutex, what a thread does while it holds one up to releasing
  it, one queue operation, one uv_async_send, one access outside any lock.  The queues are
  FIFOs here, which QueueMachine justifies.  libuv, clocks and the network are inputs.
 */
module Session {
  import opened Bytes
  import opened Options
  import opened ClientState

  /** The address of a client object; an address is never given to a second one. */
  type Ref = nat

  const DATA_THRESHOLD := 16384

  /** `decode` is url_decode followed by base64 decoding; it is None where base64 decoding fails. */
  datatype Config = Config(maxClients: nat, timeout: int, decode: Bytes -> Option<Bytes>)

  /** What a FastCGI request asks for; `allowed` is the verdict on its origin. */
  datatype Command =
    | Create(id: Id)
    | Drop(id: Id)
    | Poll(id: Id)
    | Post(id: Id, allowed: bool, data: Bytes)

  /** Program points of Client::connect; `Want` is waiting for the state mutex, `Hold` owning it. */
  datatype ConnectAt =
    | CWant | CHold
    | CSend              // CONNECT is queued, uv_async_send is due
    | CSet               // state_ = CONNECTING is due
    | CWait              // in pthread_cond_timedwait
    | CWake(err: bool)   // leaving it, waiting for the mutex
    | CCheck(err: bool)  // testing the state

  /** Program points of Client::disconnect. */
  datatype DisconnectAt = DWant | DHold | DQueue | DSend

  /** Program points of Client::read: setting last_access_, then consuming. */
  datatype ReadAt = RWant | RHold | RTouch | RTake

  /** Program points of Client::write: the item, then the WRITE request, then uv_async_send. */
  datatype WriteAt = WWant | WHold | WPut | WQueue | WSend

  /** Program points of the server thread; `acc` is what the loop of onPoll has collected. */
  datatype ServerPc =
    | SIdle
    | SWantStorage(cmd: Command)
    | SHaveStorage(cmd: Command)
    | SLeave
    | SConnect(c: Ref, con: ConnectAt)
    | SDisconnect(c: Ref, dis: DisconnectAt)
    | SRead(c: Ref, rd: ReadAt, acc: Bytes)
    | SWrite(c: Ref, wr: WriteAt, data: Bytes)

  /** Waiting for a mutex, owning it, or past the critical section. */
  datatype Stage = Want | Hold | After

  /** Program points of the loop thread. */
  datatype LoopPc =
    | LIdle
    | LDrain                                                // the loop of onAsync
    | LConnect(c: Ref, held: bool)                         // Client::_connect
    | LDisconnect(c: Ref)                                   // Client::_disconnect
    | LWrite(c: Ref, first: bool)                           // Client::_write; first: nothing consumed yet
    | LTimerWant                                            // onTimer
    | LSweep(todo: set<Ref>, done: map<Ref, int>)           // visited clients with the clock reading
    | LTimer(c: Ref, held: bool, now: int, past: int, todo: set<Ref>, done: map<Ref, int>)
    | LComplete(c: Ref, at: Stage, ok: bool)                // onConnect
    | LRead(c: Ref, at: Stage, chunk: Option<Bytes>)        // onRead
    | LClose(c: Ref, held: bool)                           // onDisconnect

  datatype State = State(
    cfg: Config,
    clients: map<Ref, Client>,  // every client ever created
    storage: map<Id, Ref>,      // client_map_
    lock: Owner,                // of the storage mutex
    reqs: seq<Request<Ref>>,         // request_queue_
    pending: bool,              // the async handle has been sent to
    server: ServerPc,
    loop: LoopPc,
    gone: set<Id>)              // ids with a poll answered GONE since they were last issued

  /** What a server step takes from outside: the next command, an address, a clock reading. */
  datatype ServerIn = ServerIn(cmd: Command, ref: Ref, clock: int)

  /** What libuv may call next; `chunk` None is a read error or the end of the stream. */
  datatype Event =
    | Async
    | Timer
    | ConnectDone(c: Ref, ok: bool)
    | Incoming(c: Ref, chunk: Option<Bytes>)
    | CloseDone(c: Ref)

  /** What a loop step takes from outside; `ok` is the result of the libuv call it makes. */
  datatype LoopIn = LoopIn(event: Event, ok: bool, clock: int, pick: Ref)

  datatype Step = ServerStep(si: ServerIn) | LoopStep(li: LoopIn) | TimeOut | Spurious

  function ServerClient(pc: ServerPc): Option<Ref> {
    if pc.SIdle? || pc.SWantStorage? || pc.SHaveStorage? || pc.SLeave? then None else Some(pc.c)
  }

  function LoopClient(pc: LoopPc): Option<Ref> {
    if pc.LIdle? || pc.LDrain? || pc.LTimerWant? || pc.LSweep? then None else Some(pc.c)
  }

  // ---------- which step needs which mutex ----------

  predicate ServerWantsState(pc: ServerPc) {
    match pc
    case SConnect(_, con) => con.CWant? || con.CWake?
    case SDisconnect(_, dis) => dis.DWant?
    case SRead(_, rd, _) => rd.RWant?
    case SWrite(_, wr, _) => wr.WWant?
    case _ => false
  }

  predicate ServerHoldsState(pc: ServerPc) {
    match pc
    case SConnect(_, con) => con.CHold? || con.CSend? || con.CSet? || con.CCheck?
    case SDisconnect(_, dis) => dis.DHold?
    case SRead(_, rd, _) => rd.RHold?
    case SWrite(_, wr, _) => wr.WHold?
    case _ => false
  }

  predicate ServerHoldsStorage(pc: ServerPc) {
    !pc.SIdle? && !pc.SWantStorage?
  }

  /** In pthread_cond_timedwait: nothing but a signal, the timeout or a spurious wakeup ends it. */
  predicate Waiting(pc: ServerPc) {
    pc.SConnect? && pc.con.CWait?
  }

  predicate LoopWantsState(pc: LoopPc) {
    || ((pc.LConnect? || pc.LTimer?) && !pc.held)
    || ((pc.LComplete? || pc.LRead?) && pc.at.Want?)
  }

  predicate LoopHoldsState(pc: LoopPc) {
    || ((pc.LConnect? || pc.LTimer?) && pc.held)
    || ((pc.LComplete? || pc.LRead?) && pc.at.Hold?)
  }

  predicate LoopWantsStorage(pc: LoopPc) {
    pc.LTimerWant? || (pc.LClose? && !pc.held)
  }

  predicate LoopHoldsStorage(pc: LoopPc) {
    pc.LSweep? || pc.LTimer? || (pc.LClose? && pc.held)
  }

  // ---------- the server thread ----------

  /** What a server step does to its client: new record, program point, request queued, async sent. */
  datatype ServerEffect = ServerEffect(r: Client, pc: ServerPc, post: Option<Kind>, send: bool)

  function Go(r: Client, pc: ServerPc): ServerEffect {
    ServerEffect(r, pc, None, false)
  }

  function Queue(r: Client, pc: ServerPc, kind: Kind): ServerEffect {
    ServerEffect(r, pc, Some(kind), false)
  }

  function Send(r: Client, pc: ServerPc): ServerEffect {
    ServerEffect(r, pc, None, true)
  }

  function Held(r: Client): Client { r.(owner := Server) }

  function Freed(r: Client): Client { r.(owner := Nobody) }

  function OnConnect(c: Ref, at: ConnectAt, r: Client): ServerEffect
    requires !at.CWait?
  {
    match at
    case CWant => Go(Held(r), SConnect(c, CHold))
    case CHold =>
      if r.phase.Connecting? || r.phase.Connected? || r.phase.Disconnecting? then Go(Freed(r), SLeave)
      else Queue(Asked(r), SConnect(c, CSend), CONNECT)
    case CSend => Send(r, SConnect(c, CSet))
    case CSet => Go(Freed(StartWait(r)), SConnect(c, CWait))
    case CWake(err) => Go(Held(r), SConnect(c, CCheck(err)))
    case CCheck(err) =>
      if r.phase.Connected? || r.phase.FailConnect? then Go(Freed(r), SLeave)
      else if err then Go(Freed(r), SDisconnect(c, DWant))
      else Go(Freed(WaitAgain(r)), SConnect(c, CWait))
  }

  function OnDisconnect(c: Ref, at: DisconnectAt, r: Client): ServerEffect {
    match at
    case DWant => Go(Held(r), SDisconnect(c, DHold))
    case DHold =>
      if !Disconnectable(r) then Go(Freed(r), SLeave)
      else Go(Freed(EnterDisconnecting(r)), SDisconnect(c, DQueue))
    case DQueue => Queue(r, SDisconnect(c, DSend), DISCONNECT)
    case DSend => Send(r, SLeave)
  }

  function OnRead(c: Ref, at: ReadAt, acc: Bytes, r: Client, clock: int): ServerEffect {
    match at
    case RWant => Go(Held(r), SRead(c, RHold, acc))
    case RHold =>
      if !Readable(r) then Go(Freed(AnsweredGone(r)), SLeave) else Go(Freed(r), SRead(c, RTouch, acc))
    case RTouch => Go(Touched(r, clock), SRead(c, RTake, acc))
    case RTake =>
      if r.readq == [] then Go(Delivered(r, acc), SLeave)
      else
        var chunk := r.readq[0];
        var acc' := acc + chunk;
        if |chunk| > 0 && |acc'| < DATA_THRESHOLD then Go(TakeChunk(r), SRead(c, RWant, acc'))
        else Go(Delivered(TakeChunk(r), acc'), SLeave)
  }

  function OnWrite(c: Ref, at: WriteAt, data: Bytes, r: Client): ServerEffect {
    match at
    case WWant => Go(Held(r), SWrite(c, WHold, data))
    case WHold => if !Writable(r) then Go(Freed(r), SLeave) else Go(Accepted(Freed(r), data), SWrite(c, WPut, data))
    case WPut => Go(PutItem(r, data), SWrite(c, WQueue, data))
    case WQueue => Queue(r, SWrite(c, WSend, data), WRITE)
    case WSend => Send(r, SLeave)
  }

  function ServerOnClient(pc: ServerPc, r: Client, clock: int): ServerEffect
    requires ServerClient(pc).Some? && !Waiting(pc)
  {
    match pc
    case SConnect(c, at) => OnConnect(c, at, r)
    case SDisconnect(c, at) => OnDisconnect(c, at, r)
    case SRead(c, at, acc) => OnRead(c, at, acc, r, clock)
    case SWrite(c, at, data) => OnWrite(c, at, data, r)
  }

  predicate ServerReady(s: State, i: ServerIn) {
    match s.server
    case SIdle | SLeave => true
    case SWantStorage(_) => s.lock.Nobody?
    case SHaveStorage(cmd) => cmd.Create? ==> i.ref !in s.clients
    case pc =>
      && pc.c in s.clients && !Waiting(pc)
      && (ServerWantsState(pc) ==> s.clients[pc.c].owner.Nobody?)
  }

  /** The handlers of Server between taking the storage mutex and calling the client. */
  function Dispatch(s: State, cmd: Command, i: ServerIn): State {
    match cmd
    case Create(id) =>
      if |s.storage| >= s.cfg.maxClients || id in s.storage then s.(server := SLeave)
      else s.(clients := s.clients[i.ref := Created(id, s.cfg.timeout, i.clock)],
              storage := s.storage[id := i.ref],
              gone := s.gone - {id},
              server := SConnect(i.ref, CWant))
    case Drop(id) =>
      if id !in s.storage then s.(server := SLeave) else s.(server := SDisconnect(s.storage[id], DWant))
    case Poll(id) =>
      if id !in s.storage then s.(server := SLeave, gone := s.gone + {id})
      else s.(server := SRead(s.storage[id], RWant, []))
    case Post(id, allowed, data) =>
      if id !in s.storage || !allowed || |data| == 0 then s.(server := SLeave)
      else s.(server := SWrite(s.storage[id], WWant, data))
  }

  function ServerNext(s: State, i: ServerIn): (s': State)
    requires ServerReady(s, i)
    ensures s.clients.Keys <= s'.clients.Keys && s'.cfg == s.cfg
  {
    var pc := s.server;
    if pc.SIdle? then s.(server := SWantStorage(i.cmd))
    else if pc.SWantStorage? then s.(server := SHaveStorage(pc.cmd), lock := Server)
    else if pc.SHaveStorage? then Dispatch(s, pc.cmd, i)
    else if pc.SLeave? then s.(server := SIdle, lock := Nobody)
    else
      var e := ServerOnClient(pc, s.clients[pc.c], i.clock);
      s.(clients := s.clients[pc.c := e.r],
         server := e.pc,
         reqs := if e.post.Some? then s.reqs + [Request(e.post.value, pc.c)] else s.reqs,
         pending := s.pending || e.send,
         gone := if pc.SRead? && pc.rd.RHold? && e.pc.SLeave? then s.gone + {e.r.id} else s.gone)
  }

  // ---------- the loop thread ----------

  /** What a loop step does to its client: new record, program point, condition signalled. */
  datatype LoopEffect = LoopEffect(r: Client, pc: LoopPc, signal: bool)

  function Run(r: Client, pc: LoopPc): LoopEffect {
    LoopEffect(r, pc, false)
  }

  function HeldByLoop(r: Client): Client { r.(owner := Loop) }

  /** `_write`, one round of its loop. */
  function OnWriteRequest(cfg: Config, c: Ref, r: Client, ok: bool): LoopEffect {
    if r.writeq == [] then Run(r, LDrain)
    else
      var decoded := cfg.decode(r.writeq[0]);
      if decoded.None? then Run(PopItem(r), LDrain)
      else Run(Sent(PopItem(r), decoded.value, ok), LWrite(c, false))
  }

  function OnComplete(c: Ref, at: Stage, ok: bool, r: Client, clock: int): LoopEffect {
    match at
    case Want => Run(HeldByLoop(r), LComplete(c, Hold, ok))
    case Hold =>
      var r' := Completed(r, ok);
      LoopEffect(Freed(r'), if r'.phase.Connected? then LComplete(c, After, ok) else LIdle, true)
    case After => Run(ReadStarted(r, clock), LIdle)
  }

  function OnIncoming(c: Ref, at: Stage, chunk: Option<Bytes>, r: Client): LoopEffect {
    match at
    case Want => Run(HeldByLoop(r), LRead(c, Hold, chunk))
    case Hold =>
      if !r.phase.Connected? then Run(Freed(r), LIdle)
      else if chunk.None? then Run(Freed(Closed(EnterDisconnecting(r))), LIdle)
      else if chunk.value == [] then Run(Freed(r), LIdle)
      else Run(Freed(r), LRead(c, After, chunk))
    case After => if chunk.None? then Run(r, LIdle) else Run(PutChunk(r, chunk.value), LIdle)
  }

  function LoopOnClient(cfg: Config, pc: LoopPc, r: Client, i: LoopIn): LoopEffect
    requires LoopClient(pc).Some? && !pc.LClose?
  {
    match pc
    case LConnect(c, held) =>
      if !held then Run(HeldByLoop(r), LConnect(c, true))
      else LoopEffect(Freed(Tried(r, i.ok)), LDrain, !i.ok)
    case LDisconnect(c) => Run(Closed(r), LDrain)
    case LWrite(c, _) => OnWriteRequest(cfg, c, r, i.ok)
    case LTimer(c, held, now, past, todo, done) =>
      if !held then Run(HeldByLoop(r), LTimer(c, true, now, past, todo, done))
      else Run(Freed(Swept(r, past)), LSweep(todo, done[c := now]))
    case LComplete(c, at, ok) => OnComplete(c, at, ok, r, i.clock)
    case LRead(c, at, chunk) => OnIncoming(c, at, chunk, r)
  }

  /** libuv calls back only for what is outstanding, and closes a handle after its connect request is done. */
  predicate EventReady(s: State, e: Event) {
    match e
    case Async => s.pending
    case Timer => true
    case ConnectDone(c, _) => c in s.clients && s.clients[c].handle.inflight
    case Incoming(c, _) => c in s.clients && s.clients[c].handle.reading
    case CloseDone(c) => c in s.clients && s.clients[c].handle.closing && !s.clients[c].handle.inflight
  }

  predicate LoopReady(s: State, i: LoopIn) {
    match s.loop
    case LIdle => EventReady(s, i.event)
    case LDrain => true
    case LTimerWant => s.lock.Nobody?
    case LSweep(todo, _) => todo != {} ==> i.pick in todo && i.pick in s.clients
    case LClose(c, held) =>
      && c in s.clients
      && (if !held then s.lock.Nobody?
          else s.clients[c].id in s.storage ==> s.storage[s.clients[c].id] in s.clients)
    case pc => pc.c in s.clients && (LoopWantsState(pc) ==> s.clients[pc.c].owner.Nobody?)
  }

  function Callback(s: State, e: Event): State
    requires EventReady(s, e)
  {
    match e
    case Async => s.(pending := false, loop := LDrain)
    case Timer => s.(loop := LTimerWant)
    case ConnectDone(c, ok) =>
      var r := s.clients[c];
      s.(clients := s.clients[c := r.(handle := r.handle.(inflight := false))], loop := LComplete(c, Want, ok))
    case Incoming(c, chunk) =>
      s.(clients := s.clients[c := Heard(s.clients[c], chunk)], loop := LRead(c, Want, chunk))
    case CloseDone(c) =>
      var r := s.clients[c];
      s.(clients := s.clients[c := r.(handle := r.handle.(closing := false))], loop := LClose(c, false))
  }

  function Handler(req: Request<Ref>): LoopPc {
    match req.kind
    case CONNECT => LConnect(req.client, false)
    case DISCONNECT => LDisconnect(req.client)
    case WRITE => LWrite(req.client, true)
  }

  /** ClientStorage::destroy: forgets the id and deletes the client found under it. */
  function Destroy(s: State, id: Id): State
    requires id in s.storage ==> s.storage[id] in s.clients
  {
    if id !in s.storage then s
    else
      var victim := s.storage[id];
      s.(storage := s.storage - {id}, clients := s.clients[victim := s.clients[victim].(alive := false)])
  }

  /** A signal wakes the server thread if it waits on the condition variable of this client. */
  function Signalled(pc: ServerPc, c: Ref): ServerPc {
    if pc == SConnect(c, CWait) then SConnect(c, CWake(false)) else pc
  }

  function LoopNext(s: State, i: LoopIn): (s': State)
    requires LoopReady(s, i)
    ensures s'.clients.Keys == s.clients.Keys && s'.cfg == s.cfg
  {
    var pc := s.loop;
    if pc.LIdle? then Callback(s, i.event)
    else if pc.LDrain? then
      if s.reqs == [] then s.(loop := LIdle)
      else s.(reqs := s.reqs[1..], loop := Handler(s.reqs[0]))
    else if pc.LTimerWant? then s.(lock := Loop, loop := LSweep(s.storage.Values, map[]))
    else if pc.LSweep? then
      if pc.todo == {} then s.(lock := Nobody, loop := LIdle)
      else
        var past := i.clock - s.clients[i.pick].lastAccess;
        s.(loop := LTimer(i.pick, false, i.clock, past, pc.todo - {i.pick}, pc.done))
    else if pc.LClose? then
      if !pc.held then s.(lock := Loop, loop := LClose(pc.c, true))
      else Destroy(s, s.clients[pc.c].id).(lock := Nobody, loop := LIdle)
    else
      var e := LoopOnClient(s.cfg, pc, s.clients[pc.c], i);
      s.(clients := s.clients[pc.c := e.r],
         loop := e.pc,
         server := if e.signal then Signalled(s.server, pc.c) else s.server)
  }

  // ---------- steps and runs ----------

  predicate Ready(s: State, a: Step) {
    match a
    case ServerStep(i) => ServerReady(s, i)
    case LoopStep(i) => LoopReady(s, i)
    case TimeOut => Waiting(s.server)
    case Spurious => Waiting(s.server) && s.server.c in s.clients
  }

  function Next(s: State, a: Step): State
    requires Ready(s, a)
  {
    match a
    case ServerStep(i) => ServerNext(s, i)
    case LoopStep(i) => LoopNext(s, i)
    case TimeOut => s.(server := SConnect(s.server.c, CWake(true)))
    case Spurious =>
      var c := s.server.c;
      var r := s.clients[c];
      s.(server := SConnect(c, CWake(false)),
         clients := s.clients[c := r.(log := r.log.(spurious := r.log.spurious + 1))])
  }

  function Initial(cfg: Config): State {
    State(cfg, map[], map[], Nobody, [], false, SIdle, LIdle, {})
  }

  ghost predicate Follows(s: State, a: Step, s': State) {
    Ready(s, a) && s' == Next(s, a)
  }

  /** Any interleaving of the two threads, under any behaviour of libuv, clocks and clients. */
  ghost predicate IsRun(cfg: Config, ss: seq<State>, steps: seq<Step>) {
    && |ss| == |steps| + 1
    && ss[0] == Initial(cfg)
    && forall n {:trigger steps[n]} :: 0 <= n < |steps| ==> Follows(ss[n], steps[n], ss[n + 1])
  }
}
