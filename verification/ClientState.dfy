/**
  The state of one session (src/linear_fcgi_client.h, src/linear_fcgi_client.cc) and what
  each critical section of its methods does to it.  The class in Relay.dfy is proved against
  these functions and the two-thread machine in Session.dfy takes them as its steps.
 */
module ClientState {
  import opened Bytes
  import opened Options

  type Id = string

  /** request_t */
  datatype Kind = CONNECT | DISCONNECT | WRITE
  datatype Request<C> = Request(kind: Kind, client: C)

  datatype Phase = Connecting | FailConnect | Connected | Disconnecting | Disconnected

  /** Who holds a mutex. */
  datatype Owner = Nobody | Server | Loop

  /**
    The libuv handle as the loop sees it: a connect request is in flight, reading has been
    started, uv_close has been called, its callback is outstanding.
   */
  datatype Handle = Handle(inflight: bool, reading: bool, closed: bool, closing: bool)

  // What has happened to the session so far.  No step ever tests it.

  datatype Log = Log(
    asked: bool,           // a CONNECT request was queued
    tried: bool,           // _connect has run
    signals: nat,          // signals sent to the condition variable
    waits: nat,            // timed waits of connect
    spurious: nat,         // of which ended without signal and without timeout
    entries: nat,          // times the state became DISCONNECTING
    overwrites: nat,       // times DISCONNECTING was overwritten by FAIL_CONNECT
    closes: nat,           // calls of uv_close
    gone: bool)            // a poll was answered GONE

  datatype Inbound = Inbound(
    arrived: Bytes,        // bytes that libuv handed to onRead
    queued: Bytes,         // bytes put in the read queue
    taken: Bytes,          // bytes that polls took from the read queue
    delivered: Bytes,      // bytes that successful polls answered
    biggest: nat)          // size of the largest chunk that arrived

  datatype Outbound = Outbound(
    posted: seq<Bytes>,    // items that `write` accepted
    popped: seq<Bytes>,    // items taken from the write queue
    sent: seq<Bytes>,      // decoded items that the socket accepted
    refused: bool)         // the socket refused one

  datatype Client = Client(
    id: Id, phase: Phase, timeout: int, lastAccess: int,
    readq: seq<Bytes>, writeq: seq<Bytes>, handle: Handle,
    owner: Owner,          // of the state mutex
    alive: bool,           // not destroyed
    log: Log, rx: Inbound, tx: Outbound)

  /** The constructor leaves `last_access_` as the memory was. */
  function Created(id: Id, timeout: int, garbage: int): Client {
    Client(id, Disconnected, timeout, garbage, [], [], Handle(false, false, false, false), Nobody, true,
           Log(false, false, 0, 0, 0, 0, 0, 0, false), Inbound([], [], [], [], 0), Outbound([], [], [], false))
  }

  // ---------- called on the server thread ----------

  function Asked(r: Client): Client {
    r.(log := r.log.(asked := true))
  }

  function StartWait(r: Client): Client {
    r.(phase := Connecting, log := r.log.(waits := r.log.waits + 1))
  }

  function WaitAgain(r: Client): Client {
    r.(log := r.log.(waits := r.log.waits + 1))
  }

  /** `disconnect` does nothing to a session that is closing or never opened. */
  predicate Disconnectable(r: Client) {
    r.phase.Connecting? || r.phase.Connected?
  }

  function EnterDisconnecting(r: Client): Client {
    r.(phase := Disconnecting, log := r.log.(entries := r.log.entries + 1))
  }

  predicate Readable(r: Client) {
    r.phase.Connecting? || r.phase.Connected?
  }

  predicate Writable(r: Client) {
    !r.phase.Disconnecting? && !r.phase.Disconnected?
  }

  function Touched(r: Client, now: int): Client {
    r.(lastAccess := now)
  }

  function TakeChunk(r: Client): Client
    requires r.readq != []
  {
    r.(readq := r.readq[1..], rx := r.rx.(taken := r.rx.taken + r.readq[0]))
  }

  function Delivered(r: Client, body: Bytes): Client {
    r.(rx := r.rx.(delivered := r.rx.delivered + body))
  }

  function AnsweredGone(r: Client): Client {
    r.(log := r.log.(gone := true))
  }

  /** `write` finds the session open, so it will not answer -1. */
  function Accepted(r: Client, data: Bytes): Client {
    r.(tx := r.tx.(posted := r.tx.posted + [data]))
  }

  function PutItem(r: Client, data: Bytes): Client {
    r.(writeq := r.writeq + [data])
  }

  // ---------- called on the loop thread ----------

  /** state_ = FAIL_CONNECT and a signal, whatever the state was. */
  function Failed(r: Client): Client {
    r.(phase := FailConnect,
       log := r.log.(signals := r.log.signals + 1,
                     overwrites := r.log.overwrites + if r.phase.Disconnecting? then 1 else 0))
  }

  /** `_connect`; `ok` says whether uv_tcp_init, getaddrinfo and uv_tcp_connect all succeed. */
  function Tried(r: Client, ok: bool): Client {
    var r1 := r.(log := r.log.(tried := true));
    if ok then r1.(handle := r1.handle.(inflight := true)) else Failed(r1)
  }

  /** `onConnect` inside the lock. */
  function Completed(r: Client, ok: bool): Client {
    if !ok || !r.phase.Connecting? then Failed(r)
    else r.(phase := Connected, log := r.log.(signals := r.log.signals + 1))
  }

  /** `onConnect` after the lock, when the connection is up. */
  function ReadStarted(r: Client, now: int): Client {
    r.(lastAccess := now, handle := r.handle.(reading := true))
  }

  /** uv_close: libuv stops reading and calls back later; a handle calls back once. */
  function Closed(r: Client): Client {
    r.(handle := Handle(r.handle.inflight, false, true, r.handle.closing || !r.handle.closed),
       log := r.log.(closes := r.log.closes + 1))
  }

  predicate Expired(r: Client, past: int) {
    || (past >= r.timeout && (r.phase.Connected? || r.phase.Connecting?))
    || r.phase.FailConnect?
  }

  /** `onTimer` inside the lock. */
  function Swept(r: Client, past: int): Client {
    if Expired(r, past) then Closed(EnterDisconnecting(r)) else r
  }

  /** libuv calls back with a chunk, or with an error or the end of the stream. */
  function Heard(r: Client, chunk: Option<Bytes>): Client {
    if chunk.None? then r
    else
      r.(rx := r.rx.(arrived := r.rx.arrived + chunk.value,
                     biggest := if |chunk.value| > r.rx.biggest then |chunk.value| else r.rx.biggest))
  }

  function PutChunk(r: Client, chunk: Bytes): Client {
    r.(readq := r.readq + [chunk], rx := r.rx.(queued := r.rx.queued + chunk))
  }

  function PopItem(r: Client): Client
    requires r.writeq != []
  {
    r.(writeq := r.writeq[1..], tx := r.tx.(popped := r.tx.popped + [r.writeq[0]]))
  }

  /** uv_write; `ok` says whether libuv accepts the buffer. */
  function Sent(r: Client, data: Bytes, ok: bool): Client {
    if ok then r.(tx := r.tx.(sent := r.tx.sent + [data])) else r.(tx := r.tx.(refused := true))
  }
}
