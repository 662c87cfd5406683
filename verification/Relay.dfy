/**
  The objects of the relay as the source has them, each method run without interference:
  Client (src/linear_fcgi_client.cc), Loop (src/linear_fcgi_loop.cc), ClientStorage
  (src/linear_fcgi_client_storage.cc) and the poll loop of Server (src/linear_fcgi_server.cc).
  The methods are proved against the functions of Calls, and SessionAlone proves the same of the
  machine of Session.  Queues are FIFOs here, as Queue.dfy proves them to be.
 */
module Relay {
  import opened Bytes
  import opened Options
  import opened ClientState
  import opened Calls
  import Session

  class Client {
    const id: Id
    const timeout: int
    var state: Phase
    var lastAccess: int
    var readQueue: seq<Bytes>
    var writeQueue: seq<Bytes>
    var handle: Handle
    ghost var log: Log
    ghost var rx: Inbound
    ghost var tx: Outbound

    ghost function Rec(): ClientState.Client
      reads this
    {
      ClientState.Client(id, state, timeout, lastAccess, readQueue, writeQueue, handle, Nobody, true, log, rx, tx)
    }

    constructor (id: Id, timeout: int, garbage: int)
      ensures Rec() == Created(id, timeout, garbage)
      ensures this.id == id && this.timeout == timeout && state == Disconnected && readQueue == [] && writeQueue == []
      ensures !handle.inflight && !handle.reading && !handle.closed && !handle.closing
    {
      this.id, this.timeout := id, timeout;
      state, lastAccess := Disconnected, garbage;
      readQueue, writeQueue := [], [];
      handle := Handle(false, false, false, false);
      ghost var r := Created(id, timeout, garbage);
      log, rx, tx := r.log, r.rx, r.tx;
    }

    /** disconnect: only an open session is closed, and then by one request. */
    method Disconnect(loop: Loop)
      modifies this, loop
      ensures Rec() == AfterDisconnect(old(Rec()))
      ensures old(state) in {Connecting, Connected} ==> state == Disconnecting && loop.Queued(DISCONNECT, this)
      ensures old(state) !in {Connecting, Connected} ==> Rec() == old(Rec()) && loop.Untouched()
      ensures handle == old(handle) && lastAccess == old(lastAccess)
      ensures readQueue == old(readQueue) && writeQueue == old(writeQueue)
    {
      if state == Disconnecting || state == Disconnected || state == FailConnect {
        return;
      }
      state := Disconnecting;
      log := log.(entries := log.entries + 1);
      loop.Execute(DISCONNECT, this);
    }

    /** read: -1 for a session that is not open, else the size of the oldest chunk, 0 if there is none. */
    method Read(now: int) returns (siz: int, buf: Bytes)
      modifies this
      ensures old(state) !in {Connecting, Connected} ==> siz == -1 && Rec() == old(Rec())
      ensures old(state) in {Connecting, Connected} ==> siz == |buf| && lastAccess == now
      ensures old(state) in {Connecting, Connected} && old(readQueue) == [] ==>
                buf == [] && Rec() == Touched(old(Rec()), now)
      ensures old(state) in {Connecting, Connected} && old(readQueue) != [] ==>
                [buf] + readQueue == old(readQueue) && Rec() == TakeChunk(Touched(old(Rec()), now))
      ensures state == old(state) && handle == old(handle) && writeQueue == old(writeQueue)
    {
      buf := [];
      if state != Connecting && state != Connected {
        return -1, buf;
      }
      lastAccess := now;
      if readQueue == [] {
        return 0, buf;
      }
      buf := readQueue[0];
      readQueue := readQueue[1..];
      rx := rx.(taken := rx.taken + buf);
      siz := |buf|;
    }

    /** write: the item is in the write queue before its WRITE request is in the request queue. */
    method Write(data: Bytes, loop: Loop) returns (siz: int)
      modifies this, loop
      ensures Rec() == AfterWrite(old(Rec()), data)
      ensures old(state) !in {Disconnecting, Disconnected} ==>
                siz == |data| && writeQueue == old(writeQueue) + [data] && loop.Queued(WRITE, this)
      ensures old(state) in {Disconnecting, Disconnected} ==> siz == -1 && Rec() == old(Rec()) && loop.Untouched()
      ensures state == old(state) && handle == old(handle) && lastAccess == old(lastAccess)
      ensures readQueue == old(readQueue)
    {
      if state == Disconnecting || state == Disconnected {
        return -1;
      }
      tx := tx.(posted := tx.posted + [data]);
      writeQueue := writeQueue + [data];
      loop.Execute(WRITE, this);
      siz := |data|;
    }

    /** _connect; the three arguments are the results of libuv and of the name lookup. */
    method DoConnect(initialized: bool, resolved: bool, accepted: bool)
      modifies this
      ensures Rec() == Tried(old(Rec()), initialized && resolved && accepted)
      ensures if initialized && resolved && accepted then
                state == old(state) && handle == old(handle).(inflight := true)
              else
                state == FailConnect && handle == old(handle) && log.signals == old(log).signals + 1
      ensures lastAccess == old(lastAccess) && readQueue == old(readQueue) && writeQueue == old(writeQueue)
    {
      log := log.(tried := true);
      if !initialized {
        Fail();
        return;
      }
      if !resolved {
        Fail();
        return;
      }
      if !accepted {
        Fail();
      } else {
        handle := handle.(inflight := true);
      }
    }

    /** state_ = FAIL_CONNECT and pthread_cond_signal. */
    method Fail()
      modifies this`state, this`log
      ensures Rec() == Failed(old(Rec()))
      ensures state == FailConnect && log.signals == old(log).signals + 1
    {
      log := log.(signals := log.signals + 1, overwrites := log.overwrites + if state == Disconnecting then 1 else 0);
      state := FailConnect;
    }

    /** _write: hands items to the socket until the queue is empty or an item cannot be decoded. */
    method DoWrite(decode: Bytes -> Option<Bytes>, ok: nat -> bool)
      modifies this
      ensures Rec() == Drained(decode, old(Rec()), ok, 0)
    {
      var k := 0;
      while writeQueue != []
        invariant Drained(decode, Rec(), ok, k) == Drained(decode, old(Rec()), ok, 0)
        decreases |writeQueue|
      {
        var data := writeQueue[0];
        writeQueue := writeQueue[1..];
        tx := tx.(popped := tx.popped + [data]);
        var decoded := decode(data);
        if decoded.None? {
          return;
        }
        if ok(k) {
          tx := tx.(sent := tx.sent + [decoded.value]);
        } else {
          tx := tx.(refused := true);
        }
        k := k + 1;
      }
    }

    /** _disconnect */
    method DoDisconnect()
      modifies this`handle, this`log
      ensures Rec() == Closed(old(Rec()))
      ensures handle.closed && !handle.reading && handle.inflight == old(handle).inflight
      ensures handle.closing <==> old(handle).closing || !old(handle).closed
      ensures log.closes == old(log).closes + 1
    {
      handle := Handle(handle.inflight, false, true, handle.closing || !handle.closed);
      log := log.(closes := log.closes + 1);
    }

    /** onConnect */
    method OnConnect(status: int, now: int)
      modifies this
      ensures Rec() == AfterOnConnect(old(Rec()), status == 0, now)
      ensures state == Connected <==> status == 0 && old(state) == Connecting
      ensures state == Connected ==> lastAccess == now && handle == old(handle).(reading := true)
      ensures state != Connected ==> state == FailConnect && lastAccess == old(lastAccess) && handle == old(handle)
      ensures log.signals == old(log).signals + 1
      ensures readQueue == old(readQueue) && writeQueue == old(writeQueue)
    {
      if status != 0 || state != Connecting {
        Fail();
        return;
      }
      state := Connected;
      log := log.(signals := log.signals + 1);
      lastAccess := now;
      handle := handle.(reading := true);
    }

    /** onRead: a negative size is an error or the end of the stream. */
    method OnRead(data: Bytes, siz: int)
      requires siz <= |data|
      modifies this
      ensures Rec() == AfterOnRead(old(Rec()), if siz < 0 then None else Some(data[..siz]))
      ensures old(state) != Connected || siz == 0 ==> Rec() == old(Rec())
      ensures old(state) == Connected && siz > 0 ==>
                readQueue == old(readQueue) + [data[..siz]] && state == Connected && handle == old(handle)
      ensures old(state) == Connected && siz < 0 ==>
                state == Disconnecting && log.closes == old(log).closes + 1 && readQueue == old(readQueue)
      ensures lastAccess == old(lastAccess) && writeQueue == old(writeQueue)
    {
      if state != Connected {
        return;
      }
      if siz < 0 {
        state := Disconnecting;
        log := log.(entries := log.entries + 1);
        DoDisconnect();
        return;
      }
      if siz > 0 {
        var clone := data[..siz];
        readQueue := readQueue + [clone];
        rx := rx.(queued := rx.queued + clone);
      }
    }

    /** onTimer */
    method OnTimer(now: int)
      modifies this
      ensures Rec() == Swept(old(Rec()), now - old(lastAccess))
      ensures if old(state) == FailConnect
                 || (old(state) in {Connecting, Connected} && now - old(lastAccess) >= timeout)
              then state == Disconnecting && handle.closed && log.closes == old(log).closes + 1
              else Rec() == old(Rec())
      ensures lastAccess == old(lastAccess) && readQueue == old(readQueue) && writeQueue == old(writeQueue)
    {
      var past := now - lastAccess;
      if (past >= timeout && (state == Connected || state == Connecting)) || state == FailConnect {
        state := Disconnecting;
        log := log.(entries := log.entries + 1);
        DoDisconnect();
      }
    }
  }

  // ---------- the loop ----------

  class Loop {
    var requestQueue: seq<Request<Client>>
    var pending: bool

    constructor ()
      ensures requestQueue == [] && !pending
    {
      requestQueue, pending := [], false;
    }

    /** One request more than before, and the async handle has been sent to. */
    twostate predicate Queued(kind: Kind, client: Client)
      reads this
    {
      requestQueue == old(requestQueue) + [Request(kind, client)] && pending
    }

    twostate predicate Untouched()
      reads this
    {
      requestQueue == old(requestQueue) && pending == old(pending)
    }

    /** execute: the request first, the wakeup after it. */
    method Execute(kind: Kind, client: Client)
      modifies this
      ensures Queued(kind, client)
    {
      requestQueue := requestQueue + [Request(kind, client)];
      pending := true;
    }

    /**
      onAsync: carries out every request, in queue order.  Every client ends as its own requests
      leave it, whatever is asked for the others.
      `ok(n, k)` is the result of the k-th libuv call made for the n-th request.
     */
    method OnAsync(decode: Bytes -> Option<Bytes>, ok: (nat, nat) -> bool, ghost clients: set<Client>)
      requires forall r :: r in requestQueue ==> r.client in clients
      modifies this, clients
      ensures requestQueue == [] && !pending
      ensures forall c :: c in clients ==>
                c.Rec() == Served(decode, Own(old(requestQueue), c, 0), old(c.Rec()), ok)
    {
      pending := false;
      ghost var ends := map c | c in clients :: Served(decode, Own(requestQueue, c, 0), c.Rec(), ok);
      var n := 0;
      while requestQueue != []
        invariant !pending
        invariant forall r :: r in requestQueue ==> r.client in clients
        invariant forall c :: c in clients ==>
                    Served(decode, Own(requestQueue, c, n), c.Rec(), ok) == ends[c]
        decreases |requestQueue|
      {
        ghost var reqs, recs := requestQueue, map c | c in clients :: c.Rec();
        ServeNext(decode, Row(ok, n), clients);
        forall c | c in clients {
          ServedStep(decode, reqs, c, n, recs[c], ok);
        }
        n := n + 1;
      }
    }

    /** One round of that loop: consumes a request and carries it out. */
    method ServeNext(decode: Bytes -> Option<Bytes>, ok: nat -> bool, ghost clients: set<Client>)
      requires requestQueue != [] && requestQueue[0].client in clients
      modifies this, clients
      ensures requestQueue == old(requestQueue)[1..] && pending == old(pending)
      ensures forall c :: c in clients ==>
                c.Rec() == if c == old(requestQueue)[0].client
                           then Carry(decode, old(requestQueue)[0].kind, old(c.Rec()), ok) else old(c.Rec())
    {
      var request := requestQueue[0];
      requestQueue := requestQueue[1..];
      Handle(request, decode, ok);
    }

    /** The switch on the type of one request. */
    static method Handle(request: Request<Client>, decode: Bytes -> Option<Bytes>, ok: nat -> bool)
      modifies request.client
      ensures request.client.Rec() == Carry(decode, request.kind, old(request.client.Rec()), ok)
    {
      match request.kind {
        case CONNECT => request.client.DoConnect(true, true, ok(0));
        case DISCONNECT => request.client.DoDisconnect();
        case WRITE => request.client.DoWrite(decode, ok);
      }
    }
  }

  // ---------- the storage ----------

  class ClientStorage {
    const maxClients: nat
    var clientMap: map<Id, Client>

    /** At most max_clients sessions, each under its own id; so no client is there twice. */
    ghost predicate Valid()
      reads this
    {
      |clientMap| <= maxClients && forall id :: id in clientMap ==> clientMap[id].id == id
    }

    constructor (maxClients: nat)
      ensures Valid() && clientMap == map[] && this.maxClients == maxClients
    {
      this.maxClients := maxClients;
      clientMap := map[];
    }

    /** create: refuses when the map is full and when the id is taken. */
    method Create(id: Id, timeout: int, garbage: int) returns (c: Client?)
      requires Valid()
      modifies this
      ensures Valid()
      ensures c == null <==> |old(clientMap)| >= maxClients || id in old(clientMap)
      ensures c == null ==> clientMap == old(clientMap)
      ensures c != null ==>
                fresh(c) && c.Rec() == Created(id, timeout, garbage) && clientMap == old(clientMap)[id := c]
    {
      if |clientMap| >= maxClients {
        return null;
      }
      if id in clientMap {
        return null;
      }
      c := new Client(id, timeout, garbage);
      assert |clientMap[id := c]| == |clientMap| + 1 by {
        assert clientMap[id := c].Keys == clientMap.Keys + {id};
        assert |clientMap[id := c]| == |clientMap[id := c].Keys| && |clientMap| == |clientMap.Keys|;
      }
      clientMap := clientMap[id := c];
    }

    /** destroy: forgets this id and no other. */
    method Destroy(id: Id)
      requires Valid()
      modifies this
      ensures Valid() && clientMap == old(clientMap) - {id}
    {
      if id in clientMap {
        assert |clientMap - {id}| <= |clientMap| by {
          assert (clientMap - {id}).Keys == clientMap.Keys - {id};
          assert |clientMap - {id}| == |(clientMap - {id}).Keys| && |clientMap| == |clientMap.Keys|;
        }
        clientMap := clientMap - {id};
      }
    }

    method Get(id: Id) returns (c: Client?)
      ensures c == if id in clientMap then clientMap[id] else null
    {
      if id in clientMap {
        return clientMap[id];
      }
      return null;
    }

    /** onTimer: every client is visited once, in any order; `clock` is what time() returns at each visit. */
    method OnTimer(clock: Id -> int)
      requires Valid()
      modifies clientMap.Values
      ensures clientMap == old(clientMap)
      ensures forall id :: id in clientMap ==>
                clientMap[id].Rec() == Swept(old(clientMap[id].Rec()), clock(id) - old(clientMap[id].lastAccess))
    {
      var todo := clientMap.Keys;
      while todo != {}
        invariant todo <= clientMap.Keys
        invariant forall id :: id in todo ==> clientMap[id].Rec() == old(clientMap[id].Rec())
        invariant forall id :: id in clientMap && id !in todo ==>
                    clientMap[id].Rec() == Swept(old(clientMap[id].Rec()), clock(id) - old(clientMap[id].lastAccess))
        decreases |todo|
      {
        var it :| it in todo;
        clientMap[it].OnTimer(clock(it));
        todo := todo - {it};
      }
    }
  }

  // ---------- the poll loop ----------

  /** The do-while loop of onPoll: reads chunk by chunk while there is data and the body is short. */
  method PollLoop(client: Client, now: int) returns (gone: bool, data: Bytes)
    modifies client
    ensures gone <==> old(client.state) !in {Connecting, Connected}
    ensures gone ==> client.Rec() == old(client.Rec())
    ensures !gone ==> data == Flatten(old(client.readQueue)[..PollTakes(old(client.readQueue), 0)])
                      && client.Rec() == Polled(old(client.Rec()), now, PollTakes(old(client.readQueue), 0))
  {
    gone, data := false, [];
    ghost var chunks, taken := client.readQueue, 0;
    var siz, total := 1, 0;
    while siz > 0 && total < Session.DATA_THRESHOLD
      invariant !gone && total == |data| && taken <= |chunks| && data == Flatten(chunks[..taken])
      invariant client.Rec() == Polled(old(client.Rec()), client.lastAccess, taken)
      invariant siz > 0 && total < Session.DATA_THRESHOLD ==>
                  taken + PollTakes(chunks[taken..], total) == PollTakes(chunks, 0)
      invariant !(siz > 0 && total < Session.DATA_THRESHOLD) ==> taken == PollTakes(chunks, 0)
      invariant taken == 0 && siz > 0 && total == 0 ==> client.Rec() == old(client.Rec())
      invariant || (old(client.state) in {Connecting, Connected} && client.lastAccess == now)
                || (taken == 0 && siz > 0 && total == 0)
      decreases Session.DATA_THRESHOLD - total, siz
    {
      ghost var before := client.lastAccess;
      var buf;
      siz, buf := client.Read(now);
      if siz < 0 {
        gone := true;
        return;
      }
      if taken < |chunks| {
        PolledMore(old(client.Rec()), before, now, taken);
        taken := taken + 1;
      }
      if siz > 0 {
        data := data + buf;
        total := total + siz;
      }
    }
  }
}
