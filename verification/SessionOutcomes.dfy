/**
  What becomes of a session and why: every change of its state, its handle and its access time,
  with the exact condition in the terms of the program's variables; and over whole runs, that a
  session is connected only if libuv accepted the connection, and that `disconnect` closes.
 */
module SessionOutcomes {
  import opened Bytes
  import opened Options
  import opened ClientState
  import opened Session
  import opened SessionInvariant
  import opened SessionSteps
  import opened SessionTheorems

  // ---------- the state of a session ----------

  /** A visit of the sweep closes a session that failed to connect, and an open one that is idle for the timeout. */
  predicate SweepCloses(s: State, a: Step, c: Ref) {
    && a.LoopStep? && s.loop.LTimer? && s.loop.c == c && s.loop.held && c in s.clients
    && (|| s.clients[c].phase == FailConnect
        || (s.clients[c].phase in {Connecting, Connected}
            && s.loop.now - s.clients[c].lastAccess >= s.clients[c].timeout))
  }

  /** The end of the stream, or an error, on a connected session. */
  predicate HangsUp(s: State, a: Step, c: Ref) {
    a.LoopStep? && s.loop == LRead(c, Hold, None) && c in s.clients && s.clients[c].phase == Connected
  }

  /** `disconnect` inside the lock, on an open session. */
  predicate Disconnects(s: State, a: Step, c: Ref) {
    && a.ServerStep? && s.server == SDisconnect(c, DHold) && c in s.clients
    && s.clients[c].phase in {Connecting, Connected}
  }

  /** The state of `c` after a step, by the assignments to `state_` in the program. */
  function PhaseAfter(s: State, a: Step, c: Ref): Phase
    requires c in s.clients
  {
    var phase := s.clients[c].phase;
    if a.ServerStep? && s.server == SConnect(c, CSet) then Connecting
    else if a.LoopStep? && s.loop == LConnect(c, true) then (if a.li.ok then phase else FailConnect)
    else if a.LoopStep? && s.loop == LComplete(c, Hold, true) && phase == Connecting then Connected
    else if a.LoopStep? && s.loop.LComplete? && s.loop.c == c && s.loop.at == Hold then FailConnect
    else if Disconnects(s, a, c) || HangsUp(s, a, c) || SweepCloses(s, a, c) then Disconnecting
    else phase
  }

  lemma StateChanges(cfg: Config, s: State, a: Step, c: Ref)
    requires Reached(cfg, s) && Ready(s, a) && c in s.clients
    ensures Next(s, a).clients[c].phase == PhaseAfter(s, a, c)
  {
    match a {
      case ServerStep(i) => ServerStateChanges(s, i, c);
      case LoopStep(i) =>
        if s.loop.LTimer? && s.loop.c == c { SweepPast(cfg, s); }
        LoopStateChanges(s, i, c);
      case _ =>
    }
  }

  lemma ServerStateChanges(s: State, i: ServerIn, c: Ref)
    requires ServerReady(s, i) && c in s.clients
    ensures ServerNext(s, i).clients[c].phase == PhaseAfter(s, ServerStep(i), c)
  {
    ServerRecord(s, i, c);
    if ServerClient(s.server) == Some(c) {
      var r := s.clients[c];
      match s.server {
        case SConnect(_, at) => assert OnConnect(c, at, r).r.phase == if at.CSet? then Connecting else r.phase;
        case SRead(_, at, acc) => assert OnRead(c, at, acc, r, i.clock).r.phase == r.phase;
        case SWrite(_, at, data) => assert OnWrite(c, at, data, r).r.phase == r.phase;
        case SDisconnect(_, at) =>
      }
    }
  }

  lemma LoopStateChanges(s: State, i: LoopIn, c: Ref)
    requires LoopReady(s, i) && c in s.clients && (s.loop.LTimer? && s.loop.c == c ==> PastIs(s, c))
    ensures LoopNext(s, i).clients[c].phase == PhaseAfter(s, LoopStep(i), c)
  {
    LoopRecord(s, i, c);
    if LoopClient(s.loop) == Some(c) && !s.loop.LClose? {
      LoopCallChanges(s, i, c);
    }
  }

  /** The idle time was computed from the access time that the client still has. */
  predicate PastIs(s: State, c: Ref)
    requires s.loop.LTimer? && c in s.clients
  {
    s.loop.past == s.loop.now - s.clients[c].lastAccess
  }

  lemma LoopCallChanges(s: State, i: LoopIn, c: Ref)
    requires LoopReady(s, i) && LoopClient(s.loop) == Some(c) && !s.loop.LClose? && (s.loop.LTimer? ==> PastIs(s, c))
    ensures LoopOnClient(s.cfg, s.loop, s.clients[c], i).r.phase == PhaseAfter(s, LoopStep(i), c)
  {
    var r := s.clients[c];
    match s.loop {
      case LWrite(_, _) => assert OnWriteRequest(s.cfg, c, r, i.ok).r.phase == r.phase;
      case LRead(_, at, chunk) =>
        assert OnIncoming(c, at, chunk, r).r.phase
            == if at.Hold? && r.phase.Connected? && chunk.None? then Disconnecting else r.phase;
      case _ =>
    }
  }

  /** So a session starts to close for these reasons only, and for each of them it does. */
  lemma ClosesOnlyIf(cfg: Config, s: State, a: Step, c: Ref)
    requires Reached(cfg, s) && Ready(s, a) && c in s.clients && s.clients[c].phase != Disconnecting
    ensures Next(s, a).clients[c].phase == Disconnecting <==>
            Disconnects(s, a, c) || HangsUp(s, a, c) || SweepCloses(s, a, c)
  {
    StateChanges(cfg, s, a, c);
  }

  /** A visit leaves a connected session alone that was accessed within the timeout. */
  lemma SweepSpares(cfg: Config, s: State, a: Step, c: Ref)
    requires Reached(cfg, s) && Ready(s, a) && a.LoopStep? && s.loop.LTimer? && s.loop.c == c && s.loop.held
    requires c in s.clients && s.clients[c].phase == Connected
    requires s.loop.now - s.clients[c].lastAccess < s.clients[c].timeout
    ensures var r, r' := s.clients[c], Next(s, a).clients[c];
            r'.phase == Connected && r'.handle == r.handle && r'.log.closes == r.log.closes
  {
    StateChanges(cfg, s, a, c);
    HandleChanges(cfg, s, a, c);
  }

  // ---------- the handle and the access time ----------

  /** The three calls of uv_close. */
  predicate ClosesHandle(s: State, a: Step, c: Ref) {
    || (a.LoopStep? && s.loop == LDisconnect(c) && c in s.clients)
    || HangsUp(s, a, c)
    || SweepCloses(s, a, c)
  }

  function HandleAfter(s: State, a: Step, c: Ref): Handle
    requires c in s.clients
  {
    var h := s.clients[c].handle;
    if ClosesHandle(s, a, c) then Handle(h.inflight, false, true, h.closing || !h.closed)
    else if !a.LoopStep? then h
    else if s.loop == LConnect(c, true) && a.li.ok then h.(inflight := true)
    else if s.loop.LComplete? && s.loop.c == c && s.loop.at.After? then h.(reading := true)
    else if s.loop.LIdle? && a.li.event.ConnectDone? && a.li.event.c == c then h.(inflight := false)
    else if s.loop.LIdle? && a.li.event.CloseDone? && a.li.event.c == c then h.(closing := false)
    else h
  }

  /** uv_close is called for the three reasons and for no other; dialling and reading start where they should. */
  lemma HandleChanges(cfg: Config, s: State, a: Step, c: Ref)
    requires Reached(cfg, s) && Ready(s, a) && c in s.clients
    ensures Next(s, a).clients[c].handle == HandleAfter(s, a, c)
    ensures Next(s, a).clients[c].log.closes == s.clients[c].log.closes + One(ClosesHandle(s, a, c))
  {
    match a {
      case ServerStep(i) => ServerHandle(s, i, c);
      case LoopStep(i) =>
        if s.loop.LTimer? && s.loop.c == c { SweepPast(cfg, s); }
        LoopHandle(s, i, c);
      case _ =>
    }
  }

  /** The calls of uv_close that the close ledger counts are these. */
  lemma ClosesCounted(cfg: Config, s: State, a: Step, c: Ref)
    requires Reached(cfg, s) && c in s.clients
    ensures CallsClose(s, a, c) <==> ClosesHandle(s, a, c)
  {
    if s.loop.LTimer? && s.loop.c == c { SweepPast(cfg, s); }
  }

  lemma SweepPast(cfg: Config, s: State)
    requires Reached(cfg, s) && s.loop.LTimer?
    ensures s.loop.c in s.clients && PastIs(s, s.loop.c)
  {
    ReachedGlobal(cfg, s);
    ReachedClient(cfg, s, s.loop.c);
  }

  lemma ServerHandle(s: State, i: ServerIn, c: Ref)
    requires ServerReady(s, i) && c in s.clients
    ensures var r, r' := s.clients[c], ServerNext(s, i).clients[c];
            r'.handle == r.handle && r'.log.closes == r.log.closes
  {
    ServerRecord(s, i, c);
  }

  lemma LoopHandle(s: State, i: LoopIn, c: Ref)
    requires LoopReady(s, i) && c in s.clients && (s.loop.LTimer? && s.loop.c == c ==> PastIs(s, c))
    ensures var r, r' := s.clients[c], LoopNext(s, i).clients[c];
            && r'.handle == HandleAfter(s, LoopStep(i), c)
            && r'.log.closes == r.log.closes + One(ClosesHandle(s, LoopStep(i), c))
  {
    LoopRecord(s, i, c);
    if s.loop.LIdle? {
      CallbackHandle(s, i, c);
    } else if LoopClient(s.loop) == Some(c) && !s.loop.LClose? {
      LoopCallHandle(s, i, c);
    } else {
      LoopElsewhere(s, i, c);
    }
  }

  lemma CallbackHandle(s: State, i: LoopIn, c: Ref)
    requires LoopReady(s, i) && s.loop.LIdle? && c in s.clients
    ensures LoopNext(s, i).clients[c].handle == HandleAfter(s, LoopStep(i), c)
    ensures LoopNext(s, i).clients[c].lastAccess == s.clients[c].lastAccess
  {
    match i.event {
      case Async => assert LoopNext(s, i).clients == s.clients;
      case Timer => assert LoopNext(s, i).clients == s.clients;
      case _ =>
    }
  }

  lemma LoopElsewhere(s: State, i: LoopIn, c: Ref)
    requires LoopReady(s, i) && !s.loop.LIdle? && (LoopClient(s.loop) != Some(c) || s.loop.LClose?) && c in s.clients
    ensures var r, r' := s.clients[c], LoopNext(s, i).clients[c];
            r'.handle == r.handle && r'.lastAccess == r.lastAccess
  {
  }

  lemma LoopCallHandle(s: State, i: LoopIn, c: Ref)
    requires LoopReady(s, i) && LoopClient(s.loop) == Some(c) && !s.loop.LClose? && (s.loop.LTimer? ==> PastIs(s, c))
    ensures var r, r' := s.clients[c], LoopOnClient(s.cfg, s.loop, s.clients[c], i).r;
            && r'.handle == HandleAfter(s, LoopStep(i), c)
            && r'.log.closes == r.log.closes + One(ClosesHandle(s, LoopStep(i), c))
  {
    var r := s.clients[c];
    match s.loop {
      case LWrite(_, _) =>
        var r' := OnWriteRequest(s.cfg, c, r, i.ok).r;
        assert r' == r.(writeq := r'.writeq, tx := r'.tx);
      case LRead(_, at, chunk) =>
        assert !HangsUp(s, LoopStep(i), c) ==> OnIncoming(c, at, chunk, r).r.handle == r.handle;
      case _ =>
    }
  }

  /** The access time is set by every `read` of an open session and when the connection is up, and by nothing else. */
  lemma AccessChanges(cfg: Config, s: State, a: Step, c: Ref)
    requires Reached(cfg, s) && Ready(s, a) && c in s.clients
    ensures Next(s, a).clients[c].lastAccess
         == if a.ServerStep? && s.server.SRead? && s.server.c == c && s.server.rd.RTouch? then a.si.clock
            else if a.LoopStep? && s.loop.LComplete? && s.loop.c == c && s.loop.at.After? then a.li.clock
            else s.clients[c].lastAccess
  {
    match a {
      case ServerStep(i) =>
        ServerRecord(s, i, c);
        if ServerClient(s.server) == Some(c) && !s.server.SRead? {
          assert ServerOnClient(s.server, s.clients[c], i.clock).r.lastAccess == s.clients[c].lastAccess;
        }
      case LoopStep(i) =>
        LoopRecord(s, i, c);
        if LoopClient(s.loop) == Some(c) && !s.loop.LClose? {
          LoopCallAccess(s, i, c);
        }
      case _ =>
    }
  }

  lemma LoopCallAccess(s: State, i: LoopIn, c: Ref)
    requires LoopReady(s, i) && LoopClient(s.loop) == Some(c) && !s.loop.LClose?
    ensures LoopOnClient(s.cfg, s.loop, s.clients[c], i).r.lastAccess
         == if s.loop.LComplete? && s.loop.at.After? then i.clock else s.clients[c].lastAccess
  {
    var r := s.clients[c];
    match s.loop {
      case LWrite(_, _) => assert OnWriteRequest(s.cfg, c, r, i.ok).r.lastAccess == r.lastAccess;
      case LRead(_, at, chunk) => assert OnIncoming(c, at, chunk, r).r.lastAccess == r.lastAccess;
      case _ =>
    }
  }

  // ---------- who the client is ----------

  /** A client keeps its id and its timeout, and a new one is as the constructor makes it. */
  lemma Identity(s: State, a: Step, c: Ref)
    requires Ready(s, a) && c in Next(s, a).clients
    ensures var r' := Next(s, a).clients[c];
            if c in s.clients then r'.id == s.clients[c].id && r'.timeout == s.clients[c].timeout
            else
              && r'.phase == Disconnected && r'.timeout == s.cfg.timeout
              && r'.handle == Handle(false, false, false, false) && r'.readq == [] && r'.writeq == [] && r'.alive
              && s.server.SHaveStorage? && s.server.cmd == Create(r'.id)
  {
    ClientsStay(s, a);
    match a {
      case ServerStep(i) => if c in s.clients { ServerIdentity(s, i, c); }
      case LoopStep(i) => LoopIdentity(s, i, c);
      case _ =>
    }
  }

  lemma ServerIdentity(s: State, i: ServerIn, c: Ref)
    requires ServerReady(s, i) && c in s.clients
    ensures var r, r' := s.clients[c], ServerNext(s, i).clients[c];
            r'.id == r.id && r'.timeout == r.timeout
  {
    ServerRecord(s, i, c);
  }

  lemma LoopIdentity(s: State, i: LoopIn, c: Ref)
    requires LoopReady(s, i) && c in s.clients
    ensures var r, r' := s.clients[c], LoopNext(s, i).clients[c];
            r'.id == r.id && r'.timeout == r.timeout
  {
    LoopRecord(s, i, c);
    if LoopClient(s.loop) == Some(c) && !s.loop.LClose? {
      LoopStaysOnClient(s.cfg, s.loop, s.clients[c], i);
      assert LoopOnClient(s.cfg, s.loop, s.clients[c], i).r.timeout == s.clients[c].timeout;
    }
  }

  lemma RunIdentity(cfg: Config, ss: seq<State>, steps: seq<Step>, n: nat, c: Ref)
    requires IsRun(cfg, ss, steps) && n < |steps| && c in ss[n + 1].clients
    ensures ss[n + 1].clients[c].timeout == if c in ss[n].clients then ss[n].clients[c].timeout else cfg.timeout
  {
    RunSteps(cfg, ss, steps, n);
    Identity(ss[n], steps[n], c);
    ReachedGlobal(cfg, ss[n]);
  }

  /** Every session has the timeout of the configuration. */
  lemma {:induction false} TimeoutIsConfigured(cfg: Config, ss: seq<State>, steps: seq<Step>, n: nat, c: Ref)
    requires IsRun(cfg, ss, steps) && n <= |steps| && c in ss[n].clients
    ensures ss[n].clients[c].timeout == cfg.timeout
  {
    if n > 0 {
      RunIdentity(cfg, ss, steps, n - 1, c);
      if c in ss[n - 1].clients {
        TimeoutIsConfigured(cfg, ss, steps, n - 1, c);
      }
    }
  }

  // ---------- connect ----------

  /** libuv reports that the connection of `c` is up. */
  predicate Accepts(s: State, a: Step, c: Ref) {
    a.LoopStep? && s.loop.LIdle? && a.li.event == ConnectDone(c, true)
  }

  predicate Accepted(ss: seq<State>, steps: seq<Step>, n: nat, c: Ref)
    requires n <= |steps| < |ss|
  {
    n > 0 && (Accepted(ss, steps, n - 1, c) || Accepts(ss[n - 1], steps[n - 1], c))
  }

  /** The session is connected, or onConnect is about to learn that it is. */
  predicate Up(s: State, c: Ref) {
    (c in s.clients && s.clients[c].phase == Connected) || (s.loop.LComplete? && s.loop.c == c && s.loop.ok)
  }

  lemma ComesUp(cfg: Config, s: State, a: Step, c: Ref)
    requires Reached(cfg, s) && Ready(s, a)
    ensures Up(Next(s, a), c) ==> Up(s, c) || Accepts(s, a, c)
  {
    ClientsStay(s, a);
    CompletionIs(s, a, c);
    if c in s.clients {
      StateChanges(cfg, s, a, c);
    } else if c in Next(s, a).clients {
      Identity(s, a, c);
    }
  }

  /** onConnect runs for the completion that libuv reported, with the result that it reported. */
  lemma CompletionIs(s: State, a: Step, c: Ref)
    requires Ready(s, a)
    ensures var pc := Next(s, a).loop;
            pc.LComplete? && pc.c == c && pc.ok ==>
              (s.loop.LComplete? && s.loop.c == c && s.loop.ok) || Accepts(s, a, c)
  {
    match a {
      case ServerStep(i) => assert ServerNext(s, i).loop == s.loop;
      case LoopStep(i) => LoopCompletionIs(s, i, c);
      case _ =>
    }
  }

  lemma LoopCompletionIs(s: State, i: LoopIn, c: Ref)
    requires LoopReady(s, i)
    ensures var pc := LoopNext(s, i).loop;
            pc.LComplete? && pc.c == c && pc.ok ==>
              (s.loop.LComplete? && s.loop.c == c && s.loop.ok) || Accepts(s, LoopStep(i), c)
  {
    if LoopClient(s.loop).Some? && !s.loop.LClose? && !s.loop.LComplete? {
      var r := s.clients[s.loop.c];
      match s.loop {
        case LWrite(d, _) => assert !OnWriteRequest(s.cfg, d, r, i.ok).pc.LComplete?;
        case LRead(d, at, chunk) => assert !OnIncoming(d, at, chunk, r).pc.LComplete?;
        case _ =>
      }
    }
  }

  /** A session that is connected at any moment of a run was accepted by its backend before. */
  lemma {:induction false} ConnectedWasAccepted(cfg: Config, ss: seq<State>, steps: seq<Step>, n: nat, c: Ref)
    requires IsRun(cfg, ss, steps) && n <= |steps|
    ensures Up(ss[n], c) ==> Accepted(ss, steps, n, c)
  {
    if n > 0 {
      ConnectedWasAccepted(cfg, ss, steps, n - 1, c);
      RunSteps(cfg, ss, steps, n - 1);
      ComesUp(cfg, ss[n - 1], steps[n - 1], c);
    }
  }

  /**
    The server thread never waits in `connect` for a session that is connected or has failed:
    every such change wakes it.  While it waits, the outcome is still to come, or the session
    was connected and the backend has hung up already.
   */
  lemma WaitsForOutcome(cfg: Config, s: State)
    requires Reached(cfg, s) && Waiting(s.server)
    ensures s.server.c in s.clients
    ensures var r := s.clients[s.server.c];
            (r.phase == Connecting && r.log.signals == 0) || (r.phase == Disconnecting && r.log.signals == 1)
  {
    ReachedGlobal(cfg, s);
    ReachedClient(cfg, s, s.server.c);
  }

  /** Where `connect` goes: it asks and waits unless the session is open or closing, and gives up only on a timeout. */
  lemma ConnectGoes(s: State, i: ServerIn, c: Ref)
    requires ServerReady(s, i) && s.server.SConnect? && s.server.c == c
    ensures var s', phase := ServerNext(s, i), s.clients[c].phase;
            match s.server.con
            case CHold =>
              if phase in {Connecting, Connected, Disconnecting} then s'.server == SLeave && s'.reqs == s.reqs
              else s'.server == SConnect(c, CSend) && s'.reqs == s.reqs + [Request(CONNECT, c)]
            case CSend => s'.server == SConnect(c, CSet) && s'.pending
            case CSet => s'.server == SConnect(c, CWait) && s'.clients[c].owner == Nobody
            case CCheck(timedOut) =>
              s'.server == (if phase in {Connected, FailConnect} then SLeave
                            else if timedOut then SDisconnect(c, DWant)
                            else SConnect(c, CWait))
            case _ => true
  {
  }

  // ---------- commands and calls ----------

  /** Which commands are refused; the others go on with the session that is stored under the id. */
  lemma CommandGoes(s: State, i: ServerIn)
    requires ServerReady(s, i) && s.server.SHaveStorage?
    ensures var s', storage := ServerNext(s, i), s.storage;
            match s.server.cmd
            case Create(id) =>
              if |storage| >= s.cfg.maxClients || id in storage then s'.server == SLeave && s'.storage == storage
              else s'.server == SConnect(i.ref, CWant) && s'.storage == storage[id := i.ref]
            case Drop(id) => s'.server == if id in storage then SDisconnect(storage[id], DWant) else SLeave
            case Poll(id) => s'.server == if id in storage then SRead(storage[id], RWant, []) else SLeave
            case Post(id, allowed, data) =>
              s'.server == if id in storage && allowed && data != [] then SWrite(storage[id], WWant, data) else SLeave
  {
  }

  /** A poll is answered GONE exactly if the session is not open; otherwise it is an access. */
  lemma PollGoes(s: State, i: ServerIn, c: Ref)
    requires ServerReady(s, i) && s.server.SRead? && s.server.c == c && (s.server.rd.RHold? || s.server.rd.RTouch?)
    ensures var s', r := ServerNext(s, i), s.clients[c];
            if s.server.rd.RTouch? then s'.server == s.server.(rd := RTake) && s'.clients[c].lastAccess == i.clock
            else if r.phase in {Connecting, Connected} then s'.server == s.server.(rd := RTouch)
            else s'.server == SLeave && r.id in s'.gone
  {
  }

  /** A POST is accepted exactly if the session is not closing, and then the item and its request follow. */
  lemma PostGoes(s: State, i: ServerIn, c: Ref)
    requires ServerReady(s, i) && s.server.SWrite? && s.server.c == c
    ensures var s', r, r', data := ServerNext(s, i), s.clients[c], ServerNext(s, i).clients[c], s.server.data;
            match s.server.wr
            case WHold =>
              if r.phase in {Connecting, Connected, FailConnect}
              then s'.server == SWrite(c, WPut, data) && r'.tx.posted == r.tx.posted + [data]
              else s'.server == SLeave && r'.tx == r.tx && s'.reqs == s.reqs
            case WPut => s'.server == SWrite(c, WQueue, data) && r'.writeq == r.writeq + [data]
            case WQueue => s'.server == SWrite(c, WSend, data) && s'.reqs == s.reqs + [Request(WRITE, c)]
            case WSend => s'.server == SLeave && s'.pending
            case WWant => true
  {
  }

  /** Where an event leads; the wakeup is taken back before onAsync runs. */
  lemma EventGoes(s: State, i: LoopIn)
    requires LoopReady(s, i) && s.loop == LIdle
    ensures var s' := LoopNext(s, i);
            && s'.reqs == s.reqs && s'.storage == s.storage && s'.lock == s.lock && s'.server == s.server
            && match i.event
               case Async => s.pending && !s'.pending && s'.loop == LDrain && s'.clients == s.clients
               case Timer => s'.pending == s.pending && s'.loop == LTimerWant && s'.clients == s.clients
               case ConnectDone(c, ok) => s'.pending == s.pending && s'.loop == LComplete(c, Want, ok)
               case Incoming(c, chunk) => s'.pending == s.pending && s'.loop == LRead(c, Want, chunk)
               case CloseDone(c) => s'.pending == s.pending && s'.loop == LClose(c, false)
  {
  }

  /** onDisconnect forgets the id of the closed session and destroys it, and no other. */
  lemma CloseGoes(cfg: Config, s: State, i: LoopIn, c: Ref)
    requires Reached(cfg, s) && LoopReady(s, i) && s.loop == LClose(c, true)
    ensures c in s.clients
    ensures var s' := LoopNext(s, i);
            && s'.storage == s.storage - {s.clients[c].id} && s'.lock == Nobody && s'.loop == LIdle
            && s'.clients == s.clients[c := s.clients[c].(alive := false)]
  {
    ReachedGlobal(cfg, s);
  }

  // ---------- disconnect, over runs ----------

  predicate Queues(s: State, a: Step, s': State, c: Ref) {
    a.ServerStep? && s.server == SDisconnect(c, DQueue) && s'.reqs == s.reqs + [Request(DISCONNECT, c)]
  }

  /** `disconnect` finds nothing to do: the session is closing, or the next sweep will close it. */
  predicate LetsBe(s: State, a: Step, c: Ref) {
    && a.ServerStep? && s.server == SDisconnect(c, DHold) && c in s.clients
    && s.clients[c].phase in {FailConnect, Disconnecting}
  }

  /** How far a Drop has come since step `n`: what its steps up to `m` did to the session. */
  datatype Progress = Progress(closed: nat, kept: nat, queued: nat)

  function ProgressOf(ss: seq<State>, steps: seq<Step>, n: nat, m: nat, c: Ref): Progress
    requires n <= m <= |steps| < |ss|
  {
    if m == n then Progress(0, 0, 0) else Then(ProgressOf(ss, steps, n, m - 1, c), ss[m - 1], steps[m - 1], ss[m], c)
  }

  function Then(p: Progress, s: State, a: Step, s': State, c: Ref): Progress {
    Progress(p.closed + One(Disconnects(s, a, c) && c in s'.clients && s'.clients[c].phase == Disconnecting),
             p.kept + One(LetsBe(s, a, c)),
             p.queued + One(Queues(s, a, s', c)))
  }

  /** Where the server thread is in a Drop, and what it has done. */
  predicate Dropping(pc: ServerPc, c: Ref, p: Progress) {
    match pc
    case SDisconnect(d, at) =>
      d == c && (match at
                 case DWant => p == Progress(0, 0, 0)
                 case DHold => p == Progress(0, 0, 0)
                 case DQueue => p == Progress(1, 0, 0)
                 case DSend => p == Progress(1, 0, 1))
    case SLeave => p == Progress(1, 0, 1) || p == Progress(0, 1, 0)
    case _ => false
  }

  lemma DropStep(cfg: Config, s: State, a: Step, c: Ref, p: Progress)
    requires Reached(cfg, s) && Ready(s, a) && Dropping(s.server, c, p) && !s.server.SLeave? && c in s.clients
    ensures var s' := Next(s, a);
            && c in s'.clients
            && Dropping(s'.server, c, Then(p, s, a, s', c))
  {
    ReachedClient(cfg, s, c);
    StateChanges(cfg, s, a, c);
    ClientsStay(s, a);
    match a {
      case ServerStep(i) => assert ServerNext(s, i).server == OnDisconnect(c, s.server.dis, s.clients[c]).pc;
      case LoopStep(i) => assert LoopNext(s, i).server == s.server by { LoopLeavesCall(s, i); }
      case _ =>
    }
  }

  lemma LoopLeavesCall(s: State, i: LoopIn)
    requires LoopReady(s, i) && !Waiting(s.server)
    ensures LoopNext(s, i).server == s.server
  {
  }

  /** Every step of the run takes the Drop on, whatever it has done so far. */
  ghost predicate GoesOn(ss: seq<State>, steps: seq<Step>, k: nat, c: Ref)
    requires k < |steps| < |ss|
  {
    forall p: Progress {:trigger Dropping(ss[k].server, c, p)} ::
      Dropping(ss[k].server, c, p) && ss[k].server != SLeave && c in ss[k].clients ==>
        c in ss[k + 1].clients && Dropping(ss[k + 1].server, c, Then(p, ss[k], steps[k], ss[k + 1], c))
  }

  lemma DropGoesOn(cfg: Config, ss: seq<State>, steps: seq<Step>, k: nat, c: Ref)
    requires IsRun(cfg, ss, steps) && k < |steps|
    ensures GoesOn(ss, steps, k, c)
  {
    RunSteps(cfg, ss, steps, k);
    forall p: Progress | Dropping(ss[k].server, c, p) && ss[k].server != SLeave && c in ss[k].clients
      ensures c in ss[k + 1].clients && Dropping(ss[k + 1].server, c, Then(p, ss[k], steps[k], ss[k + 1], c))
    {
      DropStep(cfg, ss[k], steps[k], c, p);
    }
  }

  lemma DropBegins(cfg: Config, ss: seq<State>, steps: seq<Step>, n: nat, id: Id)
    requires IsRun(cfg, ss, steps) && n < |steps|
    requires steps[n].ServerStep? && ss[n].server == SHaveStorage(Drop(id)) && id in ss[n].storage
    ensures ss[n].storage[id] in ss[n + 1].clients
    ensures ss[n + 1].server == SDisconnect(ss[n].storage[id], DWant)
  {
    RunSteps(cfg, ss, steps, n);
    ReachedGlobal(cfg, ss[n]);
    CommandGoes(ss[n], steps[n].si);
    ClientsStay(ss[n], steps[n]);
  }

  lemma {:induction false} DropProceeds(ss: seq<State>, steps: seq<Step>, n: nat, m: nat, c: Ref)
    requires n < m <= |steps| < |ss|
    requires ss[n].server.SHaveStorage? && ss[n + 1].server == SDisconnect(c, DWant) && c in ss[n + 1].clients
    requires forall k :: n < k < m ==> ss[k].server != SLeave && GoesOn(ss, steps, k, c)
    ensures c in ss[m].clients && Dropping(ss[m].server, c, ProgressOf(ss, steps, n, m, c))
  {
    if m > n + 1 {
      DropProceeds(ss, steps, n, m - 1, c);
      assert GoesOn(ss, steps, m - 1, c);
    } else {
      assert ProgressOf(ss, steps, n, n, c) == Progress(0, 0, 0);
    }
  }

  /**
    A Drop for a stored id: when it is done, either the session was open and has become
    DISCONNECTING, with exactly one DISCONNECT request, or it was FAIL_CONNECT or closing and
    was left alone.
   */
  lemma DropCloses(cfg: Config, ss: seq<State>, steps: seq<Step>, n: nat, m: nat, id: Id)
    requires IsRun(cfg, ss, steps) && n < m <= |steps|
    requires steps[n].ServerStep? && ss[n].server == SHaveStorage(Drop(id)) && id in ss[n].storage
    requires forall k :: n < k < m ==> ss[k].server != SLeave
    ensures Dropping(ss[m].server, ss[n].storage[id], ProgressOf(ss, steps, n, m, ss[n].storage[id]))
    ensures ss[m].server == SLeave ==>
              ProgressOf(ss, steps, n, m, ss[n].storage[id]) in {Progress(1, 0, 1), Progress(0, 1, 0)}
  {
    DropBegins(cfg, ss, steps, n, id);
    forall k | n < k < m ensures ss[k].server != SLeave && GoesOn(ss, steps, k, ss[n].storage[id]) {
      DropGoesOn(cfg, ss, steps, k, ss[n].storage[id]);
    }
    DropProceeds(ss, steps, n, m, ss[n].storage[id]);
  }
}
