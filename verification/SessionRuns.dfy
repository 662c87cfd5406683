/**
  Runs that show what the relay does not guarantee: a handle may be closed twice, and the loop
  thread may run a method of a client that it has destroyed.
 */
module SessionRuns {
  import opened Options
  import opened ClientState
  import opened Session
  import opened SessionTheorems

  lemma Advance(cfg: Config, s: State, a: Step) returns (s': State)
    requires Reached(cfg, s) && Ready(s, a)
    ensures s' == Next(s, a) && Reached(cfg, s')
  {
    s' := Next(s, a);
    var ss, steps :| IsRun(cfg, ss, steps) && s == ss[|steps|];
    var ss', steps' := ss + [s'], steps + [a];
    forall n | 0 <= n < |steps'| ensures Follows(ss'[n], steps'[n], ss'[n + 1]) {
      if n < |steps| {
        assert Follows(ss[n], steps[n], ss[n + 1]);
      }
    }
    assert IsRun(cfg, ss', steps') && s' == ss'[|steps'|];
  }

  function Serve(cmd: Command): Step {
    ServerStep(ServerIn(cmd, 0, 0))
  }

  function Loops(event: Event): Step {
    LoopStep(LoopIn(event, true, 0, 0))
  }

  const CREATE := Create("s")

  /** The server thread creates session "s" and owns its state mutex. */
  lemma AfterCreate(cfg: Config) returns (s: State)
    requires cfg.maxClients > 0
    ensures Reached(cfg, s)
    ensures s == State(cfg, map[0 := Held(Created("s", cfg.timeout, 0))], map["s" := 0], Server,
                       [], false, SConnect(0, CHold), LIdle, {})
  {
    s := Initial(cfg);
    assert IsRun(cfg, [s], []);
    s := Advance(cfg, s, Serve(CREATE));
    s := Advance(cfg, s, Serve(CREATE));
    s := Advance(cfg, s, Serve(CREATE));
    s := Advance(cfg, s, Serve(CREATE));
  }

  /** It queues CONNECT and waits. */
  lemma AfterRequest(cfg: Config) returns (s: State)
    requires cfg.maxClients > 0
    ensures Reached(cfg, s)
    ensures s == State(cfg, map[0 := StartWait(Asked(Created("s", cfg.timeout, 0)))], map["s" := 0], Server,
                       [Request(CONNECT, 0)], true, SConnect(0, CWait), LIdle, {})
  {
    s := AfterCreate(cfg);
    s := Advance(cfg, s, Serve(CREATE));
    s := Advance(cfg, s, Serve(CREATE));
    s := Advance(cfg, s, Serve(CREATE));
  }

  /** The loop thread has dialled. */
  lemma AfterDial(cfg: Config) returns (s: State)
    requires cfg.maxClients > 0
    ensures Reached(cfg, s)
    ensures 0 in s.clients
    ensures s == State(cfg, map[0 := s.clients[0]], map["s" := 0], Server, [], false, SConnect(0, CWait), LIdle, {})
    ensures s.clients[0].phase.Connecting? && s.clients[0].owner.Nobody?
    ensures s.clients[0].handle == Handle(true, false, false, false) && s.clients[0].log.closes == 0
    ensures s.clients[0].id == "s"
  {
    s := AfterRequest(cfg);
    s := Advance(cfg, s, Loops(Async));
    s := Advance(cfg, s, Loops(Async));
    assert s.loop == LConnect(0, false) && s.reqs == [];
    s := Advance(cfg, s, Loops(Async));
    s := Advance(cfg, s, Loops(Async));
    assert s.loop == LDrain;
    s := Advance(cfg, s, Loops(Async));
  }

  /** The wait times out and `connect` calls `disconnect`. */
  lemma AfterGivingUp(cfg: Config) returns (s: State)
    requires cfg.maxClients > 0
    ensures Reached(cfg, s)
    ensures 0 in s.clients
    ensures s == State(cfg, map[0 := s.clients[0]], map["s" := 0], Server, [], false, SDisconnect(0, DWant), LIdle, {})
    ensures s.clients[0].phase.Connecting? && s.clients[0].owner.Nobody?
    ensures s.clients[0].handle == Handle(true, false, false, false) && s.clients[0].log.closes == 0
    ensures s.clients[0].id == "s"
  {
    s := AfterDial(cfg);
    s := Advance(cfg, s, TimeOut);
    s := Advance(cfg, s, Serve(CREATE));
    s := Advance(cfg, s, Serve(CREATE));
  }

  /** It asks for the close and answers. */
  lemma AfterTimeout(cfg: Config) returns (s: State)
    requires cfg.maxClients > 0
    ensures Reached(cfg, s)
    ensures 0 in s.clients
    ensures s == State(cfg, map[0 := s.clients[0]], map["s" := 0], Nobody, [Request(DISCONNECT, 0)], true,
                       SIdle, LIdle, {})
    ensures s.clients[0].phase.Disconnecting? && s.clients[0].owner.Nobody?
    ensures s.clients[0].handle == Handle(true, false, false, false) && s.clients[0].log.closes == 0
    ensures s.clients[0].id == "s"
  {
    s := AfterGivingUp(cfg);
    s := Advance(cfg, s, Serve(CREATE));
    s := Advance(cfg, s, Serve(CREATE));
    assert s.server == SDisconnect(0, DQueue);
    s := Advance(cfg, s, Serve(CREATE));
    s := Advance(cfg, s, Serve(CREATE));
    s := Advance(cfg, s, Serve(CREATE));
  }

  /** The connection completes after all, which overwrites DISCONNECTING. */
  lemma AfterLateConnect(cfg: Config) returns (s: State)
    requires cfg.maxClients > 0
    ensures Reached(cfg, s)
    ensures 0 in s.clients
    ensures s == State(cfg, map[0 := s.clients[0]], map["s" := 0], Nobody, [Request(DISCONNECT, 0)], true,
                       SIdle, LIdle, {})
    ensures s.clients[0].phase.FailConnect? && s.clients[0].owner.Nobody? && s.clients[0].log.closes == 0
    ensures s.clients[0].handle == Handle(false, false, false, false) && s.clients[0].id == "s"
  {
    s := AfterTimeout(cfg);
    s := Advance(cfg, s, Loops(ConnectDone(0, true)));
    s := Advance(cfg, s, Loops(Async));
    s := Advance(cfg, s, Loops(Async));
  }

  /** The sweep closes the session. */
  lemma AfterSweep(cfg: Config) returns (s: State)
    requires cfg.maxClients > 0
    ensures Reached(cfg, s)
    ensures 0 in s.clients
    ensures s == State(cfg, map[0 := s.clients[0]], map["s" := 0], Nobody, [Request(DISCONNECT, 0)], true,
                       SIdle, LIdle, {})
    ensures s.clients[0].log.closes == 1 && s.clients[0].id == "s"
    ensures s.clients[0].handle == Handle(false, false, true, true)
  {
    s := AfterLateConnect(cfg);
    s := Advance(cfg, s, Loops(Timer));
    s := Advance(cfg, s, Loops(Timer));
    assert s.storage["s"] == 0 && s.storage.Values == {0};
    s := Advance(cfg, s, Loops(Timer));
    s := Advance(cfg, s, Loops(Timer));
    s := Advance(cfg, s, Loops(Timer));
    assert s.loop.LSweep? && s.loop.todo == {};
    s := Advance(cfg, s, Loops(Timer));
  }

  /**
    "Closed at most once" does not hold of the code: a connection that completes between the
    timeout of `connect` and its DISCONNECT request makes the loop call uv_close twice.
   */
  lemma ClosedTwice(cfg: Config)
    requires cfg.maxClients > 0
    ensures exists s, c :: Reached(cfg, s) && c in s.clients && s.clients[c].log.closes == 2
  {
    var s := AfterSweep(cfg);
    s := Advance(cfg, s, Loops(Async));
    s := Advance(cfg, s, Loops(Async));
    assert s.loop == LDisconnect(0);
    s := Advance(cfg, s, Loops(Async));
    assert 0 in s.clients && s.clients[0].log.closes == 2;
  }

  /**
    "The loop runs methods of living clients only" does not hold either: after the first of the
    two closes the client is destroyed, and then the queued DISCONNECT is carried out.
   */
  lemma DisconnectOfDestroyed(cfg: Config)
    requires cfg.maxClients > 0
    ensures exists s, c :: Reached(cfg, s) && Misuses(s, c) && s.loop == LDisconnect(c)
  {
    var s := AfterSweep(cfg);
    s := Advance(cfg, s, Loops(CloseDone(0)));
    s := Advance(cfg, s, Loops(Async));
    s := Advance(cfg, s, Loops(Async));
    assert s.loop.LIdle? && 0 in s.clients && !s.clients[0].alive;
    s := Advance(cfg, s, Loops(Async));
    s := Advance(cfg, s, Loops(Async));
    assert Misuses(s, 0) && s.loop == LDisconnect(0);
  }

  /** The connection comes up in time and wakes the server thread. */
  lemma AfterWakeup(cfg: Config) returns (s: State)
    requires cfg.maxClients > 0
    ensures Reached(cfg, s)
    ensures 0 in s.clients
    ensures s == State(cfg, map[0 := s.clients[0]], map["s" := 0], Server, [], false,
                       SConnect(0, CWake(false)), LIdle, {})
    ensures s.clients[0].phase.Connected? && s.clients[0].owner.Nobody? && s.clients[0].id == "s"
    ensures s.clients[0].handle == Handle(false, true, false, false) && s.clients[0].log.closes == 0
  {
    s := AfterDial(cfg);
    s := Advance(cfg, s, Loops(ConnectDone(0, true)));
    s := Advance(cfg, s, Loops(Async));
    s := Advance(cfg, s, Loops(Async));
    assert s.loop == LComplete(0, After, true);
    s := Advance(cfg, s, Loops(Async));
  }

  /** The backend hangs up before the server thread has the state mutex again. */
  lemma AfterEarlyHangUp(cfg: Config) returns (s: State)
    requires cfg.maxClients > 0
    ensures Reached(cfg, s)
    ensures 0 in s.clients
    ensures s == State(cfg, map[0 := s.clients[0]], map["s" := 0], Server, [], false,
                       SConnect(0, CWake(false)), LIdle, {})
    ensures s.clients[0].phase == Disconnecting && s.clients[0].owner.Nobody?
  {
    s := AfterWakeup(cfg);
    s := Advance(cfg, s, Loops(Incoming(0, None)));
    s := Advance(cfg, s, Loops(Async));
    s := Advance(cfg, s, Loops(Async));
  }

  /** `connect` does not notice: it waits again, for a session that is closing. */
  lemma WaitsForClosed(cfg: Config)
    requires cfg.maxClients > 0
    ensures exists s :: Reached(cfg, s) && Waiting(s.server) && s.server.c in s.clients
                        && s.clients[s.server.c].phase == Disconnecting
  {
    var s := AfterEarlyHangUp(cfg);
    s := Advance(cfg, s, Serve(CREATE));
    s := Advance(cfg, s, Serve(CREATE));
    assert s.server == SConnect(0, CWait) && s.clients[0].phase == Disconnecting;
  }

  /** `connect` returns. */
  lemma AfterConnect(cfg: Config) returns (s: State)
    requires cfg.maxClients > 0
    ensures Reached(cfg, s)
    ensures 0 in s.clients
    ensures s == State(cfg, map[0 := s.clients[0]], map["s" := 0], Nobody, [], false, SIdle, LIdle, {})
    ensures s.clients[0].phase.Connected? && s.clients[0].owner.Nobody? && s.clients[0].id == "s"
    ensures s.clients[0].handle == Handle(false, true, false, false) && s.clients[0].log.closes == 0
  {
    s := AfterWakeup(cfg);
    s := Advance(cfg, s, Serve(CREATE));
    s := Advance(cfg, s, Serve(CREATE));
    s := Advance(cfg, s, Serve(CREATE));
  }

  const POST := Post("s", true, [0])

  /** A POST has found the session open. */
  lemma AfterAccept(cfg: Config) returns (s: State)
    requires cfg.maxClients > 0
    ensures Reached(cfg, s)
    ensures 0 in s.clients
    ensures s == State(cfg, map[0 := s.clients[0]], map["s" := 0], Server, [], false, SWrite(0, WPut, [0]), LIdle, {})
    ensures s.clients[0].phase.Connected? && s.clients[0].owner.Nobody? && s.clients[0].id == "s"
    ensures s.clients[0].handle == Handle(false, true, false, false) && s.clients[0].log.closes == 0
  {
    s := AfterConnect(cfg);
    s := Advance(cfg, s, Serve(POST));
    s := Advance(cfg, s, Serve(POST));
    s := Advance(cfg, s, Serve(POST));
    assert s.server == SWrite(0, WWant, [0]);
    s := Advance(cfg, s, Serve(POST));
    s := Advance(cfg, s, Serve(POST));
  }

  /** The backend hangs up, and the close callback waits for the storage mutex. */
  lemma AfterHangUp(cfg: Config) returns (s: State)
    requires cfg.maxClients > 0
    ensures Reached(cfg, s)
    ensures 0 in s.clients
    ensures s == State(cfg, map[0 := s.clients[0]], map["s" := 0], Server, [], false,
                       SWrite(0, WPut, [0]), LClose(0, false), {})
    ensures s.clients[0].id == "s" && s.clients[0].log.overwrites == 0
  {
    s := AfterAccept(cfg);
    CloseLedger(cfg, s, 0);
    s := Advance(cfg, s, Loops(Incoming(0, None)));
    s := Advance(cfg, s, Loops(Async));
    s := Advance(cfg, s, Loops(Async));
    assert s.loop.LIdle? && s.clients[0].handle == Handle(false, false, true, true);
    s := Advance(cfg, s, Loops(CloseDone(0)));
  }

  /** The POST queues its WRITE request and is answered. */
  lemma AfterPost(cfg: Config) returns (s: State)
    requires cfg.maxClients > 0
    ensures Reached(cfg, s)
    ensures 0 in s.clients
    ensures s == State(cfg, map[0 := s.clients[0]], map["s" := 0], Nobody, [Request(WRITE, 0)], true,
                       SIdle, LClose(0, false), {})
    ensures s.clients[0].id == "s" && s.clients[0].log.overwrites == 0
  {
    s := AfterHangUp(cfg);
    s := Advance(cfg, s, Serve(POST));
    s := Advance(cfg, s, Serve(POST));
    assert s.server == SWrite(0, WSend, [0]);
    s := Advance(cfg, s, Serve(POST));
    s := Advance(cfg, s, Serve(POST));
  }

  /**
    Nor need there be a second close: `write` tests the state and queues its request later, so
    a session that the backend closes in between is destroyed before its WRITE is carried out.
   */
  lemma WriteOfDestroyed(cfg: Config)
    requires cfg.maxClients > 0
    ensures exists s, c :: Reached(cfg, s) && Misuses(s, c) && s.loop == LWrite(c, true)
                           && s.clients[c].log.overwrites == 0
  {
    var s := AfterPost(cfg);
    s := Advance(cfg, s, Loops(Async));
    s := Advance(cfg, s, Loops(Async));
    assert s.loop.LIdle? && 0 in s.clients && !s.clients[0].alive;
    s := Advance(cfg, s, Loops(Async));
    s := Advance(cfg, s, Loops(Async));
    assert Misuses(s, 0) && s.loop == LWrite(0, true);
  }
}
