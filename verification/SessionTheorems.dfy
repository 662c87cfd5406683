/**
  What the relay guarantees in every state that any interleaving of the two threads reaches,
  and over whole runs.
 */
module SessionTheorems {
  import opened Options
  import opened ClientState
  import opened Session
  import opened SessionInvariant
  import opened SessionSteps

  ghost predicate Reached(cfg: Config, s: State) {
    exists ss, steps :: IsRun(cfg, ss, steps) && s == ss[|steps|]
  }

  lemma ReachedInv(cfg: Config, s: State)
    requires Reached(cfg, s)
    ensures Inv(s) && s.cfg == cfg
  {
    var ss, steps :| IsRun(cfg, ss, steps) && s == ss[|steps|];
    RunsKeepInv(cfg, ss, steps, |steps|);
  }

  lemma ReachedClient(cfg: Config, s: State, c: Ref)
    requires Reached(cfg, s) && c in s.clients
    ensures ClientInv(cfg, ViewOf(s, c))
  {
    ReachedInv(cfg, s);
    var v := ViewOf(s, c);
  }

  lemma ReachedGlobal(cfg: Config, s: State)
    requires Reached(cfg, s)
    ensures GlobalInv(s) && s.cfg == cfg
  {
    ReachedInv(cfg, s);
  }

  lemma RunSteps(cfg: Config, ss: seq<State>, steps: seq<Step>, n: nat)
    requires IsRun(cfg, ss, steps) && n < |steps|
    ensures Reached(cfg, ss[n]) && Ready(ss[n], steps[n]) && ss[n + 1] == Next(ss[n], steps[n])
  {
    RunReaches(cfg, ss, steps, n);
    assert Follows(ss[n], steps[n], ss[n + 1]);
  }

  lemma RunReaches(cfg: Config, ss: seq<State>, steps: seq<Step>, n: nat)
    requires IsRun(cfg, ss, steps) && n <= |steps|
    ensures Reached(cfg, ss[n])
  {
    var ss', steps' := ss[..n + 1], steps[..n];
    forall k | 0 <= k < |steps'| ensures Follows(ss'[k], steps'[k], ss'[k + 1]) {
      assert Follows(ss[k], steps[k], ss[k + 1]);
    }
    assert IsRun(cfg, ss', steps') && ss[n] == ss'[|steps'|];
  }

  // ---------- closing ----------

  /** DISCONNECT requests of a client, queued, about to be queued, or about to be carried out. */
  function DisconnectsDue(s: State, c: Ref): nat {
    Count(Requests(s.reqs, c), DISCONNECT)
    + One(s.server == SDisconnect(c, DQueue)) + One(s.loop == LDisconnect(c))
  }

  /**
    The close ledger: every entry into DISCONNECTING is one uv_close, made or still due.  There
    are at most two entries; a second one needs a FAIL_CONNECT that overwrote DISCONNECTING, and
    without such an overwrite the handle is closed at most once.
   */
  lemma CloseLedger(cfg: Config, s: State, c: Ref)
    requires Reached(cfg, s) && c in s.clients
    ensures var log := s.clients[c].log;
            && log.entries == log.closes + DisconnectsDue(s, c)
            && log.entries == log.overwrites + One(s.clients[c].phase.Disconnecting?)
            && log.overwrites <= 1
            && (log.overwrites == 0 ==> log.closes <= 1)
  {
    ReachedClient(cfg, s, c);
  }

  /**
    Exactly when a session starts to close a second time: the sweep meets it in FAIL_CONNECT
    although its handle is closed or a DISCONNECT request is still to come.
   */
  lemma SecondEntry(cfg: Config, s: State, a: Step, c: Ref)
    requires Reached(cfg, s) && Ready(s, a) && c in s.clients
    ensures var r, r' := s.clients[c], Next(s, a).clients[c];
            r'.log.entries > r.log.entries && r.log.entries > 0 <==>
            && a.LoopStep? && s.loop.LTimer? && s.loop.held && s.loop.c == c
            && r.phase.FailConnect? && (r.handle.closed || DisconnectsDue(s, c) > 0)
  {
    EntriesShow(cfg, s, c);
    match a {
      case ServerStep(i) => ServerEntries(s, i, c);
      case LoopStep(i) => LoopEntries(s, i, c);
      case _ =>
    }
  }

  /** Whether a session has started to close shows in its handle and its requests; an open one has not. */
  lemma EntriesShow(cfg: Config, s: State, c: Ref)
    requires Reached(cfg, s) && c in s.clients
    ensures var r := s.clients[c];
            && (r.log.entries > 0 <==> r.handle.closed || DisconnectsDue(s, c) > 0)
            && (IsOpen(r) ==> r.log.entries == 0)
  {
    ReachedClient(cfg, s, c);
  }

  /** The call of uv_close: by _disconnect, by the sweep, and on a read error. */
  predicate CallsClose(s: State, a: Step, c: Ref)
    requires c in s.clients
  {
    var r, pc := s.clients[c], s.loop;
    a.LoopStep? && LoopClient(pc) == Some(c)
    && (|| pc.LDisconnect?
        || (pc.LTimer? && pc.held && (r.phase.FailConnect? || (pc.past >= r.timeout && IsOpen(r))))
        || (pc.LRead? && pc.at.Hold? && r.phase.Connected? && pc.chunk.None?))
  }

  predicate IsOpen(r: Client) {
    r.phase == Connecting || r.phase == Connected
  }

  /** What a step of the server thread does to the state of `c` and to its counters. */
  lemma ServerEntries(s: State, i: ServerIn, c: Ref)
    requires ServerReady(s, i) && c in s.clients
    ensures var r, r' := s.clients[c], ServerNext(s, i).clients[c];
            && r'.log.closes == r.log.closes && r'.log.overwrites == r.log.overwrites
            && (if s.server == SDisconnect(c, DHold) && IsOpen(r)
                then r'.phase.Disconnecting? && r'.log.entries == r.log.entries + 1
                else (r'.phase == r.phase || r'.phase.Connecting?) && r'.log.entries == r.log.entries)
  {
    ServerRecord(s, i, c);
    if ServerClient(s.server) == Some(c) {
      CallEntries(s.server, s.clients[c], i.clock);
    }
  }

  lemma CallEntries(pc: ServerPc, r: Client, clock: int)
    requires ServerClient(pc).Some? && !Waiting(pc)
    ensures var r' := ServerOnClient(pc, r, clock).r;
            && r'.log.closes == r.log.closes && r'.log.overwrites == r.log.overwrites
            && (if pc.SDisconnect? && pc.dis.DHold? && IsOpen(r)
                then r'.phase.Disconnecting? && r'.log.entries == r.log.entries + 1
                else (r'.phase == r.phase || r'.phase.Connecting?) && r'.log.entries == r.log.entries)
  {
  }

  /** The counters after a step, by whether it closes the handle (`close`) and the session with it (`enter`). */
  ghost predicate Counts(r: Client, r': Client, close: bool, enter: bool) {
    && r'.log.closes == r.log.closes + One(close)
    && r'.log.entries == r.log.entries + One(enter)
    && (if enter then r'.phase.Disconnecting? && r'.log.overwrites == r.log.overwrites
        else
          && r'.log.overwrites == r.log.overwrites + One(r.phase.Disconnecting? && !r'.phase.Disconnecting?)
          && (r'.phase.Disconnecting? ==> r.phase.Disconnecting?)
          && (r.phase.Disconnecting? && !r'.phase.Disconnecting? ==> r'.phase.FailConnect?))
  }

  lemma LoopEntries(s: State, i: LoopIn, c: Ref)
    requires LoopReady(s, i) && c in s.clients
    ensures var close := CallsClose(s, LoopStep(i), c);
            Counts(s.clients[c], LoopNext(s, i).clients[c], close, close && !s.loop.LDisconnect?)
  {
    LoopRecord(s, i, c);
    if LoopClient(s.loop) == Some(c) && !s.loop.LClose? {
      LoopCounts(s.cfg, s.loop, s.clients[c], i);
    }
  }

  lemma LoopCounts(cfg: Config, pc: LoopPc, r: Client, i: LoopIn)
    requires LoopClient(pc).Some? && !pc.LClose?
    ensures var close := pc.LDisconnect?
                         || (pc.LTimer? && pc.held && (r.phase.FailConnect? || (pc.past >= r.timeout && IsOpen(r))))
                         || (pc.LRead? && pc.at.Hold? && r.phase.Connected? && pc.chunk.None?);
            Counts(r, LoopOnClient(cfg, pc, r, i).r, close, close && !pc.LDisconnect?)
  {
  }

  // ---------- the same ledger, counted over the steps of a run ----------

  /** A step makes the state of `c` DISCONNECTING. */
  predicate Enters(s: State, s': State, c: Ref) {
    && c in s'.clients && s'.clients[c].phase.Disconnecting?
    && !(c in s.clients && s.clients[c].phase.Disconnecting?)
  }

  /** A step overwrites DISCONNECTING by FAIL_CONNECT. */
  predicate Overwrites(s: State, s': State, c: Ref) {
    c in s.clients && s.clients[c].phase.Disconnecting? && c in s'.clients && s'.clients[c].phase.FailConnect?
  }

  function EntriesIn(ss: seq<State>, c: Ref): nat {
    if |ss| < 2 then 0
    else EntriesIn(ss[..|ss| - 1], c) + One(Enters(ss[|ss| - 2], ss[|ss| - 1], c))
  }

  function OverwritesIn(ss: seq<State>, c: Ref): nat {
    if |ss| < 2 then 0
    else OverwritesIn(ss[..|ss| - 1], c) + One(Overwrites(ss[|ss| - 2], ss[|ss| - 1], c))
  }

  function ClosesIn(ss: seq<State>, steps: seq<Step>, c: Ref): nat
    requires |ss| == |steps| + 1
  {
    if steps == [] then 0
    else
      var n := |steps| - 1;
      ClosesIn(ss[..n + 1], steps[..n], c) + One(c in ss[n].clients && CallsClose(ss[n], steps[n], c))
  }

  /** The counters of a client, all zero before it is created. */
  function LogOf(s: State, c: Ref): Log {
    if c in s.clients then s.clients[c].log else Created("", 0, 0).log
  }

  lemma StepCounts(cfg: Config, s: State, a: Step, c: Ref)
    requires Reached(cfg, s) && Ready(s, a)
    ensures var s' := Next(s, a);
            && LogOf(s', c).entries == LogOf(s, c).entries + One(Enters(s, s', c))
            && LogOf(s', c).overwrites == LogOf(s, c).overwrites + One(Overwrites(s, s', c))
            && LogOf(s', c).closes == LogOf(s, c).closes + One(c in s.clients && CallsClose(s, a, c))
  {
    ClientsStay(s, a);
    if c in s.clients {
      match a {
        case ServerStep(i) => ServerStepCounts(cfg, s, i, c);
        case LoopStep(i) => LoopStepCounts(cfg, s, i, c);
        case _ =>
      }
    }
  }

  lemma ServerStepCounts(cfg: Config, s: State, i: ServerIn, c: Ref)
    requires Reached(cfg, s) && ServerReady(s, i) && c in s.clients
    ensures var s', r, r' := ServerNext(s, i), s.clients[c], ServerNext(s, i).clients[c];
            && r'.log.entries == r.log.entries + One(Enters(s, s', c))
            && r'.log.overwrites == r.log.overwrites + One(Overwrites(s, s', c))
            && r'.log.closes == r.log.closes
  {
    ReachedClient(cfg, s, c);
    ServerEntries(s, i, c);
  }

  lemma LoopStepCounts(cfg: Config, s: State, i: LoopIn, c: Ref)
    requires Reached(cfg, s) && LoopReady(s, i) && c in s.clients
    ensures var s', r, r' := LoopNext(s, i), s.clients[c], LoopNext(s, i).clients[c];
            && r'.log.entries == r.log.entries + One(Enters(s, s', c))
            && r'.log.overwrites == r.log.overwrites + One(Overwrites(s, s', c))
            && r'.log.closes == r.log.closes + One(CallsClose(s, LoopStep(i), c))
  {
    ReachedClient(cfg, s, c);
    LoopEntries(s, i, c);
  }

  lemma RunStepCounts(cfg: Config, ss: seq<State>, steps: seq<Step>, n: nat, c: Ref)
    requires IsRun(cfg, ss, steps) && n < |steps|
    ensures LogOf(ss[n + 1], c).entries == LogOf(ss[n], c).entries + One(Enters(ss[n], ss[n + 1], c))
    ensures LogOf(ss[n + 1], c).overwrites == LogOf(ss[n], c).overwrites + One(Overwrites(ss[n], ss[n + 1], c))
    ensures LogOf(ss[n + 1], c).closes
         == LogOf(ss[n], c).closes + One(c in ss[n].clients && CallsClose(ss[n], steps[n], c))
  {
    RunSteps(cfg, ss, steps, n);
    StepCounts(cfg, ss[n], steps[n], c);
  }

  /** The k-th step counts what it does. */
  ghost predicate CountedAt(ss: seq<State>, steps: seq<Step>, k: nat, c: Ref)
    requires k < |steps| < |ss|
  {
    var log, log' := LogOf(ss[k], c), LogOf(ss[k + 1], c);
    && log'.entries == log.entries + One(Enters(ss[k], ss[k + 1], c))
    && log'.overwrites == log.overwrites + One(Overwrites(ss[k], ss[k + 1], c))
    && log'.closes == log.closes + One(c in ss[k].clients && CallsClose(ss[k], steps[k], c))
  }

  lemma {:induction false} CountsAdd(ss: seq<State>, steps: seq<Step>, n: nat, c: Ref)
    requires |ss| == |steps| + 1 && n <= |steps| && c !in ss[0].clients
    requires forall k :: 0 <= k < n ==> CountedAt(ss, steps, k, c)
    ensures LogOf(ss[n], c).entries == EntriesIn(ss[..n + 1], c)
    ensures LogOf(ss[n], c).overwrites == OverwritesIn(ss[..n + 1], c)
    ensures LogOf(ss[n], c).closes == ClosesIn(ss[..n + 1], steps[..n], c)
  {
    if n > 0 {
      CountsAdd(ss, steps, n - 1, c);
      assert CountedAt(ss, steps, n - 1, c);
      assert ss[..n + 1][..n] == ss[..n - 1 + 1] && steps[..n][..n - 1] == steps[..n - 1];
    }
  }

  lemma CountersAreCounts(cfg: Config, ss: seq<State>, steps: seq<Step>, n: nat, c: Ref)
    requires IsRun(cfg, ss, steps) && n <= |steps|
    ensures LogOf(ss[n], c).entries == EntriesIn(ss[..n + 1], c)
    ensures LogOf(ss[n], c).overwrites == OverwritesIn(ss[..n + 1], c)
    ensures LogOf(ss[n], c).closes == ClosesIn(ss[..n + 1], steps[..n], c)
  {
    forall k | 0 <= k < n ensures CountedAt(ss, steps, k, c) {
      RunStepCounts(cfg, ss, steps, k, c);
    }
    CountsAdd(ss, steps, n, c);
  }

  /**
    The close ledger over any run: the times a session became DISCONNECTING are the calls of
    uv_close so far plus those still due; at most two, and the second only after DISCONNECTING
    was overwritten by FAIL_CONNECT.
   */
  lemma CloseLedgerOverRuns(cfg: Config, ss: seq<State>, steps: seq<Step>, n: nat, c: Ref)
    requires IsRun(cfg, ss, steps) && n <= |steps| && c in ss[n].clients
    ensures var entries, overwrites, closes :=
              EntriesIn(ss[..n + 1], c), OverwritesIn(ss[..n + 1], c), ClosesIn(ss[..n + 1], steps[..n], c);
            && entries == closes + DisconnectsDue(ss[n], c)
            && entries == overwrites + One(ss[n].clients[c].phase.Disconnecting?)
            && entries <= 2
            && (entries == 2 ==> overwrites == 1)
            && (overwrites == 0 ==> closes <= 1)
  {
    RunReaches(cfg, ss, steps, n);
    CountersAreCounts(cfg, ss, steps, n, c);
    CloseLedger(cfg, ss[n], c);
  }

  /** The loop carries out a DISCONNECT, or sweeps a FAIL_CONNECT, whose handle is closed already. */
  predicate ClosesAgain(s: State, a: Step, c: Ref) {
    && c in s.clients && a.LoopStep? && s.clients[c].handle.closed
    && (|| s.loop == LDisconnect(c)
        || (s.loop.LTimer? && s.loop.held && s.loop.c == c && s.clients[c].phase.FailConnect?))
  }

  /** These are exactly the calls of uv_close on a closed handle, and there is no third call. */
  lemma SecondClose(cfg: Config, s: State, a: Step, c: Ref)
    requires Reached(cfg, s) && Ready(s, a) && c in s.clients
    ensures CallsClose(s, a, c) && s.clients[c].log.closes >= 1 <==> ClosesAgain(s, a, c)
    ensures CallsClose(s, a, c) ==> s.clients[c].log.closes <= 1
  {
    ReachedClient(cfg, s, c);
  }

  predicate ClosedAgain(ss: seq<State>, steps: seq<Step>, n: nat, c: Ref)
    requires n <= |steps| < |ss|
  {
    n > 0 && (ClosedAgain(ss, steps, n - 1, c) || ClosesAgain(ss[n - 1], steps[n - 1], c))
  }

  /** A run closes a handle at most once exactly if it has no such step. */
  lemma {:induction false} ClosedOnceExactly(cfg: Config, ss: seq<State>, steps: seq<Step>, n: nat, c: Ref)
    requires IsRun(cfg, ss, steps) && n <= |steps|
    ensures LogOf(ss[n], c).closes == ClosesIn(ss[..n + 1], steps[..n], c)
    ensures ClosesIn(ss[..n + 1], steps[..n], c) <= 1 <==> !ClosedAgain(ss, steps, n, c)
  {
    CountersAreCounts(cfg, ss, steps, n, c);
    if n > 0 {
      ClosedOnceExactly(cfg, ss, steps, n - 1, c);
      RunStepCounts(cfg, ss, steps, n - 1, c);
      RunSteps(cfg, ss, steps, n - 1);
      if c in ss[n - 1].clients {
        SecondClose(cfg, ss[n - 1], steps[n - 1], c);
      }
    }
  }

  // ---------- the storage ----------

  /** While nobody holds the storage mutex, no stored session is DISCONNECTED or CONNECTING. */
  lemma NoHalfOpenSession(cfg: Config, s: State, id: Id)
    requires Reached(cfg, s) && s.lock.Nobody? && id in s.storage
    ensures s.storage[id] in s.clients
    ensures var r := s.clients[s.storage[id]];
            !r.phase.Disconnected? && !r.phase.Connecting?
  {
    ReachedGlobal(cfg, s);
    ReachedClient(cfg, s, s.storage[id]);
  }

  /** The test for CONNECTING in the timer sweep is never true. */
  lemma SweepSeesNoConnecting(cfg: Config, s: State)
    requires Reached(cfg, s) && s.loop.LTimer?
    ensures s.loop.c in s.clients
    ensures var r := s.clients[s.loop.c];
            r.phase.Connected? || r.phase.FailConnect? || r.phase.Disconnecting?
  {
    ReachedGlobal(cfg, s);
    ReachedClient(cfg, s, s.loop.c);
  }

  /**
    No session slot leaks: while nobody holds the storage mutex, every stored session is
    CONNECTED, or FAIL_CONNECT (the next sweep closes it), or DISCONNECTING with its close
    requested, being made, called back later, or called back now.
   */
  lemma NoLeakedSlot(cfg: Config, s: State, id: Id)
    requires Reached(cfg, s) && s.lock.Nobody? && id in s.storage
    ensures s.storage[id] in s.clients
    ensures var c := s.storage[id];
            var r := s.clients[c];
            || r.phase.Connected?
            || r.phase.FailConnect?
            || (r.phase.Disconnecting?
                && (Count(Requests(s.reqs, c), DISCONNECT) > 0 || s.loop == LDisconnect(c)
                    || r.handle.closing || s.loop == LClose(c, false)))
  {
    ReachedGlobal(cfg, s);
    ReachedClient(cfg, s, s.storage[id]);
  }

  /** The storage is a map of at most max_clients sessions, and holds exactly the living clients, each under its id. */
  lemma StorageHoldsTheLiving(cfg: Config, s: State)
    requires Reached(cfg, s)
    ensures |s.storage| <= cfg.maxClients
    ensures forall id :: id in s.storage ==> s.storage[id] in s.clients && s.clients[s.storage[id]].id == id
    ensures forall c :: c in s.clients ==> (s.clients[c].alive <==> c in s.storage.Values)
  {
    ReachedGlobal(cfg, s);
    forall c | c in s.clients ensures s.clients[c].alive <==> c in s.storage.Values {
      ReachedClient(cfg, s, c);
    }
  }

  /** When a sweep ends it has visited every stored client, and each is closing or was accessed within the timeout. */
  lemma SweepVisitsAll(cfg: Config, s: State, c: Ref)
    requires Reached(cfg, s) && s.loop.LSweep? && s.loop.todo == {} && c in s.storage.Values
    ensures c in s.clients && c in s.loop.done
    ensures Fresh(s.clients[c], s.loop.done[c])
  {
    ReachedGlobal(cfg, s);
    ReachedClient(cfg, s, c);
  }

  /**
    During a sweep the map does not change, whatever the server thread does, and every stored
    client is at any moment in exactly one of three places: to visit, being visited, visited.
   */
  lemma SweepKeepsMap(cfg: Config, s: State, a: Step)
    requires Reached(cfg, s) && Ready(s, a) && InSweep(s.loop)
    ensures Next(s, a).storage == s.storage
    ensures SweepOnce(s.loop, s.storage.Values)
  {
    ReachedGlobal(cfg, s);
    match a {
      case ServerStep(i) => ServerKeepsMapUnlocked(s, i);
      case LoopStep(i) => LoopKeepsMap(s, i);
      case _ =>
    }
  }

  /** Without the storage mutex the server thread does not touch the map. */
  lemma ServerKeepsMapUnlocked(s: State, i: ServerIn)
    requires ServerReady(s, i) && !ServerHoldsStorage(s.server)
    ensures ServerNext(s, i).storage == s.storage
  {
  }

  /** The loop thread changes the map only to destroy a client. */
  lemma LoopKeepsMap(s: State, i: LoopIn)
    requires LoopReady(s, i) && !s.loop.LClose?
    ensures LoopNext(s, i).storage == s.storage
  {
  }

  // ---------- pointers ----------

  /** A client pointer held by the server thread, also across the condition wait, names a living stored client. */
  lemma ServerPointersLive(cfg: Config, s: State)
    requires Reached(cfg, s) && ServerClient(s.server).Some?
    ensures s.server.c in s.clients && s.clients[s.server.c].alive
    ensures StoredClient(s, s.server.c) && s.lock.Server?
  {
    ReachedGlobal(cfg, s);
    ReachedClient(cfg, s, s.server.c);
  }

  /** A client is destroyed exactly if its handle is closed and the close callback is over. */
  lemma DestroyedExactly(cfg: Config, s: State, c: Ref)
    requires Reached(cfg, s) && c in s.clients
    ensures !s.clients[c].alive <==>
            s.clients[c].handle.closed && !s.clients[c].handle.closing && !(s.loop.LClose? && s.loop.c == c)
  {
    ReachedClient(cfg, s, c);
  }

  /** The loop thread runs a method of a destroyed client. */
  predicate Misuses(s: State, c: Ref) {
    c in s.clients && LoopClient(s.loop) == Some(c) && !s.clients[c].alive
  }

  /** Every callback and `_connect` run on living clients. */
  lemma LoopPointersLive(cfg: Config, s: State, c: Ref)
    requires Reached(cfg, s) && c in s.clients
    ensures Misuses(s, c) ==> s.loop.LDisconnect? || s.loop.LWrite?
    ensures Count(Requests(s.reqs, c), CONNECT) > 0 ==> s.clients[c].alive && !s.clients[c].handle.closed
  {
    ReachedClient(cfg, s, c);
  }

  /**
    Exactly when the loop thread goes for a destroyed client: it takes a request off the queue
    whose client has a closed handle that has called back.
   */
  lemma MisuseStarts(cfg: Config, s: State, a: Step, c: Ref)
    requires Reached(cfg, s) && Ready(s, a)
    ensures !Misuses(s, c) && Misuses(Next(s, a), c) <==>
            && a.LoopStep? && s.loop.LDrain? && s.reqs != [] && s.reqs[0].client == c
            && c in s.clients && s.clients[c].handle.closed && !s.clients[c].handle.closing
  {
    ReachedInv(cfg, s);
    if a.LoopStep? && c in s.clients {
      FetchedForRequests(s, a.li, c);
      DestroyedExactly(cfg, s, c);
      LoopRecord(s, a.li, c);
      MisusedByRequests(cfg, s, a, c);
    } else {
      ClientsStay(s, a);
      LoopLeftAlone(s, a, c);
    }
  }

  /** The server thread does not touch what the loop thread has in hand. */
  lemma LoopLeftAlone(s: State, a: Step, c: Ref)
    requires Inv(s) && Ready(s, a) && (a.LoopStep? ==> c !in s.clients)
    ensures Misuses(Next(s, a), c) ==> Misuses(s, c)
    ensures Misuses(s, c) ==> Misuses(Next(s, a), c)
  {
    ClientsStay(s, a);
    if c !in s.clients {
      assert ServerClient(s.server) != Some(c) && LoopClient(s.loop) != Some(c);
    } else if a.ServerStep? {
      assert Next(s, a).loop == s.loop;
      ServerRecord(s, a.si, c);
    }
  }

  lemma MisusedByRequests(cfg: Config, s: State, a: Step, c: Ref)
    requires Reached(cfg, s) && Ready(s, a)
    ensures Misuses(Next(s, a), c) ==> Next(s, a).loop.LDisconnect? || Next(s, a).loop.LWrite?
  {
    ReachedInv(cfg, s);
    StepKeepsInv(s, a);
    if Misuses(Next(s, a), c) {
      var v := ViewOf(Next(s, a), c);
      assert Life(v);
    }
  }

  /** How the loop thread comes to DISCONNECT and WRITE: off the queue, or from one item to the next. */
  lemma FetchedForRequests(s: State, i: LoopIn, c: Ref)
    requires LoopReady(s, i)
    ensures var pc := LoopNext(s, i).loop;
            && ((pc.LDisconnect? || pc.LWrite?) && pc.c == c ==>
                  (s.loop.LDrain? && s.reqs != [] && s.reqs[0].client == c) || (s.loop.LWrite? && s.loop.c == c))
            && (s.loop.LDrain? && s.reqs != [] ==> LoopClient(pc) == Some(s.reqs[0].client))
            && (pc.LDisconnect? || pc.LWrite? ==> !s.loop.LClose?)
  {
  }

  /** A queued request names a destroyed client. */
  predicate Dangles(s: State, c: Ref) {
    c in s.clients && !s.clients[c].alive && Requests(s.reqs, c) != []
  }

  /** onDisconnect destroys a client while requests for it are queued. */
  predicate DestroysEarly(s: State, a: Step, c: Ref) {
    a.LoopStep? && s.loop == LClose(c, true) && Requests(s.reqs, c) != []
  }

  /** This is exactly how a request comes to name a destroyed client: none is queued for one. */
  lemma DanglingStarts(cfg: Config, s: State, a: Step, c: Ref)
    requires Reached(cfg, s) && Ready(s, a)
    ensures !Dangles(s, c) && Dangles(Next(s, a), c) <==> DestroysEarly(s, a, c)
  {
    ReachedInv(cfg, s);
    ClientsStay(s, a);
    match a {
      case ServerStep(i) => ServerLeavesNoneDangling(s, i, c);
      case LoopStep(i) => if c in s.clients { LoopRequests(s, i, c); LoopRecord(s, i, c); LoopDestroys(s, i, c); }
      case _ =>
    }
  }

  lemma ServerLeavesNoneDangling(s: State, i: ServerIn, c: Ref)
    requires Inv(s) && ServerReady(s, i)
    ensures Dangles(ServerNext(s, i), c) ==> Dangles(s, c)
  {
    if c in s.clients {
      var v := ViewOf(s, c);
      ServerRecord(s, i, c);
      ServerRequests(s, i, c);
      if ServerClient(s.server) == Some(c) {
        ServerStaysOnClient(s.server, s.clients[c], i.clock);
      }
    }
  }

  /** The server thread queues requests only for the client that it works on. */
  lemma ServerRequests(s: State, i: ServerIn, c: Ref)
    requires ServerReady(s, i) && c in s.clients
    ensures ServerClient(s.server) != Some(c) ==> Requests(ServerNext(s, i).reqs, c) == Requests(s.reqs, c)
    ensures Requests(s.reqs, c) <= Requests(ServerNext(s, i).reqs, c)
  {
    if ServerClient(s.server).Some? {
      var e := ServerOnClient(s.server, s.clients[s.server.c], i.clock);
      if e.post.Some? {
        RequestsSnoc(s.reqs, Request(e.post.value, s.server.c), c);
      }
    }
  }

  /** The loop thread takes requests off the queue and adds none. */
  lemma LoopRequests(s: State, i: LoopIn, c: Ref)
    requires LoopReady(s, i)
    ensures var q, q' := Requests(s.reqs, c), Requests(LoopNext(s, i).reqs, c);
            q' == q || (s.loop.LDrain? && q != [] && q' == q[1..])
  {
  }

  lemma LoopDestroys(s: State, i: LoopIn, c: Ref)
    requires Inv(s) && LoopReady(s, i) && c in s.clients
    ensures c in LoopNext(s, i).clients
    ensures LoopNext(s, i).clients[c].alive == (s.clients[c].alive && s.loop != LClose(c, true))
    ensures s.loop == LClose(c, true) ==> s.clients[c].alive && LoopNext(s, i).reqs == s.reqs
  {
    var v := ViewOf(s, c);
    if s.loop == LClose(c, true) {
      assert v.stored && v.r.alive;
    } else if s.loop.LClose? {
      assert StoredClient(s, s.loop.c);
    } else {
      LoopRecord(s, i, c);
      if LoopClient(s.loop) == Some(c) {
        LoopStaysOnClient(s.cfg, s.loop, s.clients[c], i);
      } else if s.loop.LIdle? {
        CallbackRecord(s, i, c);
      }
    }
  }

  /**
    So a run misuses a client only if it destroyed it early: as long as no client is destroyed
    with requests queued for it, the loop thread runs no method of a destroyed client.
   */
  lemma {:induction false} MisuseNeedsEarlyDestroy(cfg: Config, ss: seq<State>, steps: seq<Step>, n: nat, c: Ref)
    requires IsRun(cfg, ss, steps) && n <= |steps|
    requires forall k :: 0 <= k < n ==> !DestroysEarly(ss[k], steps[k], c)
    ensures !Dangles(ss[n], c) && !Misuses(ss[n], c)
  {
    if n > 0 {
      MisuseNeedsEarlyDestroy(cfg, ss, steps, n - 1, c);
      RunSteps(cfg, ss, steps, n - 1);
      var s := ss[n - 1];
      DanglingStarts(cfg, s, steps[n - 1], c);
      MisuseStarts(cfg, s, steps[n - 1], c);
      if s.loop.LDrain? && c in s.clients {
        DestroyedExactly(cfg, s, c);
      }
    }
  }

  /**
    And the other way round: a request of a destroyed client stays queued until the loop takes
    it, and then the loop runs a method of that client.
   */
  lemma DanglingIsMisused(cfg: Config, s: State, a: Step, c: Ref)
    requires Reached(cfg, s) && Ready(s, a) && Dangles(s, c)
    ensures Dangles(Next(s, a), c) || Misuses(Next(s, a), c)
  {
    ReachedInv(cfg, s);
    ClientsStay(s, a);
    match a {
      case ServerStep(i) => DanglingSurvives(s, i, c);
      case LoopStep(i) =>
        LoopRequests(s, i, c);
        LoopDestroys(s, i, c);
        FetchedForRequests(s, i, c);
      case _ =>
    }
  }

  lemma DanglingSurvives(s: State, i: ServerIn, c: Ref)
    requires Inv(s) && ServerReady(s, i) && Dangles(s, c)
    ensures Dangles(ServerNext(s, i), c)
  {
    var v := ViewOf(s, c);
    ServerRecord(s, i, c);
    ServerRequests(s, i, c);
  }

  /** No handle is closed before _connect has opened it, and CONNECT is asked, queued and tried at most once. */
  lemma InitBeforeClose(cfg: Config, s: State, c: Ref)
    requires Reached(cfg, s) && c in s.clients
    ensures var r, q := s.clients[c], Requests(s.reqs, c);
            && (r.log.closes >= 1 || s.loop == LDisconnect(c) ==> r.log.tried)
            && Count(q, CONNECT) + One(s.loop == LConnect(c, false) || s.loop == LConnect(c, true))
                 == One(r.log.asked && !r.log.tried)
  {
    ReachedClient(cfg, s, c);
  }

  // ---------- writes ----------

  /**
    No stranded write: between calls of _write, a client has no more queued items than WRITE
    requests still to come.
   */
  lemma NoStrandedWrite(cfg: Config, s: State, c: Ref)
    requires Reached(cfg, s) && c in s.clients
    requires LoopClient(s.loop) != Some(c) || !s.loop.LWrite?
    ensures |s.clients[c].writeq| <= Count(Requests(s.reqs, c), WRITE)
                                     + One(s.server.SWrite? && s.server.wr.WQueue? && s.server.c == c)
  {
    ReachedClient(cfg, s, c);
  }

  // ---------- waiting ----------

  /** No lost wakeup: a queued request is announced, about to be, or seen by the loop that runs. */
  lemma NoLostWakeup(cfg: Config, s: State)
    requires Reached(cfg, s) && s.reqs != []
    ensures s.pending || SendDue(s.server) || Draining(s.loop)
  {
    ReachedGlobal(cfg, s);
  }

  /** One signal per client, ever, and at most two timed waits of `connect` besides spurious wakeups. */
  lemma WaitsBounded(cfg: Config, s: State, c: Ref)
    requires Reached(cfg, s) && c in s.clients
    ensures s.clients[c].log.signals <= 1
    ensures s.clients[c].log.waits <= 2 + s.clients[c].log.spurious
  {
    ReachedClient(cfg, s, c);
  }
}
