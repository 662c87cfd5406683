/** Deadlock freedom, termination of the handlers, and how long a thread may be blocked. */
module SessionProgress {
  import opened Bytes
  import opened Options
  import opened ClientState
  import opened Session
  import opened SessionInvariant
  import opened SessionSteps
  import opened SessionTheorems

  // ---------- deadlock freedom ----------

  predicate ServerBlocked(s: State) {
    || (s.server.SWantStorage? && !s.lock.Nobody?)
    || (ServerWantsState(s.server) && s.server.c in s.clients && !s.clients[s.server.c].owner.Nobody?)
  }

  predicate LoopBlocked(s: State) {
    || (LoopWantsStorage(s.loop) && !s.lock.Nobody?)
    || (LoopWantsState(s.loop) && s.loop.c in s.clients && !s.clients[s.loop.c].owner.Nobody?)
  }

  ghost function Above(used: set<nat>): (m: nat)
    ensures forall x :: x in used ==> x < m
  {
    if used == {} then 0
    else
      var x :| x in used;
      var m := Above(used - {x});
      assert forall y :: y in used ==> y == x || y in used - {x};
      if m <= x then x + 1 else m
  }

  /** The next step of the server thread; in the timed wait it is the timeout. */
  ghost function ServerMove(s: State): Step {
    if Waiting(s.server) then TimeOut
    else ServerStep(ServerIn(Poll(""), Above(s.clients.Keys), 0))
  }

  /** A next step of the loop thread; between callbacks the timer can always fire. */
  ghost function LoopMove(s: State): Step {
    var pick := if s.loop.LSweep? && s.loop.todo != {} then (var c :| c in s.loop.todo; c) else 0;
    LoopStep(LoopIn(Timer, true, 0, pick))
  }

  /** A thread that is not blocked on a mutex can take a step: no pointer it needs is lost. */
  lemma UnblockedMoves(cfg: Config, s: State)
    requires Reached(cfg, s)
    ensures !ServerBlocked(s) ==> Ready(s, ServerMove(s))
    ensures !LoopBlocked(s) ==> Ready(s, LoopMove(s))
  {
    ReachedGlobal(cfg, s);
    if s.loop.LSweep? && s.loop.todo != {} {
      var c := LoopMove(s).li.pick;
      assert c in s.storage.Values;
    }
  }

  /** The mutex that a thread is blocked on is held by the other thread. */
  lemma ServerBlockedByLoop(cfg: Config, s: State)
    requires Reached(cfg, s) && ServerBlocked(s)
    ensures if s.server.SWantStorage? then LoopHoldsStorage(s.loop)
            else LoopHoldsState(s.loop) && s.loop.c == s.server.c
  {
    ReachedGlobal(cfg, s);
    if ServerWantsState(s.server) {
      OwnersHold(cfg, s, s.server.c);
    }
  }

  lemma LoopBlockedByServer(cfg: Config, s: State)
    requires Reached(cfg, s) && LoopBlocked(s)
    ensures if LoopWantsStorage(s.loop) then ServerHoldsStorage(s.server)
            else ServerHoldsState(s.server) && s.server.c == s.loop.c
  {
    ReachedGlobal(cfg, s);
    if LoopWantsState(s.loop) {
      OwnersHold(cfg, s, s.loop.c);
    }
  }

  /** There is no wait cycle: the two threads are never blocked at the same time. */
  lemma NoDeadlock(cfg: Config, s: State)
    requires Reached(cfg, s)
    ensures !(ServerBlocked(s) && LoopBlocked(s))
  {
    if ServerBlocked(s) && LoopBlocked(s) {
      ServerBlockedByLoop(cfg, s);
      LoopBlockedByServer(cfg, s);
      ReachedGlobal(cfg, s);
    }
  }

  /** A state mutex is owned only by a thread inside the critical section of that client. */
  lemma OwnersHold(cfg: Config, s: State, c: Ref)
    requires Reached(cfg, s) && c in s.clients
    ensures s.clients[c].owner.Server? <==> ServerHoldsState(s.server) && s.server.c == c
    ensures s.clients[c].owner.Loop? <==> LoopHoldsState(s.loop) && s.loop.c == c
  {
    ReachedClient(cfg, s, c);
  }

  /** So no reachable state is stuck: while one thread is blocked, the other one can go on. */
  lemma SomeThreadMoves(cfg: Config, s: State)
    requires Reached(cfg, s)
    ensures ServerBlocked(s) ==> Ready(s, LoopMove(s))
    ensures LoopBlocked(s) ==> Ready(s, ServerMove(s))
    ensures Ready(s, ServerMove(s)) || Ready(s, LoopMove(s))
  {
    NoDeadlock(cfg, s);
    UnblockedMoves(cfg, s);
  }

  /** Mutexes are taken storage first: nobody waits for the storage mutex while owning a state mutex. */
  lemma StorageBeforeState(cfg: Config, s: State, c: Ref)
    requires Reached(cfg, s) && c in s.clients
    ensures s.clients[c].owner.Server? ==> s.lock.Server?
    ensures s.clients[c].owner.Loop? ==> !LoopWantsStorage(s.loop)
  {
    ReachedGlobal(cfg, s);
    OwnersHold(cfg, s, c);
  }

  // ---------- every request is answered ----------

  function PollRounds(acc: Bytes): nat {
    if |acc| < DATA_THRESHOLD then DATA_THRESHOLD - |acc| else 0
  }

  /** How many steps the server thread has before it is idle again, at most; `signalled`: the client was signalled. */
  function ServerRank(pc: ServerPc, signalled: bool): nat {
    match pc
    case SIdle => 0
    case SLeave => 1
    case SWrite(_, wr, _) =>
      (match wr case WSend => 2 case WQueue => 3 case WPut => 4 case WHold => 5 case WWant => 6)
    case SDisconnect(_, dis) =>
      (match dis case DSend => 2 case DQueue => 3 case DHold => 4 case DWant => 5)
    case SConnect(_, con) =>
      (match con
       case CCheck(err) => if err then 6 else if signalled then 9 else 12
       case CWake(err) => if err then 7 else if signalled then 10 else 13
       case CWait => if signalled then 8 else 11
       case CSet => 12 case CSend => 13 case CHold => 14 case CWant => 15)
    case SRead(_, rd, acc) =>
      2 + 4 * PollRounds(acc) + (match rd case RTake => 0 case RTouch => 1 case RHold => 2 case RWant => 3)
    case SHaveStorage(_) => 6 + 4 * DATA_THRESHOLD
    case SWantStorage(_) => 7 + 4 * DATA_THRESHOLD
  }

  const MAX_STEPS: nat := 7 + 4 * DATA_THRESHOLD

  function Rank(s: State): nat {
    var c := ServerClient(s.server);
    ServerRank(s.server, c.Some? && c.value in s.clients && s.clients[c.value].log.signals > 0)
  }

  predicate OfServer(a: Step) {
    a.ServerStep? || a.TimeOut?
  }

  lemma ReadLowersRank(c: Ref, at: ReadAt, acc: Bytes, r: Client, clock: int)
    requires |acc| < DATA_THRESHOLD && (r.readq != [] ==> r.readq[0] != [])
    ensures var e := OnRead(c, at, acc, r, clock);
            e.r.log.signals == r.log.signals &&
            ServerRank(e.pc, r.log.signals > 0) < ServerRank(SRead(c, at, acc), r.log.signals > 0)
  {
  }

  lemma CallLowersRank(pc: ServerPc, r: Client, clock: int)
    requires ServerClient(pc).Some? && !Waiting(pc)
    requires pc.SRead? ==> |pc.acc| < DATA_THRESHOLD && (r.readq != [] ==> r.readq[0] != [])
    ensures var e := ServerOnClient(pc, r, clock);
            e.r.log.signals == r.log.signals &&
            ServerRank(e.pc, r.log.signals > 0) < ServerRank(pc, r.log.signals > 0)
  {
    if pc.SRead? {
      ReadLowersRank(pc.c, pc.rd, pc.acc, r, clock);
    }
  }

  lemma ReadFacts(cfg: Config, s: State)
    requires Reached(cfg, s) && s.server.SRead?
    ensures s.server.c in s.clients && |s.server.acc| < DATA_THRESHOLD
    ensures s.clients[s.server.c].readq != [] ==> s.clients[s.server.c].readq[0] != []
  {
    ReachedGlobal(cfg, s);
    ReachedClient(cfg, s, s.server.c);
    var r := s.clients[s.server.c];
    assert r.readq != [] ==> ChunkOk(r.readq[0], r.rx.biggest);
  }

  /** The server thread only comes closer to its answer, by its own steps and its timeout strictly. */
  lemma ServerLowersRank(cfg: Config, s: State, a: Step)
    requires Reached(cfg, s) && Ready(s, a) && OfServer(a) && !s.server.SIdle?
    ensures Rank(Next(s, a)) < Rank(s)
  {
    if s.server.SRead? {
      ReadFacts(cfg, s);
    }
    if a.ServerStep? && ServerClient(s.server).Some? {
      CallLowersRank(s.server, s.clients[s.server.c], a.si.clock);
      ServerStaysOnClient(s.server, s.clients[s.server.c], a.si.clock);
    }
  }

  /** No client is signalled twice. */
  lemma FirstSignal(cfg: Config, s: State, c: Ref)
    requires Reached(cfg, s) && c in s.clients && LoopClient(s.loop) == Some(c)
    requires s.loop.LConnect? || (s.loop.LComplete? && !s.loop.at.After?)
    ensures s.clients[c].log.signals == 0
  {
    ReachedClient(cfg, s, c);
  }

  /** The loop thread never takes the server thread back: it changes at most a wait into a wakeup. */
  lemma LoopKeepsRank(cfg: Config, s: State, i: LoopIn)
    requires Reached(cfg, s) && LoopReady(s, i)
    ensures Rank(LoopNext(s, i)) <= Rank(s)
  {
    var s' := LoopNext(s, i);
    LoopWakesServer(s, i);
    if s'.server != s.server {
      FirstSignal(cfg, s, s.loop.c);
    } else if ServerClient(s.server).Some? {
      ReachedGlobal(cfg, s);
      LoopSignals(s, i, s.server.c);
    }
  }

  lemma LoopWakesServer(s: State, i: LoopIn)
    requires LoopReady(s, i)
    ensures var s' := LoopNext(s, i);
            s'.server == s.server
            || (Waiting(s.server) && s'.server == SConnect(s.server.c, CWake(false))
                && (s.loop.LConnect? || (s.loop.LComplete? && !s.loop.at.After?))
                && s.loop.c == s.server.c && s.server.c in s.clients
                && s.server.c in s'.clients && s'.clients[s.server.c].log.signals > 0)
  {
  }

  lemma LoopSignals(s: State, i: LoopIn, c: Ref)
    requires LoopReady(s, i) && c in s.clients
    ensures LoopNext(s, i).clients[c].log.signals >= s.clients[c].log.signals
  {
    LoopRecord(s, i, c);
  }

  predicate IsSpurious(a: Step) {
    a.Spurious?
  }

  /** Every step of the server thread lowers the rank; only a spurious wakeup raises it, by two. */
  lemma StepKeepsRank(cfg: Config, s: State, a: Step)
    requires Reached(cfg, s) && Ready(s, a) && !s.server.SIdle?
    ensures Rank(Next(s, a)) + One(OfServer(a)) <= Rank(s) + 2 * One(IsSpurious(a))
  {
    if a.LoopStep? {
      LoopKeepsRank(cfg, s, a.li);
    } else if OfServer(a) {
      ServerLowersRank(cfg, s, a);
    }
  }

  /** How many of the steps are of this kind. */
  function Number(steps: seq<Step>, kind: Step -> bool): nat {
    if steps == [] then 0 else Number(steps[..|steps| - 1], kind) + One(kind(steps[|steps| - 1]))
  }

  /** What one step does to the rank. */
  predicate Pays(before: nat, a: Step, after: nat) {
    after + One(OfServer(a)) <= before + 2 * One(IsSpurious(a))
  }

  /** If every step of a stretch pays for itself, the stretch costs no more than its first rank and its wakeups. */
  lemma {:induction false} StepsArePaid(ranks: seq<nat>, steps: seq<Step>, n: nat, m: nat)
    requires |ranks| == |steps| + 1 && n <= m <= |steps|
    requires forall k {:trigger steps[k]} :: n <= k < m ==> Pays(ranks[k], steps[k], ranks[k + 1])
    ensures Number(steps[n..m], OfServer) + ranks[m] <= ranks[n] + 2 * Number(steps[n..m], IsSpurious)
  {
    if n < m {
      StepsArePaid(ranks, steps, n, m - 1);
      assert steps[n..m][..m - 1 - n] == steps[n..m - 1];
      assert Pays(ranks[m - 1], steps[m - 1], ranks[m - 1 + 1]);
    }
  }

  lemma RunStepPays(cfg: Config, ss: seq<State>, steps: seq<Step>, k: nat)
    requires IsRun(cfg, ss, steps) && k < |steps| && !ss[k].server.SIdle?
    ensures Pays(Rank(ss[k]), steps[k], Rank(ss[k + 1]))
  {
    RunSteps(cfg, ss, steps, k);
    StepKeepsRank(cfg, ss[k], steps[k]);
  }

  function Ranks(ss: seq<State>): (ranks: seq<nat>)
    ensures |ranks| == |ss|
  {
    if ss == [] then [] else [Rank(ss[0])] + Ranks(ss[1..])
  }

  lemma {:induction false} RankAt(ss: seq<State>, k: nat)
    requires k < |ss|
    ensures Ranks(ss)[k] == Rank(ss[k])
  {
    if k > 0 {
      RankAt(ss[1..], k - 1);
    }
  }

  lemma RankBounded(s: State)
    ensures Rank(s) <= MAX_STEPS
  {
  }

  /**
    Every handler terminates: while the server thread works on one request it takes at most
    MAX_STEPS steps and two more for each spurious wakeup, whatever the loop thread does.
   */
  lemma HandlersTerminate(cfg: Config, ss: seq<State>, steps: seq<Step>, n: nat, m: nat)
    requires IsRun(cfg, ss, steps) && n <= m <= |steps|
    requires forall k :: n <= k < m ==> !ss[k].server.SIdle?
    ensures Number(steps[n..m], OfServer) <= MAX_STEPS + 2 * Number(steps[n..m], IsSpurious)
  {
    forall k {:trigger steps[k]} | n <= k < m ensures Pays(Ranks(ss)[k], steps[k], Ranks(ss)[k + 1]) {
      RunStepPays(cfg, ss, steps, k);
      RankAt(ss, k);
      RankAt(ss, k + 1);
    }
    StepsArePaid(Ranks(ss), steps, n, m);
    RankAt(ss, n);
    RankBounded(ss[n]);
  }

  // ---------- and the server thread is not kept waiting ----------

  /** How many steps the loop thread takes at most until it releases the mutex that it owns. */
  function HoldRank(pc: LoopPc): nat {
    match pc
    case LSweep(todo, _) => 3 * |todo| + 1
    case LTimer(_, held, _, _, todo, _) => 3 * |todo| + if held then 2 else 3
    case LClose(_, held) => One(held)
    case _ => One(LoopHoldsState(pc))
  }

  /** While the loop thread owns a mutex, each of its steps brings the release nearer. */
  lemma LoopReleases(s: State, i: LoopIn)
    requires LoopReady(s, i) && (LoopHoldsStorage(s.loop) || LoopHoldsState(s.loop))
    ensures HoldRank(LoopNext(s, i).loop) < HoldRank(s.loop)
  {
    if LoopHoldsState(s.loop) {
      CallReleases(s.cfg, s.loop, s.clients[s.loop.c], i);
    } else if s.loop.LSweep? && s.loop.todo != {} {
      assert s.loop.todo == (s.loop.todo - {i.pick}) + {i.pick};
      assert LoopNext(s, i).loop.todo == s.loop.todo - {i.pick};
    }
  }

  lemma CallReleases(cfg: Config, pc: LoopPc, r: Client, i: LoopIn)
    requires LoopHoldsState(pc)
    ensures HoldRank(LoopOnClient(cfg, pc, r, i).pc) < HoldRank(pc)
  {
  }

  lemma {:induction false} FewValues(m: map<Id, Ref>)
    ensures |m.Values| <= |m|
    decreases |m|
  {
    if m != map[] {
      var id :| id in m;
      var rest := m - {id};
      assert m.Keys == rest.Keys + {id} && |m| == |m.Keys| && |rest| == |rest.Keys|;
      FewValues(rest);
      assert m.Values <= rest.Values + {m[id]};
      Fewer(m.Values, rest.Values + {m[id]});
    }
  }

  lemma {:induction false} Fewer(a: set<Ref>, b: set<Ref>)
    requires a <= b
    ensures |a| <= |b|
  {
    if a != {} {
      var c :| c in a;
      Fewer(a - {c}, b - {c});
    }
  }

  lemma HoldBounded(cfg: Config, s: State)
    requires Reached(cfg, s)
    ensures HoldRank(s.loop) <= 3 * cfg.maxClients + 1
  {
    ReachedGlobal(cfg, s);
    FewValues(s.storage);
    if InSweep(s.loop) {
      SweepBounded(s.loop, s.storage.Values);
    }
  }

  lemma SweepBounded(pc: LoopPc, all: set<Ref>)
    requires InSweep(pc) && SweepOnce(pc, all)
    ensures HoldRank(pc) <= 3 * |all| + 1
  {
    var left := SweepTodo(pc) + Current(pc);
    Fewer(left, all);
    if pc.LTimer? {
      assert left - {pc.c} == pc.todo;
    } else {
      assert left == pc.todo;
    }
  }

  /** A blocked server thread waits for steps of the loop thread only. */
  lemma BlockedStep(cfg: Config, s: State, a: Step)
    requires Reached(cfg, s) && Ready(s, a) && ServerBlocked(s)
    ensures a.LoopStep? && HoldRank(Next(s, a).loop) < HoldRank(s.loop)
  {
    ServerBlockedByLoop(cfg, s);
    if a.LoopStep? {
      LoopReleases(s, a.li);
    }
  }

  /**
    In no run is the server thread blocked for more than three steps a session and one, all of
    them taken by the loop thread: then the mutex is free.
   */
  lemma {:induction false} BlockedBriefly(cfg: Config, ss: seq<State>, steps: seq<Step>, n: nat, m: nat)
    requires IsRun(cfg, ss, steps) && n <= m <= |steps|
    requires forall k :: n <= k < m ==> ServerBlocked(ss[k])
    ensures m - n + HoldRank(ss[m].loop) <= 3 * cfg.maxClients + 1
    decreases m - n
  {
    if n == m {
      RunReaches(cfg, ss, steps, n);
      HoldBounded(cfg, ss[n]);
    } else {
      BlockedBriefly(cfg, ss, steps, n, m - 1);
      RunSteps(cfg, ss, steps, m - 1);
      BlockedStep(cfg, ss[m - 1], steps[m - 1]);
    }
  }
}
