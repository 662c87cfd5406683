/** Every step of the session machine keeps its invariant. */
module SessionSteps {
  import opened Bytes
  import opened Options
  import opened ClientState
  import opened Session
  import opened SessionInvariant

  // ---------- requests ----------

  lemma {:induction false} RequestsSnoc(reqs: seq<Request<Ref>>, x: Request<Ref>, c: Ref)
    ensures Requests(reqs + [x], c) == Requests(reqs, c) + if x.client == c then [x.kind] else []
  {
    var last := if x.client == c then [x.kind] else [];
    if reqs == [] {
      assert [] + [x] == [x];
      assert [x][1..] == [];
      assert Requests([x], c) == last + [];
    } else {
      var first := if reqs[0].client == c then [reqs[0].kind] else [];
      assert (reqs + [x])[1..] == reqs[1..] + [x];
      RequestsSnoc(reqs[1..], x, c);
      Assoc(first, Requests(reqs[1..], c), last);
    }
  }

  lemma Assoc(a: seq<Kind>, b: seq<Kind>, c: seq<Kind>)
    ensures a + (b + c) == (a + b) + c
  {
  }

  lemma {:induction false} NoRequests(reqs: seq<Request<Ref>>, c: Ref)
    requires forall i :: 0 <= i < |reqs| ==> reqs[i].client != c
    ensures Requests(reqs, c) == []
  {
    if reqs != [] {
      NoRequests(reqs[1..], c);
    }
  }

  // ---------- what a call on a client leaves alone ----------

  /** A call changes neither the id nor the fate of the client, and goes on with it or leaves. */
  lemma ServerStaysOnClient(pc: ServerPc, r: Client, clock: int)
    requires ServerClient(pc).Some? && !Waiting(pc)
    ensures var e := ServerOnClient(pc, r, clock);
            && e.r.id == r.id && e.r.alive == r.alive
            && (e.pc.SLeave? || ServerClient(e.pc) == ServerClient(pc))
            && (e.post.Some? ==> SendDue(e.pc))
            && (SendDue(pc) ==> e.send)
            && e.r.log.gone == (r.log.gone || (pc.SRead? && pc.rd.RHold? && e.pc.SLeave?))
  {
  }

  /** The same of the loop thread: where it goes, and what it keeps. */
  ghost predicate StaysOn(pc: LoopPc, r: Client, e: LoopEffect) {
    && e.r.id == r.id && e.r.alive == r.alive && e.r.log.gone == r.log.gone
    && (LoopClient(e.pc).Some? ==> LoopClient(e.pc) == LoopClient(pc))
    && (pc.LTimer? ==> !e.signal && (e.pc == LTimer(pc.c, true, pc.now, pc.past, pc.todo, pc.done)
                                     || e.pc == LSweep(pc.todo, pc.done[pc.c := pc.now])))
    && (!pc.LTimer? ==> !InSweep(e.pc) && !LoopHoldsStorage(e.pc) && !e.pc.LClose?)
    && (Draining(pc) <==> Draining(e.pc))
  }

  lemma CompleteStays(c: Ref, at: Stage, ok: bool, r: Client, clock: int)
    ensures StaysOn(LComplete(c, at, ok), r, OnComplete(c, at, ok, r, clock))
  {
  }

  lemma IncomingStays(c: Ref, at: Stage, chunk: Option<Bytes>, r: Client)
    ensures StaysOn(LRead(c, at, chunk), r, OnIncoming(c, at, chunk, r))
  {
  }

  lemma LoopStaysOnClient(cfg: Config, pc: LoopPc, r: Client, i: LoopIn)
    requires LoopClient(pc).Some? && !pc.LClose?
    ensures StaysOn(pc, r, LoopOnClient(cfg, pc, r, i))
  {
    match pc {
      case LComplete(c, at, ok) => CompleteStays(c, at, ok, r, i.clock);
      case LRead(c, at, chunk) => IncomingStays(c, at, chunk, r);
      case _ =>
    }
  }

  /** What one step of a thread does to the state and the counters of one client. */
  lemma ServerRecord(s: State, i: ServerIn, c: Ref)
    requires ServerReady(s, i) && c in s.clients
    ensures var r' := ServerNext(s, i).clients[c];
            r' == if ServerClient(s.server) == Some(c) then ServerOnClient(s.server, s.clients[c], i.clock).r
                  else s.clients[c]
  {
  }

  lemma LoopRecord(s: State, i: LoopIn, c: Ref)
    requires LoopReady(s, i) && c in s.clients
    ensures var r, r' := s.clients[c], LoopNext(s, i).clients[c];
            if LoopClient(s.loop) == Some(c) && !s.loop.LClose? then r' == LoopOnClient(s.cfg, s.loop, r, i).r
            else r' == r.(handle := r'.handle, alive := if s.loop.LClose? then r'.alive else r.alive,
                          rx := if s.loop.LIdle? then r'.rx else r.rx)
  {
    if s.loop.LIdle? {
      CallbackRecord(s, i, c);
    } else if s.loop.LClose? {
      CloseRecord(s, i, c);
    }
  }

  lemma CallbackRecord(s: State, i: LoopIn, c: Ref)
    requires LoopReady(s, i) && s.loop.LIdle? && c in s.clients
    ensures var r, r' := s.clients[c], LoopNext(s, i).clients[c];
            r' == r.(handle := r'.handle, rx := r'.rx)
  {
    match i.event {
      case Async => assert LoopNext(s, i).clients == s.clients;
      case Timer => assert LoopNext(s, i).clients == s.clients;
      case _ =>
    }
  }

  lemma CloseRecord(s: State, i: LoopIn, c: Ref)
    requires LoopReady(s, i) && s.loop.LClose? && c in s.clients
    ensures var r, r' := s.clients[c], LoopNext(s, i).clients[c];
            r' == r.(alive := r'.alive)
  {
  }

  // ---------- the global part ----------

  lemma ServerCallKeepsGlobal(s: State, i: ServerIn)
    requires GlobalInv(s) && ServerReady(s, i) && ServerClient(s.server).Some?
    ensures GlobalInv(ServerNext(s, i))
  {
    ServerStaysOnClient(s.server, s.clients[s.server.c], i.clock);
  }

  lemma RefusedKeepsGlobal(s: State, i: ServerIn)
    requires GlobalInv(s) && ServerReady(s, i) && s.server.SHaveStorage? && s.server.cmd.Create?
    requires ServerNext(s, i).server.SLeave?
    ensures GlobalInv(ServerNext(s, i))
  {
    assert ServerNext(s, i) == s.(server := SLeave);
  }

  lemma CreateKeepsGlobal(s: State, i: ServerIn)
    requires GlobalInv(s) && ServerReady(s, i) && s.server.SHaveStorage? && s.server.cmd.Create?
    requires !ServerNext(s, i).server.SLeave?
    ensures GlobalInv(ServerNext(s, i))
  {
    AddedOne(s.storage, s.server.cmd.id, i.ref);
    assert ServerNext(s, i) == s.(clients := s.clients[i.ref := Created(s.server.cmd.id, s.cfg.timeout, i.clock)],
                                  storage := s.storage[s.server.cmd.id := i.ref],
                                  gone := s.gone - {s.server.cmd.id},
                                  server := SConnect(i.ref, CWant));
  }

  lemma AddedOne(m: map<Id, Ref>, id: Id, c: Ref)
    ensures |m[id := c]| <= |m| + 1
  {
    assert m[id := c].Keys == m.Keys + {id};
    assert |m[id := c]| == |m[id := c].Keys| && |m| == |m.Keys|;
  }

  lemma PollKeepsGlobal(s: State, i: ServerIn)
    requires GlobalInv(s) && ServerReady(s, i) && s.server.SHaveStorage? && s.server.cmd.Poll?
    ensures GlobalInv(ServerNext(s, i))
  {
    var s' := ServerNext(s, i);
    assert s' == s.(server := s'.server, gone := s'.gone);
  }

  lemma DropKeepsGlobal(s: State, i: ServerIn)
    requires GlobalInv(s) && ServerReady(s, i) && s.server.SHaveStorage? && s.server.cmd.Drop?
    ensures GlobalInv(ServerNext(s, i))
  {
    assert ServerNext(s, i) == s.(server := ServerNext(s, i).server);
  }

  lemma PostKeepsGlobal(s: State, i: ServerIn)
    requires GlobalInv(s) && ServerReady(s, i) && s.server.SHaveStorage? && s.server.cmd.Post?
    ensures GlobalInv(ServerNext(s, i))
  {
    assert ServerNext(s, i) == s.(server := ServerNext(s, i).server);
  }

  lemma LockKeepsGlobal(s: State, i: ServerIn)
    requires GlobalInv(s) && ServerReady(s, i) && (s.server.SIdle? || s.server.SWantStorage? || s.server.SLeave?)
    ensures GlobalInv(ServerNext(s, i))
  {
  }

  /** A visit changes one client, and the rest of the invariant stays. */
  lemma VisitKeepsGlobal(s: State, i: LoopIn)
    requires GlobalInv(s) && LoopReady(s, i) && s.loop.LTimer?
    ensures GlobalInv(LoopNext(s, i))
  {
    var s', pc := LoopNext(s, i), s.loop;
    VisitGoesOn(s, i);
    assert SweepOnce(s'.loop, s.storage.Values) by {
      VisitedOnce(pc, s'.loop, s.storage.Values);
    }
  }

  lemma VisitGoesOn(s: State, i: LoopIn)
    requires LoopReady(s, i) && s.loop.LTimer?
    ensures var s', pc := LoopNext(s, i), s.loop;
            && s' == s.(clients := s.clients[pc.c := s'.clients[pc.c]], loop := s'.loop)
            && s'.clients[pc.c].id == s.clients[pc.c].id && s'.clients[pc.c].log.gone == s.clients[pc.c].log.gone
            && (s'.loop == LTimer(pc.c, true, pc.now, pc.past, pc.todo, pc.done)
                || s'.loop == LSweep(pc.todo, pc.done[pc.c := pc.now]))
  {
  }

  lemma LoopCallKeepsGlobal(s: State, i: LoopIn)
    requires GlobalInv(s) && LoopReady(s, i) && LoopClient(s.loop).Some? && !s.loop.LClose? && !s.loop.LTimer?
    ensures GlobalInv(LoopNext(s, i))
  {
    LoopStaysOnClient(s.cfg, s.loop, s.clients[s.loop.c], i);
  }

  lemma VisitedOnce(pc: LoopPc, pc': LoopPc, all: set<Ref>)
    requires pc.LTimer? && SweepOnce(pc, all)
    requires pc' == LTimer(pc.c, true, pc.now, pc.past, pc.todo, pc.done)
             || pc' == LSweep(pc.todo, pc.done[pc.c := pc.now])
    ensures SweepOnce(pc', all)
  {
    assert pc.done[pc.c := pc.now].Keys == pc.done.Keys + {pc.c};
  }

  lemma PickedOnce(todo: set<Ref>, done: map<Ref, int>, c: Ref, now: int, past: int, all: set<Ref>)
    requires SweepOnce(LSweep(todo, done), all) && c in todo
    ensures SweepOnce(LTimer(c, false, now, past, todo - {c}, done), all)
  {
  }

  lemma DrainEndKeepsGlobal(s: State, i: LoopIn)
    requires GlobalInv(s) && LoopReady(s, i) && s.loop.LDrain? && s.reqs == []
    ensures GlobalInv(LoopNext(s, i))
  {
  }

  lemma DequeueKeepsGlobal(s: State, i: LoopIn)
    requires GlobalInv(s) && LoopReady(s, i) && s.loop.LDrain? && s.reqs != []
    ensures GlobalInv(LoopNext(s, i))
  {
    var s' := LoopNext(s, i);
    assert s' == s.(reqs := s.reqs[1..], loop := Handler(s.reqs[0]));
    assert Draining(s'.loop) && LoopClient(s'.loop) == Some(s.reqs[0].client);
  }

  lemma SweepStartsOnce(all: set<Ref>)
    ensures SweepOnce(LSweep(all, map[]), all)
  {
  }

  lemma SweepStartKeepsGlobal(s: State, i: LoopIn)
    requires GlobalInv(s) && LoopReady(s, i) && s.loop.LTimerWant?
    ensures GlobalInv(LoopNext(s, i))
  {
    SweepStartsOnce(s.storage.Values);
  }

  lemma SweepPickKeepsGlobal(s: State, i: LoopIn)
    requires GlobalInv(s) && LoopReady(s, i) && s.loop.LSweep? && s.loop.todo != {}
    ensures GlobalInv(LoopNext(s, i))
  {
    PickedOnce(s.loop.todo, s.loop.done, i.pick, i.clock, LoopNext(s, i).loop.past, s.storage.Values);
  }

  lemma SweepEndKeepsGlobal(s: State, i: LoopIn)
    requires GlobalInv(s) && LoopReady(s, i) && s.loop.LSweep? && s.loop.todo == {}
    ensures GlobalInv(LoopNext(s, i))
  {
    assert LoopNext(s, i) == s.(lock := Nobody, loop := LIdle);
  }

  lemma AnnouncedKeepsGlobal(s: State, i: LoopIn)
    requires GlobalInv(s) && LoopReady(s, i) && s.loop.LIdle?
    requires i.event.Async? || i.event.Timer?
    ensures GlobalInv(LoopNext(s, i))
  {
    var s' := LoopNext(s, i);
    assert s' == s.(pending := s'.pending, loop := s'.loop);
  }

  lemma IncomingKeepsGlobal(s: State, i: LoopIn)
    requires GlobalInv(s) && LoopReady(s, i) && s.loop.LIdle? && i.event.Incoming?
    ensures GlobalInv(LoopNext(s, i))
  {
    var c, s' := i.event.c, LoopNext(s, i);
    assert s' == s.(clients := s.clients[c := Heard(s.clients[c], i.event.chunk)], loop := s'.loop);
  }

  lemma ConnectDoneKeepsGlobal(s: State, i: LoopIn)
    requires GlobalInv(s) && LoopReady(s, i) && s.loop.LIdle? && i.event.ConnectDone?
    ensures GlobalInv(LoopNext(s, i))
  {
  }

  lemma CloseDoneKeepsGlobal(s: State, i: LoopIn)
    requires GlobalInv(s) && LoopReady(s, i) && s.loop.LIdle? && i.event.CloseDone? && StoredClient(s, i.event.c)
    ensures GlobalInv(LoopNext(s, i))
  {
  }

  lemma CallbackKeepsGlobal(s: State, i: LoopIn)
    requires GlobalInv(s) && LoopReady(s, i) && s.loop.LIdle?
    requires i.event.CloseDone? ==> StoredClient(s, i.event.c)
    ensures GlobalInv(LoopNext(s, i))
  {
    match i.event {
      case ConnectDone(_, _) => ConnectDoneKeepsGlobal(s, i);
      case CloseDone(_) => CloseDoneKeepsGlobal(s, i);
      case Incoming(_, _) => IncomingKeepsGlobal(s, i);
      case _ => AnnouncedKeepsGlobal(s, i);
    }
  }

  lemma CloseKeepsGlobal(s: State, i: LoopIn)
    requires GlobalInv(s) && LoopReady(s, i) && s.loop.LClose?
    ensures GlobalInv(LoopNext(s, i))
  {
    var s', id := LoopNext(s, i), s.clients[s.loop.c].id;
    if s.loop.held {
      assert s'.storage.Keys == s.storage.Keys - {id};
      assert |s'.storage| == |s'.storage.Keys| && |s.storage| == |s.storage.Keys|;
    }
  }

  lemma WakeKeepsGlobal(s: State, a: Step)
    requires GlobalInv(s) && Ready(s, a) && (a.TimeOut? || a.Spurious?)
    ensures GlobalInv(Next(s, a))
  {
  }

  // ---------- the view of one client ----------

  lemma ServerCallKeepsClient(s: State, i: ServerIn, c: Ref)
    requires GlobalInv(s) && ServerReady(s, i) && ServerClient(s.server).Some?
    requires c in s.clients && ClientInv(s.cfg, ViewOf(s, c))
    ensures ClientInv(s.cfg, ViewOf(ServerNext(s, i), c))
  {
    var s', pc, v := ServerNext(s, i), s.server, ViewOf(s, c);
    assert ViewOf(s', c) == if c == pc.c then ServerView(v, c, ServerOnClient(pc, s.clients[c], i.clock)) else v by {
      ServerCallViews(s, i, c);
    }
    if c == pc.c {
      ServerKeepsClient(s.cfg, v, c, i.clock);
    }
  }

  lemma ServerCallViews(s: State, i: ServerIn, c: Ref)
    requires ServerReady(s, i) && ServerClient(s.server).Some? && c in s.clients
    ensures ViewOf(ServerNext(s, i), c)
         == if c == s.server.c then ServerView(ViewOf(s, c), c, ServerOnClient(s.server, s.clients[c], i.clock))
            else ViewOf(s, c)
  {
    var e := ServerOnClient(s.server, s.clients[s.server.c], i.clock);
    if e.post.Some? {
      RequestsSnoc(s.reqs, Request(e.post.value, s.server.c), c);
    }
    ServerStaysOnClient(s.server, s.clients[s.server.c], i.clock);
  }

  lemma CreateViews(s: State, i: ServerIn, c: Ref)
    requires GlobalInv(s) && ServerReady(s, i) && s.server.SHaveStorage? && s.server.cmd.Create?
    requires c in ServerNext(s, i).clients
    ensures ViewOf(ServerNext(s, i), c)
         == if c in s.clients then ViewOf(s, c)
            else View(Created(s.server.cmd.id, s.cfg.timeout, i.clock), [], SConnect(c, CWant), LIdle, true, None)
  {
    if c !in s.clients {
      NoRequests(s.reqs, c);
    }
  }

  lemma CreateKeepsClient(s: State, i: ServerIn, c: Ref)
    requires GlobalInv(s) && ServerReady(s, i) && s.server.SHaveStorage? && s.server.cmd.Create?
    requires c in ServerNext(s, i).clients && (c in s.clients ==> ClientInv(s.cfg, ViewOf(s, c)))
    ensures ClientInv(s.cfg, ViewOf(ServerNext(s, i), c))
  {
    CreateViews(s, i, c);
    CreatedInv(s.cfg, s.server.cmd.id, s.cfg.timeout, i.clock, c);
  }

  lemma LookupViews(s: State, i: ServerIn, c: Ref)
    requires ServerReady(s, i) && c in s.clients
    requires s.server.SHaveStorage? && !s.server.cmd.Create?
    ensures var s' := ServerNext(s, i);
            && ViewOf(s', c) == ViewOf(s, c).(sp := ServerAt(s'.server, c))
            && (ServerClient(s'.server) == Some(c) ==>
                  && s.server.cmd.id in s.storage && s.storage[s.server.cmd.id] == c
                  && (s'.server == SDisconnect(c, DWant) || s'.server == SRead(c, RWant, [])
                      || (s'.server.SWrite? && s'.server.wr.WWant?)))
  {
  }

  lemma LookupKeepsOne(s: State, i: ServerIn, c: Ref)
    requires GlobalInv(s) && ServerReady(s, i) && s.server.SHaveStorage? && !s.server.cmd.Create?
    requires c in s.clients && ClientInv(s.cfg, ViewOf(s, c))
    ensures ClientInv(s.cfg, ViewOf(ServerNext(s, i), c))
  {
    LookupViews(s, i, c);
    if ServerClient(ServerNext(s, i).server) == Some(c) {
      LookupKeepsClient(s.cfg, ViewOf(s, c), c, ServerNext(s, i).server);
    }
  }

  lemma LockViews(s: State, i: ServerIn, c: Ref)
    requires ServerReady(s, i) && c in s.clients
    requires s.server.SIdle? || s.server.SWantStorage? || s.server.SLeave?
    ensures ViewOf(ServerNext(s, i), c) == ViewOf(s, c)
  {
  }

  lemma LoopCallKeepsClient(s: State, i: LoopIn, c: Ref)
    requires GlobalInv(s) && LoopReady(s, i) && LoopClient(s.loop).Some? && !s.loop.LClose?
    requires c in s.clients && ClientInv(s.cfg, ViewOf(s, c))
    ensures ClientInv(s.cfg, ViewOf(LoopNext(s, i), c))
  {
    var s', pc, v := LoopNext(s, i), s.loop, ViewOf(s, c);
    assert ViewOf(s', c) == if c == pc.c then LoopView(v, c, LoopOnClient(s.cfg, pc, s.clients[c], i)) else v by {
      LoopCallViews(s, i, c);
    }
    if c == pc.c {
      LoopKeepsClient(s.cfg, v, c, i);
    }
  }

  lemma LoopCallViews(s: State, i: LoopIn, c: Ref)
    requires LoopReady(s, i) && LoopClient(s.loop).Some? && !s.loop.LClose? && c in s.clients
    ensures ViewOf(LoopNext(s, i), c)
         == if c == s.loop.c then LoopView(ViewOf(s, c), c, LoopOnClient(s.cfg, s.loop, s.clients[c], i))
            else ViewOf(s, c)
  {
    LoopStaysOnClient(s.cfg, s.loop, s.clients[s.loop.c], i);
  }

  lemma CallbackViews(s: State, i: LoopIn, c: Ref)
    requires LoopReady(s, i) && s.loop.LIdle? && c in s.clients
    ensures var s', v := LoopNext(s, i), ViewOf(s, c);
            match i.event
            case ConnectDone(d, ok) =>
              ViewOf(s', c)
              == if c != d then v
                 else v.(r := v.r.(handle := v.r.handle.(inflight := false)), lp := LComplete(c, Want, ok))
            case Incoming(d, chunk) =>
              ViewOf(s', c) == if c != d then v else v.(r := Heard(v.r, chunk), lp := LRead(c, Want, chunk))
            case CloseDone(d) =>
              ViewOf(s', c) == if c != d then v
                               else v.(r := v.r.(handle := v.r.handle.(closing := false)), lp := LClose(c, false))
            case _ => ViewOf(s', c) == v
  {
  }

  lemma CallbackKeepsClient(s: State, i: LoopIn, c: Ref)
    requires LoopReady(s, i) && s.loop.LIdle?
    requires c in s.clients && ClientInv(s.cfg, ViewOf(s, c))
    ensures ClientInv(s.cfg, ViewOf(LoopNext(s, i), c))
  {
    var v := ViewOf(s, c);
    CallbackViews(s, i, c);
    match i.event {
      case ConnectDone(d, ok) => if c == d { ConnectDoneKeepsClient(s.cfg, v, c, ok); }
      case Incoming(d, chunk) => if c == d { IncomingKeepsClient(s.cfg, v, c, chunk); }
      case CloseDone(d) => if c == d { CloseDoneKeepsClient(s.cfg, v, c); }
      case _ =>
    }
  }

  lemma DequeueViews(s: State, i: LoopIn, c: Ref)
    requires LoopReady(s, i) && s.loop.LDrain? && c in s.clients
    ensures var s', v := LoopNext(s, i), ViewOf(s, c);
            ViewOf(s', c) == if s.reqs != [] && s.reqs[0].client == c
                             then v.(q := v.q[1..], lp := Handler(Request(v.q[0], c))) else v
  {
  }

  lemma DequeueKeepsOne(s: State, i: LoopIn, c: Ref)
    requires LoopReady(s, i) && s.loop.LDrain?
    requires c in s.clients && ClientInv(s.cfg, ViewOf(s, c))
    ensures ClientInv(s.cfg, ViewOf(LoopNext(s, i), c))
  {
    DequeueViews(s, i, c);
    if s.reqs != [] && s.reqs[0].client == c {
      DequeueKeepsClient(s.cfg, ViewOf(s, c), c);
    }
  }

  /** A client that a sweep picks is stored, not yet visited, and out of the hands of the server thread. */
  lemma PickFacts(s: State, i: LoopIn)
    requires GlobalInv(s) && LoopReady(s, i) && s.loop.LSweep? && s.loop.todo != {}
    ensures i.pick in s.clients && i.pick in s.storage.Values && StoredClient(s, i.pick)
    ensures i.pick !in s.loop.done && ServerClient(s.server).None?
  {
    assert i.pick in s.storage.Values;
  }

  lemma PickViews(s: State, i: LoopIn, c: Ref)
    requires LoopReady(s, i) && s.loop.LSweep? && s.loop.todo != {} && c == i.pick
    requires c !in s.loop.done
    ensures var past := i.clock - s.clients[c].lastAccess;
            ViewOf(LoopNext(s, i), c)
            == ViewOf(s, c).(lp := LTimer(c, false, i.clock, past, s.loop.todo - {c}, s.loop.done))
  {
  }

  lemma SweepViews(s: State, i: LoopIn, c: Ref)
    requires LoopReady(s, i) && (s.loop.LTimerWant? || s.loop.LSweep?) && c in s.clients
    requires !(s.loop.LSweep? && s.loop.todo != {} && c == i.pick)
    ensures ViewOf(LoopNext(s, i), c)
         == if LoopNext(s, i).loop.LIdle? then ViewOf(s, c).(reading := None) else ViewOf(s, c)
  {
  }

  lemma PickKeepsClient(s: State, i: LoopIn, c: Ref)
    requires LoopReady(s, i) && s.loop.LSweep? && s.loop.todo != {} && c == i.pick
    requires c !in s.loop.done && StoredClient(s, c) && ServerClient(s.server).None?
    requires ClientInv(s.cfg, ViewOf(s, c))
    ensures ClientInv(s.cfg, ViewOf(LoopNext(s, i), c))
  {
    PickViews(s, i, c);
    VisitStartsKeepsClient(s.cfg, ViewOf(s, c), c, i.clock, s.loop.todo - {c}, s.loop.done);
  }

  lemma SweepKeepsClient(s: State, i: LoopIn, c: Ref)
    requires GlobalInv(s) && LoopReady(s, i) && (s.loop.LTimerWant? || s.loop.LSweep?)
    requires c in s.clients && ClientInv(s.cfg, ViewOf(s, c))
    ensures ClientInv(s.cfg, ViewOf(LoopNext(s, i), c))
  {
    if s.loop.LSweep? && s.loop.todo != {} && c == i.pick {
      PickFacts(s, i);
      PickKeepsClient(s, i, c);
    } else {
      SweepViews(s, i, c);
      SweepEndsKeepsClient(s.cfg, ViewOf(s, c));
    }
  }

  lemma CloseKeepsClient(s: State, i: LoopIn, c: Ref)
    requires GlobalInv(s) && LoopReady(s, i) && s.loop.LClose?
    requires c in s.clients && ClientInv(s.cfg, ViewOf(s, c))
    ensures ClientInv(s.cfg, ViewOf(LoopNext(s, i), c))
  {
    var s', v := LoopNext(s, i), ViewOf(s, c);
    if c != s.loop.c {
      assert ViewOf(s', c) == v;
    } else if s.loop.held {
      DestroyKeepsClient(s.cfg, v);
      assert ViewOf(s', c) == v.(r := v.r.(alive := false), lp := LIdle, stored := false, reading := None);
    } else {
      CloseLockedKeepsClient(s.cfg, v, c);
      assert ViewOf(s', c) == v.(lp := LClose(c, true));
    }
  }

  lemma WakeViews(s: State, a: Step, c: Ref)
    requires Ready(s, a) && (a.TimeOut? || a.Spurious?) && c in s.clients
    ensures var v := ViewOf(s, c);
            ViewOf(Next(s, a), c) == if c == s.server.c then WokenView(v, c, a.Spurious?) else v
  {
  }

  lemma WakeKeepsOne(s: State, a: Step, c: Ref)
    requires Ready(s, a) && (a.TimeOut? || a.Spurious?)
    requires c in s.clients && ClientInv(s.cfg, ViewOf(s, c))
    ensures ClientInv(s.cfg, ViewOf(Next(s, a), c))
  {
    WakeViews(s, a, c);
    if c == s.server.c {
      WakeKeepsClient(s.cfg, ViewOf(s, c), c, a.Spurious?);
    }
  }

  // ---------- all steps, all runs ----------

  lemma ServerKeepsGlobal(s: State, i: ServerIn)
    requires GlobalInv(s) && ServerReady(s, i)
    ensures GlobalInv(ServerNext(s, i))
  {
    if ServerClient(s.server).Some? {
      ServerCallKeepsGlobal(s, i);
    } else if !s.server.SHaveStorage? {
      LockKeepsGlobal(s, i);
    } else if s.server.cmd.Create? {
      if ServerNext(s, i).server.SLeave? { RefusedKeepsGlobal(s, i); } else { CreateKeepsGlobal(s, i); }
    } else if s.server.cmd.Poll? {
      PollKeepsGlobal(s, i);
    } else if s.server.cmd.Drop? {
      DropKeepsGlobal(s, i);
    } else {
      PostKeepsGlobal(s, i);
    }
  }

  lemma ServerKeepsOne(s: State, i: ServerIn, c: Ref)
    requires GlobalInv(s) && ServerReady(s, i)
    requires c in ServerNext(s, i).clients && (c in s.clients ==> ClientInv(s.cfg, ViewOf(s, c)))
    ensures ClientInv(s.cfg, ViewOf(ServerNext(s, i), c))
  {
    if ServerClient(s.server).Some? {
      ServerCallKeepsClient(s, i, c);
    } else if !s.server.SHaveStorage? {
      LockViews(s, i, c);
    } else if s.server.cmd.Create? {
      CreateKeepsClient(s, i, c);
    } else {
      LookupKeepsOne(s, i, c);
    }
  }

  lemma LoopKeepsGlobal(s: State, i: LoopIn)
    requires GlobalInv(s) && LoopReady(s, i)
    requires s.loop.LIdle? && i.event.CloseDone? ==> StoredClient(s, i.event.c)
    ensures GlobalInv(LoopNext(s, i))
  {
    if s.loop.LIdle? {
      CallbackKeepsGlobal(s, i);
    } else if s.loop.LDrain? {
      if s.reqs == [] { DrainEndKeepsGlobal(s, i); } else { DequeueKeepsGlobal(s, i); }
    } else if s.loop.LTimerWant? {
      SweepStartKeepsGlobal(s, i);
    } else if s.loop.LSweep? {
      if s.loop.todo != {} { SweepPickKeepsGlobal(s, i); } else { SweepEndKeepsGlobal(s, i); }
    } else if s.loop.LClose? {
      CloseKeepsGlobal(s, i);
    } else if s.loop.LTimer? {
      VisitKeepsGlobal(s, i);
    } else {
      LoopCallKeepsGlobal(s, i);
    }
  }

  lemma LoopKeepsOne(s: State, i: LoopIn, c: Ref)
    requires GlobalInv(s) && LoopReady(s, i)
    requires c in s.clients && ClientInv(s.cfg, ViewOf(s, c))
    ensures ClientInv(s.cfg, ViewOf(LoopNext(s, i), c))
  {
    if s.loop.LIdle? {
      CallbackKeepsClient(s, i, c);
    } else if s.loop.LDrain? {
      DequeueKeepsOne(s, i, c);
    } else if s.loop.LTimerWant? || s.loop.LSweep? {
      SweepKeepsClient(s, i, c);
    } else if s.loop.LClose? {
      CloseKeepsClient(s, i, c);
    } else {
      LoopCallKeepsClient(s, i, c);
    }
  }

  lemma KeepsGlobal(s: State, a: Step)
    requires Inv(s) && Ready(s, a)
    ensures GlobalInv(Next(s, a))
  {
    match a {
      case ServerStep(i) => ServerKeepsGlobal(s, i);
      case LoopStep(i) =>
        if s.loop.LIdle? && i.event.CloseDone? {
          var v := ViewOf(s, i.event.c);
        }
        LoopKeepsGlobal(s, i);
      case TimeOut => WakeKeepsGlobal(s, a);
      case Spurious => WakeKeepsGlobal(s, a);
    }
  }

  lemma KeepsOne(s: State, a: Step, c: Ref)
    requires GlobalInv(s) && Ready(s, a)
    requires c in Next(s, a).clients && (c in s.clients ==> ClientInv(s.cfg, ViewOf(s, c)))
    ensures ClientInv(s.cfg, ViewOf(Next(s, a), c))
  {
    match a {
      case ServerStep(i) => ServerKeepsOne(s, i, c);
      case LoopStep(i) =>
        assert c in s.clients by { ClientsStay(s, a); }
        LoopKeepsOne(s, i, c);
      case TimeOut => WakeKeepsOne(s, a, c);
      case Spurious => WakeKeepsOne(s, a, c);
    }
  }

  /** Only `create` adds a client, and no step forgets one or changes the configuration. */
  lemma ClientsStay(s: State, a: Step)
    requires Ready(s, a)
    ensures s.clients.Keys <= Next(s, a).clients.Keys
    ensures !a.ServerStep? ==> s.clients.Keys == Next(s, a).clients.Keys
    ensures Next(s, a).cfg == s.cfg
  {
  }

  lemma StepKeepsInv(s: State, a: Step)
    requires Inv(s) && Ready(s, a)
    ensures Inv(Next(s, a)) && Next(s, a).cfg == s.cfg
  {
    KeepsGlobal(s, a);
    ClientsStay(s, a);
    forall c | c in Next(s, a).clients ensures ClientInv(s.cfg, ViewOf(Next(s, a), c)) {
      KeepsOneOf(s, a, c);
    }
  }

  lemma KeepsOneOf(s: State, a: Step, c: Ref)
    requires Inv(s) && Ready(s, a) && c in Next(s, a).clients
    ensures ClientInv(s.cfg, ViewOf(Next(s, a), c))
  {
    if c in s.clients {
      var v := ViewOf(s, c);
    }
    KeepsOne(s, a, c);
  }

  /** The invariant holds after every prefix of every run. */
  lemma {:induction false} RunsKeepInv(cfg: Config, ss: seq<State>, steps: seq<Step>, n: nat)
    requires IsRun(cfg, ss, steps) && n <= |steps|
    ensures Inv(ss[n]) && ss[n].cfg == cfg
  {
    if n > 0 {
      RunsKeepInv(cfg, ss, steps, n - 1);
      assert Follows(ss[n - 1], steps[n - 1], ss[n - 1 + 1]);
      StepKeepsInv(ss[n - 1], steps[n - 1]);
    }
  }
}
