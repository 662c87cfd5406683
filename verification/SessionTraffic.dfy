/**
  What goes through the relay, counted over whole runs: the bytes that arrive from a backend and
  those that polls answer, the items that are posted and those that the socket gets.
 */
module SessionTraffic {
  import opened Bytes
  import opened Options
  import opened ClientState
  import opened Session
  import opened SessionInvariant
  import opened SessionSteps
  import opened SessionTheorems

  // ---------- what one step carries ----------

  /** libuv calls onRead with a chunk. */
  function Arrives(s: State, a: Step, c: Ref): Bytes {
    if a.LoopStep? && s.loop.LIdle? && a.li.event.Incoming? && a.li.event.c == c && a.li.event.chunk.Some?
    then a.li.event.chunk.value else []
  }

  /** The step with which a poll of session `c` answers OK. */
  ghost predicate PollAnswers(s: State, a: Step, c: Ref) {
    && a.ServerStep? && Ready(s, a) && s.server.SRead? && s.server.c == c && s.server.rd.RTake?
    && Next(s, a).server.SLeave?
  }

  /** The bytes of that answer, before base64 encoding. */
  function PollBody(s: State, c: Ref): Bytes
    requires s.server.SRead? && c in s.clients
  {
    s.server.acc + if s.clients[c].readq == [] then [] else s.clients[c].readq[0]
  }

  ghost function Answers(s: State, a: Step, c: Ref): Bytes {
    if PollAnswers(s, a, c) then PollBody(s, c) else []
  }

  /** `write` finds the session open and accepts the item. */
  function Posts(s: State, a: Step, c: Ref): seq<Bytes> {
    if a.ServerStep? && s.server.SWrite? && s.server.c == c && s.server.wr.WHold?
       && c in s.clients && Writable(s.clients[c])
    then [s.server.data] else []
  }

  /** `_write` takes an item that can be decoded: what it hands to uv_write. */
  function Offered(s: State, a: Step, c: Ref): Option<Bytes> {
    if a.LoopStep? && s.loop.LWrite? && s.loop.c == c && c in s.clients && s.clients[c].writeq != []
    then s.cfg.decode(s.clients[c].writeq[0]) else None
  }

  function Sends(s: State, a: Step, c: Ref): seq<Bytes> {
    if Offered(s, a, c).Some? && a.li.ok then [Offered(s, a, c).value] else []
  }

  predicate Refuses(s: State, a: Step, c: Ref) {
    Offered(s, a, c).Some? && !a.li.ok
  }

  // ---------- the counters are what the steps carried ----------

  function RxOf(s: State, c: Ref): Inbound {
    if c in s.clients then s.clients[c].rx else Created("", 0, 0).rx
  }

  function TxOf(s: State, c: Ref): Outbound {
    if c in s.clients then s.clients[c].tx else Created("", 0, 0).tx
  }

  ghost predicate Carried(r: Client, r': Client, s: State, a: Step, c: Ref) {
    CarriedIn(r.rx, r'.rx, s, a, c) && CarriedOut(r.tx, r'.tx, s, a, c)
  }

  ghost predicate CarriedIn(rx: Inbound, rx': Inbound, s: State, a: Step, c: Ref) {
    && rx'.arrived == rx.arrived + Arrives(s, a, c)
    && rx'.delivered == rx.delivered + Answers(s, a, c)
    && rx'.biggest <= (if |Arrives(s, a, c)| > rx.biggest then |Arrives(s, a, c)| else rx.biggest)
  }

  ghost predicate CarriedOut(tx: Outbound, tx': Outbound, s: State, a: Step, c: Ref) {
    && tx'.posted == tx.posted + Posts(s, a, c)
    && tx'.sent == tx.sent + Sends(s, a, c)
    && tx'.refused == (tx.refused || Refuses(s, a, c))
  }

  lemma ServerCarries(s: State, i: ServerIn, c: Ref)
    requires ServerReady(s, i) && c in s.clients
    ensures Carried(s.clients[c], ServerNext(s, i).clients[c], s, ServerStep(i), c)
  {
    ServerRecord(s, i, c);
    if ServerClient(s.server) == Some(c) {
      ServerCallCarries(s, i, c);
    }
  }

  lemma ServerCallCarries(s: State, i: ServerIn, c: Ref)
    requires ServerReady(s, i) && ServerClient(s.server) == Some(c)
    ensures Carried(s.clients[c], ServerOnClient(s.server, s.clients[c], i.clock).r, s, ServerStep(i), c)
  {
    match s.server {
      case SConnect(_, at) => assert OnConnect(c, at, s.clients[c]).r.rx == s.clients[c].rx;
      case SDisconnect(_, at) => assert OnDisconnect(c, at, s.clients[c]).r.rx == s.clients[c].rx;
      case SRead(_, at, acc) =>
      case SWrite(_, at, data) => assert OnWrite(c, at, data, s.clients[c]).r.rx == s.clients[c].rx;
    }
  }

  lemma LoopCarries(s: State, i: LoopIn, c: Ref)
    requires LoopReady(s, i) && c in s.clients
    ensures Carried(s.clients[c], LoopNext(s, i).clients[c], s, LoopStep(i), c)
  {
    LoopRecord(s, i, c);
    if s.loop.LIdle? {
      CallbackCarries(s, i, c);
    } else if LoopClient(s.loop) == Some(c) && !s.loop.LClose? {
      LoopCallCarries(s, i, c);
    }
  }

  lemma LoopCallCarries(s: State, i: LoopIn, c: Ref)
    requires LoopReady(s, i) && LoopClient(s.loop) == Some(c) && !s.loop.LClose?
    ensures Carried(s.clients[c], LoopOnClient(s.cfg, s.loop, s.clients[c], i).r, s, LoopStep(i), c)
  {
    var r := s.clients[c];
    if s.loop.LWrite? {
      assert OnWriteRequest(s.cfg, c, r, i.ok).r.rx == r.rx;
    } else {
      QuietCall(s, i, c);
    }
  }

  /** Only `_write` changes the items of a client, and only onRead its bytes, by queueing them. */
  lemma QuietCall(s: State, i: LoopIn, c: Ref)
    requires LoopReady(s, i) && LoopClient(s.loop) == Some(c) && !s.loop.LClose? && !s.loop.LWrite?
    ensures var r, r' := s.clients[c], LoopOnClient(s.cfg, s.loop, s.clients[c], i).r;
            r'.tx == r.tx && r'.rx == r.rx.(queued := r'.rx.queued)
  {
    match s.loop {
      case LComplete(_, at, ok) => assert OnComplete(c, at, ok, s.clients[c], i.clock).r.rx == s.clients[c].rx;
      case LRead(_, at, chunk) => assert OnIncoming(c, at, chunk, s.clients[c]).r.tx == s.clients[c].tx;
      case _ =>
    }
  }

  lemma CallbackCarries(s: State, i: LoopIn, c: Ref)
    requires LoopReady(s, i) && s.loop.LIdle? && c in s.clients
    ensures Carried(s.clients[c], LoopNext(s, i).clients[c], s, LoopStep(i), c)
  {
    match i.event {
      case Async => assert LoopNext(s, i).clients == s.clients;
      case Timer => assert LoopNext(s, i).clients == s.clients;
      case Incoming(d, chunk) => assert LoopNext(s, i).clients == s.clients[d := Heard(s.clients[d], chunk)];
      case _ => assert LoopNext(s, i).clients[c].rx == s.clients[c].rx;
    }
  }

  lemma StepCarries(s: State, a: Step, c: Ref)
    requires Ready(s, a)
    ensures CarriedIn(RxOf(s, c), RxOf(Next(s, a), c), s, a, c)
    ensures CarriedOut(TxOf(s, c), TxOf(Next(s, a), c), s, a, c)
  {
    ClientsStay(s, a);
    if c in s.clients {
      match a {
        case ServerStep(i) => ServerCarries(s, i, c);
        case LoopStep(i) => LoopCarries(s, i, c);
        case _ =>
      }
    }
  }

  /** What the first `n` steps of a run carried for `c`, in order. */
  ghost function Total<T>(ss: seq<State>, steps: seq<Step>, n: nat, c: Ref, what: (State, Step, Ref) -> seq<T>): seq<T>
    requires n <= |steps| < |ss|
  {
    if n == 0 then [] else Total(ss, steps, n - 1, c, what) + what(ss[n - 1], steps[n - 1], c)
  }

  /** One of these steps was refused by the socket. */
  predicate Refused(ss: seq<State>, steps: seq<Step>, n: nat, c: Ref)
    requires n <= |steps| < |ss|
  {
    n > 0 && (Refused(ss, steps, n - 1, c) || Refuses(ss[n - 1], steps[n - 1], c))
  }

  ghost predicate CarriedAt(ss: seq<State>, steps: seq<Step>, k: nat, c: Ref)
    requires k < |steps| < |ss|
  {
    && CarriedIn(RxOf(ss[k], c), RxOf(ss[k + 1], c), ss[k], steps[k], c)
    && CarriedOut(TxOf(ss[k], c), TxOf(ss[k + 1], c), ss[k], steps[k], c)
  }

  /** Before the first step there is no client, and every step carries what its kind says. */
  lemma RunCarries(cfg: Config, ss: seq<State>, steps: seq<Step>, n: nat, c: Ref)
    requires IsRun(cfg, ss, steps) && n <= |steps|
    ensures c !in ss[0].clients
    ensures forall k :: 0 <= k < n ==> CarriedAt(ss, steps, k, c)
  {
    forall k | 0 <= k < n ensures CarriedAt(ss, steps, k, c) {
      RunSteps(cfg, ss, steps, k);
      StepCarries(ss[k], steps[k], c);
    }
  }

  lemma {:induction false} Sums(ss: seq<State>, steps: seq<Step>, n: nat, c: Ref)
    requires n <= |steps| < |ss| && c !in ss[0].clients
    requires forall k :: 0 <= k < n ==> CarriedAt(ss, steps, k, c)
    ensures RxOf(ss[n], c).arrived == Total(ss, steps, n, c, Arrives)
    ensures RxOf(ss[n], c).delivered == Total(ss, steps, n, c, Answers)
    ensures TxOf(ss[n], c).posted == Total(ss, steps, n, c, Posts)
    ensures TxOf(ss[n], c).sent == Total(ss, steps, n, c, Sends)
    ensures TxOf(ss[n], c).refused == Refused(ss, steps, n, c)
  {
    if n > 0 {
      Sums(ss, steps, n - 1, c);
      assert CarriedAt(ss, steps, n - 1, c);
    }
  }

  lemma {:induction false} Biggest(ss: seq<State>, steps: seq<Step>, n: nat, c: Ref, max: nat)
    requires n <= |steps| < |ss| && c !in ss[0].clients
    requires forall k :: 0 <= k < n ==> CarriedAt(ss, steps, k, c)
    requires forall k :: 0 <= k < n ==> |Arrives(ss[k], steps[k], c)| <= max
    ensures RxOf(ss[n], c).biggest <= max
  {
    if n > 0 {
      Biggest(ss, steps, n - 1, c, max);
      assert CarriedAt(ss, steps, n - 1, c);
    }
  }

  /** The counters of a client are the totals over the run. */
  lemma CountersAreTotals(cfg: Config, ss: seq<State>, steps: seq<Step>, n: nat, c: Ref)
    requires IsRun(cfg, ss, steps) && n <= |steps|
    ensures RxOf(ss[n], c).arrived == Total(ss, steps, n, c, Arrives)
    ensures RxOf(ss[n], c).delivered == Total(ss, steps, n, c, Answers)
    ensures TxOf(ss[n], c).posted == Total(ss, steps, n, c, Posts)
    ensures TxOf(ss[n], c).sent == Total(ss, steps, n, c, Sends)
    ensures TxOf(ss[n], c).refused == Refused(ss, steps, n, c)
  {
    RunCarries(cfg, ss, steps, n, c);
    Sums(ss, steps, n, c);
  }

  // ---------- commands ----------

  /** The command that the server thread took last. */
  function CommandAt(ss: seq<State>, steps: seq<Step>, n: nat): Command
    requires n <= |steps| < |ss|
  {
    if n == 0 then Poll("")
    else CommandAfter(ss[n - 1], steps[n - 1], CommandAt(ss, steps, n - 1))
  }

  function CommandAfter(s: State, a: Step, cmd: Command): Command {
    if a.ServerStep? && s.server.SIdle? then a.si.cmd else cmd
  }

  /** What the server thread does is what the command asks for, on the session that it names. */
  predicate Serves(s: State, cmd: Command) {
    (ServerClient(s.server).Some? ==> s.server.c in s.clients && s.clients[s.server.c].id == cmd.id) &&
    match s.server
    case SIdle | SLeave => true
    case SWantStorage(want) => want == cmd
    case SHaveStorage(have) => have == cmd
    case SConnect(_, _) => cmd.Create?
    case SDisconnect(_, _) => cmd.Create? || cmd.Drop?
    case SRead(_, _, _) => cmd.Poll?
    case SWrite(_, _, data) => cmd == Post(cmd.id, true, data) && data != []
  }

  lemma ServerServes(s: State, i: ServerIn, cmd: Command)
    requires GlobalInv(s) && ServerReady(s, i) && Serves(s, cmd)
    ensures Serves(ServerNext(s, i), CommandAfter(s, ServerStep(i), cmd))
  {
    if ServerClient(s.server).Some? {
      ServerStaysOnClient(s.server, s.clients[s.server.c], i.clock);
      CallStays(s.server, s.clients[s.server.c], i.clock);
    }
  }

  /** A call goes on as the same call with the same data, except that `connect` may give up by `disconnect`. */
  lemma CallStays(pc: ServerPc, r: Client, clock: int)
    requires ServerClient(pc).Some? && !Waiting(pc)
    ensures var pc' := ServerOnClient(pc, r, clock).pc;
            match pc'
            case SLeave => true
            case SConnect(_, _) => pc.SConnect?
            case SDisconnect(_, _) => pc.SConnect? || pc.SDisconnect?
            case SRead(_, _, _) => pc.SRead?
            case SWrite(_, _, data) => pc.SWrite? && data == pc.data
            case _ => false
  {
    match pc {
      case SConnect(c, at) => var e := OnConnect(c, at, r);
      case SDisconnect(c, at) => var e := OnDisconnect(c, at, r);
      case SRead(c, at, acc) => var e := OnRead(c, at, acc, r, clock);
      case SWrite(c, at, data) => var e := OnWrite(c, at, data, r);
    }
  }

  lemma LoopServes(s: State, i: LoopIn, cmd: Command)
    requires LoopReady(s, i) && Serves(s, cmd)
    ensures Serves(LoopNext(s, i), cmd)
  {
    LoopMovesServer(s, i);
    if ServerClient(s.server).Some? {
      LoopKeepsId(s, i, s.server.c);
    }
  }

  lemma LoopMovesServer(s: State, i: LoopIn)
    requires LoopReady(s, i)
    ensures var pc := LoopNext(s, i).server;
            pc == s.server || (Waiting(s.server) && pc == SConnect(s.server.c, CWake(false)))
  {
  }

  lemma LoopKeepsId(s: State, i: LoopIn, c: Ref)
    requires LoopReady(s, i) && c in s.clients
    ensures c in LoopNext(s, i).clients && LoopNext(s, i).clients[c].id == s.clients[c].id
  {
    LoopRecord(s, i, c);
    if LoopClient(s.loop) == Some(c) && !s.loop.LClose? {
      LoopStaysOnClient(s.cfg, s.loop, s.clients[c], i);
    }
  }

  /** At every moment of every run. */
  lemma {:induction false} ServesItsCommand(cfg: Config, ss: seq<State>, steps: seq<Step>, n: nat)
    requires IsRun(cfg, ss, steps) && n <= |steps|
    ensures Serves(ss[n], CommandAt(ss, steps, n))
  {
    if n > 0 {
      ServesItsCommand(cfg, ss, steps, n - 1);
      RunSteps(cfg, ss, steps, n - 1);
      ReachedGlobal(cfg, ss[n - 1]);
      var s, cmd := ss[n - 1], CommandAt(ss, steps, n - 1);
      match steps[n - 1] {
        case ServerStep(i) => ServerServes(s, i, cmd);
        case LoopStep(i) => LoopServes(s, i, cmd);
        case _ =>
      }
    }
  }

  /** So what is posted to a session is the data of a POST for its id from an allowed origin. */
  lemma PostsAreCommands(cfg: Config, ss: seq<State>, steps: seq<Step>, n: nat, c: Ref)
    requires IsRun(cfg, ss, steps) && n < |steps| && Posts(ss[n], steps[n], c) != []
    ensures c in ss[n].clients
    ensures CommandAt(ss, steps, n) == Post(ss[n].clients[c].id, true, Posts(ss[n], steps[n], c)[0])
  {
    ServesItsCommand(cfg, ss, steps, n);
  }

  // ---------- writes ----------

  /**
    Items reach the socket in POST order, each at most once: what it got is a subsequence of
    what was posted and can be decoded.
   */
  lemma WritesInOrder(cfg: Config, ss: seq<State>, steps: seq<Step>, n: nat, c: Ref)
    requires IsRun(cfg, ss, steps) && n <= |steps|
    ensures Subsequence(Total(ss, steps, n, c, Sends), Decodable(cfg.decode, Total(ss, steps, n, c, Posts)))
  {
    CountersAreTotals(cfg, ss, steps, n, c);
    if c in ss[n].clients {
      RunReaches(cfg, ss, steps, n);
      ReachedClient(cfg, ss[n], c);
      SentOfPosted(cfg.decode, ViewOf(ss[n], c).r, ToPut(ViewOf(ss[n], c).sp));
    }
  }

  lemma SentOfPosted(decode: Bytes -> Option<Bytes>, r: Client, more: seq<Bytes>)
    requires Accounted(r, more) && InOrder(decode, r.tx)
    ensures Subsequence(r.tx.sent, Decodable(decode, r.tx.posted))
  {
    DecodableSubsequence(decode, r.tx.sent, r.tx.popped, r.writeq + more);
    assert r.tx.posted == r.tx.popped + (r.writeq + more);
  }

  lemma {:induction false} DecodableSubsequence(decode: Bytes -> Option<Bytes>, a: seq<Bytes>,
                                                items: seq<Bytes>, more: seq<Bytes>)
    requires Subsequence(a, Decodable(decode, items))
    ensures Subsequence(a, Decodable(decode, items + more))
  {
    if more == [] {
      assert items + more == items;
    } else {
      var n := |more| - 1;
      DecodableSubsequence(decode, a, items, more[..n]);
      assert items + more == (items + more[..n]) + [more[n]];
      DecodableSnoc(decode, items + more[..n], more[n]);
      var before := Decodable(decode, items + more[..n]);
      if decode(more[n]).Some? {
        SubsequenceDrop(a, before, decode(more[n]).value);
      } else {
        assert before + [] == before;
      }
    }
  }

  /**
    Once the WRITE requests of a session have been carried out, nothing posted is left behind,
    and if the socket never refused, it has got everything posted that can be decoded.
   */
  lemma AllWritesSent(cfg: Config, ss: seq<State>, steps: seq<Step>, n: nat, c: Ref)
    requires IsRun(cfg, ss, steps) && n <= |steps| && c in ss[n].clients
    requires Count(Requests(ss[n].reqs, c), WRITE) == 0
    requires ServerClient(ss[n].server) != Some(c) && LoopClient(ss[n].loop) != Some(c)
    ensures ss[n].clients[c].writeq == []
    ensures !Refused(ss, steps, n, c) ==>
              Total(ss, steps, n, c, Sends) == Decodable(cfg.decode, Total(ss, steps, n, c, Posts))
  {
    CountersAreTotals(cfg, ss, steps, n, c);
    RunReaches(cfg, ss, steps, n);
    NoStrandedWrite(cfg, ss[n], c);
    ReachedClient(cfg, ss[n], c);
    var tx := ss[n].clients[c].tx;
    assert tx.popped + [] + [] == tx.popped;
  }

  // ---------- polls ----------

  /**
    What all successful polls of a session have answered, one after the other, is a prefix of
    what arrived from its backend: no gap, nothing twice.
   */
  lemma DeliveredIsPrefix(cfg: Config, ss: seq<State>, steps: seq<Step>, n: nat, c: Ref)
    requires IsRun(cfg, ss, steps) && n <= |steps|
    ensures Total(ss, steps, n, c, Answers) <= Total(ss, steps, n, c, Arrives)
  {
    CountersAreTotals(cfg, ss, steps, n, c);
    if c in ss[n].clients {
      RunReaches(cfg, ss, steps, n);
      ReachedClient(cfg, ss[n], c);
      PrefixesChain(ViewOf(ss[n], c));
    }
  }

  lemma PrefixesChain(v: View)
    requires Reads(v) && Arrivals(v)
    ensures v.r.rx.delivered <= v.r.rx.taken <= v.r.rx.queued <= v.r.rx.arrived
  {
  }

  /**
    A successful poll answers what comes next, and leaves data in the queue only if it has
    16384 bytes.  It never follows a GONE of the same session.
   */
  lemma PollDelivers(cfg: Config, s: State, a: Step, c: Ref)
    requires Reached(cfg, s) && PollAnswers(s, a, c)
    ensures c in s.clients && s.clients[c].id !in s.gone
    ensures Next(s, a).clients[c].rx.delivered == s.clients[c].rx.delivered + PollBody(s, c)
    ensures Next(s, a).clients[c].rx.delivered == Next(s, a).clients[c].rx.taken
    ensures |PollBody(s, c)| < 16384 + s.clients[c].rx.biggest
    ensures Next(s, a).clients[c].readq != [] ==> |PollBody(s, c)| >= 16384
  {
    ReachedGlobal(cfg, s);
    PollFacts(cfg, s, c);
    PollTakes(s, a, c);
  }

  /** What the invariant says of a session that a poll takes a chunk of. */
  lemma PollFacts(cfg: Config, s: State, c: Ref)
    requires Reached(cfg, s) && s.server.SRead? && s.server.c == c && s.server.rd.RTake?
    ensures c in s.clients && !s.clients[c].log.gone && |s.server.acc| < DATA_THRESHOLD
    ensures s.clients[c].id in s.storage && s.storage[s.clients[c].id] == c
    ensures s.clients[c].readq != [] ==> ChunkOk(s.clients[c].readq[0], s.clients[c].rx.biggest)
    ensures s.clients[c].rx.taken == s.clients[c].rx.delivered + s.server.acc
  {
    ReachedGlobal(cfg, s);
    ReachedClient(cfg, s, c);
  }

  /** The answering step: takes the last chunk, if there is one, and stops where the loop of onPoll stops. */
  lemma PollTakes(s: State, a: Step, c: Ref)
    requires PollAnswers(s, a, c)
    ensures var r, r' := s.clients[c], Next(s, a).clients[c];
            && r'.rx.delivered == r.rx.delivered + PollBody(s, c)
            && r'.rx.arrived == r.rx.arrived && r'.rx.queued == r.rx.queued && Next(s, a).loop == s.loop
            && r'.rx.taken == r.rx.taken + (if r.readq == [] then [] else r.readq[0])
            && r'.readq == (if r.readq == [] then [] else r.readq[1..])
            && (r.readq == [] || r.readq[0] == [] || |PollBody(s, c)| >= DATA_THRESHOLD)
  {
    assert Next(s, a).clients[c] == OnRead(c, RTake, s.server.acc, s.clients[c], a.si.clock).r;
  }

  /** If no chunk from the backend has more than `max` bytes, every answer has fewer than 16384 + `max`. */
  lemma PollBounded(cfg: Config, ss: seq<State>, steps: seq<Step>, n: nat, c: Ref, max: nat)
    requires IsRun(cfg, ss, steps) && n < |steps|
    requires forall k :: 0 <= k < n ==> |Arrives(ss[k], steps[k], c)| <= max
    ensures |Answers(ss[n], steps[n], c)| < 16384 + max
  {
    if PollAnswers(ss[n], steps[n], c) {
      RunReaches(cfg, ss, steps, n);
      PollDelivers(cfg, ss[n], steps[n], c);
      RunCarries(cfg, ss, steps, n, c);
      Biggest(ss, steps, n, c, max);
    }
  }

  /**
    A poll that leaves the read queue empty has brought the client up to date: everything that
    arrived has been answered, but for the chunk that onRead is about to queue.
   */
  lemma PollCatchesUp(cfg: Config, ss: seq<State>, steps: seq<Step>, n: nat, c: Ref)
    requires IsRun(cfg, ss, steps) && n < |steps| && PollAnswers(ss[n], steps[n], c)
    ensures c in ss[n + 1].clients
    ensures ss[n + 1].clients[c].readq == [] ==>
              Total(ss, steps, n + 1, c, Answers) + InHand(LoopAt(ss[n + 1].loop, c))
              == Total(ss, steps, n + 1, c, Arrives)
  {
    RunSteps(cfg, ss, steps, n);
    PollDelivers(cfg, ss[n], steps[n], c);
    PollSeesAll(cfg, ss[n], steps[n], c);
    CountersAreTotals(cfg, ss, steps, n + 1, c);
  }

  lemma PollSeesAll(cfg: Config, s: State, a: Step, c: Ref)
    requires Reached(cfg, s) && PollAnswers(s, a, c)
    ensures c in s.clients
    ensures var s' := Next(s, a);
            var rx, rx' := s.clients[c].rx, s'.clients[c].rx;
            && s'.loop == s.loop && rx'.arrived == rx.arrived
            && rx'.arrived == rx'.queued + InHand(LoopAt(s'.loop, c))
            && (s'.clients[c].readq == [] ==> rx'.queued == rx'.taken)
  {
    PollFacts(cfg, s, c);
    PollTakes(s, a, c);
    ReachedClient(cfg, s, c);
    var v := ViewOf(s, c);
    assert Taking(v.sp) && Complete(v);
    if |v.r.readq| == 1 {
      assert Flatten(v.r.readq) == v.r.readq[0] + [];
    }
  }

  /** The two places where onPoll answers GONE: an unknown id, and a session that is not open. */
  ghost predicate AnswersGone(s: State, a: Step, id: Id) {
    && a.ServerStep? && Ready(s, a)
    && (|| (s.server == SHaveStorage(Poll(id)) && id !in s.storage)
        || (s.server.SRead? && s.server.rd.RHold? && s.clients[s.server.c].id == id && Next(s, a).server.SLeave?))
  }

  /** The step that issues an id, for the first time or again. */
  ghost predicate Creates(s: State, a: Step, id: Id) {
    a.ServerStep? && Ready(s, a) && s.server == SHaveStorage(Create(id)) && Next(s, a).server.SConnect?
  }

  lemma GoneStays(s: State, a: Step, id: Id)
    requires Ready(s, a)
    ensures id in s.gone && !Creates(s, a, id) ==> id in Next(s, a).gone
    ensures AnswersGone(s, a, id) ==> id in Next(s, a).gone
  {
    match a {
      case ServerStep(i) =>
      case LoopStep(i) => LoopKeepsGone(s, i);
      case _ =>
    }
  }

  lemma LoopKeepsGone(s: State, i: LoopIn)
    requires LoopReady(s, i)
    ensures LoopNext(s, i).gone == s.gone
  {
  }

  lemma {:induction false} GoneStaysOverRuns(cfg: Config, ss: seq<State>, steps: seq<Step>, n: nat, m: nat, id: Id)
    requires IsRun(cfg, ss, steps) && n < m <= |steps| && AnswersGone(ss[n], steps[n], id)
    requires forall k {:trigger steps[k]} :: n < k < m ==> !Creates(ss[k], steps[k], id)
    ensures id in ss[m].gone
  {
    if m == n + 1 {
      RunSteps(cfg, ss, steps, n);
      GoneStays(ss[n], steps[n], id);
    } else {
      GoneStaysOverRuns(cfg, ss, steps, n, m - 1, id);
      RunSteps(cfg, ss, steps, m - 1);
      GoneStays(ss[m - 1], steps[m - 1], id);
    }
  }

  /** Once a poll for an id is answered GONE, no later one succeeds unless the id is issued again in between. */
  lemma GoneIsFinal(cfg: Config, ss: seq<State>, steps: seq<Step>, n: nat, m: nat, id: Id, c: Ref)
    requires IsRun(cfg, ss, steps) && n < m < |steps| && AnswersGone(ss[n], steps[n], id)
    requires forall k {:trigger steps[k]} :: n < k < m ==> !Creates(ss[k], steps[k], id)
    requires PollAnswers(ss[m], steps[m], c)
    ensures c in ss[m].clients && ss[m].clients[c].id != id
  {
    GoneStaysOverRuns(cfg, ss, steps, n, m, id);
    RunReaches(cfg, ss, steps, m);
    PollDelivers(cfg, ss[m], steps[m], c);
  }
}
