/**
  What a whole call does to a client when no other thread interferes.  The methods of Relay are
  proved against these functions, and SessionAlone proves that the machine of Session, left to
  one thread, does the same.
 */
module Calls {
  import opened Bytes
  import opened Options
  import opened ClientState
  import opened SessionInvariant
  import opened Session

  // ---------- calls with one critical section ----------

  /** disconnect */
  function AfterDisconnect(r: Client): Client {
    if Disconnectable(r) then EnterDisconnecting(r) else r
  }

  /** write */
  function AfterWrite(r: Client, data: Bytes): Client {
    if Writable(r) then PutItem(Accepted(r, data), data) else r
  }

  /** onConnect */
  function AfterOnConnect(r: Client, ok: bool, now: int): Client {
    var r' := Completed(r, ok);
    if r'.phase.Connected? then ReadStarted(r', now) else r'
  }

  /** onRead; `chunk` None is a read error or the end of the stream. */
  function AfterOnRead(r: Client, chunk: Option<Bytes>): Client {
    if !r.phase.Connected? then r
    else if chunk.None? then Closed(EnterDisconnecting(r))
    else if chunk.value == [] then r
    else PutChunk(r, chunk.value)
  }

  // ---------- _write ----------

  /** What _write leaves of a client; `ok(k)` says whether the socket takes the k-th decoded item. */
  function Drained(decode: Bytes -> Option<Bytes>, r: Client, ok: nat -> bool, k: nat): Client
    decreases |r.writeq|
  {
    if r.writeq == [] then r
    else
      var decoded := decode(r.writeq[0]);
      if decoded.None? then PopItem(r)
      else Drained(decode, Sent(PopItem(r), decoded.value, ok(k)), ok, k + 1)
  }

  /** How many items _write takes: up to the first that cannot be decoded, that one included. */
  function Taken(decode: Bytes -> Option<Bytes>, items: seq<Bytes>): (n: nat)
    ensures n <= |items| && (items != [] ==> n > 0)
  {
    if items == [] then 0
    else if decode(items[0]).None? then 1
    else 1 + Taken(decode, items[1..])
  }

  /** _write takes the first Taken items off the queue, and touches nothing but the items. */
  lemma {:induction false} DrainedTakes(decode: Bytes -> Option<Bytes>, r: Client, ok: nat -> bool, k: nat)
    ensures var r', n := Drained(decode, r, ok, k), Taken(decode, r.writeq);
            && r'.writeq == r.writeq[n..] && r'.tx.popped == r.tx.popped + r.writeq[..n]
            && r' == r.(writeq := r'.writeq, tx := r'.tx) && r'.tx.posted == r.tx.posted
    decreases |r.writeq|
  {
    if r.writeq != [] && decode(r.writeq[0]).Some? {
      var r1 := Sent(PopItem(r), decode(r.writeq[0]).value, ok(k));
      var first, rest := r.writeq[0], r.writeq[1..];
      assert r1.writeq == rest && r1.tx.popped == r.tx.popped + [first];
      DrainedTakes(decode, r1, ok, k + 1);
      PopsAdd(r.tx.popped, r.writeq, Taken(decode, rest));
    }
  }

  lemma PopsAdd(popped: seq<Bytes>, items: seq<Bytes>, n: nat)
    requires n < |items|
    ensures items[1..][n..] == items[n + 1..]
    ensures (popped + [items[0]]) + items[1..][..n] == popped + items[..n + 1]
  {
  }

  /** All taken items but the last can be decoded; the last can unless it stopped the loop early. */
  lemma {:induction false} TakenMore(decode: Bytes -> Option<Bytes>, items: seq<Bytes>)
    ensures var n := Taken(decode, items);
            && (forall i :: 0 <= i < n - 1 ==> decode(items[i]).Some?)
            && (n < |items| ==> decode(items[n - 1]).None?)
  {
    if items != [] && decode(items[0]).Some? {
      TakenMore(decode, items[1..]);
    }
  }

  /** A socket that takes everything gets what the taken items decode to, in queue order. */
  lemma {:induction false} DrainedSends(decode: Bytes -> Option<Bytes>, r: Client, ok: nat -> bool, k: nat)
    requires forall j :: ok(j)
    ensures var n := Taken(decode, r.writeq);
            Drained(decode, r, ok, k).tx.sent == r.tx.sent + Decodable(decode, r.writeq[..n])
    decreases |r.writeq|
  {
    if r.writeq != [] {
      var first, rest := r.writeq[0], r.writeq[1..];
      var n := Taken(decode, r.writeq);
      assert r.writeq[..n] == [first] + rest[..n - 1];
      DecodableCons(decode, first, rest[..n - 1]);
      if decode(first).Some? {
        var d := decode(first).value;
        DrainedSends(decode, Sent(PopItem(r), d, ok(k)), ok, k + 1);
        SentAdd(r.tx.sent, d, Decodable(decode, rest[..n - 1]));
      } else {
        assert rest[..n - 1] == [];
      }
    }
  }

  lemma SentAdd(sent: seq<Bytes>, d: Bytes, more: seq<Bytes>)
    ensures (sent + [d]) + more == sent + ([d] + more)
  {
  }

  lemma {:induction false} DecodableCons(decode: Bytes -> Option<Bytes>, first: Bytes, rest: seq<Bytes>)
    ensures Decodable(decode, [first] + rest)
         == (if decode(first).Some? then [decode(first).value] else []) + Decodable(decode, rest)
  {
    var items, head := [first] + rest, if decode(first).Some? then [decode(first).value] else [];
    if rest == [] {
      assert items == [] + [first];
      DecodableSnoc(decode, [], first);
      assert head + [] == head;
    } else {
      var n := |rest| - 1;
      assert items == ([first] + rest[..n]) + [rest[n]] && rest == rest[..n] + [rest[n]];
      DecodableCons(decode, first, rest[..n]);
      DecodableSnoc(decode, [first] + rest[..n], rest[n]);
      DecodableSnoc(decode, rest[..n], rest[n]);
      var last := if decode(rest[n]).Some? then [decode(rest[n]).value] else [];
      assert (head + Decodable(decode, rest[..n])) + last == head + (Decodable(decode, rest[..n]) + last);
    }
  }

  // ---------- onAsync ----------

  /** The requests of one client with their places in the queue, which starts at place `n`. */
  function Own<C(==)>(reqs: seq<Request<C>>, c: C, n: nat): seq<(Kind, nat)> {
    if reqs == [] then []
    else
      var rest := Own(reqs[1..], c, n + 1);
      if reqs[0].client == c then [(reqs[0].kind, n)] + rest else rest
  }

  /** The results of the libuv calls made for the request at place `n`. */
  function Row(ok: (nat, nat) -> bool, n: nat): nat -> bool {
    (k: nat) => ok(n, k)
  }

  /** One request, carried out. */
  function Carry(decode: Bytes -> Option<Bytes>, kind: Kind, r: Client, ok: nat -> bool): Client {
    match kind
    case CONNECT => Tried(r, ok(0))
    case DISCONNECT => Closed(r)
    case WRITE => Drained(decode, r, ok, 0)
  }

  /** What its own requests, and no others, make of a client. */
  function Served(decode: Bytes -> Option<Bytes>, own: seq<(Kind, nat)>, r: Client, ok: (nat, nat) -> bool): Client
    decreases |own|
  {
    if own == [] then r
    else Served(decode, own[1..], Carry(decode, own[0].0, r, Row(ok, own[0].1)), ok)
  }

  function Kinds(own: seq<(Kind, nat)>): seq<Kind> {
    if own == [] then [] else [own[0].0] + Kinds(own[1..])
  }

  /** Taking the first request off the queue and carrying it out leaves the outcome as it was. */
  lemma ServedStep<C>(decode: Bytes -> Option<Bytes>, reqs: seq<Request<C>>, c: C, n: nat, r: Client,
                      ok: (nat, nat) -> bool)
    requires reqs != []
    ensures Served(decode, Own(reqs, c, n), r, ok)
         == Served(decode, Own(reqs[1..], c, n + 1),
                   if reqs[0].client == c then Carry(decode, reqs[0].kind, r, Row(ok, n)) else r, ok)
  {
    if reqs[0].client == c {
      var own := Own(reqs, c, n);
      assert own[0] == (reqs[0].kind, n) && own[1..] == Own(reqs[1..], c, n + 1);
    }
  }

  /** A client that no request names stays as it is. */
  lemma {:induction false} ServedUntouched<C>(decode: Bytes -> Option<Bytes>, reqs: seq<Request<C>>, c: C, n: nat,
                                              r: Client, ok: (nat, nat) -> bool)
    requires forall request :: request in reqs ==> request.client != c
    ensures Served(decode, Own(reqs, c, n), r, ok) == r
  {
    if reqs != [] {
      ServedUntouched(decode, reqs[1..], c, n + 1, r, ok);
    }
  }

  /** `_write` may stop early, but not too often: as many WRITE requests as there are items leave none. */
  lemma {:induction false} ServedEmpties(decode: Bytes -> Option<Bytes>, own: seq<(Kind, nat)>, r: Client,
                                         ok: (nat, nat) -> bool)
    requires |r.writeq| <= Count(Kinds(own), WRITE)
    ensures Served(decode, own, r, ok).writeq == []
    decreases |own|
  {
    if own != [] {
      var row := Row(ok, own[0].1);
      if own[0].0.WRITE? {
        DrainedTakes(decode, r, row, 0);
      }
      ServedEmpties(decode, own[1..], Carry(decode, own[0].0, r, row), ok);
    }
  }

  /** Every DISCONNECT is one uv_close, nothing else closes, and what was closed stays closed. */
  lemma {:induction false} ServedCloses(decode: Bytes -> Option<Bytes>, own: seq<(Kind, nat)>, r: Client,
                                        ok: (nat, nat) -> bool)
    ensures var r' := Served(decode, own, r, ok);
            && r'.log.closes == r.log.closes + Count(Kinds(own), DISCONNECT)
            && (r'.handle.closed <==> r.handle.closed || Count(Kinds(own), DISCONNECT) > 0)
    decreases |own|
  {
    if own != [] {
      var row := Row(ok, own[0].1);
      if own[0].0.WRITE? {
        DrainedTakes(decode, r, row, 0);
      }
      ServedCloses(decode, own[1..], Carry(decode, own[0].0, r, row), ok);
    }
  }

  // ---------- onPoll ----------

  /** How many chunks a poll takes that has `total` bytes already. */
  function PollTakes(chunks: seq<Bytes>, total: nat): (n: nat)
    ensures n <= |chunks|
  {
    if chunks == [] then 0
    else if |chunks[0]| == 0 || total + |chunks[0]| >= DATA_THRESHOLD then 1
    else 1 + PollTakes(chunks[1..], total + |chunks[0]|)
  }

  /** A client whose `n` oldest chunks were taken by a poll. */
  function Polled(r: Client, now: int, n: nat): Client
    requires n <= |r.readq|
  {
    r.(lastAccess := now, readq := r.readq[n..], rx := r.rx.(taken := r.rx.taken + Flatten(r.readq[..n])))
  }

  /** One more chunk. */
  lemma PolledMore(r: Client, before: int, now: int, n: nat)
    requires n < |r.readq|
    ensures Polled(r, now, n + 1) == TakeChunk(Touched(Polled(r, before, n), now))
    ensures Flatten(r.readq[..n + 1]) == Flatten(r.readq[..n]) + r.readq[n]
    ensures r.readq[n..][1..] == r.readq[n + 1..]
  {
    FlattenSnoc(r.readq[..n], r.readq[n]);
    assert r.readq[..n + 1] == r.readq[..n] + [r.readq[n]];
    assert r.rx.taken + (Flatten(r.readq[..n]) + r.readq[n]) == (r.rx.taken + Flatten(r.readq[..n])) + r.readq[n];
  }

  /** The body of a poll is below the threshold before its last chunk, so it is below threshold plus one chunk. */
  lemma {:induction false} PollBodyBound(chunks: seq<Bytes>, total: nat, biggest: nat)
    requires total < DATA_THRESHOLD
    requires forall chunk :: chunk in chunks ==> |chunk| <= biggest
    ensures total + |Flatten(chunks[..PollTakes(chunks, total)])| < DATA_THRESHOLD + biggest
            || PollTakes(chunks, total) == 0
    ensures PollTakes(chunks, total) < |chunks| ==>
              || total + |Flatten(chunks[..PollTakes(chunks, total)])| >= DATA_THRESHOLD
              || (PollTakes(chunks, total) > 0 && chunks[PollTakes(chunks, total) - 1] == [])
    decreases |chunks|
  {
    if chunks != [] {
      var first, n := chunks[0], PollTakes(chunks, total);
      assert first in chunks;
      assert chunks[..n][1..] == chunks[1..][..n - 1];
      assert Flatten(chunks[..n]) == first + Flatten(chunks[1..][..n - 1]);
      if |first| > 0 && total + |first| < DATA_THRESHOLD {
        PollBodyBound(chunks[1..], total + |first|, biggest);
        if n - 1 == 0 {
          assert chunks[1..][..0] == [];
        }
      } else {
        assert chunks[1..][..0] == [];
      }
    }
  }
}
