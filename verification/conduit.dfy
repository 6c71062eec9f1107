/**
 * The server-side broadcast conduit of lib/stream.js: a pool of connected
 * peers, an append-only replay stash, fan-out of a chunk to every peer and
 * the readable side that queues every non-null chunk written to it.
 *
 * Every socket ever accepted is identified by a handle, the index of its
 * connection event. Everything the sockets were asked to send is kept in one
 * log, `sent`, in the order the sends happened; what one peer received is the
 * projection `Outbox(sent, h)`. Sends deferred through `debounce` wait in
 * `pending` until `Tick` delivers them.
 */
module Conduit {
  import opened Wrappers

  /** The session id `sid()` hands out: an opaque token. */
  type Sid = string

  /** A chunk of data relayed by the conduit. */
  type Payload = string

  /** A connected socket: the index of its connection event and its session id. */
  datatype Peer = Peer(handle: nat, sid: Sid)

  /** What goes over a socket: the `{sid}` handshake or a relayed payload. */
  datatype Frame = Handshake(sid: Sid) | Data(payload: Payload)

  /** One `ws.send` call: the socket it was made on and what it sent. */
  datatype Sent = Sent(handle: nat, frame: Frame)

  /** One send scheduled through `debounce`, not yet delivered. */
  datatype Deferred = Deferred(handle: nat, payload: Payload)

  /** The failed `assert` of the close handler. */
  datatype CloseError = PoolDidNotShrink

  /** The session ids present in a pool. */
  function Sids(pool: seq<Peer>): set<Sid> {
    set p | p in pool :: p.sid
  }

  /** The handles present in a pool. */
  function Handles(pool: seq<Peer>): set<nat> {
    set p | p in pool :: p.handle
  }

  ghost predicate DistinctSids(pool: seq<Peer>) {
    forall i, j :: 0 <= i < |pool| && 0 <= j < |pool| && i != j ==> pool[i].sid != pool[j].sid
  }

  ghost predicate DistinctHandles(pool: seq<Peer>) {
    forall i, j :: 0 <= i < |pool| && 0 <= j < |pool| && i != j ==> pool[i].handle != pool[j].handle
  }

  /** The pool filter of the close handler: the peers whose sid differs from `sid`, in order. */
  function Without(pool: seq<Peer>, sid: Sid): seq<Peer> {
    if pool == [] then []
    else if pool[0].sid == sid then Without(pool[1..], sid)
    else [pool[0]] + Without(pool[1..], sid)
  }

  /** The frames one socket was asked to send, in order. */
  function Outbox(log: seq<Sent>, h: nat): seq<Frame> {
    if log == [] then []
    else Outbox(log[..|log| - 1], h) + (if log[|log| - 1].handle == h then [log[|log| - 1].frame] else [])
  }

  /** The payloads still scheduled for one socket, in the order they were scheduled. */
  function Scheduled(pending: seq<Deferred>, h: nat): seq<Payload> {
    if pending == [] then []
    else Scheduled(pending[..|pending| - 1], h)
         + (if pending[|pending| - 1].handle == h then [pending[|pending| - 1].payload] else [])
  }

  /** The sends `stream.send` makes: one per pool member, in pool order. */
  function Fanout(pool: seq<Peer>, chunk: Payload): seq<Sent> {
    if pool == [] then []
    else Fanout(pool[..|pool| - 1], chunk) + [Sent(pool[|pool| - 1].handle, Data(chunk))]
  }

  /** The sends the connection handler defers: one per stashed payload, in stash order. */
  function Replay(h: nat, stash: seq<Payload>): seq<Deferred> {
    if stash == [] then []
    else Replay(h, stash[..|stash| - 1]) + [Deferred(h, stash[|stash| - 1])]
  }

  /** Filtering keeps exactly the peers with another sid, so it shrinks the pool iff `sid` is present. */
  lemma {:induction false} WithoutMembers(pool: seq<Peer>, sid: Sid)
    ensures forall p :: p in Without(pool, sid) <==> p in pool && p.sid != sid
    ensures |Without(pool, sid)| <= |pool|
    ensures |Without(pool, sid)| < |pool| <==> sid in Sids(pool)
    ensures sid !in Sids(pool) ==> Without(pool, sid) == pool
  {
    if pool != [] {
      WithoutMembers(pool[1..], sid);
      assert pool == [pool[0]] + pool[1..];
      assert Sids(pool) == {pool[0].sid} + Sids(pool[1..]);
    }
  }

  /** Filtering preserves the order of the kept peers: it distributes over concatenation. */
  lemma {:induction false} WithoutAppend(a: seq<Peer>, b: seq<Peer>, sid: Sid)
    ensures Without(a + b, sid) == Without(a, sid) + Without(b, sid)
  {
    if a != [] {
      assert (a + b)[1..] == a[1..] + b;
      WithoutAppend(a[1..], b, sid);
    } else {
      assert a + b == b;
    }
  }

  /** With distinct sids, closing a present sid removes exactly one peer and keeps the sids distinct. */
  lemma {:induction false} WithoutRemovesOne(pool: seq<Peer>, sid: Sid)
    requires DistinctSids(pool)
    ensures DistinctSids(Without(pool, sid))
    ensures sid in Sids(pool) ==> |Without(pool, sid)| == |pool| - 1
  {
    if pool != [] {
      var rest := pool[1..];
      assert DistinctSids(rest) by {
        forall i, j | 0 <= i < |rest| && 0 <= j < |rest| && i != j
          ensures rest[i].sid != rest[j].sid
        {
          assert rest[i] == pool[i + 1] && rest[j] == pool[j + 1];
        }
      }
      WithoutRemovesOne(rest, sid);
      WithoutMembers(rest, sid);
      assert Sids(pool) == {pool[0].sid} + Sids(rest);
      assert pool[0].sid !in Sids(rest) by {
        forall p | p in rest ensures p.sid != pool[0].sid {
          var k :| 0 <= k < |rest| && rest[k] == p;
          assert pool[k + 1] == p;
        }
      }
      if pool[0].sid != sid {
        var w := Without(rest, sid);
        forall i, j | 0 <= i < |[pool[0]] + w| && 0 <= j < |[pool[0]] + w| && i != j
          ensures ([pool[0]] + w)[i].sid != ([pool[0]] + w)[j].sid
        {
          if i > 0 && j > 0 {
            assert ([pool[0]] + w)[i] == w[i - 1] && ([pool[0]] + w)[j] == w[j - 1];
          } else if i == 0 {
            assert ([pool[0]] + w)[j] in rest;
          } else {
            assert ([pool[0]] + w)[i] in rest;
          }
        }
      }
    }
  }

  /** Filtering keeps handles distinct. */
  lemma {:induction false} WithoutDistinctHandles(pool: seq<Peer>, sid: Sid)
    requires DistinctHandles(pool)
    ensures DistinctHandles(Without(pool, sid))
  {
    if pool != [] {
      var rest := pool[1..];
      assert DistinctHandles(rest) by {
        forall i, j | 0 <= i < |rest| && 0 <= j < |rest| && i != j
          ensures rest[i].handle != rest[j].handle
        {
          assert rest[i] == pool[i + 1] && rest[j] == pool[j + 1];
        }
      }
      WithoutDistinctHandles(rest, sid);
      WithoutMembers(rest, sid);
      if pool[0].sid != sid {
        var w := Without(rest, sid);
        forall i, j | 0 <= i < |[pool[0]] + w| && 0 <= j < |[pool[0]] + w| && i != j
          ensures ([pool[0]] + w)[i].handle != ([pool[0]] + w)[j].handle
        {
          if i > 0 && j > 0 {
            assert ([pool[0]] + w)[i] == w[i - 1] && ([pool[0]] + w)[j] == w[j - 1];
          } else {
            var k := if i == 0 then j else i;
            var p := ([pool[0]] + w)[k];
            assert p in rest;
            var m :| 0 <= m < |rest| && rest[m] == p;
            assert pool[m + 1] == p;
          }
        }
      }
    }
  }

  /** What one socket is sent over two stretches of the log is what it is sent over each. */
  lemma {:induction false} OutboxAppend(a: seq<Sent>, b: seq<Sent>, h: nat)
    ensures Outbox(a + b, h) == Outbox(a, h) + Outbox(b, h)
  {
    if b == [] {
      assert a + b == a;
    } else {
      var b' := b[..|b| - 1];
      assert (a + b)[..|a + b| - 1] == a + b';
      OutboxAppend(a, b', h);
    }
  }

  /** A socket that no send names receives nothing. */
  lemma {:induction false} OutboxAbsent(log: seq<Sent>, h: nat)
    requires forall x :: x in log ==> x.handle != h
    ensures Outbox(log, h) == []
  {
    if log != [] {
      OutboxAbsent(log[..|log| - 1], h);
    }
  }

  /** The schedule of one socket over two stretches of `pending` is the schedule over each. */
  lemma {:induction false} ScheduledAppend(a: seq<Deferred>, b: seq<Deferred>, h: nat)
    ensures Scheduled(a + b, h) == Scheduled(a, h) + Scheduled(b, h)
  {
    if b == [] {
      assert a + b == a;
    } else {
      var b' := b[..|b| - 1];
      assert (a + b)[..|a + b| - 1] == a + b';
      ScheduledAppend(a, b', h);
    }
  }

  /** A socket that no deferred send names has nothing scheduled. */
  lemma {:induction false} ScheduledAbsent(pending: seq<Deferred>, h: nat)
    requires forall d :: d in pending ==> d.handle != h
    ensures Scheduled(pending, h) == []
  {
    if pending != [] {
      ScheduledAbsent(pending[..|pending| - 1], h);
    }
  }

  /**
   * Replay schedules the stash, in stash order, for the new socket and for no
   * other socket; an empty stash schedules nothing.
   */
  lemma {:induction false} ReplayFollowsStash(h: nat, stash: seq<Payload>, other: nat)
    requires other != h
    ensures |Replay(h, stash)| == |stash|
    ensures Scheduled(Replay(h, stash), h) == stash
    ensures Scheduled(Replay(h, stash), other) == []
    ensures forall d :: d in Replay(h, stash) ==> d.handle == h
  {
    if stash != [] {
      var s' := stash[..|stash| - 1];
      ReplayFollowsStash(h, s', other);
      var r := Replay(h, stash);
      assert r[..|r| - 1] == Replay(h, s');
      assert stash == s' + [stash[|stash| - 1]];
    }
  }

  /** The fan-out makes one send per pool member, in pool order, each carrying the chunk. */
  lemma {:induction false} FanoutSends(pool: seq<Peer>, chunk: Payload)
    ensures |Fanout(pool, chunk)| == |pool|
    ensures forall i :: 0 <= i < |pool| ==> Fanout(pool, chunk)[i] == Sent(pool[i].handle, Data(chunk))
  {
    if pool != [] {
      var init := pool[..|pool| - 1];
      FanoutSends(init, chunk);
      assert forall i :: 0 <= i < |init| ==> init[i] == pool[i];
    }
  }

  /** Every send of the fan-out goes to a pool member and carries the chunk. */
  lemma FanoutTargetsPool(pool: seq<Peer>, chunk: Payload)
    ensures forall x :: x in Fanout(pool, chunk) ==> x.handle in Handles(pool) && x.frame == Data(chunk)
  {
    FanoutSends(pool, chunk);
    forall x | x in Fanout(pool, chunk) ensures x.handle in Handles(pool) && x.frame == Data(chunk) {
      var i :| 0 <= i < |Fanout(pool, chunk)| && Fanout(pool, chunk)[i] == x;
      assert pool[i] in pool;
    }
  }

  /** The handles of a pool grown by one peer. */
  lemma HandlesSnoc(init: seq<Peer>, last: Peer)
    ensures Handles(init + [last]) == Handles(init) + {last.handle}
  {
    assert forall p :: p in init + [last] <==> p in init || p == last;
  }

  /** With distinct handles, the last peer's handle is not among the earlier ones. */
  lemma LastHandleNew(pool: seq<Peer>)
    requires pool != [] && DistinctHandles(pool)
    ensures pool[|pool| - 1].handle !in Handles(pool[..|pool| - 1])
    ensures DistinctHandles(pool[..|pool| - 1])
  {
    var init := pool[..|pool| - 1];
    forall p | p in init ensures p.handle != pool[|pool| - 1].handle {
      var k :| 0 <= k < |init| && init[k] == p;
      assert pool[k] == p;
    }
    forall i, j | 0 <= i < |init| && 0 <= j < |init| && i != j
      ensures init[i].handle != init[j].handle
    {
      assert init[i] == pool[i] && init[j] == pool[j];
    }
  }

  /**
   * With distinct handles every pool member receives the chunk exactly once
   * from the fan-out, and no one else receives anything.
   */
  lemma {:induction false} FanoutReachesEachOnce(pool: seq<Peer>, chunk: Payload, h: nat)
    requires DistinctHandles(pool)
    ensures Outbox(Fanout(pool, chunk), h) == if h in Handles(pool) then [Data(chunk)] else []
  {
    if pool != [] {
      var init := pool[..|pool| - 1];
      var last := pool[|pool| - 1];
      LastHandleNew(pool);
      FanoutReachesEachOnce(init, chunk, h);
      assert pool == init + [last];
      HandlesSnoc(init, last);
      var f := Fanout(pool, chunk);
      assert f[..|f| - 1] == Fanout(init, chunk);
    }
  }

  /** Sending more never changes the first frame a socket was sent. */
  lemma {:induction false} OutboxExtend(a: seq<Sent>, b: seq<Sent>, h: nat)
    requires Outbox(a, h) != []
    ensures Outbox(a + b, h) != [] && Outbox(a + b, h)[0] == Outbox(a, h)[0]
  {
    OutboxAppend(a, b, h);
  }

  /** Appending a peer with a new handle keeps handles distinct, and keeps sids distinct when its sid is new. */
  lemma AppendPeer(pool: seq<Peer>, peer: Peer)
    requires DistinctHandles(pool)
    requires forall p :: p in pool ==> p.handle < peer.handle
    ensures DistinctHandles(pool + [peer])
    ensures DistinctSids(pool) && peer.sid !in Sids(pool) ==> DistinctSids(pool + [peer])
  {
    var q := pool + [peer];
    forall i, j | 0 <= i < |q| && 0 <= j < |q| && i != j
      ensures q[i].handle != q[j].handle
      ensures DistinctSids(pool) && peer.sid !in Sids(pool) ==> q[i].sid != q[j].sid
    {
      if i < |pool| && j < |pool| {
        assert q[i] == pool[i] && q[j] == pool[j];
      } else if i < |pool| {
        assert q[i] in pool;
      } else {
        assert q[j] in pool;
      }
    }
  }

  /**
   * The invariant of the conduit's state: `peers[h]` is the socket with handle
   * `h`, the pool holds distinct accepted sockets, every send names an
   * accepted socket, every socket was sent its handshake first, and while no
   * two connections shared a sid the pool size is connects minus closes.
   */
  ghost predicate Consistent(peers: seq<Peer>, pool: seq<Peer>, sent: seq<Sent>, pending: seq<Deferred>,
                             closes: nat, collided: bool)
  {
    (forall h :: 0 <= h < |peers| ==> peers[h].handle == h)
    && (forall p :: p in pool ==> p.handle < |peers| && peers[p.handle] == p)
    && DistinctHandles(pool)
    && (forall x :: x in sent ==> x.handle < |peers|)
    && (forall d :: d in pending ==> d.handle < |peers|)
    && (forall h :: 0 <= h < |peers| ==>
          Outbox(sent, h) != [] && Outbox(sent, h)[0] == Handshake(peers[h].sid))
    && |pool| + closes <= |peers|
    && (!collided ==> DistinctSids(pool) && |pool| + closes == |peers|)
  }

  /**
   * A connection keeps the conduit consistent, the new socket has been sent
   * exactly its handshake, and what is scheduled for it is the stash.
   */
  lemma ConnectConsistent(peers: seq<Peer>, pool: seq<Peer>, sent: seq<Sent>, pending: seq<Deferred>,
                          closes: nat, collided: bool, sid: Sid, stash: seq<Payload>, replay: seq<Deferred>)
    requires Consistent(peers, pool, sent, pending, closes, collided)
    requires replay == Replay(|peers|, stash)
    ensures var peer := Peer(|peers|, sid);
      Consistent(peers + [peer], pool + [peer], sent + [Sent(|peers|, Handshake(sid))], pending + replay,
                 closes, collided || sid in Sids(pool))
    ensures Outbox(sent + [Sent(|peers|, Handshake(sid))], |peers|) == [Handshake(sid)]
    ensures Scheduled(pending + replay, |peers|) == stash
  {
    var h := |peers|;
    var peer := Peer(h, sid);
    var handshake := [Sent(h, Handshake(sid))];
    ReplayFollowsStash(h, stash, h + 1);
    ScheduledAbsent(pending, h);
    ScheduledAppend(pending, replay, h);
    OutboxAbsent(sent, h);
    OutboxAppend(sent, handshake, h);
    forall k | 0 <= k < h
      ensures Outbox(sent + handshake, k) != [] && Outbox(sent + handshake, k)[0] == Outbox(sent, k)[0]
    {
      OutboxExtend(sent, handshake, k);
    }
    AppendPeer(pool, peer);
    var peers' := peers + [peer];
    assert forall p :: p in pool + [peer] ==> p.handle < |peers'| && peers'[p.handle] == p by {
      forall p | p in pool + [peer] ensures p.handle < |peers'| && peers'[p.handle] == p {
        if p in pool { assert peers'[p.handle] == peers[p.handle]; }
      }
    }
  }

  /**
   * A fan-out keeps the conduit consistent, and adds the chunk exactly once to
   * what each pool member was sent and nothing to what anyone else was sent.
   */
  lemma SendConsistent(peers: seq<Peer>, pool: seq<Peer>, sent: seq<Sent>, pending: seq<Deferred>,
                       closes: nat, collided: bool, chunk: Payload)
    requires Consistent(peers, pool, sent, pending, closes, collided)
    ensures Consistent(peers, pool, sent + Fanout(pool, chunk), pending, closes, collided)
    ensures forall h :: 0 <= h < |peers| ==>
      Outbox(sent + Fanout(pool, chunk), h) == Outbox(sent, h) + (if h in Handles(pool) then [Data(chunk)] else [])
  {
    var f := Fanout(pool, chunk);
    forall h | 0 <= h < |peers|
      ensures Outbox(sent + f, h) == Outbox(sent, h) + (if h in Handles(pool) then [Data(chunk)] else [])
    {
      OutboxAppend(sent, f, h);
      FanoutReachesEachOnce(pool, chunk, h);
    }
    FanoutTargetsPool(pool, chunk);
    forall x | x in sent + f ensures x.handle < |peers| {
      if x !in sent {
        assert x in f;
        var p :| p in pool && p.handle == x.handle;
      }
    }
  }

  /**
   * A deferred send firing keeps the conduit consistent and adds its payload
   * to what its socket was sent, and nothing to what any other socket was sent.
   */
  lemma TickConsistent(peers: seq<Peer>, pool: seq<Peer>, sent: seq<Sent>, pending: seq<Deferred>,
                       closes: nat, collided: bool)
    requires Consistent(peers, pool, sent, pending, closes, collided)
    requires pending != []
    ensures var d := pending[0];
      Consistent(peers, pool, sent + [Sent(d.handle, Data(d.payload))], pending[1..], closes, collided)
    ensures var d := pending[0];
      forall h :: 0 <= h < |peers| ==>
        Outbox(sent + [Sent(d.handle, Data(d.payload))], h)
          == Outbox(sent, h) + (if h == d.handle then [Data(d.payload)] else [])
  {
    var d := pending[0];
    var step := [Sent(d.handle, Data(d.payload))];
    forall h | 0 <= h < |peers|
      ensures Outbox(sent + step, h) == Outbox(sent, h) + (if h == d.handle then [Data(d.payload)] else [])
    {
      OutboxAppend(sent, step, h);
      assert step[..0] == [];
    }
    assert forall x :: x in pending[1..] ==> x in pending;
  }

  /**
   * The replay loop of the connection handler: one deferred send of each
   * stashed payload to socket `h`, in stash order, and none when the stash is
   * empty.
   */
  method ScheduleReplay(h: nat, stash: seq<Payload>) returns (replay: seq<Deferred>)
    ensures replay == Replay(h, stash)
    ensures |replay| == |stash|
    ensures forall i :: 0 <= i < |replay| ==> replay[i] == Deferred(h, stash[i])
  {
    replay := [];
    if |stash| > 0 {
      var i := 0;
      while i < |stash|
        invariant 0 <= i <= |stash|
        invariant replay == Replay(h, stash[..i])
        invariant |replay| == i
        invariant forall k :: 0 <= k < i ==> replay[k] == Deferred(h, stash[k])
      {
        assert stash[..i + 1][..i] == stash[..i];
        replay := replay + [Deferred(h, stash[i])];
        i := i + 1;
      }
    }
    assert stash[..|stash|] == stash;
  }

  /**
   * The conduit returned by `stream(opts)`: its closure state (`sock.pool`,
   * `stash`), the sockets' sends and the readable side of the through stream.
   */
  class Broadcaster {
    /** The connected peers, `sock.pool`. */
    var pool: seq<Peer>
    /** The replay history, `stash`. */
    var stash: seq<Payload>
    /** Every `ws.send` made so far, in order. */
    var sent: seq<Sent>
    /** Sends scheduled through `debounce` and not yet fired, in scheduling order. */
    var pending: seq<Deferred>
    /** The chunks queued on the readable side, in the order they were written. */
    var readable: seq<Payload>
    /** Whether `end` queued the end-of-stream marker. */
    var ended: bool

    /** Every socket ever accepted; `peers[h]` is the one with handle `h`. */
    var peers: seq<Peer>
    /** How many close events passed the pool assertion. */
    ghost var closes: nat
    /** Whether some connection was given a sid already present in the pool. */
    ghost var collided: bool

    ghost predicate Valid()
      reads this
    {
      Consistent(peers, pool, sent, pending, closes, collided)
    }

    /** `Valid` is `Consistent` of the current fields. */
    lemma ConsistentIsValid()
      requires Consistent(peers, pool, sent, pending, closes, collided)
      ensures Valid()
    {
    }

    /** `stream(opts)`: an empty pool, an empty stash, nothing queued. */
    constructor ()
      ensures Valid()
      ensures pool == [] && stash == [] && sent == [] && pending == [] && readable == []
      ensures !ended && peers == [] && closes == 0 && !collided
    {
      pool, stash, sent, pending, readable, ended := [], [], [], [], [], false;
      peers := [];
      closes, collided := 0, false;
    }

    /** The readable side's `write`: queues every chunk except `null`. */
    method Write(chunk: Option<Payload>)
      modifies this`readable
      ensures readable == old(readable) + (if chunk.Some? then [chunk.value] else [])
    {
      if chunk.Some? {
        readable := readable + [chunk.value];
      }
    }

    /** The readable side's `end`: queues the end-of-stream marker. */
    method End()
      modifies this`ended
      ensures ended
    {
      ended := true;
    }

    /** `stream.stash`: appends one payload to the replay history. */
    method Stash(chunk: Payload)
      modifies this`stash
      ensures stash == old(stash) + [chunk]
    {
      stash := stash + [chunk];
    }

    /**
     * The connection handler, for a socket that `sid()` gave the id `sid`:
     * appends the peer to the pool, sends it the handshake at once and
     * defers one send per stashed payload.
     */
    method Connect(sid: Sid) returns (peer: Peer)
      requires Valid()
      modifies this`peers, this`pool, this`sent, this`pending, this`collided
      ensures Valid()
      ensures peer == Peer(old(|peers|), sid) && peers == old(peers) + [peer]
      ensures pool == old(pool) + [peer]
      ensures sent == old(sent) + [Sent(peer.handle, Handshake(sid))]
      ensures Outbox(sent, peer.handle) == [Handshake(sid)]
      ensures pending == old(pending) + Replay(peer.handle, stash)
      ensures Scheduled(pending, peer.handle) == stash
      ensures collided == (old(collided) || sid in Sids(old(pool)))
    {
      var h := |peers|;
      peer := Peer(h, sid);
      var replay := ScheduleReplay(h, stash);
      var peers', pool', sent', pending' := peers + [peer], pool + [peer], sent + [Sent(h, Handshake(sid))], pending + replay;
      var collided' := collided || sid in Sids(pool);
      ConnectConsistent(peers, pool, sent, pending, closes, collided, sid, stash, replay);
      peers, pool, sent, pending, collided := peers', pool', sent', pending', collided';
      ConsistentIsValid();
    }

    /**
     * The message handler of one socket: hands the message to the conduit's
     * `write`, which queues it on the readable side.
     */
    method Receive(msg: Payload)
      modifies this`readable
      ensures readable == old(readable) + [msg]
    {
      Write(Some(msg));
    }

    /**
     * The close handler of `peer`: keeps the peers whose sid differs from
     * `peer.sid` and fails the assertion unless the pool shrank. A failed
     * assertion leaves the pool as it was, because the filter removed no one.
     */
    method Close(peer: Peer) returns (r: Result<(), CloseError>)
      requires Valid()
      modifies this
      ensures Valid()
      ensures r.Ok? <==> peer.sid in Sids(old(pool))
      ensures pool == Without(old(pool), peer.sid)
      ensures r.Err? ==> pool == old(pool) && closes == old(closes)
      ensures r.Ok? ==> closes == old(closes) + 1
      ensures r.Ok? && !collided ==> |pool| == old(|pool|) - 1
      ensures stash == old(stash) && sent == old(sent) && pending == old(pending)
      ensures readable == old(readable) && ended == old(ended)
      ensures peers == old(peers) && collided == old(collided)
    {
      var len := |pool|;
      WithoutMembers(pool, peer.sid);
      WithoutDistinctHandles(pool, peer.sid);
      if !collided {
        WithoutRemovesOne(pool, peer.sid);
      }
      pool := Without(pool, peer.sid);
      if |pool| < len {
        closes := closes + 1;
        r := Ok(());
      } else {
        r := Err(PoolDidNotShrink);
      }
    }

    /** `stream.send`: sends the chunk to every pool member, in pool order. */
    method Send(chunk: Payload)
      requires Valid()
      modifies this`sent
      ensures Valid()
      ensures sent == old(sent) + Fanout(pool, chunk)
      ensures forall h :: 0 <= h < |peers| ==>
        Outbox(sent, h) == Outbox(old(sent), h) + (if h in Handles(pool) then [Data(chunk)] else [])
    {
      var log := sent;
      var i := 0;
      while i < |pool|
        invariant 0 <= i <= |pool|
        invariant log == sent + Fanout(pool[..i], chunk)
      {
        assert pool[..i + 1][..i] == pool[..i];
        log := log + [Sent(pool[i].handle, Data(chunk))];
        i := i + 1;
      }
      assert pool[..i] == pool;
      SendConsistent(peers, pool, sent, pending, closes, collided, chunk);
      sent := log;
      ConsistentIsValid();
    }

    /** A deferred send fires: the oldest scheduled payload goes to its socket. */
    method Tick()
      requires Valid()
      requires pending != []
      modifies this`sent, this`pending
      ensures Valid()
      ensures sent == old(sent) + [Sent(old(pending)[0].handle, Data(old(pending)[0].payload))]
      ensures pending == old(pending)[1..]
      ensures forall h :: 0 <= h < |peers| ==>
        Outbox(sent, h) == Outbox(old(sent), h)
          + (if h == old(pending)[0].handle then [Data(old(pending)[0].payload)] else [])
    {
      var d := pending[0];
      TickConsistent(peers, pool, sent, pending, closes, collided);
      sent := sent + [Sent(d.handle, Data(d.payload))];
      pending := pending[1..];
    }
  }
}
