/**
 * The entry points of sockets.cpp and the stream half of handle_packet, working in place on the
 * socket graph. What each does to a stream socket is the function of the same name in StreamSocket.
 */
module Sockets {
  import opened AdbBase
  import opened SocketGraph
  import opened SocketLists
  import opened KernelLog
  import StreamSystem
  import S = StreamSocket

  type Packet = StreamSystem.Packet

  /** Packets sent through transport t. */
  function Tag(t: nat, ps: seq<Packet>): seq<(nat, Packet)> {
    if ps == [] then [] else [(t, ps[0])] + Tag(t, ps[1..])
  }

  /** What a close relies on: the socket's peer points back, and knows its transport if remote. */
  predicate Reachable(g: Graph, a: Addr) {
    && a in g.socks && Tied(g, a)
    && (g.socks[a].peer.Some? ==> var q := g.socks[g.socks[a].peer.value]; q.kind.Remote? ==> q.transport.Some?)
  }

  /** The CLSE that closing local socket a owes the far side. */
  function Farewell(g: Graph, a: Addr): seq<(nat, Packet)>
    requires a in g.socks
  {
    var s := g.socks[a];
    if IsLocal(s.kind) && s.peer.Some? && s.peer.value in g.socks then
      var q := g.socks[s.peer.value];
      if q.kind.Remote? && q.transport.Some? then
        [(q.transport.value, StreamSystem.Stream(s.id, q.id, S.Clse))]
      else []
    else []
  }

  /** What remote socket p sends on behalf of its peer. */
  function ToFar(g: Graph, p: Addr, m: S.Msg): seq<(nat, Packet)> {
    if p in g.socks && g.socks[p].transport.Some? && g.socks[p].peer.Some? && g.socks[p].peer.value in g.socks then
      [(g.socks[p].transport.value, StreamSystem.Stream(g.socks[g.socks[p].peer.value].id, g.socks[p].id, m))]
    else []
  }

  /** The packets msgs from stream socket a to its far end. */
  function FarMsgs(g: Graph, a: Addr, msgs: seq<S.Msg>): seq<(nat, Packet)>
    requires a in g.socks
  {
    if msgs == [] || g.socks[a].peer == None then []
    else ToFar(g, g.socks[a].peer.value, msgs[0]) + FarMsgs(g, a, msgs[1..])
  }

  lemma {:induction false} FarMsgsAppend(g: Graph, a: Addr, m: seq<S.Msg>, m': seq<S.Msg>)
    requires a in g.socks
    ensures FarMsgs(g, a, m + m') == FarMsgs(g, a, m) + FarMsgs(g, a, m')
  {
    if m == [] {
      assert m + m' == m';
    } else {
      assert (m + m')[1..] == m[1..] + m';
      FarMsgsAppend(g, a, m[1..], m');
    }
  }

  lemma OneFarMsg(g: Graph, a: Addr)
    requires Valid(g) && IsStream(g, a)
    ensures FarMsgs(g, a, [S.Clse]) == Farewell(g, a)
    ensures g.socks[a].peer.Some? ==> forall m :: FarMsgs(g, a, [m]) == ToFar(g, g.socks[a].peer.value, m)
  {
    assert Tied(g, a);
    if g.socks[a].peer.Some? {
      PeerSends(g, a);
      forall m ensures FarMsgs(g, a, [m]) == ToFar(g, g.socks[a].peer.value, m) {
        assert FarMsgs(g, a, [m][1..]) == [];
      }
    }
  }

  // ----- the event handler as a whole -----

  /** What local_socket_event_func comes to on a stream socket: StreamSocket.OnEvent. */
  predicate EventDone(g: Graph, g': Graph, a: Addr, ev: S.Event, w: S.Writes, r: S.Reads, m: nat, out: seq<(nat, Packet)>)
    requires IsStream(g, a)
  {
    var (x, msgs) := S.OnEvent(View(g, a), ev, w, r, m);
    && Valid(g') && OnlyTouched(g, g', a) && g'.socks.Keys <= g.socks.Keys
    && Became(g', a, x) && out == FarMsgs(g, a, msgs)
  }

  lemma StreamFacts(g: Graph, a: Addr)
    requires Valid(g) && IsStream(g, a)
    ensures a in g.socks && IsLocal(g.socks[a].kind) && Healthy(g.socks[a])
    ensures View(g, a) == RecordView(g.socks[a], View(g, a).peer)
    ensures g.socks[a].queue != [] && !g.socks[a].closing ==> g.socks[a].peer.Some?
  {
    assert Tied(g, a);
  }

  lemma TouchedTwice(g: Graph, g1: Graph, g': Graph, a: Addr)
    requires a in g.socks && a in g1.socks && g1.socks[a].peer == g.socks[a].peer && g1.socks.Keys == g.socks.Keys
    requires OnlyTouched(g, g1, a) && OnlyTouched(g1, g', a)
    ensures OnlyTouched(g, g', a)
  {
    KinTwice(g, g1, g');
    hide KinOrRemote;
    forall x | x in g.socks && x != a && Some(x) != g.socks[a].peer ensures x in g'.socks && g'.socks[x] == g.socks[x] {
      assert x in g1.socks && g1.socks[x] == g.socks[x];
    }
  }

  lemma SameTouches(g: Graph, a: Addr)
    requires a in g.socks
    ensures OnlyTouched(g, g, a)
  {
  }

  /** The write half of the handler has run, or was not called for, and the handler goes on. */
  predicate Halfway(g: Graph, g1: Graph, a: Addr, ev: S.Event, w: S.Writes)
    requires a in g.socks
  {
    if ev.write then DrainDone(g, g1, a, w, true) else g1 == g
  }

  lemma EventStops(g: Graph, g': Graph, a: Addr, ev: S.Event, w: S.Writes, r: S.Reads, m: nat)
    requires Valid(g) && IsStream(g, a) && ev.write && DrainDone(g, g', a, w, false)
    ensures Valid(g') && EventDone(g, g', a, ev, w, r, m, if a in g'.socks then [] else Farewell(g, a))
  {
    hide Valid, Farewell;
    OneFarMsg(g, a);
  }

  lemma EventGoesOn(g: Graph, g1: Graph, a: Addr, ev: S.Event, w: S.Writes, r: S.Reads, m: nat)
    requires Valid(g) && IsStream(g, a) && !ev.read
    requires Halfway(g, g1, a, ev, w)
    ensures Valid(g1) && EventDone(g, g1, a, ev, w, r, m, if ev.write then FarMsgs(g, a, [S.Okay]) else [])
  {
    hide Valid, Farewell;
    SameTouches(g, a);
  }

  /** The packets the FDE_READ half sends. */
  lemma ReadSends(g: Graph, a: Addr, r: S.Reads, m: nat)
    requires Valid(g) && IsStream(g, a) && |r.data| <= m && (r.eof ==> |r.data| < m)
    ensures FarMsgs(g, a, S.Read(View(g, a), r, m).1)
         == (if r.data != [] && g.socks[a].peer.Some? then FarMsgs(g, a, [S.Wrte(r.data)]) else [])
            + (if r.eof then Farewell(g, a) else [])
  {
    hide Valid, Farewell, ToFar;
    assert r.data[..|r.data|] == r.data;
    OneFarMsg(g, a);
    FarMsgsAppend(g, a, [S.Wrte(r.data)], [S.Clse]);
    if g.socks[a].peer == None {
      NoPeerNoFarewell(g, a);
    }
  }

  lemma NoPeerNoFarewell(g: Graph, a: Addr)
    requires a in g.socks && g.socks[a].peer == None
    ensures Farewell(g, a) == []
  {
  }

  /** The shape of StreamSocket.OnEvent when the handler reaches its read half. */
  lemma OnEventReads(v: S.Sock, x1: S.Sock, ev: S.Event, w: S.Writes, r: S.Reads, m: nat)
    requires ev.read
    requires if ev.write then S.Drain(v, w) == (x1, [S.Okay], true) else x1 == v
    ensures S.OnEvent(v, ev, w, r, m) == (S.Read(x1, r, m).0, (if ev.write then [S.Okay] else []) + S.Read(x1, r, m).1)
  {
  }

  lemma CloseMsgs(v: S.Sock, why: S.Cause)
    ensures S.Close(v, why).1 == if v.peer.Some? then [S.Clse] else []
  {
  }

  lemma ReadMsgs(v: S.Sock, x1: S.Sock, r: S.Reads, m: nat)
    requires x1.peer == v.peer
    ensures S.Read(x1, r, m).1 == S.Read(v, r, m).1
  {
    var d := r.data[..Min(|r.data|, m)];
    CloseMsgs(S.Handed(x1, d), S.HungUp);
    CloseMsgs(S.Handed(v, d), S.HungUp);
    hide S.Close;
  }

  lemma ReachesRead(g: Graph, g1: Graph, a: Addr, ev: S.Event, w: S.Writes)
    requires Valid(g) && IsStream(g, a)
    requires Halfway(g, g1, a, ev, w)
    ensures IsStream(g1, a) && View(g1, a).peer == View(g, a).peer && OnlyTouched(g, g1, a) && g1.socks[a].peer == g.socks[a].peer
    ensures if ev.write then S.Drain(View(g, a), w) == (View(g1, a), [S.Okay], true) else View(g1, a) == View(g, a)
  {
    hide Valid;
    SameTouches(g, a);
  }

  /** What the whole handler sends when it reaches its read half. */
  function EventSends(g: Graph, a: Addr, ev: S.Event, r: S.Reads): seq<(nat, Packet)>
    requires a in g.socks
  {
    (if ev.write then FarMsgs(g, a, [S.Okay]) else [])
    + (if r.data != [] && g.socks[a].peer.Some? then FarMsgs(g, a, [S.Wrte(r.data)]) else [])
    + (if r.eof then Farewell(g, a) else [])
  }

  lemma {:induction false} SendsTogether(g: Graph, a: Addr, ev: S.Event, r: S.Reads, before: seq<(nat, Packet)>)
    requires a in g.socks
    ensures before + (if ev.write then FarMsgs(g, a, [S.Okay]) else [])
              + (if r.data != [] && g.socks[a].peer.Some? then FarMsgs(g, a, [S.Wrte(r.data)]) else [])
              + (if r.eof then Farewell(g, a) else [])
         == before + EventSends(g, a, ev, r)
  {
    hide FarMsgs, Farewell;
  }

  lemma EventReadsMsgs(g: Graph, a: Addr, ev: S.Event, r: S.Reads, m: nat)
    requires Valid(g) && IsStream(g, a) && |r.data| <= m && (r.eof ==> |r.data| < m)
    ensures FarMsgs(g, a, (if ev.write then [S.Okay] else []) + S.Read(View(g, a), r, m).1) == EventSends(g, a, ev, r)
  {
    ReadSends(g, a, r, m);
    var ms := S.Read(View(g, a), r, m).1;
    FarMsgsAppend(g, a, if ev.write then [S.Okay] else [], ms);
    hide Valid, Farewell, FarMsgs, S.Read, View, IsStream;
    SeqAssoc(if ev.write then FarMsgs(g, a, [S.Okay]) else [],
             if r.data != [] && g.socks[a].peer.Some? then FarMsgs(g, a, [S.Wrte(r.data)]) else [],
             if r.eof then Farewell(g, a) else []);
    NoFarMsgs(g, a);
  }

  lemma NoFarMsgs(g: Graph, a: Addr)
    requires a in g.socks
    ensures FarMsgs(g, a, []) == []
  {
  }

  lemma {:induction false} SeqAssoc<T>(x: seq<T>, y: seq<T>, z: seq<T>)
    ensures x + y + z == x + (y + z)
  {
  }

  lemma EventReads(g: Graph, g1: Graph, g': Graph, a: Addr, ev: S.Event, w: S.Writes, r: S.Reads, m: nat)
    requires Valid(g) && IsStream(g, a) && ev.read && |r.data| <= m && (r.eof ==> |r.data| < m)
    requires Halfway(g, g1, a, ev, w)
    requires a in g1.socks && ReadDone(g1, g', a, r, m)
    ensures Valid(g') && EventDone(g, g', a, ev, w, r, m, EventSends(g, a, ev, r))
  {
    hide DrainDone, Valid, OnlyTouched, EventSends, FarMsgs, S.OnEvent, S.Read, View, IsStream, Halfway, SamePlace;
    StillInPlace(g, g1, a, ev, w);
    ReachesRead(g, g1, a, ev, w);
    OnEventReads(View(g, a), View(g1, a), ev, w, r, m);
    ReadMsgs(View(g, a), View(g1, a), r, m);
    EventReadsMsgs(g, a, ev, r, m);
    TouchedTwice(g, g1, g', a);
  }

  /** When the handler goes on to read, the socket's place in the graph is what it was. */
  lemma StillInPlace(g: Graph, g1: Graph, a: Addr, ev: S.Event, w: S.Writes)
    requires Valid(g) && IsStream(g, a)
    requires Halfway(g, g1, a, ev, w)
    ensures a in g1.socks && g1 == Put(g, a, g1.socks[a]) && SamePlace(g.socks[a], g1.socks[a])
    ensures Valid(g1) && g1.socks.Keys == g.socks.Keys && IsStream(g1, a)
  {
    PutPut(g, a, g.socks[a], g.socks[a]);
  }

  lemma SamePlaceSends(g: Graph, limits: map<nat, nat>, a: Addr, s: Asocket)
    requires Valid(g) && IsStream(g, a) && SamePlace(g.socks[a], s)
    ensures var g' := Put(g, a, s);
            && Farewell(g', a) == Farewell(g, a) && MaxPayloadOf(g', limits, a) == MaxPayloadOf(g, limits, a)
            && (s.peer.Some? ==> forall m :: ToFar(g', s.peer.value, m) == FarMsgs(g, a, [m]))
  {
    assert Tied(g, a);
    SameFarewell(g, a, s);
    OneFarMsg(g, a);
  }

  /** The same record but for flags, queue and history owes the same CLSE and can be closed. */
  lemma CanFailToo(g: Graph, a: Addr, s: Asocket)
    requires MidWrite(g, a, s)
    ensures var g' := Put(g, a, s.(hasWriteError := true));
            CanClose(g', a) && Reachable(g', a) && Farewell(g', a) == Farewell(g, a) && g'.socks.Keys == g.socks.Keys
  {
    CanFail(g, a, s.(hasWriteError := true));
    assert Tied(g, a);
  }

  /** A stream socket's peer can send for it. */
  lemma PeerSends(g: Graph, a: Addr)
    requires Valid(g) && IsStream(g, a) && g.socks[a].peer.Some?
    ensures var p := g.socks[a].peer.value;
            p in g.socks && g.socks[p].kind.Remote? && g.socks[p].transport.Some? && g.socks[p].peer == Some(a)
  {
    assert Tied(g, a) && Placed(g, g.socks[a].peer.value);
  }

  lemma SameFarewell(g: Graph, a: Addr, s: Asocket)
    requires Valid(g) && a in g.socks && SamePlace(g.socks[a], s)
    ensures Farewell(Put(g, a, s), a) == Farewell(g, a)
    ensures Tied(Put(g, a, s), a) ==> Reachable(Put(g, a, s), a)
  {
    assert Tied(g, a);
    if s.peer.Some? {
      assert Placed(g, s.peer.value);
    }
  }

  /** asocket::get_max_payload. */
  function MaxPayloadOf(g: Graph, limits: map<nat, nat>, a: Addr): nat
    requires a in g.socks
  {
    var s := g.socks[a];
    var m := if s.transport.Some? && s.transport.value in limits then Min(MAX_PAYLOAD, limits[s.transport.value]) else MAX_PAYLOAD;
    if s.peer.Some? && s.peer.value in g.socks && g.socks[s.peer.value].transport.Some?
       && g.socks[s.peer.value].transport.value in limits
    then Min(m, limits[g.socks[s.peer.value].transport.value]) else m
  }

  /** Every listed socket not bound to t is still listed, as it was, and not bound. */
  ghost predicate Spared(g: Graph, g': Graph, t: nat) {
    forall a :: a in g.mainList && a in g.socks && !Bound(g, a, t) ==>
                  a in g'.mainList && a in g'.socks && g'.socks[a] == g.socks[a] && !Bound(g', a, t)
  }

  lemma ListedFacts(g: Graph, a: Addr, t: nat)
    requires Valid(g) && a in g.mainList
    ensures a in g.socks && CanClose(g, a) && Reachable(g, a) && Homed(g)
    ensures g.socks[a].peer.Some? ==> g.socks[a].peer.value in g.socks
    ensures var s := g.socks[a];
            Bound(g, a, t) <==> s.transport == Some(t) || (s.peer.Some? && g.socks[s.peer.value].transport == Some(t))
  {
    ValidCanClose(g, a);
    AlmostHomed(g, {}, {});
    if g.socks[a].peer.Some? {
      assert Placed(g, g.socks[a].peer.value);
    }
  }

  /** Closing a bound socket keeps the graph sound, shortens the list and spares the others. */
  lemma BoundGoes(g0: Graph, g: Graph, a: Addr, t: nat)
    requires Valid(g) && a in g.mainList && Bound(g, a, t) && Spared(g0, g, t) && CanClose(g, a)
    ensures Tied(g, a)
    ensures var g' := CloseGraph(g, a, S.HungUp);
            Valid(g') && |g'.mainList| < |g.mainList| && g'.socks.Keys <= g.socks.Keys && Spared(g0, g', t)
  {
    CloseKeeps(g, a, S.HungUp);
    CloseEffect(g, a, S.HungUp);
    hide Valid, CanClose, CloseGraph, Bound;
    forall x | x in g.mainList && !Bound(g, x, t)
      ensures var g' := CloseGraph(g, a, S.HungUp);
              x in g'.mainList && x in g'.socks && g'.socks[x] == g.socks[x] && !Bound(g', x, t)
    {
      CloseSpares(g, CloseGraph(g, a, S.HungUp), a, t, x);
    }
  }

  /** rest is what remains of the queue after its first n bytes: draining it goes on where the queue stands. */
  ghost predicate Undrained(queue: seq<Bytes>, rest: seq<Bytes>, n: nat) {
    && n + |Flat(rest)| == |Flat(queue)| && Flat(rest) == Flat(queue)[n..]
    && forall k: nat :: S.DropBytes(rest, k) == S.DropBytes(queue, n + k)
  }

  lemma {:induction false} UndrainedMore(queue: seq<Bytes>, head: Bytes, tail: seq<Bytes>, n: nat, r: nat)
    requires Undrained(queue, [head] + tail, n) && 0 < r <= |head|
    ensures Undrained(queue, [head[r..]] + tail, n + r)
  {
    assert ([head] + tail)[1..] == tail && ([head[r..]] + tail)[1..] == tail;
    forall k: nat ensures S.DropBytes([head[r..]] + tail, k) == S.DropBytes(queue, n + r + k) {
      assert S.DropBytes([head] + tail, r + k) == S.DropBytes(queue, n + (r + k));
      assert r + k < |head| ==> head[r..][k..] == head[r + k..];
    }
  }

  lemma {:induction false} UndrainedNext(queue: seq<Bytes>, head: Bytes, tail: seq<Bytes>, n: nat)
    requires Undrained(queue, [head] + tail, n) && head == []
    ensures Undrained(queue, tail, n)
  {
    assert ([head] + tail)[0] == head && ([head] + tail)[1..] == tail;
    forall k: nat ensures S.DropBytes(tail, k) == S.DropBytes(queue, n + k) {
      assert S.DropBytes([head] + tail, k) == S.DropBytes(queue, n + k);
    }
  }

  lemma {:induction false} UndrainedNow(queue: seq<Bytes>, rest: seq<Bytes>, n: nat)
    requires Undrained(queue, rest, n) && rest != [] && rest[0] != []
    ensures n < |Flat(queue)| && rest == S.DropBytes(queue, n)
  {
    assert S.DropBytes(rest, 0) == S.DropBytes(queue, n + 0);
    assert [rest[0][0..]] + rest[1..] == rest;
  }

  lemma {:induction false} UndrainedEnd(queue: seq<Bytes>, n: nat)
    requires Undrained(queue, [], n)
    ensures n == |Flat(queue)|
  {
  }

  /** A pointer that has gone i sockets along the main list. */
  ghost predicate At(g: Graph, n: Node, i: int) {
    0 <= i <= |g.mainList| && n == NodeAt(Node.Main, g.mainList, i + 1)
  }

  /** next of the i-th node of the main list. */
  lemma {:induction false} StepAlong(links: Links, main: seq<Addr>, closing: seq<Addr>, i: nat)
    requires Spells(links, main, closing) && i <= |main|
    ensures Get(links, NodeAt(Node.Main, main, i)).next == Some(NodeAt(Node.Main, main, i + 1))
  {
    assert Joined(links, NodeAt(Node.Main, main, i), NodeAt(Node.Main, main, i + 1));
  }

  /** A socket not closing is not on the closing list. */
  lemma LiveNotClosing(g: Graph, a: Addr)
    requires Homed(g) && a in g.socks && IsLocal(g.socks[a].kind) && !g.socks[a].closing
    ensures a in g.mainList && a !in g.closingList && Without(g.closingList, a) == g.closingList
  {
    NotThere(g.closingList, a);
  }

  lemma CanCloseHomed(g: Graph, a: Addr)
    requires CanClose(g, a)
    ensures Homed(g)
  {
    AlmostHomed(g, {a}, {});
  }

  lemma RetireLive(g: Graph, a: Addr, why: S.Cause)
    requires a in g.socks && IsLocal(g.socks[a].kind) && !Dies(g.socks[a])
    ensures var s := g.socks[a].(closing := true, reading := false, cut := Cut(g.socks[a], why));
            Retire(g, a, why) == Graph(g.socks[a := s][a := s.(id := 0)], Without(g.mainList, a), g.closingList + [a], g.nextId)
  {
    var s := g.socks[a].(closing := true, reading := false, cut := Cut(g.socks[a], why));
    assert g.socks[a := s][a := s.(id := 0)] == g.socks[a := s.(id := 0)];
  }

  lemma UndrainedStart(queue: seq<Bytes>)
    ensures Undrained(queue, queue, 0)
  {
    assert Flat(queue)[0..] == Flat(queue);
  }

  /** The next bytes to go out are the first of the packet at the head. */
  lemma {:induction false} UndrainedHead(queue: seq<Bytes>, head: Bytes, tail: seq<Bytes>, n: nat, r: nat)
    requires Undrained(queue, [head] + tail, n) && r <= |head|
    ensures n + r <= |Flat(queue)| && head[..r] == Flat(queue)[n..n + r]
  {
    assert Flat([head] + tail) == head + Flat(tail);
    var rest := Flat(queue)[n..];
    assert rest[..r] == head[..r] && rest[..r] == Flat(queue)[n..n + r];
  }

  /** In a loop of good answers the kernel has taken the first n bytes of all. */
  ghost predicate Passed(before: seq<Answer>, now: seq<Answer>, all: Bytes, n: nat) {
    && before <= now && n <= |all|
    && var log := Since(before, now);
       OneLoop(log) && Given(log) == all[..n] && !Ended(log) && forall k :: 0 <= k < |log| ==> Good(log[k])
  }

  lemma {:induction false} PassedMore(before: seq<Answer>, now: seq<Answer>, all: Bytes, n: nat, a: Answer)
    requires Passed(before, now, all, n) && Sound(a) && Good(a) && n + a.r <= |all| && a.data == all[n..n + a.r]
    ensures Passed(before, now + [a], all, n + a.r)
  {
    hide Given, Since, OneLoop, Ended, Blocked;
    OneMore(before, now, a);
    assert all[..n] + all[n..n + a.r] == all[..n + a.r];
  }

  lemma {:induction false} PassedEnds(before: seq<Answer>, now: seq<Answer>, all: Bytes, n: nat, a: Answer)
    requires Passed(before, now, all, n) && Sound(a) && !Good(a)
    ensures before <= now + [a]
    ensures var log := Since(before, now + [a]);
            OneLoop(log) && Given(log) == all[..n] && (Ended(log) <==> a.r != EAGAIN) && (Blocked(log) <==> a.r == EAGAIN)
  {
    hide Given, Since, OneLoop, Ended, Blocked;
    OneMore(before, now, a);
    assert all[..n] + [] == all[..n];
  }

  lemma PassedAll(before: seq<Answer>, now: seq<Answer>, all: Bytes, n: nat)
    requires Passed(before, now, all, n)
    ensures var log := Since(before, now); OneLoop(log) && Given(log) == all[..n] && !Ended(log)
  {
  }

  /** What a run of adb_write calls came to, by its answers. */
  function WritesOf(log: seq<Answer>): S.Writes { S.Writes(|Given(log)|, Ended(log)) }

  function ReadsOf(log: seq<Answer>): S.Reads { S.Reads(Given(log), Ended(log)) }

  /** Destroyed, or on the closing list. */
  predicate Closed(g: Graph, a: Addr) { a !in g.socks || g.socks[a].closing }

  /** What the write half has written, and whether the handler goes on to read. */
  ghost predicate WritesFit(g: Graph, a: Addr, ev: S.Event, w: S.Writes, goOn: bool)
    requires IsStream(g, a)
  {
    if ev.write then (w.failed ==> w.n < |Flat(g.socks[a].queue)|) && goOn == S.Drain(View(g, a), w).2
    else !w.failed && goOn
  }

  /** The socket closes exactly if a write was refused or its data has ended. */
  lemma EventCloses(g: Graph, g': Graph, a: Addr, ev: S.Event, w: S.Writes, r: S.Reads, m: nat,
                    goOn: bool, out: seq<(nat, Packet)>)
    requires Valid(g) && IsStream(g, a) && (ev.write ==> g.socks[a].writing) && EventDone(g, g', a, ev, w, r, m, out)
    requires WritesFit(g, a, ev, w, goOn) && (r.eof ==> ev.read && goOn && |r.data| < m)
    ensures Closed(g', a) <==> Closed(g, a) || r.eof || w.failed
  {
    hide Valid, OnlyTouched, FarMsgs, S.OnEvent, S.Drain;
    S.EventDies(View(g, a), ev, w, r, m);
  }

  lemma DrainSound(g: Graph, g': Graph, a: Addr, w: S.Writes, goOn: bool)
    requires a in g.socks && DrainDone(g, g', a, w, goOn)
    ensures Valid(g')
  {
  }

  lemma DrainTells(g: Graph, g': Graph, a: Addr, w: S.Writes, goOn: bool)
    requires IsStream(g, a) && DrainDone(g, g', a, w, goOn)
    ensures goOn == S.Drain(View(g, a), w).2
  {
  }

  lemma PeerIsThere(g: Graph, a: Addr)
    requires Valid(g) && a in g.socks
    ensures g.socks[a].peer.Some? ==> g.socks[a].peer.value in g.socks
  {
    assert Tied(g, a);
  }

  class SocketLayer {
    /** The sockets, what the two lists spell, and the id counter. */
    var g: Graph
    /** The prev and next pointers of the sockets and of the two list heads. */
    var links: Links
    /** max_payload of each transport. */
    var limits: map<nat, nat>
    /** Packets given to send_packet, with their transports. */
    var sent: seq<(nat, Packet)>
    /** The next address the allocator hands out. */
    var heapTop: Addr
    ghost var freed: set<Addr>
    /** The kernel's answers so far; only AdbRead and AdbWrite add to them. */
    ghost var readLog: seq<Answer>
    ghost var writeLog: seq<Answer>

    ghost predicate Ok()
      reads this
    {
      Valid(g) && Allocated() && Below(Used()) && Strung()
    }

    /** The pointers form two circular lists, which spell the sequences in g. */
    ghost predicate Strung()
      reads this`g, this`links
    {
      Spells(links, g.mainList, g.closingList)
    }

    ghost predicate Below(addrs: set<Addr>)
      reads this`heapTop
    {
      forall a :: a in addrs ==> a < heapTop
    }

    /** Memory is either in use or freed, never both. */
    ghost predicate Allocated()
      reads this
    {
      freed !! g.socks.Keys
    }

    ghost function Used(): set<Addr>
      reads this
    {
      freed + g.socks.Keys
    }

    constructor ()
      ensures Ok() && g == Graph(map[], [], [], 1) && sent == [] && freed == {}
    {
      g, limits, sent, heapTop := Graph(map[], [], [], 1), map[], [], 1;
      links := SocketLists.EMPTY;
      freed := {};
      EmptySpells();
    }

    // ----- closing -----

    method SendPacket(t: nat, p: Packet)
      modifies this`sent
      ensures sent == old(sent) + [(t, p)]
    {
      sent := sent + [(t, p)];
    }

    /** No socket is freed twice: what is freed is there. */
    method Free(a: Addr)
      requires a in g.socks && Allocated()
      modifies this`g, this`freed
      ensures g == old(g).(socks := Forget(old(g).socks, a))
      ensures freed == old(freed) + {a} && Allocated()
    {
      g := g.(socks := Forget(g.socks, a));
      freed := freed + {a};
    }

    method RemoteSocketShutdown(a: Addr)
      requires a in g.socks && g.socks[a].kind.Remote? && g.socks[a].transport.Some?
      requires g.socks[a].peer.Some? ==> g.socks[a].peer.value in g.socks
      modifies this`sent
      ensures var s := g.socks[a];
              var from := if s.peer.Some? then g.socks[s.peer.value].id else 0;
              sent == old(sent) + [(s.transport.value, StreamSystem.Stream(from, s.id, S.Clse))]
    {
      var s := g.socks[a];
      var from := if s.peer.Some? then g.socks[s.peer.value].id else 0;
      SendPacket(s.transport.value, StreamSystem.Stream(from, s.id, S.Clse));
    }

    /** s->close(s): dispatch on the close function the socket carries. `why` only feeds the history. */
    method Close(a: Addr, why: S.Cause)
      requires a in g.socks && Allocated() && Strung() && Homed(g)
      requires g.socks[a].peer.Some? ==> Reachable(g, a)
      modifies this`g, this`links, this`sent, this`freed
      ensures g == CloseGraph(old(g), a, why) && sent == old(sent) + Farewell(old(g), a)
      ensures Used() == old(Used()) && Allocated() && old(freed) <= freed && Strung() && Homed(g)
      decreases if g.socks[a].peer.Some? then 1 else 0, 1
    {
      hide Spells, ListsOk, Homed;
      match g.socks[a].kind
      case Local => LocalSocketClose(a, why);
      case LocalNotify =>
        var s := g.socks[a];
        HomedStays(g, a);
        g := g.(socks := g.socks[a := s.(kind := Local, notices := s.notices + [false])]);
        LocalSocketClose(a, why);
      case Remote => RemoteSocketClose(a, why);
      case Smart => RemoteSocketClose(a, why);
    }

    /** remote_socket_close; smart_socket_close differs only in dropping a half-read request. */
    method RemoteSocketClose(a: Addr, why: S.Cause)
      requires a in g.socks && Allocated() && Strung() && Homed(g) && !IsLocal(g.socks[a].kind)
      requires g.socks[a].peer.Some? ==> Reachable(g, a)
      modifies this`g, this`links, this`sent, this`freed
      ensures g == CloseGraph(old(g), a, why) && sent == old(sent)
      ensures Used() == old(Used()) && Allocated() && old(freed) <= freed && Strung() && Homed(g)
      decreases if g.socks[a].peer.Some? then 1 else 0, 0
    {
      hide Spells, ListsOk, Homed;
      if g.socks[a].peer.Some? {
        var p := g.socks[a].peer.value;
        HomedStays(g, p);
        g := Unpeered(g, p);
        Close(p, S.ByPeer);
        RemoteCloseGraph(old(g), a, p, why);
      }
      HomedStays(g, a);
      Free(a);
    }

    /** insert_local_socket: to the end of the list, before its head. */
    method InsertLocalSocket(a: Addr, head: Node)
      requires Strung() && a !in g.mainList && a !in g.closingList && !head.Sock?
      modifies this`g, this`links
      ensures Strung()
      ensures g == if head.Main? then old(g).(mainList := old(g).mainList + [a])
                   else old(g).(closingList := old(g).closingList + [a])
    {
      InsertSpells(links, g.mainList, g.closingList, a);
      var s := Sock(a);
      links := SetNext(links, s, Some(head));
      links := SetPrev(links, s, Get(links, head).prev);
      links := SetNext(links, Get(links, s).prev.value, Some(s));
      links := SetPrev(links, head, Some(s));
      if head.Main? {
        g := g.(mainList := g.mainList + [a]);
      } else {
        g := g.(closingList := g.closingList + [a]);
      }
    }

    /** remove_socket: nothing happens to a socket that is on no list. */
    method RemoveSocket(a: Addr)
      requires a in g.socks && Strung()
      modifies this`g, this`links
      ensures Strung() && links == Remove(old(links), a)
      ensures var listed := a in old(g).mainList || a in old(g).closingList;
              g == Graph(if listed then old(g).socks[a := old(g).socks[a].(id := 0)] else old(g).socks,
                         Without(old(g).mainList, a), Without(old(g).closingList, a), old(g).nextId)
    {
      RemoveSpells(links, g.mainList, g.closingList, a);
      OnAListIff(links, g.mainList, g.closingList, a);
      hide Spells;
      var s := Sock(a);
      if Get(links, s).prev.Some? && Get(links, s).next.Some? {
        links := SetNext(links, Get(links, s).prev.value, Get(links, s).next);
        links := SetPrev(links, Get(links, s).next.value, Get(links, s).prev);
        links := SetNext(links, s, None);
        links := SetPrev(links, s, None);
        g := g.(socks := g.socks[a := g.socks[a].(id := 0)]);
      }
      g := g.(mainList := Without(g.mainList, a), closingList := Without(g.closingList, a));
    }

    method LocalSocketDestroy(a: Addr)
      requires a in g.socks && Allocated() && Strung()
      modifies this`g, this`links, this`freed
      ensures g == Graph(Forget(old(g).socks, a), Without(old(g).mainList, a), Without(old(g).closingList, a), old(g).nextId)
      ensures freed == old(freed) + {a} && Allocated() && Strung()
    {
      hide Spells;
      RemoveSocket(a);
      Free(a);
      assert Forget(old(g).socks[a := old(g).socks[a].(id := 0)], a) == Forget(old(g).socks, a);
    }

    /** The second half of local_socket_close, once the peer is gone. */
    method LocalSocketRetire(a: Addr, why: S.Cause)
      requires a in g.socks && Allocated() && Strung() && Homed(g) && g.socks[a].kind.Local?
      modifies this`g, this`links, this`freed
      ensures g == Retire(old(g), a, why)
      ensures Used() == old(Used()) && Allocated() && old(freed) <= freed && Strung() && Homed(g)
    {
      hide Spells, ListsOk, Homed, Without;
      RetireHomed(g, a, why);
      var s := g.socks[a];
      if s.closing || s.hasWriteError || s.queue == [] {
        LocalSocketDestroy(a);
      } else {
        LiveNotClosing(g, a);
        RetireLive(g, a, why);
        g := g.(socks := g.socks[a := s.(closing := true, reading := false, cut := Cut(s, why))]);
        RemoveSocket(a);
        InsertLocalSocket(a, Node.Closing);
      }
    }

    method LocalSocketClose(a: Addr, why: S.Cause)
      requires a in g.socks && Allocated() && Strung() && Homed(g) && g.socks[a].kind.Local?
      requires g.socks[a].peer.Some? ==> Reachable(g, a)
      modifies this`g, this`links, this`sent, this`freed
      ensures g == CloseGraph(old(g), a, why) && sent == old(sent) + Farewell(old(g), a)
      ensures Used() == old(Used()) && Allocated() && old(freed) <= freed && Strung() && Homed(g)
      decreases if g.socks[a].peer.Some? then 1 else 0, 0
    {
      hide Spells, ListsOk, Homed;
      if g.socks[a].peer.Some? {
        var p := g.socks[a].peer.value;
        if g.socks[p].kind.Remote? {
          RemoteSocketShutdown(p);
        }
        LocalCloseGraph(g, a, p, why);
        HomedStays(g, p);
        g := Unpeered(g, p);
        Close(p, S.ByPeer);
        HomedStays(g, a);
        g := Unpeered(g, a);
      }
      LocalSocketRetire(a, why);
    }

    // ----- the lists -----

    method FindLocalSocket(localId: nat, peerId: nat) returns (r: Option<Addr>)
      requires Ok()
      ensures r.Some? ==>
                && r.value in g.mainList && r.value in g.socks && g.socks[r.value].id == localId
                && (peerId == 0 || (var q := g.socks[r.value].peer; q.Some? && q.value in g.socks && g.socks[q.value].id == peerId))
      ensures r == None ==>
                forall a :: a in g.mainList && a in g.socks && g.socks[a].id == localId ==>
                  peerId != 0 && (var q := g.socks[a].peer; q.Some? ==> q.value in g.socks && g.socks[q.value].id != peerId)
    {
      hide Spells;
      r := None;
      StepAlong(links, g.mainList, g.closingList, 0);
      var n := Get(links, Node.Main).next.value;
      ghost var i := 0;
      while n != Node.Main
        invariant At(g, n, i)
        invariant r == None && forall k :: 0 <= k < i ==> g.socks[g.mainList[k]].id != localId
        decreases |g.mainList| - i
      {
        var a := n.a;
        assert a == g.mainList[i] && Tied(g, a);
        if g.socks[a].id == localId {
          if peerId == 0 || (g.socks[a].peer.Some? && g.socks[g.socks[a].peer.value].id == peerId) {
            r := Some(a);
          }
          return;
        }
        StepAlong(links, g.mainList, g.closingList, i + 1);
        n := Get(links, n).next.value;
        i := i + 1;
      }
    }

    /** close_all_sockets: start over after every close, since a close may take two sockets off the list. */
    method CloseAllSockets(t: nat)
      requires Ok()
      modifies this`g, this`links, this`sent, this`freed
      ensures Ok() && old(freed) <= freed
      ensures forall a :: a in g.mainList ==> !Bound(g, a, t)
      ensures Spared(old(g), g, t)
    {
      hide Valid, CanClose, Reachable, CloseGraph, Bound, Farewell, Tied, Spells, Homed;
      StepAlong(links, g.mainList, g.closingList, 0);
      var n := Get(links, Node.Main).next.value;
      ghost var i := 0;
      while n != Node.Main
        invariant Ok() && old(freed) <= freed && At(g, n, i)
        invariant forall k :: 0 <= k < i ==> !Bound(g, g.mainList[k], t)
        invariant Spared(old(g), g, t)
        decreases |g.mainList|, |g.mainList| - i
      {
        var a := n.a;
        ListedFacts(g, a, t);
        var s := g.socks[a];
        if s.transport == Some(t) || (s.peer.Some? && g.socks[s.peer.value].transport == Some(t)) {
          BoundGoes(old(g), g, a, t);
          Close(a, S.HungUp);
          StepAlong(links, g.mainList, g.closingList, 0);
          n, i := Get(links, Node.Main).next.value, 0;
        } else {
          StepAlong(links, g.mainList, g.closingList, i + 1);
          n, i := Get(links, n).next.value, i + 1;
        }
      }
    }

    // ----- data -----

    /** adb_write: a count, 0, EAGAIN or an error, as the kernel pleases. */
    method AdbWrite(data: Bytes) returns (r: int)
      modifies this`writeLog
      ensures EIO <= r <= |data|
      ensures writeLog == old(writeLog) + [Answer(if r > 0 then data[..r] else [], r)]
    {
      r :| EIO <= r <= |data|;
      writeLog := writeLog + [Answer(if r > 0 then data[..r] else [], r)];
    }

    /** The write loop: adb_write until everything is out, the fd would block, or it fails. */
    method WriteOut(data: Bytes) returns (n: nat, rest: Bytes, broken: bool)
      modifies this`writeLog
      ensures n <= |data| && rest == data[n..] && (broken ==> rest != [])
      ensures old(writeLog) <= writeLog
      ensures var log := Since(old(writeLog), writeLog);
              && OneLoop(log) && Given(log) == data[..n] && (broken <==> Ended(log))
              && (rest != [] && !broken ==> Blocked(log))
    {
      hide Given, Ended, Blocked, OneLoop, Since;
      n, rest, broken := 0, data, false;
      NothingSince(writeLog);
      while |rest| > 0
        invariant n <= |data| && rest == data[n..] && !broken && old(writeLog) <= writeLog
        invariant var log := Since(old(writeLog), writeLog);
                  && OneLoop(log) && Given(log) == data[..n] && !Ended(log)
                  && forall k :: 0 <= k < |log| ==> Good(log[k])
      {
        ghost var before := writeLog;
        var r := AdbWrite(rest);
        ghost var took := Answer(if r > 0 then rest[..r] else [], r);
        assert Sound(took);
        OneMore(old(writeLog), before, took);
        if r > 0 {
          assert data[..n] + rest[..r] == data[..n + r];
          n, rest := n + r, rest[r..];
        } else {
          assert data[..n] + [] == data[..n];
          broken := r != EAGAIN;
          return;
        }
      }
    }

    /** The record at a is written back. */
    method Store(a: Addr, s: Asocket)
      requires Ok() && a in g.socks && Valid(Put(g, a, s))
      modifies this`g
      ensures Ok() && g == Put(old(g), a, s) && Used() == old(Used())
    {
      hide Valid;
      g := Put(g, a, s);
      assert g.socks.Keys == old(g).socks.Keys;
    }

    /** A write has failed, leaving the record as s: the socket closes without waiting for its backlog. */
    method FailSock(a: Addr, s: Asocket)
      requires Ok() && MidWrite(g, a, s)
      modifies this`g, this`links, this`sent, this`freed
      ensures Ok() && g == FailedGraph(old(g), a, s) && a !in g.socks
      ensures sent == old(sent) + Farewell(old(g), a) && Used() == old(Used())
    {
      hide Valid, CanClose, FailedGraph, Farewell, CloseGraph, MidWrite, Reachable, Spells, Homed, Tied, SamePlace;
      CanFailToo(g, a, s);
      FailedIs(g, a, s);
      CanCloseHomed(Put(g, a, s.(hasWriteError := true)), a);
      g := Put(g, a, s.(hasWriteError := true));
      assert Used() == old(Used());
      Close(a, S.WriteError);
    }

    /** local_socket_enqueue: what a backlog keeps waiting is not offered to the fd, anything else is as far as it goes. */
    method LocalSocketEnqueue(a: Addr, data: Bytes) returns (r: int, ghost w: S.Writes)
      requires Ok() && a in g.mainList && a in g.socks && g.socks[a].peer.Some?
      modifies this`g, this`links, this`sent, this`freed, this`writeLog
      ensures if old(g).socks[a].queue != [] then writeLog == old(writeLog)
              else Exhausted(w.n, |data|, Since(old(writeLog), writeLog))
      ensures EnqueueDone(old(g), g, a, data, w, r) && EnqueueMade(old(g), g, a, data, w, r) && Ok()
      ensures old(writeLog) <= writeLog && w == WritesOf(Since(old(writeLog), writeLog))
      ensures sent == old(sent) + (if a in g.socks then [] else Farewell(old(g), a))
    {
      hide EnqueueDone, EnqueueMade, Farewell, MidWrite, FailedGraph, Valid, Enqueued, Given, Ended, Since, Spells;
      var s := g.socks[a];
      if s.queue != [] {
        NothingSince(writeLog);
        EnqueuedBoth(g, a, data, 0);
        Store(a, s.(queue := s.queue + [data], writing := true));
        return 1, S.Writes(0, false);
      }
      r, w := EnqueueWrite(a, data);
    }

    /** The write loop of local_socket_enqueue and what follows it. */
    method EnqueueWrite(a: Addr, data: Bytes) returns (r: int, ghost w: S.Writes)
      requires Ok() && a in g.mainList && a in g.socks && g.socks[a].peer.Some? && g.socks[a].queue == []
      modifies this`g, this`links, this`sent, this`freed, this`writeLog
      ensures Exhausted(w.n, |data|, Since(old(writeLog), writeLog))
      ensures EnqueueDone(old(g), g, a, data, w, r) && EnqueueMade(old(g), g, a, data, w, r) && Ok()
      ensures old(writeLog) <= writeLog && w == WritesOf(Since(old(writeLog), writeLog))
      ensures sent == old(sent) + (if a in g.socks then [] else Farewell(old(g), a))
    {
      hide EnqueueDone, EnqueueMade, Farewell, MidWrite, FailedGraph, Valid, Enqueued, Given, Ended, Since, Blocked, OneLoop, Spells;
      var s := g.socks[a];
      var n, rest, broken := WriteOut(data);
      w := S.Writes(n, broken);
      if broken {
        EnqueueBreaks(g, a, data, n);
        FailSock(a, s.(put := s.put + data[..n]));
        return 1, w;
      }
      EnqueuedBoth(g, a, data, n);
      if |rest| == 0 {
        Store(a, s.(put := s.put + data));
        return 0, w;
      }
      Store(a, s.(put := s.put + data[..n], queue := [rest], writing := true));
      return 1, w;
    }

    // ----- fd events -----

    /** The nested write loops of the FDE_WRITE half: packet by packet, each from where it stands. */
    method DrainOut(queue: seq<Bytes>) returns (n: nat, rest: seq<Bytes>, broken: bool)
      modifies this`writeLog
      ensures n <= |Flat(queue)|
      ensures rest == [] ==> n == |Flat(queue)| && !broken
      ensures rest != [] ==> n < |Flat(queue)| && rest == S.DropBytes(queue, n)
      ensures old(writeLog) <= writeLog
      ensures var log := Since(old(writeLog), writeLog);
              && OneLoop(log) && Given(log) == Flat(queue)[..n] && (broken <==> Ended(log))
              && (rest != [] && !broken ==> Blocked(log))
    {
      hide S.DropBytes, Given, Ended, Blocked, OneLoop, Since, Undrained;
      n, rest, broken := 0, queue, false;
      NothingSince(writeLog);
      UndrainedStart(queue);
      while rest != []
        invariant Undrained(queue, rest, n) && !broken && n <= |Flat(queue)|
        invariant Passed(old(writeLog), writeLog, Flat(queue), n)
        decreases |rest|
      {
        var head := rest[0];
        var tail := rest[1..];
        assert [head] + tail == rest;
        while |head| > 0
          invariant Undrained(queue, [head] + tail, n) && n <= |Flat(queue)|
          invariant Passed(old(writeLog), writeLog, Flat(queue), n)
        {
          ghost var before := writeLog;
          var r := AdbWrite(head);
          ghost var took := Answer(if r > 0 then head[..r] else [], r);
          if r <= 0 {
            rest := [head] + tail;
            UndrainedNow(queue, rest, n);
            PassedEnds(old(writeLog), before, Flat(queue), n, took);
            broken := r != EAGAIN;
            return;
          }
          UndrainedHead(queue, head, tail, n, r);
          PassedMore(old(writeLog), before, Flat(queue), n, took);
          UndrainedMore(queue, head, tail, n, r);
          n, head := n + r, head[r..];
        }
        UndrainedNext(queue, head, tail, n);
        rest := tail;
      }
      UndrainedEnd(queue, n);
      PassedAll(old(writeLog), writeLog, Flat(queue), n);
    }

    method RemoteSocketReady(p: Addr)
      requires p in g.socks && g.socks[p].kind.Remote? && g.socks[p].transport.Some?
      requires g.socks[p].peer.Some? && g.socks[p].peer.value in g.socks
      modifies this`sent
      ensures sent == old(sent) + ToFar(g, p, S.Okay)
    {
      SendPacket(g.socks[p].transport.value, StreamSystem.Stream(g.socks[g.socks[p].peer.value].id, g.socks[p].id, S.Okay));
    }

    method RemoteSocketEnqueue(p: Addr, data: Bytes)
      requires p in g.socks && g.socks[p].kind.Remote? && g.socks[p].transport.Some?
      requires g.socks[p].peer.Some? && g.socks[p].peer.value in g.socks
      modifies this`sent
      ensures sent == old(sent) + ToFar(g, p, S.Wrte(data))
    {
      SendPacket(g.socks[p].transport.value, StreamSystem.Stream(g.socks[g.socks[p].peer.value].id, g.socks[p].id, S.Wrte(data)));
    }

    /** The FDE_WRITE half of local_socket_event_func on a stream socket. */
    method EventDrain(a: Addr) returns (goOn: bool, ghost w: S.Writes)
      requires Ok() && IsStream(g, a) && g.socks[a].writing
      modifies this`g, this`links, this`sent, this`freed, this`writeLog
      ensures old(writeLog) <= writeLog && w == WritesOf(Since(old(writeLog), writeLog))
      ensures w.n <= |Flat(old(g).socks[a].queue)| && (w.failed ==> w.n < |Flat(old(g).socks[a].queue)|)
      ensures Exhausted(w.n, |Flat(old(g).socks[a].queue)|, Since(old(writeLog), writeLog))
      ensures DrainDone(old(g), g, a, w, goOn) && Allocated() && Strung() && Used() == old(Used())
      ensures goOn ==> old(g).socks[a].peer.Some? && sent == old(sent) + ToFar(old(g), old(g).socks[a].peer.value, S.Okay)
      ensures !goOn ==> sent == old(sent) + (if a in g.socks then [] else Farewell(old(g), a))
    {
      hide DrainDone, Homed, Spells, Given, Ended, Blocked, OneLoop, Since, MidWrite, FailedGraph, Farewell, ToFar, View;
      hide Valid, CanClose, CloseGraph, S.DropBytes;
      var s := g.socks[a];
      DrainFacts(g, a);
      var n, rest, broken := DrainOut(s.queue);
      w := S.Writes(n, broken);
      if broken {
        DrainBreaks(g, a, n);
        FailSock(a, Drained(s, n, rest));
        return false, w;
      }
      if rest != [] {
        DrainBlocks(g, a, n);
        DrainSound(g, Put(g, a, Drained(s, n, rest)), a, w, false);
        Store(a, Drained(s, n, rest));
        return false, w;
      }
      if s.closing {
        NoPeerNoFarewell(g, a);
        DrainLast(a, n);
        return false, w;
      }
      DrainEmpties(g, a, n);
      DrainSound(g, Put(g, a, Drained(s, n, []).(writing := false)), a, w, true);
      PeerSends(g, a);
      RemoteSocketReady(s.peer.value);
      Store(a, Drained(s, n, []).(writing := false));
      return true, w;
    }

    /** A closing socket has sent its last packet. */
    method DrainLast(a: Addr, n: nat)
      requires Valid(g) && Allocated() && Strung() && IsStream(g, a) && g.socks[a].writing && g.socks[a].closing
      requires n == |Flat(g.socks[a].queue)|
      modifies this`g, this`links, this`sent, this`freed
      ensures DrainDone(old(g), g, a, S.Writes(n, false), false) && Allocated() && Strung() && Used() == old(Used())
      ensures sent == old(sent) + Farewell(old(g), a)
    {
      DrainFinishes(g, a, n);
      var s := Drained(g.socks[a], n, []);
      SameFarewell(g, a, s);
      g := Put(g, a, s);
      Close(a, S.Drained);
    }

    /** adb_read: some bytes, or 0, EAGAIN or an error, as the kernel pleases. */
    method AdbRead(len: nat) returns (data: Bytes, r: int)
      modifies this`readLog
      ensures |data| <= len && EIO <= r && (if r > 0 then |data| == r else data == [])
      ensures readLog == old(readLog) + [Answer(data, r)]
    {
      data := *;
      if |data| > len {
        data := data[..len];
      }
      if data == [] {
        r :| EIO <= r <= 0;
      } else {
        r := |data|;
      }
      readLog := readLog + [Answer(data, r)];
    }

    /** The read loop: up to maxPayload bytes, until the fd would block, ends or fails. */
    method ReadIn(maxPayload: nat) returns (data: Bytes, eof: bool)
      modifies this`readLog
      ensures |data| <= maxPayload && (eof ==> |data| < maxPayload)
      ensures old(readLog) <= readLog
      ensures var log := Since(old(readLog), readLog);
              && OneLoop(log) && Given(log) == data && (eof <==> Ended(log))
              && (|data| < maxPayload && !eof ==> Blocked(log)) && Exhausted(|data|, maxPayload, log)
    {
      hide Given, Ended, Blocked, OneLoop, Since;
      data, eof := [], false;
      NothingSince(readLog);
      while |data| < maxPayload
        invariant |data| <= maxPayload && !eof && old(readLog) <= readLog
        invariant var log := Since(old(readLog), readLog);
                  && OneLoop(log) && Given(log) == data && !Ended(log)
                  && forall k :: 0 <= k < |log| ==> Good(log[k])
      {
        ghost var before := readLog;
        var chunk, r := AdbRead(maxPayload - |data|);
        OneMore(old(readLog), before, Answer(chunk, r));
        if r > 0 {
          data := data + chunk;
        } else {
          assert data + [] == data;
          eof := r != EAGAIN;
          return;
        }
      }
    }

    /** The FDE_READ half. With no peer what was read is dropped. */
    method EventRead(a: Addr, maxPayload: nat) returns (ghost r: S.Reads)
      requires Ok() && IsStream(g, a)
      modifies this`g, this`links, this`sent, this`freed, this`readLog
      ensures old(readLog) <= readLog && r == ReadsOf(Since(old(readLog), readLog))
      ensures Exhausted(|r.data|, maxPayload, Since(old(readLog), readLog))
      ensures ReadDone(old(g), g, a, r, maxPayload) && Allocated() && Strung() && Used() == old(Used())
      ensures |r.data| <= maxPayload && (r.eof ==> |r.data| < maxPayload)
      ensures sent == old(sent)
                + (if r.data != [] && old(g).socks[a].peer.Some? then ToFar(old(g), old(g).socks[a].peer.value, S.Wrte(r.data)) else [])
                + (if r.eof then Farewell(old(g), a) else [])
    {
      hide ReadDone, CanClose, OnlyTouched, Tied, Valid, Farewell, Homed, Spells, ToFar, ReadRecord, CloseGraph, SamePlace, Healthy;
      hide Given, Ended, Blocked, OneLoop, Since;
      var s := g.socks[a];
      var data, eof := ReadIn(maxPayload);
      r := S.Reads(data, eof);
      if data != [] && s.peer.Some? {
        PeerSends(g, a);
        RemoteSocketEnqueue(s.peer.value, data);
      }
      ReadStays(g, a, data, maxPayload);
      ReadPlace(g, a, data);
      SameFarewell(g, a, ReadRecord(s, data));
      if eof {
        ReadEnds(g, a, data, maxPayload);
        CanCloseHomed(Put(g, a, ReadRecord(s, data)), a);
        g := Put(g, a, ReadRecord(s, data));
        Close(a, S.HungUp);
      } else {
        g := Put(g, a, ReadRecord(s, data));
      }
    }

    /** asocket::get_max_payload: the least of the constant and the limits of the two transports. */
    method GetMaxPayload(a: Addr) returns (m: nat)
      requires a in g.socks && (g.socks[a].peer.Some? ==> g.socks[a].peer.value in g.socks)
      ensures m <= MAX_PAYLOAD && forall t :: Bound(g, a, t) && t in limits ==> m <= limits[t]
      ensures m == MAX_PAYLOAD || exists t :: Bound(g, a, t) && t in limits && m == limits[t]
      ensures m == MaxPayloadOf(g, limits, a)
    {
      var s := g.socks[a];
      m := MAX_PAYLOAD;
      if s.transport.Some? && s.transport.value in limits {
        m := Min(m, limits[s.transport.value]);
      }
      if s.peer.Some? && g.socks[s.peer.value].transport.Some? && g.socks[s.peer.value].transport.value in limits {
        m := Min(m, limits[g.socks[s.peer.value].transport.value]);
      }
    }

    /** local_socket_event_func on a stream socket; fdevent reports FDE_WRITE only where it is wanted. */
    method LocalSocketEventFunc(a: Addr, ev: S.Event)
      returns (ghost w: S.Writes, ghost r: S.Reads, ghost out: seq<(nat, Packet)>)
      requires Ok() && IsStream(g, a) && (ev.write ==> g.socks[a].writing)
      modifies this`g, this`links, this`sent, this`freed, this`readLog, this`writeLog
      ensures Ok() && sent == old(sent) + out
      ensures EventDone(old(g), g, a, ev, w, r, MaxPayloadOf(old(g), limits, a), out)
      ensures old(readLog) <= readLog && r == ReadsOf(Since(old(readLog), readLog))
      ensures old(writeLog) <= writeLog && w == WritesOf(Since(old(writeLog), writeLog))
      ensures var (read, written) := (Since(old(readLog), readLog), Since(old(writeLog), writeLog));
              Closed(g, a) <==> Closed(old(g), a) || Ended(read) || Ended(written)
      ensures if ev.write then Exhausted(w.n, |Flat(old(g).socks[a].queue)|, Since(old(writeLog), writeLog))
              else writeLog == old(writeLog)
      ensures if ev.read && (ev.write ==> S.Drain(View(old(g), a), w).2)
              then Exhausted(|r.data|, MaxPayloadOf(old(g), limits, a), Since(old(readLog), readLog))
              else readLog == old(readLog)
    {
      hide Given, Ended, Blocked, OneLoop, Since, Exhausted;
      NothingSince(readLog);
      hide EventDone, DrainDone, Halfway, Valid, IsStream, Farewell, FarMsgs, MaxPayloadOf, EventSends;
      hide SamePlace, Put, View, Healthy, OnlyTouched, WritesFit, Closed;
      StreamFacts(g, a);
      ghost var m0 := MaxPayloadOf(g, limits, a);
      var goOn;
      goOn, w, out := EventWriteHalf(a, ev);
      r := S.Reads([], false);
      if goOn && ev.read {
        r := EventReadOn(old(g), a, ev, w, old(sent));
        out := EventSends(old(g), a, ev, r);
      } else if goOn {
        EventGoesOn(old(g), g, a, ev, w, r, m0);
      } else {
        EventStops(old(g), g, a, ev, w, r, m0);
      }
      EventCloses(old(g), g, a, ev, w, r, m0, goOn, out);
    }

    method EventWriteHalf(a: Addr, ev: S.Event) returns (goOn: bool, ghost w: S.Writes, ghost out: seq<(nat, Packet)>)
      requires Ok() && IsStream(g, a) && (ev.write ==> g.socks[a].writing)
      modifies this`g, this`links, this`sent, this`freed, this`writeLog
      ensures old(writeLog) <= writeLog && w == WritesOf(Since(old(writeLog), writeLog))
      ensures WritesFit(old(g), a, ev, w, goOn)
      ensures if ev.write then Exhausted(w.n, |Flat(old(g).socks[a].queue)|, Since(old(writeLog), writeLog))
              else writeLog == old(writeLog)
      ensures goOn <==> (ev.write ==> S.Drain(View(old(g), a), w).2)
      ensures Allocated() && Strung() && Used() == old(Used()) && sent == old(sent) + out
      ensures goOn ==> Halfway(old(g), g, a, ev, w) && out == (if ev.write then FarMsgs(old(g), a, [S.Okay]) else [])
      ensures !goOn ==> ev.write && DrainDone(old(g), g, a, w, false)
      ensures !goOn ==> out == (if a in g.socks then [] else Farewell(old(g), a))
    {
      hide DrainDone, Valid, IsStream, OnlyTouched, Farewell, ToFar, FarMsgs, View, Healthy, Given, Ended, Since;
      NothingSince(writeLog);
      StreamFacts(g, a);
      OneFarMsg(g, a);
      goOn, w, out := true, S.Writes(0, false), [];
      if ev.write {
        goOn, w := EventDrain(a);
        DrainTells(old(g), g, a, w, goOn);
        out := if goOn then FarMsgs(old(g), a, [S.Okay]) else if a in g.socks then [] else Farewell(old(g), a);
      }
    }

    /** The handler has come to its read half. */
    method EventReadOn(ghost g0: Graph, a: Addr, ev: S.Event, ghost w: S.Writes, ghost sent0: seq<(nat, Packet)>)
      returns (ghost r: S.Reads)
      requires Allocated() && Strung() && Below(Used()) && Valid(g0) && IsStream(g0, a) && ev.read && Halfway(g0, g, a, ev, w)
      requires sent == sent0 + (if ev.write then FarMsgs(g0, a, [S.Okay]) else [])
      modifies this`g, this`links, this`sent, this`freed, this`readLog
      ensures old(readLog) <= readLog && r == ReadsOf(Since(old(readLog), readLog))
      ensures var m := MaxPayloadOf(g0, limits, a); |r.data| <= m && (r.eof ==> |r.data| < m)
      ensures Exhausted(|r.data|, MaxPayloadOf(g0, limits, a), Since(old(readLog), readLog))
      ensures Valid(g) && Allocated() && Strung() && Used() == old(Used())
      ensures sent == sent0 + EventSends(g0, a, ev, r)
      ensures EventDone(g0, g, a, ev, w, r, MaxPayloadOf(g0, limits, a), EventSends(g0, a, ev, r))
    {
      hide EventDone, ReadDone, Valid, IsStream, Farewell, ToFar, FarMsgs, MaxPayloadOf, Halfway, EventSends;
      hide SamePlace, Put, View, Healthy, Given, Ended, Blocked, Since;
      StreamFacts(g0, a);
      StillInPlace(g0, g, a, ev, w);
      SamePlaceSends(g0, limits, a, g.socks[a]);
      PeerIsThere(g, a);
      var m := GetMaxPayload(a);
      r := EventRead(a, m);
      EventReads(g0, old(g), g, a, ev, w, r, m);
      SendsTogether(g0, a, ev, r, sent0);
    }
  }
}
