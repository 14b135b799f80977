/**
 * The socket graph, edited in place, carries out the endpoints of StreamSystem: every step of a socket
 * layer is a step of the endpoint it represents. So what is proved of all runs of StreamSystem holds of
 * two socket layers that exchange packets.
 */
module EndpointRefinement {
  import opened AdbBase
  import opened SocketGraph
  import opened Sockets
  import opened AdbPackets
  import S = StreamSocket
  import SP = StreamPair
  import StreamSystem

  /** The id each local socket was given, which the record of a closing socket no longer shows. */
  type Names = map<Addr, nat>

  predicate Named(g: Graph, ids: Names, a: Addr, i: nat) {
    a in g.socks && IsLocal(g.socks[a].kind) && a in ids && ids[a] == i
  }

  /** Every socket is one end of a stream, or stands for the far end of one on transport t. */
  predicate Streaming(g: Graph, a: Addr, t: nat) {
    IsStream(g, a) || (a in g.socks && g.socks[a].kind.Remote? && g.socks[a].transport == Some(t))
  }

  predicate Shown(e: StreamSystem.Endpoint, g: Graph, ids: Names, a: Addr) {
    && a in ids && ids[a] in e.socks && IsStream(g, a) && e.socks[ids[a]] == View(g, a)
    && (a in g.mainList ==> ids[a] == g.socks[a].id)
  }

  /** Every local socket is there under its id, no two under one. */
  ghost predicate AllShown(e: StreamSystem.Endpoint, g: Graph, ids: Names) {
    && (forall a :: a in g.socks && IsLocal(g.socks[a].kind) ==> Shown(e, g, ids, a))
    && (forall a, b, i :: Named(g, ids, a, i) && Named(g, ids, b, i) ==> a == b)
  }

  /** The endpoint has nothing else but sockets that were freed. */
  ghost predicate NothingElse(e: StreamSystem.Endpoint, g: Graph, ids: Names) {
    && (forall i :: i in e.socks ==> 1 <= i < e.nextId && S.SockInv(e.socks[i]))
    && (forall i :: i in e.socks && !e.socks[i].status.Freed? ==> exists a :: Named(g, ids, a, i))
  }

  /** Endpoint e is what graph g amounts to. */
  ghost predicate Represents(e: StreamSystem.Endpoint, g: Graph, ids: Names, t: nat) {
    && e.nextId == g.nextId < TWO_32
    && (forall a :: a in g.socks ==> Streaming(g, a, t))
    && AllShown(e, g, ids) && NothingElse(e, g, ids)
  }

  lemma OnMainList(g: Graph, a: Addr)
    requires Valid(g) && a in g.socks && IsLocal(g.socks[a].kind)
    ensures a in g.mainList <==> !g.socks[a].closing
  {
    assert Placed(g, a);
  }

  /** The socket a stream socket speaks through. */
  lemma FarSocket(g: Graph, a: Addr)
    requires Valid(g) && IsStream(g, a) && g.socks[a].peer.Some?
    ensures var q := g.socks[a].peer.value; q in g.socks && g.socks[q].kind.Remote? && g.socks[q].peer == Some(a)
  {
    assert Tied(g, a);
  }

  /** A step of a leaves every other stream socket as it was, and so its view. */
  lemma OthersSame(g: Graph, g': Graph, a: Addr, x: Addr)
    requires Valid(g) && Valid(g') && IsStream(g, a) && OnlyTouched(g, g', a)
    requires IsStream(g, x) && x != a
    ensures x in g'.socks && g'.socks[x] == g.socks[x] && IsStream(g', x) && View(g', x) == View(g, x)
    ensures x in g'.mainList <==> x in g.mainList
  {
    if g.socks[a].peer.Some? {
      FarSocket(g, a);
    }
    if g.socks[x].peer.Some? {
      FarSocket(g, x);
    }
    assert x in g'.socks && g'.socks[x] == g.socks[x];
    assert Tied(g', x);
    OnMainList(g, x);
    OnMainList(g', x);
    hide Valid, RecordView, Tied;
  }

  lemma NewRemotes(g: Graph, g': Graph, t: nat, x: Addr)
    requires KinOrRemote(g, g') && NewOn(g, g', t) && x in g'.socks && (x in g.socks ==> Streaming(g, x, t))
    requires x !in g.socks || !IsLocal(g.socks[x].kind)
    ensures Streaming(g', x, t) && !IsLocal(g'.socks[x].kind)
  {
  }

  lemma SelfSame(g: Graph, g': Graph, a: Addr)
    requires Valid(g) && Valid(g') && IsStream(g, a) && OnlyTouched(g, g', a) && a in g'.socks
    ensures IsLocal(g'.socks[a].kind) && (a in g'.mainList ==> a in g.mainList && g'.socks[a].id == g.socks[a].id)
  {
    OnMainList(g, a);
    OnMainList(g', a);
    hide Valid;
  }

  /** The endpoint after the socket with id i has become x. */
  function With(e: StreamSystem.Endpoint, i: nat, x: S.Sock): StreamSystem.Endpoint {
    StreamSystem.Endpoint(e.nextId, e.socks[i := x])
  }

  lemma NamesStay(g: Graph, g': Graph, a: Addr, x: Addr)
    requires IsStream(g, a) && OnlyTouched(g, g', a) && x in g'.socks && IsLocal(g'.socks[x].kind)
    ensures x in g.socks && IsLocal(g.socks[x].kind)
  {
  }

  lemma SelfShown(e: StreamSystem.Endpoint, g: Graph, g': Graph, ids: Names, a: Addr, x: S.Sock)
    requires Valid(g) && Valid(g') && IsStream(g, a) && OnlyTouched(g, g', a) && a in g'.socks
    requires Shown(e, g, ids, a) && Became(g', a, x)
    ensures Shown(With(e, ids[a], x), g', ids, a)
  {
    SelfSame(g, g', a);
    hide Valid, View, OnlyTouched, IsStream;
  }

  lemma OtherShown(e: StreamSystem.Endpoint, g: Graph, g': Graph, ids: Names, a: Addr, i: nat, x: S.Sock, b: Addr)
    requires Valid(g) && Valid(g') && IsStream(g, a) && OnlyTouched(g, g', a)
    requires Shown(e, g, ids, b) && b != a && i != ids[b]
    ensures Shown(With(e, i, x), g', ids, b)
  {
    OthersSame(g, g', a, b);
    hide Valid, View, OnlyTouched, IsStream;
  }

  lemma ShownStays(e: StreamSystem.Endpoint, g: Graph, g': Graph, ids: Names, a: Addr, x: S.Sock, b: Addr)
    requires Valid(g) && Valid(g') && IsStream(g, a) && OnlyTouched(g, g', a)
    requires AllShown(e, g, ids) && a in ids && Became(g', a, x)
    requires b in g'.socks && IsLocal(g'.socks[b].kind)
    ensures Shown(With(e, ids[a], x), g', ids, b)
  {
    NamesStay(g, g', a, b);
    hide Valid, View, OnlyTouched, Became, With;
    assert Shown(e, g, ids, a) && Shown(e, g, ids, b);
    if b == a {
      SelfShown(e, g, g', ids, a, x);
    } else {
      assert Named(g, ids, a, ids[a]) && Named(g, ids, b, ids[b]);
      OtherShown(e, g, g', ids, a, ids[a], x, b);
    }
  }

  lemma AllShownStays(e: StreamSystem.Endpoint, g: Graph, g': Graph, ids: Names, a: Addr, x: S.Sock)
    requires Valid(g) && Valid(g') && IsStream(g, a) && OnlyTouched(g, g', a)
    requires AllShown(e, g, ids) && a in ids && Became(g', a, x)
    ensures AllShown(With(e, ids[a], x), g', ids)
  {
    hide Valid, OnlyTouched, Became, With, Shown, IsStream;
    forall b | b in g'.socks && IsLocal(g'.socks[b].kind) ensures Shown(With(e, ids[a], x), g', ids, b) {
      ShownStays(e, g, g', ids, a, x, b);
    }
    forall b, c, i | Named(g', ids, b, i) && Named(g', ids, c, i) ensures b == c {
      NamesStay(g, g', a, b);
      NamesStay(g, g', a, c);
      assert Named(g, ids, b, i) && Named(g, ids, c, i);
    }
  }

  lemma LiveStays(e: StreamSystem.Endpoint, g: Graph, g': Graph, ids: Names, a: Addr, x: S.Sock, i: nat)
    requires Valid(g) && Valid(g') && IsStream(g, a) && OnlyTouched(g, g', a)
    requires AllShown(e, g, ids) && NothingElse(e, g, ids) && a in ids && Became(g', a, x)
    requires i in With(e, ids[a], x).socks && !With(e, ids[a], x).socks[i].status.Freed?
    ensures exists b :: Named(g', ids, b, i)
  {
    if i == ids[a] {
      assert Named(g', ids, a, i);
    } else {
      var b :| Named(g, ids, b, i);
      assert Shown(e, g, ids, b);
      OthersSame(g, g', a, b);
      assert Named(g', ids, b, i);
    }
  }

  lemma StreamsStay(e: StreamSystem.Endpoint, g: Graph, g': Graph, ids: Names, t: nat, a: Addr)
    requires KinOrRemote(g, g') && NewOn(g, g', t) && AllShown(e, g', ids)
    requires forall b :: b in g.socks ==> Streaming(g, b, t)
    ensures forall b :: b in g'.socks ==> Streaming(g', b, t)
  {
    hide KinOrRemote, NewOn, View;
    forall b | b in g'.socks ensures Streaming(g', b, t) {
      if b !in g.socks || !IsLocal(g.socks[b].kind) {
        NewRemotes(g, g', t, b);
      } else {
        StaysLocal(g, g', b);
      }
    }
  }

  lemma StaysLocal(g: Graph, g': Graph, x: Addr)
    requires KinOrRemote(g, g') && x in g.socks && x in g'.socks
    ensures IsLocal(g'.socks[x].kind) == IsLocal(g.socks[x].kind)
  {
  }

  /** A step of stream socket a, which becomes x, is that step of the endpoint. */
  lemma Advanced(e: StreamSystem.Endpoint, g: Graph, g': Graph, ids: Names, t: nat, a: Addr, x: S.Sock)
    requires Valid(g) && Valid(g') && IsStream(g, a) && OnlyTouched(g, g', a) && NewOn(g, g', t)
    requires Represents(e, g, ids, t) && Became(g', a, x) && S.SockInv(x)
    ensures a in ids && ids[a] in e.socks && e.socks[ids[a]] == View(g, a)
    ensures Represents(With(e, ids[a], x), g', ids, t)
  {
    assert Shown(e, g, ids, a);
    hide Valid, View, S.SockInv, Streaming, Became, NewOn, KinOrRemote, IsStream, AllShown;
    AllShownStays(e, g, g', ids, a, x);
    StreamsStay(With(e, ids[a], x), g, g', ids, t, a);
    forall i | i in With(e, ids[a], x).socks && !With(e, ids[a], x).socks[i].status.Freed?
      ensures exists b :: Named(g', ids, b, i)
    {
      LiveStays(e, g, g', ids, a, x, i);
    }
  }

  // ----- fd events -----

  /** Packets from socket i to its far end, if it has one. */
  lemma {:induction false} FarMsgsTagged(g: Graph, a: Addr, t: nat, msgs: seq<S.Msg>)
    requires Valid(g) && IsStream(g, a) && g.socks[a].peer.Some? && g.socks[g.socks[a].peer.value].transport == Some(t)
    ensures FarMsgs(g, a, msgs) == Tag(t, StreamSystem.Wrap(g.socks[a].id, View(g, a).peer.value, msgs))
  {
    FarSocket(g, a);
    hide Valid;
    if msgs != [] {
      FarMsgsTagged(g, a, t, msgs[1..]);
      var ps := StreamSystem.Wrap(g.socks[a].id, View(g, a).peer.value, msgs);
      assert ps[1..] == StreamSystem.Wrap(g.socks[a].id, View(g, a).peer.value, msgs[1..]);
    }
  }

  /** The same for any stream socket of a represented graph. */
  lemma {:induction false} Speaks(e: StreamSystem.Endpoint, g: Graph, ids: Names, t: nat, a: Addr, msgs: seq<S.Msg>, other: nat)
    requires Valid(g) && IsStream(g, a) && Represents(e, g, ids, t) && a in ids
    requires View(g, a).peer == None ==> msgs == []
    ensures var p := View(g, a).peer;
            FarMsgs(g, a, msgs) == Tag(t, StreamSystem.Wrap(ids[a], if p.Some? then p.value else other, msgs))
  {
    assert Shown(e, g, ids, a);
    if g.socks[a].peer.Some? {
      FarSocket(g, a);
      assert Streaming(g, g.socks[a].peer.value, t);
      FarMsgsTagged(g, a, t, msgs);
      assert Tied(g, a);
      StreamPeerListed(g, a);
    }
  }

  lemma StreamPeerListed(g: Graph, a: Addr)
    requires Valid(g) && IsStream(g, a) && g.socks[a].peer.Some?
    ensures a in g.mainList
  {
    assert Placed(g, a);
  }

  /** local_socket_event_func ran for stream socket a. */
  ghost predicate Fired(g: Graph, g': Graph, a: Addr, ev: S.Event, w: S.Writes, r: S.Reads, m: nat,
                        out: seq<(nat, StreamSystem.Packet)>)
  {
    IsStream(g, a) && (ev.write ==> g.socks[a].writing) && EventDone(g, g', a, ev, w, r, m, out)
  }

  /** The left endpoint has done in one step of the system what took g to g', sending ps. */
  ghost predicate Followed(s: StreamSystem.System, s': StreamSystem.System, g': Graph, ids': Names, t: nat,
                           ps: seq<StreamSystem.Packet>)
  {
    Represents(s'.l, g', ids', t) && s'.r == s.r && s'.lr == s.lr + ps
  }

  lemma {:induction false} EventSimulated(s: StreamSystem.System, g: Graph, g': Graph, ids: Names, t: nat, a: Addr,
                                          ev: S.Event, w: S.Writes, r: S.Reads, m: nat, out: seq<(nat, StreamSystem.Packet)>)
    returns (ps: seq<StreamSystem.Packet>)
    requires Valid(g) && Valid(g') && Represents(s.l, g, ids, t) && Fired(g, g', a, ev, w, r, m, out)
    ensures a in ids
    ensures var s' := StreamSystem.LeftStep(s, StreamSystem.FdEvent(ids[a], ev, w, r, m));
            Followed(s, s', g', ids, t, ps) && s'.rl == s.rl && out == Tag(t, ps)
  {
    hide Valid, View, Represents, S.OnEvent, EventDone, S.Enabled, IsStream;
    hide StreamSystem.LeftStep, StreamSystem.Wrap;
    var (x, msgs) := S.OnEvent(View(g, a), ev, w, r, m);
    EventSound(s.l, g, ids, t, a, ev, w, r, m);
    Speaks(s.l, g, ids, t, a, msgs, 0);
    EventSteps(s, ids[a], ev, w, r, m);
    EventAdvances(s.l, g, g', ids, t, a, ev, w, r, m, out);
    var p := View(g, a).peer;
    ps := StreamSystem.Wrap(ids[a], if p.Some? then p.value else 0, msgs);
  }

  lemma EventSteps(s: StreamSystem.System, i: nat, ev: S.Event, w: S.Writes, r: S.Reads, m: nat)
    requires i in s.l.socks && S.Enabled(s.l.socks[i], ev)
    ensures var (x, msgs) := S.OnEvent(s.l.socks[i], ev, w, r, m);
            var p := s.l.socks[i].peer;
            var t := StreamSystem.LeftStep(s, StreamSystem.FdEvent(i, ev, w, r, m));
            t == s.(l := With(s.l, i, x), lr := s.lr + StreamSystem.Wrap(i, if p.Some? then p.value else 0, msgs))
  {
    hide S.OnEvent;
  }

  lemma {:induction false} EventAdvances(e: StreamSystem.Endpoint, g: Graph, g': Graph, ids: Names, t: nat, a: Addr,
                                         ev: S.Event, w: S.Writes, r: S.Reads, m: nat, out: seq<(nat, StreamSystem.Packet)>)
    requires Valid(g) && Valid(g') && Represents(e, g, ids, t) && Fired(g, g', a, ev, w, r, m, out)
    ensures var (x, msgs) := S.OnEvent(View(g, a), ev, w, r, m);
            a in ids && Represents(With(e, ids[a], x), g', ids, t) && out == FarMsgs(g, a, msgs)
  {
    hide Valid, View, Represents, S.OnEvent, S.Enabled, IsStream, OnlyTouched, Became;
    EventSound(e, g, ids, t, a, ev, w, r, m);
    Advanced(e, g, g', ids, t, a, S.OnEvent(View(g, a), ev, w, r, m).0);
  }

  lemma EventSound(e: StreamSystem.Endpoint, g: Graph, ids: Names, t: nat, a: Addr,
                   ev: S.Event, w: S.Writes, r: S.Reads, m: nat)
    requires Valid(g) && IsStream(g, a) && Represents(e, g, ids, t) && (ev.write ==> g.socks[a].writing)
    ensures a in ids && ids[a] in e.socks && e.socks[ids[a]] == View(g, a) && S.Enabled(View(g, a), ev)
    ensures var (x, msgs) := S.OnEvent(View(g, a), ev, w, r, m);
            S.SockInv(x) && (View(g, a).peer == None ==> msgs == [])
  {
    assert Shown(e, g, ids, a);
    var v := View(g, a);
    hide Valid, S.OnEvent, Shown, SP.Moves;
    SP.EventMoves(v, ev, w, r, m);
  }

  // ----- packets -----

  /** find_local_socket finds a socket exactly where the endpoint has a live one under that id. */
  lemma FoundIsLive(e: StreamSystem.Endpoint, g: Graph, ids: Names, t: nat, dst: nat)
    requires Valid(g) && Represents(e, g, ids, t) && dst != 0
    ensures NoneFound(g, dst) <==> dst !in e.socks || S.Dead(e.socks[dst])
  {
    if dst in e.socks && !S.Dead(e.socks[dst]) {
      var a :| Named(g, ids, a, dst);
      assert Shown(e, g, ids, a);
      OnMainList(g, a);
    }
    if !NoneFound(g, dst) {
      var a :| a in g.mainList && a in g.socks && g.socks[a].id == dst;
      assert Placed(g, a) && Shown(e, g, ids, a);
    }
  }

  /** The live socket with id dst. */
  lemma FoundShown(e: StreamSystem.Endpoint, g: Graph, ids: Names, t: nat, dst: nat, a: Addr)
    requires Valid(g) && Represents(e, g, ids, t) && a in g.mainList && a in g.socks && g.socks[a].id == dst
    ensures a in ids && ids[a] == dst && dst in e.socks && IsStream(g, a) && e.socks[dst] == View(g, a)
    ensures View(g, a).status.Live? && S.SockInv(View(g, a))
  {
    assert Placed(g, a) && Shown(e, g, ids, a);
  }

  /** Nothing on this transport is foreign to it. */
  lemma NotForeign(e: StreamSystem.Endpoint, g: Graph, ids: Names, t: nat, a: Addr, src: nat, m: S.Msg)
    requires Represents(e, g, ids, t) && a in g.socks && IsStream(g, a)
    ensures !Foreign(g, a, t, src, m)
  {
    if g.socks[a].peer.Some? && g.socks[a].peer.value in g.socks {
      assert Streaming(g, g.socks[a].peer.value, t);
    }
  }

  /** What the endpoint does with a packet of a stream, and what it sends. */
  ghost predicate Delivers(e: StreamSystem.Endpoint, p: StreamSystem.Packet, accept: bool, w: S.Writes,
                           e': StreamSystem.Endpoint, ps: seq<StreamSystem.Packet>)
  {
    StreamSystem.HandlePacket(e, p, accept, w) == (e', ps)
  }

  /** The packet finds its socket. */
  lemma {:induction false} FoundSimulated(e: StreamSystem.Endpoint, g: Graph, g': Graph, ids: Names, t: nat, src: nat, dst: nat, m: S.Msg,
                                          accept: bool, a: Addr, out: seq<(nat, StreamSystem.Packet)>)
    returns (w: S.Writes, e': StreamSystem.Endpoint, ps: seq<StreamSystem.Packet>)
    requires Valid(g) && Valid(g') && Represents(e, g, ids, t) && dst != 0 && (src != 0 || m.Clse?)
    requires Finds(g, dst, if m.Okay? then 0 else src, a) && Answered(g, g', t, src, dst, m, out)
    ensures Delivers(e, StreamSystem.Stream(src, dst, m), accept, w, e', ps) && Represents(e', g', ids, t) && out == Tag(t, ps)
  {
    hide Valid, View, Represents, S.OnMsg, IsStream, OnlyTouched, Became, S.SockInv, Replies;
    FoundShown(e, g, ids, t, dst, a);
    NotForeign(e, g, ids, t, a, src, m);
    assert PacketDone(g, g', a, t, src, m, out);
    var v := View(g, a);
    w :| var (x, msgs) := S.OnMsg(v, src, m, w);
         && Became(g', a, x) && OnlyTouched(g, g', a) && NewOn(g, g', t) && out == Replies(g, a, t, src, m, msgs);
    var (x, msgs) := S.OnMsg(v, src, m, w);
    S.MsgKeepsSockInv(v, src, m, w);
    Advanced(e, g, g', ids, t, a, x);
    e', ps := With(e, dst, x), StreamSystem.Wrap(dst, if v.peer.Some? then v.peer.value else src, msgs);
    FoundReplies(e, g, ids, t, a, src, m, w);
  }

  /** The answer of a live socket leaves on its stream. */
  lemma FoundReplies(e: StreamSystem.Endpoint, g: Graph, ids: Names, t: nat, a: Addr, src: nat, m: S.Msg, w: S.Writes)
    requires Valid(g) && Represents(e, g, ids, t) && IsStream(g, a) && View(g, a).status.Live? && a in ids
    requires Finds(g, ids[a], if m.Okay? then 0 else src, a) && (src != 0 || m.Clse?)
    ensures var (v, msgs) := (View(g, a), S.OnMsg(View(g, a), src, m, w).1);
            var ps := StreamSystem.Wrap(ids[a], if v.peer.Some? then v.peer.value else src, msgs);
            Replies(g, a, t, src, m, msgs) == Tag(t, ps)
  {
    var msgs := S.OnMsg(View(g, a), src, m, w).1;
    hide Valid, S.OnMsg, Represents, RecordView;
    NoPeerNoReply(View(g, a), src, m, w);
    Speaks(e, g, ids, t, a, msgs, src);
    if g.socks[a].peer.Some? {
      FarSocket(g, a);
      SpeaksOn(e, g, ids, t, g.socks[a].peer.value);
      RepliesFar(g, a, t, src, m, msgs);
    }
  }

  lemma SpeaksOn(e: StreamSystem.Endpoint, g: Graph, ids: Names, t: nat, p: Addr)
    requires Represents(e, g, ids, t) && p in g.socks && g.socks[p].kind.Remote?
    ensures g.socks[p].transport == Some(t)
  {
    assert Streaming(g, p, t);
  }

  lemma NoPeerNoReply(v: S.Sock, src: nat, m: S.Msg, w: S.Writes)
    ensures v.status.Live? && v.peer == None ==> S.OnMsg(v, src, m, w).1 == []
  {
  }

  predicate NotFound(g: Graph, src: nat, dst: nat, m: S.Msg) {
    var peerId := if m.Okay? then 0 else src;
    forall a :: a in g.mainList ==> !Finds(g, dst, peerId, a)
  }

  lemma OnePacket(t: nat, src: nat, dst: nat, m: S.Msg)
    ensures var p := StreamSystem.Stream(src, dst, m);
            StreamSystem.Wrap(src, dst, [m]) == [p] && Tag(t, [p]) == [(t, p)]
  {
    assert StreamSystem.Wrap(src, dst, [m][1..]) == [] && Tag(t, [StreamSystem.Stream(src, dst, m)][1..]) == [];
  }

  /** The packet finds no socket, or one that belongs to another stream. */
  lemma {:induction false} NotFoundSimulated(e: StreamSystem.Endpoint, g: Graph, g': Graph, ids: Names, t: nat, src: nat, dst: nat, m: S.Msg,
                                             accept: bool, out: seq<(nat, StreamSystem.Packet)>)
    returns (ps: seq<StreamSystem.Packet>)
    requires Valid(g) && Represents(e, g, ids, t) && dst != 0 && (src != 0 || m.Clse?)
    requires NotFound(g, src, dst, m) && Answered(g, g', t, src, dst, m, out)
    ensures Delivers(e, StreamSystem.Stream(src, dst, m), accept, S.Writes(0, false), e, ps)
    ensures g' == g && out == Tag(t, ps)
  {
    FoundIsLive(e, g, ids, t, dst);
    hide Valid, PacketDone, Foreign;
    ps := if m.Okay? && NoneFound(g, dst) then [StreamSystem.Stream(dst, src, S.Clse)] else [];
    OnePacket(t, dst, src, S.Clse);
    if dst in e.socks {
      Unmoved(e, g, ids, t, src, dst, m);
      assert e.socks[dst := e.socks[dst]] == e.socks;
    }
  }

  lemma Unmoved(e: StreamSystem.Endpoint, g: Graph, ids: Names, t: nat, src: nat, dst: nat, m: S.Msg)
    requires Valid(g) && Represents(e, g, ids, t) && dst in e.socks && (src != 0 || m.Clse?)
    requires NotFound(g, src, dst, m)
    ensures S.OnMsg(e.socks[dst], src, m, S.Writes(0, false))
         == (e.socks[dst], if m.Okay? && NoneFound(g, dst) then [S.Clse] else [])
    ensures m.Okay? ==> NoneFound(g, dst) && e.socks[dst].peer == None
  {
    FoundIsLive(e, g, ids, t, dst);
    if !NoneFound(g, dst) {
      var a :| a in g.mainList && a in g.socks && g.socks[a].id == dst;
      FoundShown(e, g, ids, t, dst, a);
      assert !Finds(g, dst, src, a);
      if g.socks[a].peer.Some? { FarSocket(g, a); }
    }
  }

  // ----- new sockets -----

  lemma FreshIsNew(e: StreamSystem.Endpoint, g: Graph, ids: Names, t: nat, a: Addr, i: nat)
    requires Represents(e, g, ids, t) && Named(g, ids, a, i)
    ensures i in e.socks && i < e.nextId
  {
    assert Shown(e, g, ids, a);
  }

  /** A socket was made at a, and every other local socket is as it was. */
  ghost predicate Added(g: Graph, g': Graph, a: Addr, t: nat, x: S.Sock) {
    && Valid(g') && a !in g.socks && IsStream(g', a) && View(g', a) == x && a in g'.mainList
    && g'.socks[a].id == g.nextId && g'.nextId == g.nextId + 1
    && (forall b :: b in g.socks ==> b in g'.socks && g'.socks[b] == g.socks[b])
    && (forall b :: b in g'.socks && b !in g.socks && b != a ==> g'.socks[b].kind.Remote? && g'.socks[b].transport == Some(t))
  }

  lemma OldShown(e: StreamSystem.Endpoint, g: Graph, g': Graph, ids: Names, a: Addr, t: nat, x: S.Sock, b: Addr)
    requires Valid(g) && Added(g, g', a, t, x) && e.nextId == g.nextId && IsStream(g, b)
    requires Shown(e, g, ids, b) && ids[b] < e.nextId
    ensures Shown(StreamSystem.Install(e, x), g', ids[a := g.nextId], b)
  {
    OnMainList(g, b);
    OnMainList(g', b);
    if g.socks[b].peer.Some? {
      FarSocket(g, b);
    }
    hide Valid, RecordView;
  }

  lemma NewShown(e: StreamSystem.Endpoint, g: Graph, g': Graph, ids: Names, a: Addr, t: nat, x: S.Sock)
    requires Added(g, g', a, t, x) && e.nextId == g.nextId
    ensures Shown(StreamSystem.Install(e, x), g', ids[a := g.nextId], a)
  {
    hide Valid, View;
  }

  lemma AddedShown(e: StreamSystem.Endpoint, g: Graph, g': Graph, ids: Names, a: Addr, t: nat, x: S.Sock)
    requires Valid(g) && Represents(e, g, ids, t) && Added(g, g', a, t, x)
    ensures AllShown(StreamSystem.Install(e, x), g', ids[a := g.nextId])
    ensures forall b :: b in g'.socks ==> Streaming(g', b, t)
  {
    hide Valid, View, StreamSystem.Install;
    var ids', e' := ids[a := g.nextId], StreamSystem.Install(e, x);
    forall b | b in g'.socks ensures Streaming(g', b, t) && (IsLocal(g'.socks[b].kind) ==> Shown(e', g', ids', b)) {
      if b == a {
        NewShown(e, g, g', ids, a, t, x);
      } else if b in g.socks && IsLocal(g.socks[b].kind) {
        assert Named(g, ids, b, ids[b]);
        FreshIsNew(e, g, ids, t, b, ids[b]);
        OldShown(e, g, g', ids, a, t, x, b);
      } else {
        assert b in g.socks ==> Streaming(g, b, t);
      }
    }
    forall b, c, i | Named(g', ids', b, i) && Named(g', ids', c, i) ensures b == c {
      AddedNames(e, g, g', ids, a, t, x, b, i);
      AddedNames(e, g, g', ids, a, t, x, c, i);
    }
  }

  lemma AddedNames(e: StreamSystem.Endpoint, g: Graph, g': Graph, ids: Names, a: Addr, t: nat, x: S.Sock, b: Addr, i: nat)
    requires Represents(e, g, ids, t) && Added(g, g', a, t, x) && Named(g', ids[a := g.nextId], b, i)
    ensures if b == a then i == g.nextId else Named(g, ids, b, i) && i < g.nextId
  {
    hide Valid, View, IsStream;
    if b != a {
      assert b in g.socks;
      FreshIsNew(e, g, ids, t, b, i);
    }
  }

  lemma StillThere(g: Graph, g': Graph, a: Addr, t: nat, x: S.Sock, ids: Names, b: Addr, i: nat)
    requires Added(g, g', a, t, x)
    ensures Named(g, ids, b, i) ==> Named(g', ids[a := g.nextId], b, i)
    ensures Named(g', ids[a := g.nextId], a, g.nextId) && g'.nextId == g.nextId + 1
  {
  }

  lemma AddedElse(e: StreamSystem.Endpoint, g: Graph, g': Graph, ids: Names, a: Addr, t: nat, x: S.Sock)
    requires NothingElse(e, g, ids) && 1 <= g.nextId == e.nextId && Added(g, g', a, t, x) && S.SockInv(x)
    ensures NothingElse(StreamSystem.Install(e, x), g', ids[a := g.nextId])
  {
    hide Added, S.SockInv, Named;
    StillThere(g, g', a, t, x, ids, a, g.nextId);
    var ids', e' := ids[a := g.nextId], StreamSystem.Install(e, x);
    forall i | i in e'.socks && !e'.socks[i].status.Freed? ensures exists b :: Named(g', ids', b, i) {
      if i != g.nextId {
        var b :| Named(g, ids, b, i);
        StillThere(g, g', a, t, x, ids, b, i);
      }
    }
  }

  lemma IdsPositive(g: Graph)
    requires Valid(g)
    ensures g.nextId >= 1
  {
  }

  /** A new socket is one of the endpoint, under the next id. */
  lemma AddedStep(e: StreamSystem.Endpoint, g: Graph, g': Graph, ids: Names, a: Addr, t: nat, x: S.Sock)
    requires Valid(g) && Represents(e, g, ids, t) && Added(g, g', a, t, x) && S.SockInv(x) && g.nextId + 1 != TWO_32
    ensures StreamSystem.CanInstall(e) && Represents(StreamSystem.Install(e, x), g', ids[a := g.nextId], t)
  {
    hide Valid, Streaming, AllShown, NothingElse, S.SockInv, Added;
    IdsPositive(g);
    AddedShown(e, g, g', ids, a, t, x);
    AddedElse(e, g, g', ids, a, t, x);
    StillThere(g, g', a, t, x, ids, a, g.nextId);
  }

  lemma AcceptedAdds(g: Graph, g': Graph, a: Addr, id: nat, t: nat)
    requires Accepted(g, g', a, id, t)
    ensures Added(g, g', a, t, S.Fresh(Some(id), Some(id)))
  {
  }

  lemma BoundView(g: Graph, a: Addr, t: nat)
    requires IsStream(g, a) && g.socks[a].peer == None
    ensures var g' := Put(g, a, OnTransport(g.socks[a], t)); IsStream(g', a) && View(g', a) == View(g, a)
  {
  }

  lemma {:induction false} DialledAdds(g: Graph, g': Graph, a: Addr, t: nat, destination: Bytes, out: seq<(nat, StreamSystem.Packet)>)
    requires Valid(g) && Dialled(g, g', a, t, destination, out)
    ensures Added(g, g', a, t, S.Fresh(None, None))
  {
    hide Valid, View, IsStream;
    InstallKeeps(g, a, None);
    BoundView(Installed(g, a, None), a, t);
  }

  // ----- the steps of a socket layer -----

  /** What the packets on transport t are. */
  function On(t: nat, out: seq<(nat, StreamSystem.Packet)>): seq<StreamSystem.Packet> {
    if out == [] then [] else (if out[0].0 == t then [out[0].1] else []) + On(t, out[1..])
  }

  lemma {:induction false} OnTagged(t: nat, ps: seq<StreamSystem.Packet>)
    ensures On(t, Tag(t, ps)) == ps
  {
    if ps != [] {
      OnTagged(t, ps[1..]);
      assert Tag(t, ps)[1..] == Tag(t, ps[1..]);
    }
  }

  /** A step of a layer whose transport t is online: what it does to the graph, takes from its inbox, and sends. */
  datatype Cause =
    | Fd(a: Addr, ev: S.Event, w: S.Writes, r: S.Reads, m: nat)
    | Client(a: Addr, destination: Bytes)
    | Arrival(accept: bool)

  ghost predicate Acts(g: Graph, g': Graph, t: nat, why: Cause, inbox: seq<StreamSystem.Packet>,
                       inbox': seq<StreamSystem.Packet>, out: seq<(nat, StreamSystem.Packet)>)
  {
    && Valid(g')
    && match why
       case Fd(a, ev, w, r, m) => inbox' == inbox && Fired(g, g', a, ev, w, r, m, out)
       case Client(a, d) => inbox' == inbox && g.nextId + 1 != TWO_32 && Dialled(g, g', a, t, d, out)
       case Arrival(accept) => inbox != [] && inbox' == inbox[1..] && Handled(g, g', t, inbox[0], accept, out)
  }

  lemma {:induction false} ClientSimulated(s: StreamSystem.System, g: Graph, g': Graph, ids: Names, t: nat, a: Addr, d: Bytes,
                                           out: seq<(nat, StreamSystem.Packet)>)
    returns (ids': Names, ps: seq<StreamSystem.Packet>)
    requires Valid(g) && Represents(s.l, g, ids, t) && g.nextId + 1 != TWO_32 && Dialled(g, g', a, t, d, out)
    ensures var s' := StreamSystem.LeftStep(s, StreamSystem.Connect(OpenPayload(d)));
            Followed(s, s', g', ids', t, ps) && s'.rl == s.rl && out == Tag(t, ps)
  {
    ids', ps := ids[a := g.nextId], [StreamSystem.Open(g.nextId, OpenPayload(d))];
    assert Tag(t, ps[1..]) == [];
    hide Valid, AllShown, NothingElse, Streaming;
    DialledAdds(g, g', a, t, d, out);
    hide Dialled, Added;
    AddedStep(s.l, g, g', ids, a, t, S.Fresh(None, None));
  }

  /** An OPEN is accepted. */
  lemma OpenSimulated(s: StreamSystem.System, g: Graph, g': Graph, ids: Names, t: nat, id: nat, w: S.Writes)
    returns (ids': Names)
    requires Valid(g) && Represents(s.l, g, ids, t) && s.rl != [] && s.rl[0].Open? && s.rl[0].id == id != 0
    requires g.nextId + 1 != TWO_32 && exists a :: Accepted(g, g', a, id, t)
    ensures var s' := StreamSystem.LeftStep(s, StreamSystem.Deliver(true, w));
            && Followed(s, s', g', ids', t, [StreamSystem.Stream(g.nextId, id, S.Okay)]) && s'.rl == s.rl[1..]
  {
    hide Valid, AllShown, NothingElse, Streaming, Accepted, Added;
    var a :| Accepted(g, g', a, id, t);
    ids' := ids[a := g.nextId];
    AcceptedAdds(g, g', a, id, t);
    AddedStep(s.l, g, g', ids, a, t, S.Fresh(Some(id), Some(id)));
  }

  lemma {:induction false} StreamSimulated(s: StreamSystem.System, g: Graph, g': Graph, ids: Names, t: nat, accept: bool,
                                           out: seq<(nat, StreamSystem.Packet)>)
    returns (w: S.Writes, ps: seq<StreamSystem.Packet>)
    requires Valid(g) && Valid(g') && Represents(s.l, g, ids, t) && s.rl != [] && s.rl[0].Stream?
    requires Handled(g, g', t, s.rl[0], accept, out)
    ensures var s' := StreamSystem.LeftStep(s, StreamSystem.Deliver(accept, w));
            Followed(s, s', g', ids, t, ps) && s'.rl == s.rl[1..] && out == Tag(t, ps)
  {
    hide Valid, Represents, Answered, Finds;
    var p := s.rl[0];
    var (src, dst, m) := (p.src, p.dst, p.msg);
    w, ps := S.Writes(0, false), [];
    if dst != 0 && (src != 0 || m.Clse?) {
      var e';
      if NotFound(g, src, dst, m) {
        ps := NotFoundSimulated(s.l, g, g', ids, t, src, dst, m, accept, out);
        e' := s.l;
      } else {
        var a :| Finds(g, dst, if m.Okay? then 0 else src, a);
        w, e', ps := FoundSimulated(s.l, g, g', ids, t, src, dst, m, accept, a, out);
      }
      assert StreamSystem.HandlePacket(s.l, p, accept, w) == (e', ps);
    } else {
      assert StreamSystem.HandlePacket(s.l, p, accept, w) == (s.l, []);
    }
  }

  lemma {:induction false} ArrivalSimulated(s: StreamSystem.System, g: Graph, g': Graph, ids: Names, t: nat, accept: bool,
                                            out: seq<(nat, StreamSystem.Packet)>)
    returns (act: StreamSystem.Act, ids': Names, ps: seq<StreamSystem.Packet>)
    requires Valid(g) && Valid(g') && Represents(s.l, g, ids, t) && s.rl != []
    requires Handled(g, g', t, s.rl[0], accept, out)
    ensures act.Deliver? && (s.rl[0].Open? && act.accept ==> StreamSystem.CanInstall(s.l))
    ensures var s' := StreamSystem.LeftStep(s, act);
            Followed(s, s', g', ids', t, ps) && s'.rl == s.rl[1..] && out == Tag(t, ps)
  {
    hide Valid, AllShown, NothingElse, Streaming, Accepted;
    var w;
    ids', ps := ids, [];
    match s.rl[0]
    case Stream(src, dst, m) =>
      w, ps := StreamSimulated(s, g, g', ids, t, accept, out);
      act := StreamSystem.Deliver(accept, w);
    case Open(id, _) =>
      w := S.Writes(0, false);
      act := StreamSystem.Deliver(id != 0 && accept, w);
      if id != 0 && accept {
        ids' := OpenSimulated(s, g, g', ids, t, id, w);
        ps := [StreamSystem.Stream(g.nextId, id, S.Okay)];
        OnePacket(t, g.nextId, id, S.Okay);
      } else if id != 0 {
        ps := [StreamSystem.Stream(0, id, S.Clse)];
        OnePacket(t, 0, id, S.Clse);
      }
  }

  /** The step of the endpoint is of the same kind: the same event, a new client, or a packet taken. */
  ghost predicate SameKind(s: StreamSystem.System, act: StreamSystem.Act, why: Cause, ids: Names) {
    match why
    case Fd(a, ev, w, r, m) => a in ids && act == StreamSystem.FdEvent(ids[a], ev, w, r, m)
    case Client(_, d) => act == StreamSystem.Connect(OpenPayload(d))
    case Arrival(_) => act.Deliver? && s.rl != [] && (s.rl[0].Open? && act.accept ==> StreamSystem.CanInstall(s.l))
  }

  /** Every step of a socket layer is a step of the endpoint it represents, with the same packets. */
  lemma {:induction false} StepSimulated(s: StreamSystem.System, g: Graph, g': Graph, ids: Names, t: nat, why: Cause,
                                         inbox': seq<StreamSystem.Packet>, out: seq<(nat, StreamSystem.Packet)>)
    returns (act: StreamSystem.Act, ids': Names)
    requires Valid(g) && Represents(s.l, g, ids, t) && Acts(g, g', t, why, s.rl, inbox', out)
    ensures var s' := StreamSystem.LeftStep(s, act);
            && Represents(s'.l, g', ids', t) && s'.r == s.r && s'.rl == inbox' && s'.lr == s.lr + On(t, out)
            && out == Tag(t, On(t, out))
    ensures SameKind(s, act, why, ids)
  {
    hide Valid, Represents, Handled, Fired, Dialled, StreamSystem.LeftStep;
    var ps;
    match why {
    case Fd(a, ev, w, r, m) =>
      ps := EventSimulated(s, g, g', ids, t, a, ev, w, r, m, out);
      act, ids' := StreamSystem.FdEvent(ids[a], ev, w, r, m), ids;
    case Client(a, d) =>
      ids', ps := ClientSimulated(s, g, g', ids, t, a, d, out);
      act := StreamSystem.Connect(OpenPayload(d));
    case Arrival(accept) =>
      act, ids', ps := ArrivalSimulated(s, g, g', ids, t, accept, out);
    }
    OnTagged(t, ps);
  }
}
