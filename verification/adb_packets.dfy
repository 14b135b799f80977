/**
 * handle_packet of adb.cpp for OPEN, OKAY, CLSE and WRTE, and what of sockets.cpp it calls to make
 * sockets, working in place on a SocketLayer. On a stream socket each packet does what
 * StreamSocket.OnMsg says.
 */
module AdbPackets {
  import opened AdbBase
  import opened SocketGraph
  import opened Sockets
  import opened KernelLog
  import S = StreamSocket
  import SocketLists
  import StreamSystem

  /** find_local_socket would return a: ids on the main list are unique. */
  predicate Finds(g: Graph, localId: nat, peerId: nat, a: Addr) {
    && a in g.mainList && a in g.socks && g.socks[a].id == localId
    && (peerId == 0 || (var q := g.socks[a].peer; q.Some? && q.value in g.socks && g.socks[q.value].id == peerId))
  }

  /** A WRTE is acknowledged on the transport it came by; everything else goes to the socket's far side. */
  function Replies(g: Graph, a: Addr, t: nat, src: nat, m: S.Msg, msgs: seq<S.Msg>): seq<(nat, StreamSystem.Packet)>
    requires a in g.socks
  {
    if m.Wrte? && msgs == [S.Okay] then [(t, StreamSystem.Stream(g.socks[a].id, src, S.Okay))]
    else FarMsgs(g, a, msgs)
  }

  /** Any new socket is on transport t. */
  predicate NewOn(g: Graph, g': Graph, t: nat) {
    forall x :: x in g'.socks && x !in g.socks ==> g'.socks[x].transport == Some(t)
  }

  /** What a packet for stream socket a comes to. */
  ghost predicate PacketDone(g: Graph, g': Graph, a: Addr, t: nat, src: nat, m: S.Msg, out: seq<(nat, StreamSystem.Packet)>)
    requires IsStream(g, a)
  {
    exists w :: PacketDoneBy(g, g', a, t, src, m, w, out)
  }

  /** The same, with what came of the writes. */
  ghost predicate PacketDoneBy(g: Graph, g': Graph, a: Addr, t: nat, src: nat, m: S.Msg, w: S.Writes,
                               out: seq<(nat, StreamSystem.Packet)>)
    requires IsStream(g, a)
  {
    var (x, msgs) := S.OnMsg(View(g, a), src, m, w);
    Became(g', a, x) && OnlyTouched(g, g', a) && NewOn(g, g', t) && out == Replies(g, a, t, src, m, msgs)
  }

  /** The reply leaves on the socket's own transport when the packet came by it. */
  lemma {:induction false} RepliesFar(g: Graph, a: Addr, t: nat, src: nat, m: S.Msg, msgs: seq<S.Msg>)
    requires Valid(g) && IsStream(g, a) && g.socks[a].peer.Some?
    requires var p := g.socks[g.socks[a].peer.value]; p.transport == Some(t) && (m.Wrte? ==> p.id == src)
    ensures Replies(g, a, t, src, m, msgs) == FarMsgs(g, a, msgs)
  {
    assert Tied(g, a);
    OneFarMsg(g, a);
  }

  lemma FarewellNoData(g: Graph, a: Addr)
    requires a in g.socks
    ensures NoData(Farewell(g, a))
  {
  }

  // ----- making sockets -----

  lemma OffLists(g: Graph, a: Addr)
    requires Valid(g) && a !in g.socks
    ensures a !in g.mainList && a !in g.closingList
  {
  }

  /** create_local_socket, unless the id counter would come back to 0, which aborts the process. */
  method CreateLocalSocket(l: SocketLayer, openedBy: Option<nat>) returns (r: Option<Addr>)
    requires l.Ok()
    modifies l`g, l`links, l`heapTop
    ensures l.Ok()
    ensures r == None <==> old(l.g).nextId + 1 == TWO_32
    ensures r == None ==> l.g == old(l.g)
    ensures r.Some? ==> r.value !in old(l.g).socks && l.g == Installed(old(l.g), r.value, openedBy)
  {
    hide Valid, SocketLists.Spells, IsStream, View;
    if l.g.nextId + 1 == TWO_32 {
      return None;
    }
    var a := l.heapTop;
    assert a !in l.Used();
    InstallKeeps(l.g, a, openedBy);
    l.heapTop := l.heapTop + 1;
    OffLists(l.g, a);
    l.g := l.g.(socks := l.g.socks[a := NewLocal(l.g.nextId, openedBy)], nextId := l.g.nextId + 1);
    l.InsertLocalSocket(a, SocketLists.Main);
    assert l.Used() == old(l.Used()) + {a};
    return Some(a);
  }

  /** create_remote_socket and the two assignments that tie it to local socket a. */
  method AttachRemote(l: SocketLayer, a: Addr, id: nat, t: nat)
    requires l.Ok() && a in l.g.mainList && a in l.g.socks && l.g.socks[a].peer == None && id != 0
    modifies l`g, l`heapTop
    ensures l.Ok() && old(l.heapTop) !in old(l.g).socks && l.g == Attach(old(l.g), a, old(l.heapTop), id, t)
    ensures a in l.g.mainList && a in l.g.socks
  {
    hide Valid, SocketLists.Spells;
    var p := l.heapTop;
    assert p !in l.Used();
    AttachKeeps(l.g, a, p, id, t);
    l.heapTop := l.heapTop + 1;
    l.g := Attach(l.g, a, p, id, t);
    assert l.Used() == old(l.Used()) + {p};
  }

  /** The record once ready has been called on it: a socket with the notify functions first says OKAY to its fd. */
  function Readied(s: Asocket): Asocket {
    if s.kind.LocalNotify? then s.(kind := Local, notices := s.notices + [true], reading := true) else s.(reading := true)
  }

  lemma ReadyKeeps(g: Graph, a: Addr)
    requires Valid(g) && a in g.mainList && a in g.socks
    ensures var g' := Put(g, a, Readied(g.socks[a]));
            && Valid(g') && g'.socks.Keys == g.socks.Keys && OnlyTouched(g, g', a)
            && (IsStream(g, a) ==> IsStream(g', a) && View(g', a) == View(g, a).(reading := true))
  {
    assert Placed(g, a) && Healthy(g.socks[a]) && Tied(g, a);
    SetOk(g, a, Readied(g.socks[a]));
  }

  /** s->ready(s) on a local socket. */
  method Ready(l: SocketLayer, a: Addr)
    requires l.Ok() && a in l.g.mainList && a in l.g.socks
    modifies l`g
    ensures l.Ok() && l.g == Put(old(l.g), a, Readied(old(l.g).socks[a]))
  {
    ReadyKeeps(l.g, a);
    var s := l.g.socks[a];
    if s.kind.LocalNotify? {
      s := s.(kind := Local, notices := s.notices + [true]);
    }
    l.g := Put(l.g, a, s.(reading := true));
    assert l.Used() == old(l.Used());
  }

  // ----- packets for a socket -----

  /** Nothing but OKAY and CLSE. */
  predicate NoData(out: seq<(nat, StreamSystem.Packet)>) {
    forall k :: 0 <= k < |out| ==> out[k].1.Stream? && !out[k].1.msg.Wrte?
  }

  /** What OKAY, WRTE or CLSE from far id src comes to, whether or not a socket is found for it. */
  ghost predicate Answered(g: Graph, g': Graph, t: nat, src: nat, dst: nat, m: S.Msg, out: seq<(nat, StreamSystem.Packet)>) {
    var peerId := if m.Okay? then 0 else src;
    && (forall a :: Finds(g, dst, peerId, a) && IsStream(g, a) && !Foreign(g, a, t, src, m) ==> PacketDone(g, g', a, t, src, m, out))
    && ((forall a :: Finds(g, dst, peerId, a) ==> Foreign(g, a, t, src, m)) ==>
          g' == g && out == if m.Okay? && NoneFound(g, dst) then [(t, StreamSystem.Stream(dst, src, S.Clse))] else [])
  }

  predicate NoneFound(g: Graph, dst: nat) {
    forall a :: a in g.mainList && a in g.socks ==> g.socks[a].id != dst
  }

  /** CLSE(0, id) is believed only from the transport the socket is joined to. */
  predicate Foreign(g: Graph, a: Addr, t: nat, src: nat, m: S.Msg) {
    && m.Clse? && src == 0 && a in g.socks && g.socks[a].peer.Some?
    && g.socks[a].peer.value in g.socks && g.socks[g.socks[a].peer.value].transport != Some(t)
  }

  lemma FoundOnce(g: Graph, dst: nat, peerId: nat, peerId': nat, a: Addr, b: Addr)
    requires Valid(g) && Finds(g, dst, peerId, a) && Finds(g, dst, peerId', b)
    ensures a == b
  {
  }

  /** One socket is found, and the packet does to it what it should. */
  lemma {:induction false} FoundAnswer(g: Graph, g': Graph, t: nat, src: nat, dst: nat, m: S.Msg, a: Addr, out: seq<(nat, StreamSystem.Packet)>)
    requires Valid(g) && Finds(g, dst, if m.Okay? then 0 else src, a) && !Foreign(g, a, t, src, m)
    requires IsStream(g, a) ==> PacketDone(g, g', a, t, src, m, out)
    ensures Answered(g, g', t, src, dst, m, out)
  {
    hide Valid, IsStream, PacketDone;
    var peerId := if m.Okay? then 0 else src;
    forall b | Finds(g, dst, peerId, b) ensures b == a {
      FoundOnce(g, dst, peerId, peerId, a, b);
    }
  }

  lemma OkayDone(g: Graph, g': Graph, a: Addr, t: nat, src: nat)
    requires Valid(g) && IsStream(g, a) && a in g.mainList && src != 0
    requires Became(g', a, S.OnMsg(View(g, a), src, S.Okay, S.Writes(0, false)).0) && OnlyTouched(g, g', a) && NewOn(g, g', t)
    ensures PacketDone(g, g', a, t, src, S.Okay, [])
  {
    var w := S.Writes(0, false);
    assert S.OnMsg(View(g, a), src, S.Okay, w).1 == [];
    assert FarMsgs(g, a, []) == [];
    assert PacketDoneBy(g, g', a, t, src, S.Okay, w, []);
  }

  /** The first OKAY makes the connection; later ones must come from the same far id. */
  method HandleOkay(l: SocketLayer, t: nat, src: nat, dst: nat) returns (ghost out: seq<(nat, StreamSystem.Packet)>)
    requires l.Ok() && src != 0 && dst != 0
    modifies l`g, l`sent, l`heapTop
    ensures l.Ok() && l.sent == old(l.sent) + out && Answered(old(l.g), l.g, t, src, dst, S.Okay, out)
    ensures NoData(out)
  {
    hide Answered, PacketDone, IsStream, Readied, Attach, Valid, Put;
    out := [];
    var r := l.FindLocalSocket(dst, 0);
    if r == None {
      NothingFound(l.g, t, src, dst);
      l.SendPacket(t, StreamSystem.Stream(dst, src, S.Clse));
      out := [(t, StreamSystem.Stream(dst, src, S.Clse))];
      return;
    }
    var a := r.value;
    OkayFound(l.g, a, dst);
    if l.g.socks[a].peer == None {
      AttachRemote(l, a, src, t);
      Ready(l, a);
      FirstOkay(old(l.g), a, old(l.heapTop), t, src);
    } else if l.g.socks[l.g.socks[a].peer.value].id == src {
      NextOkay(l.g, a, t, src);
      Ready(l, a);
    } else {
      WrongOkay(l.g, a, t, src);
    }
    FoundAnswer(old(l.g), l.g, t, src, dst, S.Okay, a, []);
  }

  lemma NothingFound(g: Graph, t: nat, src: nat, dst: nat)
    requires Valid(g) && forall a :: a in g.mainList && a in g.socks ==> g.socks[a].id != dst
    ensures Answered(g, g, t, src, dst, S.Okay, [(t, StreamSystem.Stream(dst, src, S.Clse))])
  {
  }

  lemma OkayFound(g: Graph, a: Addr, dst: nat)
    requires Valid(g) && a in g.mainList && a in g.socks && g.socks[a].id == dst
    ensures Finds(g, dst, 0, a) && IsLocal(g.socks[a].kind) && (g.socks[a].peer.Some? ==> g.socks[a].peer.value in g.socks)
  {
    assert Tied(g, a);
  }

  lemma FirstOkay(g: Graph, a: Addr, p: Addr, t: nat, src: nat)
    requires Valid(g) && a in g.mainList && a in g.socks && g.socks[a].peer == None && src != 0 && p !in g.socks
    ensures var g1 := Attach(g, a, p, src, t);
            IsStream(g, a) ==> PacketDone(g, Put(g1, a, Readied(g1.socks[a])), a, t, src, S.Okay, [])
  {
    var g1 := Attach(g, a, p, src, t);
    AttachKeeps(g, a, p, src, t);
    if IsStream(g, a) {
      AttachView(g, a, p, src, t);
      assert g1.mainList == g.mainList;
      ReadyKeeps(g1, a);
      FirstOkayView(g, g1, Put(g1, a, Readied(g1.socks[a])), a, t, src);
    }
  }

  lemma FirstOkayView(g: Graph, g1: Graph, g': Graph, a: Addr, t: nat, src: nat)
    requires Valid(g) && IsStream(g, a) && a in g.mainList && g.socks[a].peer == None && src != 0
    requires IsStream(g1, a) && View(g1, a) == View(g, a).(peer := Some(src)) && OnlyTouched(g, g1, a) && NewOn(g, g1, t)
    requires g' == Put(g1, a, Readied(g1.socks[a])) && IsStream(g', a) && View(g', a) == View(g1, a).(reading := true)
    ensures PacketDone(g, g', a, t, src, S.Okay, [])
  {
    assert View(g, a).peer == None && View(g, a).status == S.Live;
    hide Valid, View;
    OkayDone(g, g', a, t, src);
  }

  lemma NextOkay(g: Graph, a: Addr, t: nat, src: nat)
    requires Valid(g) && a in g.mainList && a in g.socks && src != 0
    requires g.socks[a].peer.Some? && g.socks[a].peer.value in g.socks && g.socks[g.socks[a].peer.value].id == src
    ensures IsStream(g, a) ==> PacketDone(g, Put(g, a, Readied(g.socks[a])), a, t, src, S.Okay, [])
  {
    ReadyKeeps(g, a);
    if IsStream(g, a) {
      OkayDone(g, Put(g, a, Readied(g.socks[a])), a, t, src);
    }
  }

  lemma WrongOkay(g: Graph, a: Addr, t: nat, src: nat)
    requires Valid(g) && a in g.mainList && a in g.socks && src != 0
    requires g.socks[a].peer.Some? && g.socks[a].peer.value in g.socks && g.socks[g.socks[a].peer.value].id != src
    ensures IsStream(g, a) ==> PacketDone(g, g, a, t, src, S.Okay, [])
  {
    if IsStream(g, a) {
      OkayDone(g, g, a, t, src);
    }
  }

  /** CLSE closes the socket, whose own CLSE answers. */
  method HandleClse(l: SocketLayer, t: nat, src: nat, dst: nat) returns (ghost out: seq<(nat, StreamSystem.Packet)>)
    requires l.Ok() && dst != 0
    modifies l`g, l`links, l`sent, l`freed
    ensures l.Ok() && l.sent == old(l.sent) + out && Answered(old(l.g), l.g, t, src, dst, S.Clse, out)
    ensures NoData(out)
  {
    hide Answered, PacketDone, IsStream, CloseGraph, Farewell, CanClose;
    out := [];
    var r := l.FindLocalSocket(dst, src);
    if r == None {
      NoneToTell(l.g, t, src, dst, S.Clse);
      return;
    }
    var a := r.value;
    ClseFound(l.g, a, t, src, dst);
    var s := l.g.socks[a];
    if src == 0 && s.peer.Some? && l.g.socks[s.peer.value].transport != Some(t) {
      ForeignClse(l.g, a, t, src, dst);
      return;
    }
    out := Farewell(l.g, a);
    FarewellNoData(l.g, a);
    ClseCloses(l.g, a, t, src, dst);
    l.Close(a, S.ByPeer);
    FoundAnswer(old(l.g), l.g, t, src, dst, S.Clse, a, out);
  }

  lemma NoneToTell(g: Graph, t: nat, src: nat, dst: nat, m: S.Msg)
    requires !m.Okay? && forall a :: !Finds(g, dst, src, a)
    ensures Answered(g, g, t, src, dst, m, [])
  {
  }

  lemma ClseFound(g: Graph, a: Addr, t: nat, src: nat, dst: nat)
    requires Valid(g) && Finds(g, dst, src, a)
    ensures g.socks[a].peer.Some? ==> g.socks[a].peer.value in g.socks
    ensures CanClose(g, a) && Reachable(g, a)
  {
    ValidCanClose(g, a);
    if g.socks[a].peer.Some? {
      assert Placed(g, g.socks[a].peer.value);
    }
  }

  lemma ForeignClse(g: Graph, a: Addr, t: nat, src: nat, dst: nat)
    requires Valid(g) && Finds(g, dst, src, a) && Foreign(g, a, t, src, S.Clse)
    ensures Answered(g, g, t, src, dst, S.Clse, [])
  {
    hide PacketDone;
    forall b | Finds(g, dst, src, b) ensures b == a {
      FoundOnce(g, dst, src, src, a, b);
    }
  }

  lemma ClseCloses(g: Graph, a: Addr, t: nat, src: nat, dst: nat)
    requires Valid(g) && Finds(g, dst, src, a)
    ensures Tied(g, a) && Valid(CloseGraph(g, a, S.ByPeer)) && CloseGraph(g, a, S.ByPeer).socks.Keys <= g.socks.Keys
    ensures IsStream(g, a) ==> PacketDone(g, CloseGraph(g, a, S.ByPeer), a, t, src, S.Clse, Farewell(g, a))
  {
    ClseFound(g, a, t, src, dst);
    CloseKeeps(g, a, S.ByPeer);
    CloseEffect(g, a, S.ByPeer);
    if IsStream(g, a) {
      assert Healthy(g.socks[a]);
      CloseView(g, a, S.ByPeer);
      OneFarMsg(g, a);
      ClseView(g, a, CloseGraph(g, a, S.ByPeer), t, src);
    }
  }

  lemma ClseView(g: Graph, a: Addr, g': Graph, t: nat, src: nat)
    requires IsStream(g, a) && View(g, a).status.Live? && (src == 0 || View(g, a).peer == Some(src))
    requires Became(g', a, S.Close(View(g, a), S.ByPeer).0) && OnlyTouched(g, g', a) && g'.socks.Keys <= g.socks.Keys
    requires FarMsgs(g, a, [S.Clse]) == Farewell(g, a)
    ensures PacketDone(g, g', a, t, src, S.Clse, Farewell(g, a))
  {
    var w := S.Writes(0, false);
    assert S.OnMsg(View(g, a), src, S.Clse, w) == S.Close(View(g, a), S.ByPeer);
    assert Farewell(g, a) == Replies(g, a, t, src, S.Clse, S.Close(View(g, a), S.ByPeer).1);
    assert PacketDoneBy(g, g', a, t, src, S.Clse, w, Farewell(g, a));
  }

  /** What became of the data of a WRTE is what the kernel answered. */
  ghost predicate WrteTold(g: Graph, g': Graph, t: nat, src: nat, dst: nat, data: Bytes, log: seq<Answer>,
                           out: seq<(nat, StreamSystem.Packet)>)
  {
    forall a :: Finds(g, dst, src, a) && IsStream(g, a) ==>
                  && PacketDoneBy(g, g', a, t, src, S.Wrte(data), WritesOf(log), out)
                  && if g.socks[a].queue != [] then log == [] else Exhausted(|Given(log)|, |data|, log)
  }

  /** WRTE hands the data to the socket, which is acknowledged once the fd has taken it all. */
  method HandleWrte(l: SocketLayer, t: nat, src: nat, dst: nat, data: Bytes) returns (ghost out: seq<(nat, StreamSystem.Packet)>)
    requires l.Ok() && src != 0 && dst != 0
    modifies l`g, l`links, l`sent, l`freed, l`writeLog
    ensures l.Ok() && l.sent == old(l.sent) + out && Answered(old(l.g), l.g, t, src, dst, S.Wrte(data), out)
    ensures old(l.writeLog) <= l.writeLog && WrteTold(old(l.g), l.g, t, src, dst, data, Since(old(l.writeLog), l.writeLog), out)
    ensures NoData(out)
  {
    hide Answered, PacketDone, PacketDoneBy, IsStream, EnqueueDone, Farewell, Valid, CanClose, Reachable, Given, Ended, Since;
    hide WrteTold, Exhausted;
    NothingSince(l.writeLog);
    out := [];
    var r := l.FindLocalSocket(dst, src);
    if r == None {
      NoneToTell(l.g, t, src, dst, S.Wrte(data));
      NoneIsTold(l.g, t, src, dst, data, Since(l.writeLog, l.writeLog));
      return;
    }
    var a := r.value;
    ClseFound(l.g, a, t, src, dst);
    FarewellNoData(l.g, a);
    var ready, w := l.LocalSocketEnqueue(a, data);
    out := (if a in l.g.socks then [] else Farewell(old(l.g), a))
           + (if ready == 0 then [(t, StreamSystem.Stream(dst, src, S.Okay))] else []);
    WrteEnqueued(old(l.g), l.g, a, t, src, dst, data, w, ready);
    if ready == 0 {
      l.SendPacket(t, StreamSystem.Stream(dst, src, S.Okay));
    }
    DoneBySome(old(l.g), l.g, a, t, src, S.Wrte(data), w, out);
    FoundAnswer(old(l.g), l.g, t, src, dst, S.Wrte(data), a, out);
    WrteIsTold(old(l.g), l.g, a, t, src, dst, data, Since(old(l.writeLog), l.writeLog), w, out);
  }

  lemma {:induction false} NoneIsTold(g: Graph, t: nat, src: nat, dst: nat, data: Bytes, log: seq<Answer>)
    requires forall a :: !Finds(g, dst, src, a)
    ensures WrteTold(g, g, t, src, dst, data, log, [])
  {
  }

  lemma {:induction false} WrteIsTold(g: Graph, g': Graph, a: Addr, t: nat, src: nat, dst: nat, data: Bytes, log: seq<Answer>, w: S.Writes,
                                      out: seq<(nat, StreamSystem.Packet)>)
    requires Valid(g) && Finds(g, dst, src, a) && w == WritesOf(log)
    requires IsStream(g, a) ==> PacketDoneBy(g, g', a, t, src, S.Wrte(data), w, out)
    requires if g.socks[a].queue != [] then log == [] else Exhausted(w.n, |data|, log)
    ensures WrteTold(g, g', t, src, dst, data, log, out)
  {
    hide Valid, PacketDoneBy, Exhausted, Ended;
    OnlyFound(g, dst, src, a);
  }

  lemma DoneBySome(g: Graph, g': Graph, a: Addr, t: nat, src: nat, m: S.Msg, w: S.Writes, out: seq<(nat, StreamSystem.Packet)>)
    ensures IsStream(g, a) && PacketDoneBy(g, g', a, t, src, m, w, out) ==> PacketDone(g, g', a, t, src, m, out)
  {
  }

  lemma OnlyFound(g: Graph, dst: nat, peerId: nat, a: Addr)
    requires Valid(g) && Finds(g, dst, peerId, a)
    ensures forall b :: Finds(g, dst, peerId, b) ==> b == a
  {
  }

  lemma {:induction false} WrteEnqueued(g: Graph, g': Graph, a: Addr, t: nat, src: nat, dst: nat, data: Bytes, w: S.Writes, r: int)
    requires Valid(g) && Finds(g, dst, src, a) && src != 0 && EnqueueDone(g, g', a, data, w, r)
    ensures IsStream(g, a) ==>
              PacketDoneBy(g, g', a, t, src, S.Wrte(data), w,
                           (if a in g'.socks then [] else Farewell(g, a))
                           + (if r == 0 then [(t, StreamSystem.Stream(dst, src, S.Okay))] else []))
  {
    if IsStream(g, a) {
      assert Tied(g, a);
      OneFarMsg(g, a);
      WrteView(g, g', a, t, src, data, w, r);
    }
  }

  lemma {:induction false} WrteView(g: Graph, g': Graph, a: Addr, t: nat, src: nat, data: Bytes, w: S.Writes, r: int)
    requires IsStream(g, a) && View(g, a).status.Live? && View(g, a).peer == Some(src) && OnlyTouched(g, g', a) && g'.socks.Keys <= g.socks.Keys
    requires var (x, msgs, ready) := S.Enqueue(View(g, a), data, w);
             Became(g', a, x) && r == (if ready then 0 else 1) && (msgs == if a in g'.socks then [] else [S.Clse])
    requires FarMsgs(g, a, [S.Clse]) == Farewell(g, a)
    ensures PacketDoneBy(g, g', a, t, src, S.Wrte(data), w,
                         (if a in g'.socks then [] else Farewell(g, a))
                         + (if r == 0 then [(t, StreamSystem.Stream(g.socks[a].id, src, S.Okay))] else []))
  {
    var m := S.Wrte(data);
    var (x, msgs, ready) := S.Enqueue(View(g, a), data, w);
    assert S.OnMsg(View(g, a), src, m, w) == (x, if ready then [S.Okay] else msgs);
    assert ready ==> !x.status.Freed? && msgs == [];
    assert FarMsgs(g, a, []) == [];
  }

  // ----- opening a stream -----

  /** The far side opens a stream: a service socket is made and joined, or the OPEN is refused. */
  ghost predicate Accepted(g: Graph, g': Graph, a: Addr, id: nat, t: nat) {
    && Valid(g') && a !in g.socks && IsStream(g', a) && View(g', a) == S.Fresh(Some(id), Some(id))
    && g'.socks[a].id == g.nextId && g'.nextId == g.nextId + 1 && a in g'.mainList
    && (forall x :: x in g.socks ==> x in g'.socks && g'.socks[x] == g.socks[x])
    && forall x :: x in g'.socks && x !in g.socks && x != a ==> g'.socks[x].kind.Remote? && g'.socks[x].transport == Some(t)
  }

  lemma JoinReady(g: Graph, g1: Graph, a: Addr, p: Addr, id: nat, t: nat)
    requires Valid(g1) && a in g1.mainList && a in g1.socks && g1.socks[a].peer == None && p !in g1.socks && id != 0
    requires IsStream(g1, a) && View(g1, a) == S.Fresh(None, Some(id)) && a !in g.socks && p != a && p !in g.socks
    requires g1.socks[a].id == g.nextId && g1.nextId == g.nextId + 1
    requires forall x :: x in g.socks ==> x in g1.socks && g1.socks[x] == g.socks[x]
    requires g1.socks.Keys == g.socks.Keys + {a}
    ensures var g2 := Attach(g1, a, p, id, t);
            Accepted(g, Put(g2, a, Readied(g2.socks[a])), a, id, t)
  {
    hide Valid, View, IsStream, OnlyTouched;
    AttachKeeps(g1, a, p, id, t);
    AttachView(g1, a, p, id, t);
    var g2 := Attach(g1, a, p, id, t);
    assert g2.mainList == g1.mainList;
    ReadyKeeps(g2, a);
  }

  lemma OpenGraph(g: Graph, a: Addr, p: Addr, id: nat, t: nat)
    requires Valid(g) && a !in g.socks && p !in g.socks && p != a && id != 0
    ensures var g1 := Installed(g, a, Some(id));
            && Valid(g1) && a in g1.mainList && a in g1.socks && g1.socks[a].peer == None
            && var g2 := Attach(g1, a, p, id, t);
               Accepted(g, Put(g2, a, Readied(g2.socks[a])), a, id, t)
  {
    hide Valid, View, IsStream, OnlyTouched, Accepted, Attach, Readied;
    InstallKeeps(g, a, Some(id));
    JoinReady(g, Installed(g, a, Some(id)), a, p, id, t);
  }

  /** The name handle_packet hands to create_local_service_socket: the last byte of the payload is made a NUL. */
  function ServiceName(payload: Bytes): Bytes {
    CString(if payload == [] then [] else payload[..|payload| - 1])
  }

  /** OPEN(id, 0, payload); `starts` says which services can be started. False if the process aborts. */
  method HandleOpen(l: SocketLayer, t: nat, id: nat, payload: Bytes, starts: Bytes -> bool) returns (alive: bool)
    requires l.Ok() && id != 0
    modifies l`g, l`links, l`sent, l`heapTop
    ensures var accept := starts(ServiceName(payload));
            (alive <==> !accept || old(l.g).nextId + 1 != TWO_32)
            && (!accept ==> l.g == old(l.g) && l.sent == old(l.sent) + [(t, StreamSystem.Stream(0, id, S.Clse))])
            && (alive && accept ==>
                  && (exists a :: Accepted(old(l.g), l.g, a, id, t))
                  && l.sent == old(l.sent) + [(t, StreamSystem.Stream(old(l.g).nextId, id, S.Okay))])
    ensures l.Ok()
    ensures !alive ==> l.g == old(l.g) && l.sent == old(l.sent)
  {
    hide Accepted, Valid, IsStream, View, Readied;
    if !starts(ServiceName(payload)) {
      l.SendPacket(t, StreamSystem.Stream(0, id, S.Clse));
      return true;
    }
    var r := CreateLocalSocket(l, Some(id));
    if r == None {
      return false;
    }
    var a := r.value;
    OpenGraph(old(l.g), a, l.heapTop, id, t);
    AttachRemote(l, a, id, t);
    l.SendPacket(t, StreamSystem.Stream(l.g.socks[a].id, id, S.Okay));
    Ready(l, a);
    return true;
  }

  /** What OPEN carries: the destination, as far as its first NUL, and a NUL. */
  function OpenPayload(destination: Bytes): Bytes { CString(destination) + [0] }

  /** The far end is asked for just the service that was dialled, if its name can be a C string. */
  lemma {:induction false} OpenNames(destination: Bytes)
    ensures ServiceName(OpenPayload(destination)) == CString(destination)
    ensures ServiceName(OpenPayload(destination)) == destination <==> 0 !in destination
    ensures 0 !in destination ==> |OpenPayload(destination)| == |destination| + 1 && CString(OpenPayload(destination)) == destination
  {
    var d := CString(destination);
    assert (d + [0])[..|d|] == d;
    CStringNoNul(destination);
    CStringNoNul(d);
    WholeCString(destination);
  }

  /** connect_to_remote lets a destination pass: the subtraction wraps when the limit is 0. */
  predicate OpenGoesOut(destination: Bytes, limit: nat) { limit == 0 || |CString(destination)| + 1 <= limit - 1 }

  /** connect_to_remote: the OPEN goes out unless the destination is too long, which aborts the process. */
  method ConnectToRemote(l: SocketLayer, a: Addr, destination: Bytes) returns (alive: bool)
    requires a in l.g.socks && l.g.socks[a].transport.Some?
    requires l.g.socks[a].peer.Some? ==> l.g.socks[a].peer.value in l.g.socks
    modifies l`sent
    ensures alive <==> OpenGoesOut(destination, MaxPayloadOf(l.g, l.limits, a))
    ensures l.sent == old(l.sent)
                + (if alive then [(l.g.socks[a].transport.value, StreamSystem.Open(l.g.socks[a].id, OpenPayload(destination)))] else [])
  {
    var m := l.GetMaxPayload(a);
    var len := |CString(destination)| + 1;
    if m > 0 && len > m - 1 {
      return false;
    }
    l.SendPacket(l.g.socks[a].transport.value, StreamSystem.Open(l.g.socks[a].id, CString(destination) + [0]));
    return true;
  }

  /** What get_max_payload says of a socket with no peer that is bound to transport t. */
  function LimitOn(limits: map<nat, nat>, t: nat): nat {
    if t in limits then Min(MAX_PAYLOAD, limits[t]) else MAX_PAYLOAD
  }

  /** listener_event_func: a socket for the accepted connection, bound to the transport, sends its OPEN. */
  ghost predicate Dialled(g: Graph, g': Graph, a: Addr, t: nat, destination: Bytes, out: seq<(nat, StreamSystem.Packet)>) {
    && Valid(g') && a !in g.socks && g' == Put(Installed(g, a, None), a, NewLocal(g.nextId, None).(transport := Some(t)))
    && out == [(t, StreamSystem.Open(g.nextId, OpenPayload(destination)))]
  }

  /** The record once the socket is bound to transport t. */
  function OnTransport(s: Asocket, t: nat): Asocket { s.(transport := Some(t)) }

  lemma BindEach(g: Graph, a: Addr, t: nat)
    requires Valid(g) && a in g.socks && IsLocal(g.socks[a].kind)
    ensures var g' := Put(g, a, OnTransport(g.socks[a], t));
            forall x :: x in g'.socks ==> Placed(g', x) && Healthy(g'.socks[x]) && Tied(g', x)
  {
    hide ListsOk;
    var g' := Put(g, a, OnTransport(g.socks[a], t));
    forall x | x in g'.socks ensures Placed(g', x) && Healthy(g'.socks[x]) && Tied(g', x) {
      assert Placed(g, x) && Healthy(g.socks[x]) && Tied(g, x);
    }
  }

  lemma BindKeeps(g: Graph, a: Addr, t: nat)
    requires Valid(g) && a in g.socks && IsLocal(g.socks[a].kind)
    ensures Valid(Put(g, a, OnTransport(g.socks[a], t)))
  {
    hide Placed, Healthy, Tied, ListsOk;
    BindEach(g, a, t);
    BindLists(g, a, t);
  }

  lemma BindLists(g: Graph, a: Addr, t: nat)
    requires ListsOk(g) && a in g.socks
    ensures ListsOk(Put(g, a, OnTransport(g.socks[a], t)))
  {
  }

  lemma DialKeeps(g: Graph, a: Addr, t: nat)
    requires Valid(g) && a !in g.socks
    ensures Valid(Put(Installed(g, a, None), a, NewLocal(g.nextId, None).(transport := Some(t))))
  {
    InstallKeeps(g, a, None);
    hide Valid;
    BindKeeps(Installed(g, a, None), a, t);
  }

  /** False if the process aborts: no id is left, or the destination is too long. */
  method ListenerConnects(l: SocketLayer, t: nat, destination: Bytes) returns (alive: bool, ghost out: seq<(nat, StreamSystem.Packet)>)
    requires l.Ok()
    modifies l`g, l`links, l`sent, l`heapTop
    ensures l.Ok() && l.sent == old(l.sent) + out
    ensures alive <==> old(l.g).nextId + 1 != TWO_32 && OpenGoesOut(destination, LimitOn(l.limits, t))
    ensures alive ==> exists a :: Dialled(old(l.g), l.g, a, t, destination, out)
    ensures !alive ==> out == []
  {
    hide Valid, IsStream, View;
    out := [];
    var r := CreateLocalSocket(l, None);
    if r == None {
      return false, [];
    }
    var a := r.value;
    DialKeeps(old(l.g), a, t);
    l.g := Put(l.g, a, l.g.socks[a].(transport := Some(t)));
    assert l.Used() == old(l.Used()) + {a};
    alive := ConnectToRemote(l, a, destination);
    if alive {
      out := [(t, StreamSystem.Open(old(l.g).nextId, OpenPayload(destination)))];
      assert Dialled(old(l.g), l.g, a, t, destination, out);
    }
  }

  // ----- any packet -----

  /** What handle_packet does with a packet that comes by transport t, if t is online. */
  ghost predicate Handled(g: Graph, g': Graph, t: nat, p: StreamSystem.Packet, accept: bool, out: seq<(nat, StreamSystem.Packet)>) {
    match p
    case Open(id, _) =>
      if id == 0 then g' == g && out == []
      else if !accept then g' == g && out == [(t, StreamSystem.Stream(0, id, S.Clse))]
      else
        && g.nextId + 1 != TWO_32 && (exists a :: Accepted(g, g', a, id, t))
        && out == [(t, StreamSystem.Stream(g.nextId, id, S.Okay))]
    case Stream(src, dst, m) =>
      if dst == 0 || (src == 0 && !m.Clse?) then g' == g && out == []
      else Answered(g, g', t, src, dst, m, out) && NoData(out)
  }

  /** The packet asks for a service, and that can be started. */
  predicate Starts(p: StreamSystem.Packet, starts: Bytes -> bool) { p.Open? && starts(ServiceName(p.name)) }

  /** handle_packet; false if the process aborts because no id is left. */
  method HandlePacket(l: SocketLayer, t: nat, online: bool, p: StreamSystem.Packet, starts: Bytes -> bool)
    returns (alive: bool, ghost out: seq<(nat, StreamSystem.Packet)>)
    requires l.Ok()
    modifies l`g, l`links, l`sent, l`heapTop, l`freed, l`writeLog
    ensures l.Ok() && l.sent == old(l.sent) + out
    ensures !online ==> alive && l.g == old(l.g) && out == []
    ensures online && alive ==> Handled(old(l.g), l.g, t, p, Starts(p, starts), out)
    ensures old(l.writeLog) <= l.writeLog
    ensures online && p.Stream? && p.msg.Wrte? && p.src != 0 && p.dst != 0 ==>
              WrteTold(old(l.g), l.g, t, p.src, p.dst, p.msg.data, Since(old(l.writeLog), l.writeLog), out)
    ensures !(p.Stream? && p.msg.Wrte?) ==> l.writeLog == old(l.writeLog)
    ensures NoData(out)
    ensures !alive ==> Starts(p, starts) && old(l.g).nextId + 1 == TWO_32 && l.g == old(l.g) && out == []
  {
    hide Valid, Answered, Accepted, WrteTold, Since;
    alive, out := true, [];
    if !online {
      return;
    }
    match p
    case Open(id, _) =>
      if id != 0 {
        alive := HandleOpen(l, t, id, p.name, starts);
        out := if !starts(ServiceName(p.name)) then [(t, StreamSystem.Stream(0, id, S.Clse))]
               else if alive then [(t, StreamSystem.Stream(old(l.g).nextId, id, S.Okay))] else [];
      }
    case Stream(src, dst, m) =>
      if dst != 0 && (src != 0 || m.Clse?) {
        match m
        case Okay => out := HandleOkay(l, t, src, dst);
        case Clse => out := HandleClse(l, t, src, dst);
        case Wrte(data) => out := HandleWrte(l, t, src, dst, data);
      }
  }
}
