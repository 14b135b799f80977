/**
 * local_socket_event_func for a socket whose peer is another local socket, as a host service and its
 * client are. Handing data to the peer may close both, and the handler goes on with its own record:
 * here is exactly when that record is still there.
 */
module LocalPairs {
  import opened AdbBase
  import opened SocketGraph
  import opened Sockets
  import opened AdbPackets
  import opened KernelLog
  import S = StreamSocket
  import SocketLists

  /** a and p are local sockets and each other's peers. */
  predicate Paired(g: Graph, a: Addr, p: Addr) {
    a in g.socks && p in g.socks && a != p && g.socks[a].peer == Some(p) && g.socks[p].peer == Some(a)
    && IsLocal(g.socks[a].kind) && IsLocal(g.socks[p].kind)
  }

  /**
   * Data was read for a peer that has no backlog and whose fd refuses it for good, and the socket has
   * no backlog of its own that would keep it on the closing list.
   */
  predicate HandedToTheDead(g: Graph, a: Addr, p: Addr, r: S.Reads, w: S.Writes)
    requires Paired(g, a, p)
  {
    r.data != [] && g.socks[p].queue == [] && w.failed && w.n < |r.data| && g.socks[a].queue == []
  }

  lemma PairFacts(g: Graph, a: Addr, p: Addr)
    requires Valid(g) && Paired(g, a, p)
    ensures a in g.mainList && p in g.mainList && !g.socks[a].closing && !g.socks[p].closing
    ensures Healthy(g.socks[a]) && Healthy(g.socks[p])
    ensures Farewell(g, a) == [] && Farewell(g, p) == []
  {
    assert Placed(g, a) && Placed(g, p);
  }

  /** When a close of p reaches its peer a, what becomes of a. */
  lemma PeerOutlives(g: Graph, p: Addr, a: Addr, why: S.Cause)
    requires CanClose(g, p) && Paired(g, p, a)
    ensures var g' := CloseGraph(g, p, why);
            && (a in g'.socks <==> !Dies(g.socks[a]))
            && (a in g'.socks ==>
                  var s := g'.socks[a];
                  s.closing && s.peer == None && s.queue == g.socks[a].queue && IsLocal(s.kind) && s.put == g.socks[a].put
                  && s.got == g.socks[a].got)
  {
    var g1 := Unpeered(Tell(g, p), a);
    LoneEffect(g1, a, S.ByPeer);
    var g2 := PeerHalf(g, p, a);
    hide CloseLone, Retire;
    RetireEffect(Unpeered(g2, p), p, why);
  }

  /** The peer's fd refused the data: both are closed, and a is there still if it has a backlog. */
  lemma {:induction false} RefusedPeer(g: Graph, a: Addr, p: Addr, data: Bytes, n: nat)
    requires Valid(g) && Paired(g, a, p) && MidWrite(g, p, g.socks[p].(put := g.socks[p].put + data[..Min(n, |data|)]))
    ensures var g' := FailedGraph(g, p, g.socks[p].(put := g.socks[p].put + data[..Min(n, |data|)]));
            && (a in g'.socks <==> g.socks[a].queue != [])
            && (a in g'.socks ==> var s := g'.socks[a]; s.closing && s.queue == g.socks[a].queue && IsLocal(s.kind) && s.peer == None)
  {
    PairFacts(g, a, p);
    var s := g.socks[p].(put := g.socks[p].put + data[..Min(n, |data|)]);
    FailedIs(g, p, s);
    hide Valid, CanClose, CloseGraph, FailedGraph, MidWrite;
    PeerOutlives(Put(g, p, s.(hasWriteError := true)), p, a, S.WriteError);
  }

  /** The record once its data has gone to the peer, which is ready for more if `ready`. */
  function HandedOver(s: Asocket, data: Bytes, ready: bool): Asocket {
    s.(got := s.got + data, calm := s.calm && s.reading, reading := s.reading && ready)
  }

  lemma {:induction false} HandedOk(g: Graph, a: Addr, data: Bytes, ready: bool)
    requires Valid(g) && a in g.socks && IsLocal(g.socks[a].kind)
    ensures var g' := Put(g, a, HandedOver(g.socks[a], data, ready));
            && Valid(g') && g'.socks.Keys == g.socks.Keys && CanClose(g', a) && Homed(g') && Tied(g', a) && Farewell(g', a) == Farewell(g, a)
            && IsLocal(g'.socks[a].kind) && g'.socks[a].peer == g.socks[a].peer && g'.socks[a].closing == g.socks[a].closing
            && g'.socks[a].got == g.socks[a].got + data
            && forall x :: x in g.socks && x != a ==> g'.socks[x] == g.socks[x]
  {
    var s := HandedOver(g.socks[a], data, ready);
    assert Healthy(g.socks[a]) && Tied(g, a);
    SetOk(g, a, s);
    ValidCanClose(Put(g, a, s), a);
    CanCloseHomed(Put(g, a, s), a);
    SameFarewell(g, a, s);
  }

  /** What handing data to the peer leaves, and whether the handler's own record is left. */
  lemma {:induction false} EnqueueLeaves(g: Graph, g': Graph, a: Addr, p: Addr, data: Bytes, w: S.Writes, r: int)
    requires Valid(g) && Valid(g') && Paired(g, a, p) && EnqueueMade(g, g', p, data, w, r) && data != []
    ensures a in g'.socks <==> !HandedToTheDead(g, a, p, S.Reads(data, false), w)
    ensures a in g'.socks ==> IsLocal(g'.socks[a].kind) && g'.socks[a].queue == g.socks[a].queue
    ensures a in g'.socks && !w.failed ==> g'.socks[a] == g.socks[a] && Paired(g', a, p)
    ensures a in g'.socks && w.failed ==> g'.socks[a].closing && g'.socks[a].peer == None
    ensures !w.failed ==>
              g'.socks.Keys == g.socks.Keys
              && g'.socks[p].put + Flat(g'.socks[p].queue) == g.socks[p].put + Flat(g.socks[p].queue) + data
              && (r == 0 <==> g'.socks[p].queue == [])
  {
    PairFacts(g, a, p);
    if w.failed {
      RefusedPeer(g, a, p, data, w.n);
    } else {
      EnqueuedBytes(g.socks[p], data, w.n);
    }
  }

  lemma {:induction false} EnqueuedBytes(s: Asocket, data: Bytes, n: nat)
    requires n <= |data|
    ensures var s' := Enqueued(s, data, n); s'.put + Flat(s'.queue) == s.put + Flat(s.queue) + data
  {
    hide Flat;
    if s.queue != [] {
      FlatAppend(s.queue, data);
    } else {
      NoneAndOne(data[n..]);
      Halves(s.put, data, n);
    }
  }

  lemma {:induction false} NoneAndOne(d: Bytes)
    ensures Flat([]) == [] && Flat([d]) == d
  {
    assert [d][1..] == [];
  }

  lemma {:induction false} Halves(put: Bytes, data: Bytes, n: nat)
    requires n <= |data|
    ensures put + data[..n] + data[n..] == put + [] + data && put + data + [] == put + [] + data
  {
    assert data[..n] + data[n..] == data;
  }

  /** Data goes to the peer's enqueue, and back in its record the socket reads on if the peer is ready for more. */
  method HandToPeer(l: SocketLayer, a: Addr, p: Addr, data: Bytes) returns (alive: bool, ghost w: S.Writes)
    requires l.Ok() && Paired(l.g, a, p) && data != []
    modifies l`g, l`links, l`sent, l`freed, l`writeLog
    ensures l.Ok() && l.sent == old(l.sent)
    ensures old(l.writeLog) <= l.writeLog && w == WritesOf(Since(old(l.writeLog), l.writeLog))
    ensures Exhausted(w.n, if old(l.g).socks[p].queue == [] then |data| else 0, Since(old(l.writeLog), l.writeLog))
    ensures alive <==> !HandedToTheDead(old(l.g), a, p, S.Reads(data, false), w)
    ensures alive <==> a in l.g.socks
    ensures alive && w.failed ==> IsLocal(l.g.socks[a].kind) && l.g.socks[a].peer == None && l.g.socks[a].closing
    ensures alive && !w.failed ==>
              && Paired(l.g, a, p) && !Closed(l.g, a) && l.g.socks[a].got == old(l.g).socks[a].got + data
              && var (q, q') := (old(l.g).socks[p], l.g.socks[p]);
                 q'.put + Flat(q'.queue) == q.put + Flat(q.queue) + data
                 && (l.g.socks[a].reading <==> old(l.g).socks[a].reading && q'.queue == [])
  {
    hide Valid, CanClose, CloseGraph, EnqueueDone, EnqueueMade, Farewell, Homed, SocketLists.Spells, HandedOver, Tied, Put;
    hide Given, Ended, Blocked, OneLoop, Since, Exhausted;
    NothingSince(l.writeLog);
    NoneOffered(l.writeLog);
    PairFacts(l.g, a, p);
    var ready;
    ready, w := l.LocalSocketEnqueue(p, data);
    EnqueueLeaves(old(l.g), l.g, a, p, data, w, ready);
    HandedPair(l.g, a, p, data, ready == 0);
    if a !in l.g.socks {
      return false, w;
    }
    HandedOk(l.g, a, data, ready == 0);
    l.Store(a, HandedOver(l.g.socks[a], data, ready == 0));
    return true, w;
  }

  /** The FDE_READ half. `alive` is false where the code would go on with a record that has been freed. */
  method PairRead(l: SocketLayer, a: Addr, p: Addr) returns (alive: bool, ghost r: S.Reads, ghost w: S.Writes)
    requires l.Ok() && Paired(l.g, a, p)
    modifies l`g, l`links, l`sent, l`freed, l`readLog, l`writeLog
    ensures l.Ok() && l.sent == old(l.sent)
    ensures old(l.readLog) <= l.readLog && r == ReadsOf(Since(old(l.readLog), l.readLog))
    ensures old(l.writeLog) <= l.writeLog && w == WritesOf(Since(old(l.writeLog), l.writeLog))
    ensures Exhausted(|r.data|, MaxPayloadOf(old(l.g), l.limits, a), Since(old(l.readLog), l.readLog))
    ensures Exhausted(w.n, if old(l.g).socks[p].queue == [] then |r.data| else 0, Since(old(l.writeLog), l.writeLog))
    ensures alive <==> !HandedToTheDead(old(l.g), a, p, r, w)
    ensures Closed(l.g, a) <==> r.eof || w.failed
    ensures !alive ==> a !in l.g.socks
    ensures alive && !r.eof ==> a in l.g.socks
    ensures alive && !r.eof && !w.failed ==>
              && Paired(l.g, a, p) && l.g.socks[a].got == old(l.g).socks[a].got + r.data
              && var (q, q') := (old(l.g).socks[p], l.g.socks[p]); q'.put + Flat(q'.queue) == q.put + Flat(q.queue) + r.data
    ensures alive && !r.eof && !w.failed ==>
              (l.g.socks[a].reading <==> old(l.g).socks[a].reading && (r.data == [] || l.g.socks[p].queue == []))
  {
    hide Valid, CanClose, CloseGraph, EnqueueDone, EnqueueMade, Farewell, Homed, SocketLists.Spells, HandedOver, Tied, Put;
    hide Given, Ended, Blocked, OneLoop, Since, Exhausted;
    NothingSince(l.writeLog);
    NoneOffered(l.writeLog);
    var m := l.GetMaxPayload(a);
    var data, eof := l.ReadIn(m);
    r, w := S.Reads(data, eof), S.Writes(0, false);
    PairFacts(l.g, a, p);
    alive := true;
    if data != [] {
      alive, w := HandToPeer(l, a, p, data);
      if !alive {
        return false, r, w;
      }
    }
    NoneRead(l.g, a, p);
    PairIsLocal(l.g, a, p);
    if eof {
      Ending(l.g, a);
      l.Close(a, S.HungUp);
    }
  }

  lemma NoneOffered(log: seq<Answer>)
    ensures forall n: nat :: Exhausted(n, 0, Since(log, log))
  {
  }

  lemma PairIsLocal(g: Graph, a: Addr, p: Addr)
    ensures Paired(g, a, p) ==> IsLocal(g.socks[a].kind) && g.socks[a].peer == Some(p) && IsLocal(g.socks[p].kind)
  {
  }

  lemma {:induction false} HandedPair(g: Graph, a: Addr, p: Addr, data: Bytes, ready: bool)
    ensures Paired(g, a, p) ==>
              var g' := Put(g, a, HandedOver(g.socks[a], data, ready)); Paired(g', a, p) && g'.socks[p] == g.socks[p] && g'.socks[a].reading == (g.socks[a].reading && ready)
  {
  }

  lemma NoneRead(g: Graph, a: Addr, p: Addr)
    ensures Paired(g, a, p) ==> g.socks[a].got + [] == g.socks[a].got
    ensures Paired(g, a, p) ==> g.socks[p].put + Flat(g.socks[p].queue) + [] == g.socks[p].put + Flat(g.socks[p].queue)
  {
  }

  /** The FDE_WRITE half; the handler goes on when the whole backlog is out, and tells the peer so. */
  method PairDrain(l: SocketLayer, a: Addr, p: Addr) returns (goOn: bool, ghost w: S.Writes)
    requires l.Ok() && Paired(l.g, a, p) && l.g.socks[a].writing
    modifies l`g, l`links, l`sent, l`freed, l`writeLog
    ensures l.Ok() && l.sent == old(l.sent)
    ensures old(l.writeLog) <= l.writeLog && w == WritesOf(Since(old(l.writeLog), l.writeLog))
    ensures Exhausted(w.n, |Flat(old(l.g).socks[a].queue)|, Since(old(l.writeLog), l.writeLog))
    ensures goOn <==> !w.failed && w.n == |Flat(old(l.g).socks[a].queue)|
    ensures goOn ==> Paired(l.g, a, p) && l.g.socks[a].queue == []
    ensures goOn ==> MaxPayloadOf(l.g, l.limits, a) == MaxPayloadOf(old(l.g), l.limits, a)
    ensures goOn ==> var (q, q') := (old(l.g).socks[p], l.g.socks[p]); q'.queue == q.queue && q'.put == q.put && q'.reading
    ensures goOn ==> l.g.socks[a].put == old(l.g).socks[a].put + Flat(old(l.g).socks[a].queue)
  {
    hide Valid, CanClose, CloseGraph, DrainDone, MidWrite, FailedGraph, Farewell, Homed, SocketLists.Spells;
    hide Given, Ended, Blocked, OneLoop, Since;
    PairFacts(l.g, a, p);
    var s := l.g.socks[a];
    DrainFacts(l.g, a);
    var n, rest, broken := l.DrainOut(s.queue);
    w := S.Writes(n, broken);
    if broken {
      DrainBreaks(l.g, a, n);
      l.FailSock(a, Drained(s, n, rest));
      return false, w;
    }
    if rest != [] {
      DrainBlocks(l.g, a, n);
      DrainSound(l.g, Put(l.g, a, Drained(s, n, rest)), a, w, false);
      l.Store(a, Drained(s, n, rest));
      return false, w;
    }
    DrainEmpties(l.g, a, n);
    DrainSound(l.g, Put(l.g, a, Drained(s, n, []).(writing := false)), a, w, true);
    l.Store(a, Drained(s, n, []).(writing := false));
    Ready(l, p);
    return true, w;
  }

  /** A write loop took what it could of so many bytes. */
  predicate Wrote(log: seq<Answer>, w: S.Writes, wanted: nat) { w == WritesOf(log) && Exhausted(w.n, wanted, log) }

  /** The handler writes its own backlog, and then the peer writes what was read, each as far as it goes. */
  ghost predicate PairWrote(before: seq<Answer>, now: seq<Answer>, own: S.Writes, backlog: nat, peer: S.Writes, offered: nat) {
    exists mid: seq<Answer> :: before <= mid <= now && Wrote(Since(before, mid), own, backlog) && Wrote(Since(mid, now), peer, offered)
  }

  lemma WroteInTurn(before: seq<Answer>, mid: seq<Answer>, now: seq<Answer>, own: S.Writes, backlog: nat, peer: S.Writes, offered: nat)
    requires before <= mid <= now && Wrote(Since(before, mid), own, backlog) && Wrote(Since(mid, now), peer, offered)
    ensures before <= now && PairWrote(before, now, own, backlog, peer, offered)
  {
  }

  /**
   * local_socket_event_func on one of a pair of local sockets. It touches only records that are there
   * if and only if it does not hand over data to a peer that has no backlog and whose fd fails while
   * the socket itself has no backlog, or has just written it.
   */
  method PairEventFunc(l: SocketLayer, a: Addr, p: Addr, ev: S.Event)
    returns (alive: bool, ghost w: S.Writes, ghost r: S.Reads, ghost to: S.Writes)
    requires l.Ok() && Paired(l.g, a, p) && (ev.write ==> l.g.socks[a].writing)
    modifies l`g, l`links, l`sent, l`freed, l`readLog, l`writeLog
    ensures l.Ok() && l.sent == old(l.sent)
    ensures old(l.readLog) <= l.readLog && r == ReadsOf(Since(old(l.readLog), l.readLog))
    ensures old(l.writeLog) <= l.writeLog
    ensures var (s, q) := (old(l.g).socks[a], old(l.g).socks[p]);
            var goesOn := ev.read && (ev.write ==> !w.failed && w.n == |Flat(s.queue)|);
            && (if goesOn then Exhausted(|r.data|, MaxPayloadOf(old(l.g), l.limits, a), Since(old(l.readLog), l.readLog))
                else l.readLog == old(l.readLog))
            && PairWrote(old(l.writeLog), l.writeLog, w, if ev.write then |Flat(s.queue)| else 0,
                         to, if goesOn && q.queue == [] then |r.data| else 0)
    ensures var (s, q) := (old(l.g).socks[a], old(l.g).socks[p]);
            var goesOn := ev.read && (ev.write ==> !w.failed && w.n == |Flat(s.queue)|);
            alive <==> !(goesOn && r.data != [] && q.queue == [] && to.failed && to.n < |r.data| && (ev.write || s.queue == []))
    ensures !alive ==> a !in l.g.socks
  {
    hide Valid, SocketLists.Spells, Farewell, PairWrote, WritesOf, ReadsOf, Since, MaxPayloadOf, Ended, Blocked;
    NothingTold(l.readLog);
    NothingTold(l.writeLog);
    ghost var backlog, idle := if ev.write then |Flat(l.g.socks[a].queue)| else 0, l.g.socks[p].queue == [];
    alive, w, r, to := true, S.Writes(0, false), S.Reads([], false), S.Writes(0, false);
    var goOn := true;
    if ev.write {
      goOn, w := PairDrain(l, a, p);
    }
    ghost var mid := l.writeLog;
    NothingTold(mid);
    if goOn && ev.read {
      alive, r, to := PairRead(l, a, p);
    }
    WroteInTurn(old(l.writeLog), mid, l.writeLog, w, backlog, to, if goOn && ev.read && idle then |r.data| else 0);
  }

  lemma NothingTold(log: seq<Answer>)
    ensures WritesOf(Since(log, log)) == S.Writes(0, false) && ReadsOf(Since(log, log)) == S.Reads([], false)
  {
    NothingSince(log);
  }

  /** Between calls a socket with a local peer or none can be closed, and owes nobody a CLSE. */
  lemma Ending(g: Graph, a: Addr)
    requires Valid(g) && a in g.socks && IsLocal(g.socks[a].kind)
    requires g.socks[a].peer.Some? ==> g.socks[a].peer.value in g.socks && IsLocal(g.socks[g.socks[a].peer.value].kind)
    ensures Reachable(g, a) && Homed(g) && Farewell(g, a) == []
    ensures CanClose(g, a) && Valid(CloseGraph(g, a, S.HungUp)) && Closed(CloseGraph(g, a, S.HungUp), a)
  {
    ValidCanClose(g, a);
    CanCloseHomed(g, a);
    CloseKeeps(g, a, S.HungUp);
    CloseFields(g, a, S.HungUp);
  }

  // ----- where pairs come from -----

  /** A smart socket just made, tied to the local socket at a. */
  function SmartOf(a: Addr): Asocket {
    Asocket(0, false, false, Some(a), Smart, [], false, false, None, [], [], [], [], false, true, None)
  }

  function Asking(g: Graph, a: Addr, q: Addr): Graph
    requires a in g.socks
  {
    Put(Put(g, q, SmartOf(a)), a, g.socks[a].(peer := Some(q)))
  }

  lemma AskingEach(g: Graph, a: Addr, q: Addr)
    requires Valid(g) && a in g.mainList && g.socks[a].peer == None && q !in g.socks
    ensures var g' := Asking(g, a, q);
            forall x :: x in g'.socks ==> Placed(g', x) && Healthy(g'.socks[x]) && Tied(g', x)
  {
    var g' := Asking(g, a, q);
    assert Placed(g, a) && Tied(g, a) && Healthy(g.socks[a]);
    forall x | x in g'.socks ensures Placed(g', x) && Healthy(g'.socks[x]) && Tied(g', x) {
      if x != q {
        assert Placed(g, x) && Tied(g, x) && Healthy(g.socks[x]);
      }
    }
  }

  lemma AskingKeeps(g: Graph, a: Addr, q: Addr)
    requires Valid(g) && a in g.mainList && g.socks[a].peer == None && q !in g.socks
    ensures Valid(Asking(g, a, q))
  {
    hide Placed, Healthy, Tied, ListsOk;
    AskingEach(g, a, q);
    AskingLists(g, a, q);
  }

  lemma AskingLists(g: Graph, a: Addr, q: Addr)
    requires ListsOk(g) && a in g.mainList && q !in g.socks
    ensures ListsOk(Asking(g, a, q))
  {
    assert q != a && q !in g.mainList && q !in g.closingList;
  }

  /** a asks smart socket q for a service. */
  predicate Asks(g: Graph, a: Addr, q: Addr) {
    a in g.socks && q in g.socks && a != q && g.socks[a].peer == Some(q) && g.socks[q].peer == Some(a)
    && IsLocal(g.socks[a].kind) && g.socks[q].kind.Smart?
  }

  /** connect_to_smartsocket, on a socket just made. */
  method ConnectToSmartSocket(l: SocketLayer, a: Addr) returns (q: Addr)
    requires l.Ok() && a in l.g.mainList && a in l.g.socks && l.g.socks[a].peer == None
    modifies l`g, l`heapTop
    ensures l.Ok() && q !in old(l.g).socks && Asks(l.g, a, q) && a in l.g.mainList
    ensures l.g.socks.Keys == old(l.g).socks.Keys + {q}
    ensures forall x :: x in old(l.g).socks && x != a ==> x in l.g.socks && l.g.socks[x] == old(l.g).socks[x]
    ensures l.g.mainList == old(l.g).mainList && l.g.socks[a].reading
  {
    hide Valid, SocketLists.Spells;
    q := l.heapTop;
    assert q !in l.Used();
    AskingKeeps(l.g, a, q);
    ListedLocal(l.g, a);
    l.heapTop := l.heapTop + 1;
    l.g := Asking(l.g, a, q);
    assert l.Used() == old(l.Used()) + {q};
    Ready(l, a);
  }

  lemma ListedLocal(g: Graph, a: Addr)
    requires Valid(g) && a in g.mainList
    ensures a in g.socks && IsLocal(g.socks[a].kind) && !g.socks[a].closing
  {
  }

  /** The two sockets made each other's peers, the smart socket cut off. */
  function Rewired(g: Graph, a: Addr, q: Addr, b: Addr): Graph
    requires a in g.socks && q in g.socks && b in g.socks
  {
    var s := g.socks[a];
    Unpeered(Put(Put(g, a, s.(kind := Local, peer := Some(b), notices := s.notices + [true])), b, g.socks[b].(peer := Some(a))), q)
  }

  function JoinedGraph(g: Graph, a: Addr, q: Addr, b: Addr): Graph
    requires a in g.socks && q in g.socks && b in g.socks
  {
    var g1 := Rewired(g, a, q, b);
    g1.(socks := Forget(g1.socks, q))
  }

  /** b is a socket for a service, made and not yet joined. */
  predicate Idle(g: Graph, b: Addr) { b in g.mainList && b in g.socks && g.socks[b].peer == None }

  lemma JoinedTies(g: Graph, a: Addr, q: Addr, b: Addr)
    requires Valid(g) && Asks(g, a, q) && Idle(g, b) && b != a && a in g.mainList
    ensures var g' := JoinedGraph(g, a, q, b); forall x :: x in g'.socks ==> Tied(g', x)
  {
    hide ListsOk, Placed, Healthy;
    ListedLocal(g, b);
    var g' := JoinedGraph(g, a, q, b);
    forall x | x in g'.socks ensures Tied(g', x) {
      assert Tied(g, x);
    }
  }

  lemma JoinedFlags(g: Graph, a: Addr, q: Addr, b: Addr)
    requires Valid(g) && Asks(g, a, q) && Idle(g, b) && b != a && a in g.mainList
    ensures var g' := JoinedGraph(g, a, q, b); forall x :: x in g'.socks ==> Placed(g', x) && Healthy(g'.socks[x])
  {
    hide Tied;
    ListedLocal(g, a);
    ListedLocal(g, b);
    var g' := JoinedGraph(g, a, q, b);
    forall x | x in g'.socks ensures Placed(g', x) && Healthy(g'.socks[x]) {
      assert Placed(g, x) && Healthy(g.socks[x]);
    }
  }

  lemma JoinedLists(g: Graph, a: Addr, q: Addr, b: Addr)
    requires ListsOk(g) && Asks(g, a, q) && Idle(g, b) && b != a
    ensures ListsOk(JoinedGraph(g, a, q, b)) && ListsOk(Rewired(g, a, q, b))
  {
  }

  lemma JoinedKeeps(g: Graph, a: Addr, q: Addr, b: Addr)
    requires Valid(g) && Asks(g, a, q) && Idle(g, b) && b != a && a in g.mainList
    ensures Valid(JoinedGraph(g, a, q, b)) && Paired(JoinedGraph(g, a, q, b), a, b)
  {
    ListedLocal(g, b);
    JoinedTies(g, a, q, b);
    JoinedFlags(g, a, q, b);
    JoinedLists(g, a, q, b);
    hide ListsOk, Placed, Healthy, Tied;
  }

  lemma RewiredHomed(g: Graph, a: Addr, q: Addr, b: Addr)
    requires Valid(g) && Asks(g, a, q) && Idle(g, b) && b != a
    ensures Homed(Rewired(g, a, q, b))
    ensures CloseGraph(Rewired(g, a, q, b), q, S.ByPeer) == JoinedGraph(g, a, q, b)
  {
    AlmostHomed(g, {}, {});
    JoinedLists(g, a, q, b);
    ListedLocal(g, b);
    hide ListsOk;
  }

  /** The end of smart_socket_enqueue for a host service: its client is told OKAY and joined to the service's socket. */
  method JoinService(l: SocketLayer, a: Addr, q: Addr, b: Addr)
    requires l.Ok() && Asks(l.g, a, q) && a in l.g.mainList && Idle(l.g, b) && b != a
    modifies l`g, l`links, l`sent, l`freed
    ensures l.Ok() && Paired(l.g, a, b) && q !in l.g.socks && l.sent == old(l.sent)
    ensures l.g.socks[b].reading && l.g.socks[a].notices == old(l.g).socks[a].notices + [true]
    ensures l.g.socks[a].reading == old(l.g).socks[a].reading
    ensures forall x :: x in old(l.g).socks && x !in {a, b, q} ==> x in l.g.socks && l.g.socks[x] == old(l.g).socks[x]
  {
    hide Valid, CloseGraph, Homed, SocketLists.Spells, Farewell;
    JoinedKeeps(l.g, a, q, b);
    RewiredHomed(l.g, a, q, b);
    NoFarewell(Rewired(l.g, a, q, b), q);
    l.g := Rewired(l.g, a, q, b);
    l.Close(q, S.ByPeer);
    Ready(l, b);
  }

  lemma NoFarewell(g: Graph, q: Addr)
    requires q in g.socks && g.socks[q].peer == None
    ensures Farewell(g, q) == []
  {
  }

  /** A client comes and asks for a host service: this is how pairs arise. False if no id is left. */
  method ServeHost(l: SocketLayer) returns (alive: bool, a: Addr, b: Addr)
    requires l.Ok()
    modifies l`g, l`links, l`sent, l`heapTop, l`freed
    ensures l.Ok() && (alive ==> Paired(l.g, a, b))
  {
    hide Valid, SocketLists.Spells;
    alive, a, b := false, 0, 0;
    var client := CreateLocalSocket(l, None);
    if client == None {
      return;
    }
    a := client.value;
    var q := ConnectToSmartSocket(l, a);
    var service := CreateLocalSocket(l, None);
    if service == None {
      return;
    }
    b := service.value;
    JoinService(l, a, q, b);
    alive := true;
  }

  // ----- the failing event -----

  /** A client and a service, neither with anything to write, the client about to be read. */
  function PairGraph(): Graph {
    Graph(map[1 := NewLocal(1, None).(peer := Some(2), reading := true), 2 := NewLocal(2, None).(peer := Some(1), reading := true)],
          [1, 2], [], 3)
  }

  /** One byte is read from the client, and the service's fd refuses it: the client's record is gone. */
  lemma HandOverKills()
    ensures var (g, r, w) := (PairGraph(), S.Reads([1], false), S.Writes(0, true));
            && Valid(g) && Paired(g, 1, 2) && HandedToTheDead(g, 1, 2, r, w) && MidWrite(g, 2, g.socks[2])
            && var g' := FailedGraph(g, 2, g.socks[2]);
               EnqueueMade(g, g', 2, r.data, w, 1) && 1 !in g'.socks
  {
    var g := PairGraph();
    PairGraphOk();
    RefusedAtOnce(g, [1]);
    EnqueueLeaves(g, FailedGraph(g, 2, g.socks[2]), 1, 2, [1], S.Writes(0, true), 1);
    hide Valid, EnqueueMade, FailedGraph;
  }

  lemma RefusedAtOnce(g: Graph, d: Bytes)
    requires Valid(g) && g == PairGraph() && d == [1]
    ensures MidWrite(g, 2, g.socks[2]) && EnqueueMade(g, FailedGraph(g, 2, g.socks[2]), 2, d, S.Writes(0, true), 1)
  {
    assert d[..0] == [] && g.socks[2].(put := g.socks[2].put + d[..0]) == g.socks[2];
  }

  lemma PairGraphOk()
    ensures Valid(PairGraph())
  {
  }
}
