/**
 * A client whose request is for a service on the device: its socket is cut loose from the smart socket,
 * sends an OPEN, and tells the client once how that went.
 */
module ClientDial {
  import opened AdbBase
  import opened SocketGraph
  import opened Sockets
  import opened AdbPackets
  import opened LocalPairs
  import S = StreamSocket
  import StreamSystem
  import SocketLists

  // ----- one word to the client -----

  /** A call of a socket's ready or close function. */
  datatype Call = ReadyCall | CloseCall

  /** What such calls do to the socket's record, as far as the client's fd can tell. */
  function AfterCalls(s: Asocket, calls: seq<Call>): Asocket
    decreases |calls|
  {
    if calls == [] then s
    else AfterCalls(if calls[0].ReadyCall? then Readied(s) else Told(s), calls[1..])
  }

  lemma {:induction false} PlainSaysNothing(s: Asocket, calls: seq<Call>)
    requires s.kind.Local?
    ensures AfterCalls(s, calls).notices == s.notices && AfterCalls(s, calls).kind.Local?
    decreases |calls|
  {
    if calls != [] {
      PlainSaysNothing(if calls[0].ReadyCall? then Readied(s) else Told(s), calls[1..]);
    }
  }

  /** However often it is called, the client gets one word: OKAY if ready came first, FAIL if close did. */
  lemma {:induction false} OneWord(s: Asocket, calls: seq<Call>)
    requires s.kind.LocalNotify? && calls != []
    ensures AfterCalls(s, calls).notices == s.notices + [calls[0].ReadyCall?]
  {
    PlainSaysNothing(if calls[0].ReadyCall? then Readied(s) else Told(s), calls[1..]);
  }

  /** A socket that is closed before it is connected says FAIL, whether it is freed or drains its backlog first. */
  lemma ClosedSaysFail(g: Graph, a: Addr, why: S.Cause)
    requires CanClose(g, a) && g.socks[a].kind.LocalNotify?
    ensures Tied(g, a)
    ensures a in CloseGraph(g, a, why).socks ==> CloseGraph(g, a, why).socks[a].notices == g.socks[a].notices + [false]
  {
    CloseFields(g, a, why);
    hide CanClose, CloseGraph;
  }

  // ----- dialling -----

  function Loosened(g: Graph, a: Addr, q: Addr, t: nat): Graph
    requires a in g.socks && q in g.socks
  {
    Unpeered(Put(g, a, g.socks[a].(kind := LocalNotify, peer := None, transport := Some(t))), q)
  }

  function LooseGraph(g: Graph, a: Addr, q: Addr, t: nat): Graph
    requires a in g.socks && q in g.socks
  {
    var g1 := Loosened(g, a, q, t);
    g1.(socks := Forget(g1.socks, q))
  }

  lemma LooseEach(g: Graph, a: Addr, q: Addr, t: nat)
    requires Valid(g) && Asks(g, a, q) && a in g.mainList && g.socks[a].queue == []
    ensures var g' := LooseGraph(g, a, q, t);
            forall x :: x in g'.socks ==> Placed(g', x) && Healthy(g'.socks[x]) && Tied(g', x)
  {
    LooseTies(g, a, q, t);
    hide ListsOk, Tied;
    ListedLocal(g, a);
    var g' := LooseGraph(g, a, q, t);
    forall x | x in g'.socks ensures Placed(g', x) && Healthy(g'.socks[x]) {
      assert Placed(g, x) && Healthy(g.socks[x]);
    }
  }

  lemma LooseTies(g: Graph, a: Addr, q: Addr, t: nat)
    requires Valid(g) && Asks(g, a, q) && a in g.mainList && g.socks[a].queue == []
    ensures var g' := LooseGraph(g, a, q, t); forall x :: x in g'.socks ==> Tied(g', x)
  {
    hide ListsOk, Placed, Healthy;
    var g' := LooseGraph(g, a, q, t);
    forall x | x in g'.socks ensures Tied(g', x) {
      assert Tied(g, x);
    }
  }

  lemma LooseLists(g: Graph, a: Addr, q: Addr, t: nat)
    requires ListsOk(g) && Asks(g, a, q)
    ensures ListsOk(LooseGraph(g, a, q, t)) && ListsOk(Loosened(g, a, q, t))
  {
  }

  lemma LooseKeeps(g: Graph, a: Addr, q: Addr, t: nat)
    requires Valid(g) && Asks(g, a, q) && a in g.mainList && g.socks[a].queue == []
    ensures Valid(LooseGraph(g, a, q, t)) && Homed(Loosened(g, a, q, t))
    ensures CloseGraph(Loosened(g, a, q, t), q, S.ByPeer) == LooseGraph(g, a, q, t)
  {
    hide ListsOk, Placed, Healthy, Tied;
    LooseEach(g, a, q, t);
    LooseLists(g, a, q, t);
    AlmostHomed(g, {}, {});
    RewireCloses(g, a, q, t);
  }

  lemma RewireCloses(g: Graph, a: Addr, q: Addr, t: nat)
    requires Homed(g) && Asks(g, a, q)
    ensures CloseGraph(Loosened(g, a, q, t), q, S.ByPeer) == LooseGraph(g, a, q, t)
    ensures forall x :: x in g.socks && IsLocal(g.socks[x].kind) ==>
              Loosened(g, a, q, t).socks[x].closing == g.socks[x].closing && IsLocal(Loosened(g, a, q, t).socks[x].kind)
    ensures forall x :: x in g.socks && !IsLocal(g.socks[x].kind) ==> !IsLocal(Loosened(g, a, q, t).socks[x].kind)
  {
  }

  /**
   * The end of smart_socket_enqueue for a service on the device; false if connect_to_remote aborts the
   * process. The smart socket goes, the client's socket waits for the answer to its OPEN.
   */
  method DialForClient(l: SocketLayer, a: Addr, q: Addr, t: nat, service: Bytes) returns (alive: bool)
    requires l.Ok() && Asks(l.g, a, q) && a in l.g.mainList && l.g.socks[a].queue == []
    modifies l`g, l`links, l`sent, l`freed
    ensures alive <==> OpenGoesOut(service, LimitOn(l.limits, t))
    ensures alive ==>
              && l.Ok() && q !in l.g.socks && a in l.g.mainList && a in l.g.socks
              && l.g.socks[a] == old(l.g).socks[a].(kind := LocalNotify, peer := None, transport := Some(t))
              && l.sent == old(l.sent) + [(t, StreamSystem.Open(old(l.g).socks[a].id, OpenPayload(service)))]
  {
    hide Valid, CloseGraph, Homed, SocketLists.Spells, Farewell;
    LooseKeeps(l.g, a, q, t);
    NoFarewell(Loosened(l.g, a, q, t), q);
    l.g := Loosened(l.g, a, q, t);
    alive := ConnectToRemote(l, a, service);
    if alive {
      l.Close(q, S.ByPeer);
    }
  }
}
