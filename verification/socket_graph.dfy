/**
 * The socket graph of sockets.cpp as a value: a memory of asocket records by address, the main and
 * the closing list, and what linking, closing and freeing do to them.
 */
module SocketGraph {
  import opened AdbBase
  import S = StreamSocket

  type Addr = nat

  /** Which set of enqueue/ready/shutdown/close functions the socket carries. */
  datatype Kind = Local | LocalNotify | Remote | Smart

  /**
   * An asocket. `notices` are the status words written straight to the fd (true for OKAY, false for
   * FAIL); the last six fields record the history StreamSocket speaks of.
   */
  datatype Asocket = Asocket(
    id: nat, closing: bool, hasWriteError: bool, peer: Option<Addr>, kind: Kind, queue: seq<Bytes>,
    reading: bool, writing: bool, transport: Option<nat>, notices: seq<bool>,
    got: Bytes, put: Bytes, spilt: Bytes, cut: bool, calm: bool, openedBy: Option<nat>)

  /** The sockets by address, what the two lists spell (SocketLists has their pointers), and the id counter. */
  datatype Graph = Graph(socks: map<Addr, Asocket>, mainList: seq<Addr>, closingList: seq<Addr>, nextId: nat)

  predicate IsLocal(k: Kind) { k.Local? || k.LocalNotify? }

  // ----- the invariant -----

  /** Where a record belongs, by its kind and flags. */
  predicate Placed(g: Graph, a: Addr)
    requires a in g.socks
  {
    var s := g.socks[a];
    match s.kind
    case Remote => s.transport.Some? && s.id != 0
    case Smart => true
    case _ =>
      if s.closing then a in g.closingList && s.peer == None && s.id == 0
      else a in g.mainList && 0 < s.id < g.nextId
  }

  /** Between calls FDE_WRITE is on exactly while there is a backlog, which a closing socket always has. */
  predicate Healthy(s: Asocket) {
    IsLocal(s.kind) ==>
      && (s.writing <==> s.queue != []) && !s.hasWriteError
      && (if s.closing then s.queue != [] && !s.reading else !s.cut)
  }

  /** A peer points back; remote and smart sockets live only as some local socket's peer. */
  predicate Tied(g: Graph, a: Addr)
    requires a in g.socks
  {
    var s := g.socks[a];
    && (s.peer.Some? ==>
          var p := s.peer.value;
          p in g.socks && p != a && g.socks[p].peer == Some(a) && (IsLocal(s.kind) || IsLocal(g.socks[p].kind)))
    && (!IsLocal(s.kind) ==> s.peer.Some?)
    && (IsLocal(s.kind) && s.queue != [] && !s.closing ==> s.peer.Some?)
  }

  predicate ListsOk(g: Graph) {
    && g.nextId >= 1 && Distinct(g.mainList) && Distinct(g.closingList)
    && (forall a :: a in g.mainList ==> a in g.socks && IsLocal(g.socks[a].kind) && !g.socks[a].closing)
    && (forall a :: a in g.closingList ==> a in g.socks && IsLocal(g.socks[a].kind) && g.socks[a].closing)
    && (forall a, b :: a in g.mainList && b in g.mainList && g.socks[a].id == g.socks[b].id ==> a == b)
  }

  /** The invariant but for the flags of the sockets in `sick` and the links of those in `loose`. */
  predicate Almost(g: Graph, sick: set<Addr>, loose: set<Addr>) {
    && ListsOk(g)
    && (forall a :: a in g.socks ==> Placed(g, a))
    && (forall a :: a in g.socks && a !in sick ==> Healthy(g.socks[a]))
    && (forall a :: a in g.socks && a !in loose ==> Tied(g, a))
  }

  predicate Valid(g: Graph) { Almost(g, {}, {}) }

  /** Every local socket is on the list its closing flag says. This holds in the midst of a close too. */
  predicate Homed(g: Graph) {
    && ListsOk(g)
    && forall a :: a in g.socks && IsLocal(g.socks[a].kind) ==> if g.socks[a].closing then a in g.closingList else a in g.mainList
  }

  // ----- closing -----

  /** Whether closing s frees it at once; otherwise it goes to the closing list. */
  predicate Dies(s: Asocket) {
    !IsLocal(s.kind) || s.closing || s.hasWriteError || s.queue == []
  }

  function Cut(s: Asocket, why: S.Cause): bool { s.cut || why.HungUp? || why.WriteError? }

  /** local_socket_close_notify puts the plain functions back and says FAIL before it closes. */
  function Told(s: Asocket): Asocket {
    if s.kind.LocalNotify? then s.(kind := Local, notices := s.notices + [false]) else s
  }

  function Tell(g: Graph, a: Addr): Graph
    requires a in g.socks
  {
    if g.socks[a].kind.LocalNotify? then g.(socks := g.socks[a := Told(g.socks[a])]) else g
  }

  function Forget(socks: map<Addr, Asocket>, a: Addr): map<Addr, Asocket> {
    map x | x in socks && x != a :: socks[x]
  }

  function Unpeered(g: Graph, a: Addr): Graph
    requires a in g.socks
  {
    g.(socks := g.socks[a := g.socks[a].(peer := None)])
  }

  /** The second half of local_socket_close, and what free does to the other kinds. */
  function Retire(g: Graph, a: Addr, why: S.Cause): Graph
    requires a in g.socks
  {
    var s := g.socks[a];
    if !IsLocal(s.kind) then
      g.(socks := Forget(g.socks, a))
    else if Dies(s) then
      Graph(Forget(g.socks, a), Without(g.mainList, a), Without(g.closingList, a), g.nextId)
    else
      Graph(g.socks[a := s.(closing := true, reading := false, id := 0, cut := Cut(s, why))],
            Without(g.mainList, a), g.closingList + [a], g.nextId)
  }

  /** close of a socket with no peer. */
  function CloseLone(g: Graph, a: Addr, why: S.Cause): Graph
    requires a in g.socks
  {
    Retire(Tell(g, a), a, why)
  }

  /** The peer's half of a close: it is cut off, then closed. */
  function PeerHalf(g: Graph, a: Addr, p: Addr): Graph
    requires a in g.socks && p in g.socks
  {
    CloseLone(Unpeered(Tell(g, a), p), p, S.ByPeer)
  }

  /** close of a: its peer is cut off and closed first, then a itself goes. */
  function CloseGraph(g: Graph, a: Addr, why: S.Cause): Graph
    requires a in g.socks && (g.socks[a].peer.Some? ==> g.socks[a].peer.value in g.socks && g.socks[a].peer.value != a)
  {
    if g.socks[a].peer == None then CloseLone(g, a, why)
    else Retire(Unpeered(PeerHalf(g, a, g.socks[a].peer.value), a), a, why)
  }

  /** What close may be called on: only the socket's own flags may be out of order. */
  predicate CanClose(g: Graph, a: Addr) {
    && Almost(g, {a}, {}) && a in g.socks
    && (!Dies(g.socks[a]) ==> g.socks[a].writing && !g.socks[a].cut)
  }

  lemma RetireLists(g: Graph, a: Addr, why: S.Cause)
    requires ListsOk(g) && a in g.socks
    ensures ListsOk(Retire(g, a, why))
  {
    WithoutDistinct(g.mainList, a);
    WithoutDistinct(g.closingList, a);
    if IsLocal(g.socks[a].kind) && !Dies(g.socks[a]) {
      assert a !in g.closingList;
    }
  }

  lemma AlmostHomed(g: Graph, sick: set<Addr>, loose: set<Addr>)
    requires Almost(g, sick, loose)
    ensures Homed(g)
  {
    assert forall a :: a in g.socks && IsLocal(g.socks[a].kind) ==> Placed(g, a);
    hide ListsOk, Healthy, Tied;
  }

  lemma HomedStays(g: Graph, a: Addr)
    requires Homed(g) && a in g.socks
    ensures Homed(Unpeered(g, a)) && Homed(Tell(g, a))
    ensures !IsLocal(g.socks[a].kind) ==> Homed(g.(socks := Forget(g.socks, a)))
  {
  }

  lemma RetireHomed(g: Graph, a: Addr, why: S.Cause)
    requires Homed(g) && a in g.socks
    ensures Homed(Retire(g, a, why))
  {
    RetireLists(g, a, why);
    hide ListsOk;
  }

  lemma RetireFlags(g: Graph, a: Addr, why: S.Cause, sick: set<Addr>, loose: set<Addr>)
    requires Almost(g, sick + {a}, loose + {a}) && a in g.socks && g.socks[a].peer == None
    requires !Dies(g.socks[a]) ==> g.socks[a].writing
    ensures var g' := Retire(g, a, why);
            forall x :: x in g'.socks ==> Placed(g', x) && (x !in sick ==> Healthy(g'.socks[x]))
  {
    hide ListsOk, Tied;
    var g' := Retire(g, a, why);
    forall x | x in g'.socks ensures Placed(g', x) && (x !in sick ==> Healthy(g'.socks[x])) {
      assert Placed(g, x);
    }
  }

  lemma RetireTies(g: Graph, a: Addr, why: S.Cause, sick: set<Addr>, loose: set<Addr>)
    requires Almost(g, sick + {a}, loose + {a}) && a in g.socks && g.socks[a].peer == None
    ensures var g' := Retire(g, a, why); forall x :: x in g'.socks && x !in loose ==> Tied(g', x)
  {
    hide ListsOk, Placed, Healthy;
    var g' := Retire(g, a, why);
    forall x | x in g'.socks && x !in loose ensures Tied(g', x) {
      if x != a {
        assert Tied(g, x);
      }
    }
  }

  lemma RetireKeeps(g: Graph, a: Addr, why: S.Cause, sick: set<Addr>, loose: set<Addr>)
    requires Almost(g, sick + {a}, loose + {a}) && a in g.socks && g.socks[a].peer == None
    requires !Dies(g.socks[a]) ==> g.socks[a].writing
    ensures Almost(Retire(g, a, why), sick, loose)
  {
    hide ListsOk, Placed, Healthy, Tied, Retire;
    RetireLists(g, a, why);
    RetireFlags(g, a, why, sick, loose);
    RetireTies(g, a, why, sick, loose);
  }

  lemma UnpeerKeeps(g: Graph, a: Addr, sick: set<Addr>, loose: set<Addr>, more: set<Addr>)
    requires Almost(g, sick, loose) && a in g.socks && loose + {a} <= more
    requires forall x :: x in g.socks && x !in more ==> g.socks[x].peer != Some(a)
    ensures Almost(Unpeered(g, a), sick, more)
  {
    var g' := Unpeered(g, a);
    assert ListsOk(g');
    forall x | x in g'.socks ensures Placed(g', x) && (x !in sick ==> Healthy(g'.socks[x])) {
      assert Placed(g, x);
      assert g'.socks[x] == g.socks[x].(peer := g'.socks[x].peer);
    }
    forall x | x in g'.socks && x !in more ensures Tied(g', x) {
      assert Tied(g, x);
      assert g'.socks[x] == g.socks[x];
    }
  }

  lemma TellKeeps(g: Graph, a: Addr, sick: set<Addr>, loose: set<Addr>)
    requires Almost(g, sick, loose) && a in g.socks
    ensures Almost(Tell(g, a), sick, loose)
  {
    var g' := Tell(g, a);
    forall x | x in g'.socks ensures Placed(g', x) && (x !in sick ==> Healthy(g'.socks[x])) {
      assert Placed(g, x);
    }
    forall x | x in g'.socks && x !in loose ensures Tied(g', x) {
      assert Tied(g, x);
    }
  }

  lemma NobodyElse(g: Graph, a: Addr, loose: set<Addr>, sick: set<Addr>, x: Addr)
    requires Almost(g, sick, loose) && a in g.socks && x in g.socks && x !in loose && g.socks[x].peer == Some(a)
    ensures g.socks[a].peer == Some(x)
  {
    assert Tied(g, x);
  }

  lemma LoneGoes(g: Graph, a: Addr, why: S.Cause, sick: set<Addr>, loose: set<Addr>)
    requires Almost(g, sick + {a}, loose + {a}) && a in g.socks && g.socks[a].peer == None
    requires !Dies(g.socks[a]) ==> g.socks[a].writing
    ensures Almost(CloseLone(g, a, why), sick, loose)
  {
    TellKeeps(g, a, sick + {a}, loose + {a});
    RetireKeeps(Tell(g, a), a, why, sick, loose);
  }

  /** The peer's half of a close. */
  lemma PeerGoes(g: Graph, a: Addr, p: Addr)
    requires CanClose(g, a) && g.socks[a].peer == Some(p) && p in g.socks && p != a && g.socks[p].peer == Some(a)
    ensures Almost(PeerHalf(g, a, p), {a}, {a})
  {
    var g0 := Tell(g, a);
    TellKeeps(g, a, {a}, {});
    forall x | x in g0.socks && g0.socks[x].peer == Some(p) ensures x in {a, p} {
      NobodyElse(g0, p, {}, {a}, x);
    }
    UnpeerKeeps(g0, p, {a}, {}, {a, p});
    assert Healthy(g0.socks[p]);
    SickLoose(Unpeered(g0, p), {a}, {a, p}, {a} + {p}, {a} + {p});
    LoneGoes(Unpeered(g0, p), p, S.ByPeer, {a}, {a});
  }

  /** A close of a socket with no peer touches no other record. */
  lemma LoneEffect(g: Graph, a: Addr, why: S.Cause)
    requires a in g.socks
    ensures var g' := CloseLone(g, a, why);
            && g'.nextId == g.nextId
            && g'.socks.Keys == (if Dies(g.socks[a]) then g.socks.Keys - {a} else g.socks.Keys)
            && (forall x :: x in g'.socks && x != a ==> g'.socks[x] == g.socks[x])
            && (a in g'.socks ==>
                  var s := Tell(g, a).socks[a];
                  g'.socks[a] == s.(closing := true, reading := false, id := 0, cut := Cut(s, why)))
  {
  }

  lemma NobodyPoints(g: Graph, a: Addr, p: Addr)
    requires CanClose(g, a) && g.socks[a].peer == Some(p)
    ensures forall x :: x in g.socks && x != p && x != a ==> g.socks[x].peer != Some(a)
  {
    hide ListsOk, Placed, Healthy;
    forall x | x in g.socks && x != p && x != a ensures g.socks[x].peer != Some(a) {
      assert Tied(g, x);
    }
  }

  lemma PeerHalfLeaves(g: Graph, a: Addr, p: Addr)
    requires CanClose(g, a) && g.socks[a].peer == Some(p) && p in g.socks && p != a && g.socks[p].peer == Some(a)
    ensures var g' := PeerHalf(g, a, p);
            && a in g'.socks && g'.socks[a] == Tell(g, a).socks[a] && g'.nextId == g.nextId
            && (forall x :: x in g'.socks && x != a ==> g'.socks[x].peer != Some(a))
            && (forall x :: x in g.socks && x != a && x != p ==> x in g'.socks && g'.socks[x] == g.socks[x])
  {
    hide Almost, CloseLone, Dies, Cut;
    NobodyPoints(g, a, p);
    var g1 := Unpeered(Tell(g, a), p);
    assert g1.socks[p].peer == None;
    LoneEffect(g1, p, S.ByPeer);
  }

  /** The socket's own half. */
  lemma SelfGoes(g: Graph, a: Addr, why: S.Cause)
    requires Almost(g, {a}, {a}) && a in g.socks && (!Dies(g.socks[a]) ==> g.socks[a].writing)
    requires forall x :: x in g.socks && x != a ==> g.socks[x].peer != Some(a)
    ensures Valid(Retire(Unpeered(g, a), a, why))
  {
    UnpeerKeeps(g, a, {a}, {a}, {a});
    SickLoose(Unpeered(g, a), {a}, {a}, {} + {a}, {} + {a});
    RetireKeeps(Unpeered(g, a), a, why, {}, {});
  }

  /** A close leaves the graph sound: peer symmetry, list membership, unique ids, live closing sockets. */
  lemma CloseKeeps(g: Graph, a: Addr, why: S.Cause)
    requires CanClose(g, a)
    ensures Tied(g, a) && Valid(CloseGraph(g, a, why))
  {
    assert Tied(g, a);
    if g.socks[a].peer == None {
      SickLoose(g, {a}, {}, {} + {a}, {} + {a});
      LoneGoes(g, a, why, {}, {});
    } else {
      var p := g.socks[a].peer.value;
      PeerGoes(g, a, p);
      PeerHalfLeaves(g, a, p);
      SelfGoes(PeerHalf(g, a, p), a, why);
    }
  }

  lemma SickLoose(g: Graph, sick: set<Addr>, loose: set<Addr>, sick': set<Addr>, loose': set<Addr>)
    requires Almost(g, sick, loose) && sick <= sick' && loose <= loose'
    ensures Almost(g, sick', loose')
  {
  }

  // ----- stream sockets -----

  /** A local socket whose peer, if any, is a remote socket: one end of a stream. */
  predicate IsStream(g: Graph, a: Addr) {
    && a in g.socks && IsLocal(g.socks[a].kind)
    && (g.socks[a].peer.Some? ==> g.socks[a].peer.value in g.socks && g.socks[g.socks[a].peer.value].kind.Remote?)
  }

  function RecordView(s: Asocket, peerId: Option<nat>): S.Sock {
    S.Sock(if s.closing then S.Closing else S.Live, peerId,
           s.reading, s.writing, s.queue, s.got, s.put, s.spilt, s.cut, s.calm, s.openedBy)
  }

  /** The socket as StreamSocket sees it. */
  function View(g: Graph, a: Addr): S.Sock
    requires IsStream(g, a)
  {
    var s := g.socks[a];
    RecordView(s, if s.peer == None then None else Some(g.socks[s.peer.value].id))
  }

  /** The socket at a is now x, or has been freed if that is what x says. */
  predicate Became(g: Graph, a: Addr, x: S.Sock) {
    if x.status.Freed? then a !in g.socks else IsStream(g, a) && View(g, a) == x
  }

  /** What no step changes of a socket that stays: its nature, its transport, and its id until it is closing. */
  predicate Kin(s: Asocket, s': Asocket) {
    && IsLocal(s'.kind) == IsLocal(s.kind) && s'.kind.Remote? == s.kind.Remote? && s'.transport == s.transport
    && (s.closing ==> s'.closing) && (!s'.closing ==> s'.id == s.id)
  }

  /** Sockets that stay are the ones they were; any new one is a remote socket. */
  predicate KinOrRemote(g: Graph, g': Graph) {
    forall x :: x in g'.socks ==> if x in g.socks then Kin(g.socks[x], g'.socks[x]) else g'.socks[x].kind.Remote?
  }

  lemma KinTwice(g: Graph, g1: Graph, g2: Graph)
    requires KinOrRemote(g, g1) && KinOrRemote(g1, g2)
    requires forall x :: x in g.socks && x in g2.socks ==> x in g1.socks
    ensures KinOrRemote(g, g2)
  {
  }

  /** Only a and its peer changed. */
  predicate OnlyTouched(g: Graph, g': Graph, a: Addr)
    requires a in g.socks
  {
    && g'.nextId == g.nextId && KinOrRemote(g, g')
    && (forall x :: x in g.socks && x != a && Some(x) != g.socks[a].peer ==> x in g'.socks && g'.socks[x] == g.socks[x])
  }

  lemma RecordClosed(s: Asocket, peerId: Option<nat>, why: S.Cause)
    requires IsLocal(s.kind) && (why.WriteError? <==> s.hasWriteError)
    ensures var x := S.Close(RecordView(s, peerId), why).0;
            && (x.status.Freed? <==> Dies(s))
            && (!Dies(s) ==> x == RecordView(s.(closing := true, reading := false, id := 0, cut := Cut(s, why)), None))
  {
  }

  /** What a close does to a stream socket is what StreamSocket says. */
  lemma CloseView(g: Graph, a: Addr, why: S.Cause)
    requires CanClose(g, a) && IsStream(g, a) && (why.WriteError? <==> g.socks[a].hasWriteError)
    ensures Tied(g, a)
    ensures Became(CloseGraph(g, a, why), a, S.Close(View(g, a), why).0)
    ensures OnlyTouched(g, CloseGraph(g, a, why), a)
  {
    CloseEffect(g, a, why);
    hide CanClose, IsStream, View, CloseLone, CloseGraph, S.Close, Became, Tied;
    DoneTouches(g, CloseGraph(g, a, why), a);
    CloseFields(g, a, why);
    CloseViewStep(g, CloseGraph(g, a, why), a, why);
  }

  lemma DoneTouches(g: Graph, g': Graph, a: Addr)
    requires a in g.socks && CloseDone(g, g', a)
    ensures OnlyTouched(g, g', a)
  {
    hide KinOrRemote;
    forall x | x in g.socks && x != a && Some(x) != g.socks[a].peer ensures x in g'.socks && g'.socks[x] == g.socks[x] {
      assert !Concerned(g, a, x);
    }
  }

  /** The closed socket itself: gone, or moved to the closing list. */
  lemma CloseFields(g: Graph, a: Addr, why: S.Cause)
    requires CanClose(g, a)
    ensures Tied(g, a)
    ensures var g' := CloseGraph(g, a, why);
            && (a in g'.socks <==> !Dies(g.socks[a]))
            && (a in g'.socks ==>
                  var s := Tell(g, a).socks[a];
                  g'.socks[a] == s.(closing := true, reading := false, id := 0, cut := Cut(s, why), peer := None))
  {
    assert Tied(g, a);
    hide CanClose, PeerHalf, CloseLone, Retire;
    if g.socks[a].peer == None {
      LoneEffect(g, a, why);
    } else {
      ClosePairFields(g, a, g.socks[a].peer.value, why);
    }
  }

  lemma RetireEffect(g: Graph, a: Addr, why: S.Cause)
    requires a in g.socks
    ensures var g' := Retire(g, a, why);
            && g'.nextId == g.nextId && (a in g'.socks <==> !Dies(g.socks[a]))
            && (forall x :: x in g.socks && x != a ==> x in g'.socks && g'.socks[x] == g.socks[x])
            && (a in g'.socks ==>
                  g'.socks[a] == g.socks[a].(closing := true, reading := false, id := 0, cut := Cut(g.socks[a], why)))
  {
  }

  lemma HalfThenSelf(g: Graph, g2: Graph, a: Addr, p: Addr, why: S.Cause)
    requires a in g.socks && a in g2.socks && g2.socks[a] == Tell(g, a).socks[a] && g2.nextId == g.nextId
    requires forall x :: x in g.socks && x != a && x != p ==> x in g2.socks && g2.socks[x] == g.socks[x]
    ensures var g' := Retire(Unpeered(g2, a), a, why);
            && g'.nextId == g.nextId && (a in g'.socks <==> !Dies(g.socks[a]))
            && (forall x :: x in g.socks && x != a && x != p ==> x in g'.socks && g'.socks[x] == g.socks[x])
            && (a in g'.socks ==>
                  var s := Tell(g, a).socks[a];
                  g'.socks[a] == s.(closing := true, reading := false, id := 0, cut := Cut(s, why), peer := None))
  {
    hide Retire;
    RetireEffect(Unpeered(g2, a), a, why);
  }

  lemma ClosePairFields(g: Graph, a: Addr, p: Addr, why: S.Cause)
    requires CanClose(g, a) && g.socks[a].peer == Some(p) && p in g.socks && p != a && g.socks[p].peer == Some(a)
    ensures var g' := CloseGraph(g, a, why);
            && (a in g'.socks <==> !Dies(g.socks[a]))
            && (a in g'.socks ==>
                  var s := Tell(g, a).socks[a];
                  g'.socks[a] == s.(closing := true, reading := false, id := 0, cut := Cut(s, why), peer := None))
  {
    PeerHalfLeaves(g, a, p);
    HalfThenSelf(g, PeerHalf(g, a, p), a, p, why);
    hide CanClose, PeerHalf, Retire;
  }

  lemma CloseViewStep(g: Graph, g': Graph, a: Addr, why: S.Cause)
    requires IsStream(g, a) && (why.WriteError? <==> g.socks[a].hasWriteError)
    requires a in g'.socks <==> !Dies(g.socks[a])
    requires a in g'.socks ==>
               var s := Tell(g, a).socks[a];
               g'.socks[a] == s.(closing := true, reading := false, id := 0, cut := Cut(s, why), peer := None)
    ensures Became(g', a, S.Close(View(g, a), why).0)
  {
    RecordClosed(g.socks[a], View(g, a).peer, why);
  }

  /** remote_socket_close with a peer still attached. */
  lemma RemoteCloseGraph(g: Graph, a: Addr, p: Addr, why: S.Cause)
    requires a in g.socks && !IsLocal(g.socks[a].kind) && g.socks[a].peer == Some(p) && p in g.socks && p != a
    ensures CloseGraph(g, a, why) == PeerHalf(g, a, p).(socks := Forget(PeerHalf(g, a, p).socks, a))
    ensures PeerHalf(g, a, p) == CloseLone(Unpeered(g, p), p, S.ByPeer)
  {
    var g' := PeerHalf(g, a, p);
    LoneEffect(Unpeered(g, p), p, S.ByPeer);
    assert PeerHalf(g, a, p) == CloseLone(Unpeered(g, p), p, S.ByPeer);
    hide CloseLone, PeerHalf;
    assert a in g'.socks && Forget(Unpeered(g', a).socks, a) == Forget(g'.socks, a);
  }

  // ----- updates in place -----

  /** Same place in the graph: only flags, queue, histories and the go-ahead functions may differ. */
  predicate SamePlace(s: Asocket, s': Asocket) {
    && s'.id == s.id && s'.closing == s.closing && s'.peer == s.peer && s'.transport == s.transport
    && IsLocal(s.kind) && IsLocal(s'.kind)
  }

  function Put(g: Graph, a: Addr, s: Asocket): Graph { g.(socks := g.socks[a := s]) }

  lemma PutLists(g: Graph, a: Addr, s': Asocket)
    requires ListsOk(g) && a in g.socks && SamePlace(g.socks[a], s')
    ensures ListsOk(Put(g, a, s'))
  {
  }

  lemma UpdateKeeps(g: Graph, a: Addr, s': Asocket)
    requires Valid(g) && a in g.socks && SamePlace(g.socks[a], s')
    requires s'.queue != [] && !s'.closing ==> s'.peer.Some?
    ensures Almost(Put(g, a, s'), {a}, {})
    ensures Healthy(s') ==> Valid(Put(g, a, s'))
    ensures IsStream(g, a) ==> IsStream(Put(g, a, s'), a) && View(Put(g, a, s'), a) == RecordView(s', View(g, a).peer)
  {
    var g' := Put(g, a, s');
    assert Tied(g, a);
    PutLists(g, a, s');
    hide ListsOk;
    forall x | x in g'.socks ensures Placed(g', x) && Tied(g', x) && (x != a ==> Healthy(g'.socks[x])) {
      assert Placed(g, x) && Tied(g, x);
    }
  }

  /** Whether close_all_sockets(t) would close a. */
  predicate Bound(g: Graph, a: Addr, t: nat) {
    && a in g.socks
    && (|| g.socks[a].transport == Some(t)
        || (g.socks[a].peer.Some? && g.socks[a].peer.value in g.socks
              && g.socks[g.socks[a].peer.value].transport == Some(t)))
  }

  /** The addresses a close concerns. */
  predicate Concerned(g: Graph, a: Addr, x: Addr)
    requires a in g.socks
  {
    x == a || Some(x) == g.socks[a].peer
  }

  /** What a close does to everything but the two sockets it closes, and to the main list. */
  ghost predicate CloseDone(g: Graph, g': Graph, a: Addr)
    requires a in g.socks
  {
    && g'.nextId == g.nextId && g'.socks.Keys <= g.socks.Keys && KinOrRemote(g, g')
    && (forall x :: x in g.socks && !Concerned(g, a, x) ==> x in g'.socks && g'.socks[x] == g.socks[x])
    && (forall x :: x in g'.mainList <==> x in g.mainList && !Concerned(g, a, x))
    && |g'.mainList| <= |g.mainList| && (a in g.mainList ==> |g'.mainList| < |g.mainList|)
  }

  /** The same for a socket without a peer. */
  ghost predicate LoneDone(g: Graph, g': Graph, a: Addr)
    requires a in g.socks
  {
    && g'.nextId == g.nextId && g'.socks.Keys <= g.socks.Keys && KinOrRemote(g, g')
    && (forall x :: x in g.socks && x != a ==> x in g'.socks && g'.socks[x] == g.socks[x])
    && (forall x :: x in g'.mainList <==> x in g.mainList && x != a)
    && |g'.mainList| <= |g.mainList| && (a in g.mainList ==> |g'.mainList| < |g.mainList|)
  }

  lemma LoneLists(g: Graph, a: Addr, why: S.Cause)
    requires a in g.socks && (a in g.mainList ==> IsLocal(g.socks[a].kind))
    ensures LoneDone(g, CloseLone(g, a, why), a)
  {
    LoneEffect(g, a, why);
  }

  lemma CloseEffect(g: Graph, a: Addr, why: S.Cause)
    requires CanClose(g, a)
    ensures Tied(g, a) && CloseDone(g, CloseGraph(g, a, why), a)
  {
    assert Tied(g, a);
    if g.socks[a].peer == None {
      LoneLists(g, a, why);
    } else {
      CloseEffectPair(g, a, g.socks[a].peer.value, why);
    }
  }

  ghost predicate LocalsListed(g: Graph) {
    forall x :: x in g.mainList ==> x in g.socks && IsLocal(g.socks[x].kind)
  }

  lemma FirstHalf(g: Graph, a: Addr, p: Addr)
    requires a in g.socks && p in g.socks && a != p && LocalsListed(g)
    ensures LoneDone(Unpeered(Tell(g, a), p), PeerHalf(g, a, p), p) && a in PeerHalf(g, a, p).socks
    ensures LocalsListed(PeerHalf(g, a, p)) && !PeerHalf(g, a, p).socks[a].kind.LocalNotify?
  {
    LoneLists(Unpeered(Tell(g, a), p), p, S.ByPeer);
  }

  lemma SecondHalf(g: Graph, a: Addr, why: S.Cause)
    requires a in g.socks && LocalsListed(g) && !g.socks[a].kind.LocalNotify?
    ensures LoneDone(Unpeered(g, a), Retire(Unpeered(g, a), a, why), a)
  {
    LoneLists(Unpeered(g, a), a, why);
  }

  /** Only the records of xs have changed, and those stay what they are. */
  ghost predicate Relinked(g: Graph, g': Graph, xs: set<Addr>) {
    && g'.nextId == g.nextId && g'.mainList == g.mainList && g'.socks.Keys == g.socks.Keys && KinOrRemote(g, g')
    && forall x :: x in g.socks && x !in xs ==> g'.socks[x] == g.socks[x]
  }

  lemma UnpeerRelinks(g: Graph, a: Addr, p: Addr)
    requires a in g.socks && p in g.socks
    ensures Relinked(g, Unpeered(Tell(g, a), p), {a, p}) && Relinked(g, Unpeered(g, p), {p})
  {
  }

  lemma CloseEffectPair(g: Graph, a: Addr, p: Addr, why: S.Cause)
    requires a in g.socks && p in g.socks && a != p && g.socks[a].peer == Some(p) && LocalsListed(g)
    ensures CloseDone(g, CloseGraph(g, a, why), a)
  {
    hide LoneDone, CloseDone, KinOrRemote, Relinked, LocalsListed;
    FirstHalf(g, a, p);
    var g2 := PeerHalf(g, a, p);
    SecondHalf(g2, a, why);
    UnpeerRelinks(g, a, p);
    UnpeerRelinks(g2, a, a);
    BothHalves(g, Unpeered(Tell(g, a), p), g2, Unpeered(g2, a), Retire(Unpeered(g2, a), a, why), a, p);
  }

  lemma KinThrice(g: Graph, g1: Graph, g2: Graph, g3: Graph, g4: Graph)
    requires KinOrRemote(g, g1) && KinOrRemote(g1, g2) && KinOrRemote(g2, g3) && KinOrRemote(g3, g4)
    requires g1.socks.Keys == g.socks.Keys && g2.socks.Keys <= g1.socks.Keys
    requires g3.socks.Keys == g2.socks.Keys && g4.socks.Keys <= g3.socks.Keys
    ensures KinOrRemote(g, g4)
  {
    KinTwice(g, g1, g2);
    KinTwice(g, g2, g3);
    KinTwice(g, g3, g4);
  }

  lemma BothRecords(g: Graph, g1: Graph, g2: Graph, g3: Graph, g': Graph, a: Addr, p: Addr, x: Addr)
    requires a in g.socks && g.socks[a].peer == Some(p) && p in g.socks && p != a
    requires Relinked(g, g1, {a, p}) && p in g1.socks && LoneDone(g1, g2, p)
    requires a in g2.socks && Relinked(g2, g3, {a}) && a in g3.socks && LoneDone(g3, g', a)
    requires x in g.socks && x != a && x != p
    ensures x in g'.socks && g'.socks[x] == g.socks[x]
  {
    hide KinOrRemote;
    assert x in g1.socks && g1.socks[x] == g.socks[x];
    assert x in g2.socks && g2.socks[x] == g.socks[x];
    assert x in g3.socks && g3.socks[x] == g.socks[x];
  }

  lemma BothLists(g: Graph, g1: Graph, g2: Graph, g3: Graph, g': Graph, a: Addr, p: Addr)
    requires a in g.socks && g.socks[a].peer == Some(p) && p in g.socks && p != a
    requires Relinked(g, g1, {a, p}) && p in g1.socks && LoneDone(g1, g2, p)
    requires a in g2.socks && Relinked(g2, g3, {a}) && a in g3.socks && LoneDone(g3, g', a)
    ensures forall x :: x in g'.mainList <==> x in g.mainList && x != a && x != p
    ensures |g'.mainList| <= |g.mainList| && (a in g.mainList ==> |g'.mainList| < |g.mainList|)
  {
    hide KinOrRemote;
    assert forall x :: x in g2.mainList <==> x in g.mainList && x != p;
  }

  lemma BothKin(g: Graph, g1: Graph, g2: Graph, g3: Graph, g': Graph, a: Addr, p: Addr)
    requires a in g.socks && p in g.socks && Relinked(g, g1, {a, p}) && p in g1.socks && LoneDone(g1, g2, p)
    requires a in g2.socks && Relinked(g2, g3, {a}) && a in g3.socks && LoneDone(g3, g', a)
    ensures KinOrRemote(g, g') && g'.nextId == g.nextId && g'.socks.Keys <= g.socks.Keys
  {
    hide KinOrRemote;
    KinThrice(g, g1, g2, g3, g');
  }

  lemma BothHalves(g: Graph, g1: Graph, g2: Graph, g3: Graph, g': Graph, a: Addr, p: Addr)
    requires a in g.socks && g.socks[a].peer == Some(p) && p in g.socks && p != a
    requires Relinked(g, g1, {a, p}) && p in g1.socks && LoneDone(g1, g2, p)
    requires a in g2.socks && Relinked(g2, g3, {a}) && a in g3.socks && LoneDone(g3, g', a)
    ensures CloseDone(g, g', a)
  {
    hide KinOrRemote, LoneDone, Relinked;
    BothKin(g, g1, g2, g3, g', a, p);
    BothLists(g, g1, g2, g3, g', a, p);
    forall x | x in g.socks && !Concerned(g, a, x) ensures x in g'.socks && g'.socks[x] == g.socks[x] {
      BothRecords(g, g1, g2, g3, g', a, p, x);
    }
  }

  /** A close leaves every socket not bound to t where it was, and not bound to t. */
  lemma CloseSpares(g: Graph, g': Graph, a: Addr, t: nat, x: Addr)
    requires Valid(g) && a in g.socks && CloseDone(g, g', a)
    requires Bound(g, a, t) && x in g.mainList && !Bound(g, x, t)
    ensures x in g'.mainList && x in g'.socks && g'.socks[x] == g.socks[x] && !Bound(g', x, t)
  {
    assert Tied(g, a) && Tied(g, x);
    assert !Concerned(g, a, x);
    if g.socks[x].peer.Some? {
      assert !Concerned(g, a, g.socks[x].peer.value);
    }
  }

  /** A socket that dies is gone from the memory. */
  lemma CloseDies(g: Graph, a: Addr, why: S.Cause)
    requires CanClose(g, a) && Dies(g.socks[a])
    ensures Tied(g, a) && a !in CloseGraph(g, a, why).socks
  {
    assert Tied(g, a);
    hide CanClose, PeerHalf;
    if g.socks[a].peer.Some? {
      PeerHalfLeaves(g, a, g.socks[a].peer.value);
    }
  }

  lemma SetOk(g: Graph, a: Addr, s: Asocket)
    requires Valid(g) && a in g.socks && SamePlace(g.socks[a], s) && Healthy(s)
    requires s.queue != [] && !s.closing ==> s.peer.Some?
    ensures Valid(Put(g, a, s)) && OnlyTouched(g, Put(g, a, s), a)
    ensures IsStream(g, a) ==> IsStream(Put(g, a, s), a) && View(Put(g, a, s), a) == RecordView(s, View(g, a).peer)
  {
    UpdateKeeps(g, a, s);
  }

  /** After a failed write everything is in order for close, and close frees the socket. */
  lemma CanFail(g: Graph, a: Addr, s: Asocket)
    requires Valid(g) && a in g.socks && SamePlace(g.socks[a], s) && s.hasWriteError
    requires s.queue != [] && !s.closing ==> s.peer.Some?
    ensures CanClose(Put(g, a, s), a) && Tied(Put(g, a, s), a)
    ensures s.peer.Some? ==> s.peer.value in g.socks && Placed(Put(g, a, s), s.peer.value)
  {
    UpdateKeeps(g, a, s);
    assert Tied(Put(g, a, s), a);
  }

  lemma PutKin(g: Graph, a: Addr, s: Asocket)
    requires a in g.socks && SamePlace(g.socks[a], s)
    ensures KinOrRemote(g, Put(g, a, s))
  {
  }

  lemma FailGraph(g: Graph, a: Addr, s: Asocket)
    requires a in g.socks && SamePlace(g.socks[a], s) && s.hasWriteError && CanClose(Put(g, a, s), a)
    ensures var b := Put(g, a, s);
            && Tied(b, a) && Valid(CloseGraph(b, a, S.WriteError)) && a !in CloseGraph(b, a, S.WriteError).socks
            && OnlyTouched(g, CloseGraph(b, a, S.WriteError), a)
  {
    hide KinOrRemote, CanClose, CloseGraph, Valid, CloseDone, OnlyTouched;
    var b := Put(g, a, s);
    PutKin(g, a, s);
    CloseKeeps(b, a, S.WriteError);
    CloseDies(b, a, S.WriteError);
    CloseEffect(b, a, S.WriteError);
    ReadCloses(g, b, a, CloseGraph(b, a, S.WriteError));
  }

  lemma PutPut(g: Graph, a: Addr, s: Asocket, s': Asocket)
    ensures Put(Put(g, a, s), a, s') == Put(g, a, s')
    ensures a in g.socks ==> Put(g, a, g.socks[a]) == g
  {
    assert g.socks[a := s][a := s'] == g.socks[a := s'];
    if a in g.socks {
      assert g.socks[a := g.socks[a]] == g.socks;
    }
  }

  /** The steps of local_socket_close with a peer attached. */
  lemma LocalCloseGraph(g: Graph, a: Addr, p: Addr, why: S.Cause)
    requires a in g.socks && g.socks[a].kind.Local? && g.socks[a].peer == Some(p) && p in g.socks && p != a
    ensures var g' := CloseGraph(Unpeered(g, p), p, S.ByPeer);
            && a in g'.socks && g'.socks[a].kind.Local? && g'.socks.Keys <= g.socks.Keys
            && CloseGraph(g, a, why) == Retire(Unpeered(g', a), a, why)
  {
    LoneEffect(Unpeered(g, p), p, S.ByPeer);
  }

  /** a's record in `before` has been replaced by s, whose queue and flags may be anything a write leaves. */
  predicate MidWrite(before: Graph, a: Addr, s: Asocket) {
    && Valid(before) && a in before.socks && SamePlace(before.socks[a], s)
    && (s.queue != [] && !s.closing ==> s.peer.Some?)
  }

  /** What a failed write comes to. */
  function FailedGraph(before: Graph, a: Addr, s: Asocket): (g: Graph)
    requires MidWrite(before, a, s)
    ensures Valid(g) && a !in g.socks && OnlyTouched(before, g, a)
  {
    var s' := s.(hasWriteError := true);
    CanFail(before, a, s');
    FailGraph(before, a, s');
    CloseGraph(Put(before, a, s'), a, S.WriteError)
  }

  lemma FailedIs(before: Graph, a: Addr, s: Asocket)
    requires MidWrite(before, a, s)
    ensures var b := Put(before, a, s.(hasWriteError := true));
            && CanClose(b, a) && Tied(b, a) && FailedGraph(before, a, s) == CloseGraph(b, a, S.WriteError)
            && Valid(FailedGraph(before, a, s)) && a !in FailedGraph(before, a, s).socks
  {
    CanFail(before, a, s.(hasWriteError := true));
  }

  /** local_socket_enqueue on the record: what it leaves, unless the write failed. */
  function Enqueued(s: Asocket, data: Bytes, n: nat): Asocket
    requires n <= |data|
  {
    if s.queue != [] then s.(queue := s.queue + [data], writing := true)
    else if n == |data| then s.(put := s.put + data)
    else s.(put := s.put + data[..n], queue := [data[n..]], writing := true)
  }

  /** What local_socket_enqueue comes to: on a stream socket, StreamSocket.Enqueue. */
  predicate EnqueueDone(g: Graph, g': Graph, a: Addr, data: Bytes, w: S.Writes, r: int)
    requires a in g.socks
  {
    && Valid(g') && OnlyTouched(g, g', a) && g'.socks.Keys <= g.socks.Keys
    && (IsStream(g, a) ==>
          var (x, msgs, ready) := S.Enqueue(View(g, a), data, w);
          Became(g', a, x) && r == (if ready then 0 else 1) && (msgs == if a in g'.socks then [] else [S.Clse]))
  }

  /** The same for any local socket: the record it leaves, or the close that a failed write leads to. */
  predicate EnqueueMade(g: Graph, g': Graph, a: Addr, data: Bytes, w: S.Writes, r: int)
    requires a in g.socks
  {
    var s := g.socks[a];
    if w.failed then
      && s.queue == [] && w.n < |data| && r == 1
      && MidWrite(g, a, s.(put := s.put + data[..w.n])) && g' == FailedGraph(g, a, s.(put := s.put + data[..w.n]))
    else
      w.n <= |data| && g' == Put(g, a, Enqueued(s, data, w.n)) && r == (if s.queue == [] && w.n == |data| then 0 else 1)
  }

  lemma {:induction false} EnqueuedOk(g: Graph, a: Addr, data: Bytes, n: nat)
    requires Valid(g) && a in g.mainList && g.socks[a].peer.Some? && n <= |data|
    ensures var s := g.socks[a];
            && Valid(Put(g, a, Enqueued(s, data, n)))
            && EnqueueDone(g, Put(g, a, Enqueued(s, data, n)), a, data, S.Writes(n, false),
                           if s.queue == [] && n == |data| then 0 else 1)
  {
    assert Placed(g, a) && Healthy(g.socks[a]);
    assert n == |data| ==> data[..n] == data;
    SetOk(g, a, Enqueued(g.socks[a], data, n));
  }

  /** Both accounts of an enqueue whose write did not fail, and the record it leaves. */
  lemma {:induction false} EnqueuedBoth(g: Graph, a: Addr, data: Bytes, n: nat)
    requires Valid(g) && a in g.mainList && g.socks[a].peer.Some? && n <= |data|
    ensures var s := g.socks[a];
            var (g', w, r) := (Put(g, a, Enqueued(s, data, n)), S.Writes(n, false), if s.queue == [] && n == |data| then 0 else 1);
            && Valid(g') && EnqueueDone(g, g', a, data, w, r) && EnqueueMade(g, g', a, data, w, r)
    ensures var s := g.socks[a];
            && (s.queue != [] ==> Enqueued(s, data, n) == s.(queue := s.queue + [data], writing := true))
            && (s.queue == [] && n == |data| ==> Enqueued(s, data, n) == s.(put := s.put + data))
            && (s.queue == [] && n < |data| ==> Enqueued(s, data, n) == s.(put := s.put + data[..n], queue := [data[n..]], writing := true))
  {
    EnqueuedOk(g, a, data, n);
    hide Valid, EnqueueDone, Put;
  }

  lemma {:induction false} EnqueueBreaks(g: Graph, a: Addr, data: Bytes, n: nat)
    requires Valid(g) && a in g.mainList && g.socks[a].peer.Some? && n < |data| && g.socks[a].queue == []
    ensures var s := g.socks[a].(put := g.socks[a].put + data[..n]);
            && MidWrite(g, a, s) && EnqueueDone(g, FailedGraph(g, a, s), a, data, S.Writes(n, true), 1)
            && EnqueueMade(g, FailedGraph(g, a, s), a, data, S.Writes(n, true), 1)
  {
    EnqueueFails(g, a, data, n);
    hide Valid, EnqueueDone, MidWrite, FailedGraph;
  }

  lemma {:induction false} EnqueueFails(g: Graph, a: Addr, data: Bytes, n: nat)
    requires Valid(g) && a in g.mainList && g.socks[a].peer.Some? && n < |data| && g.socks[a].queue == []
    ensures var s := g.socks[a].(put := g.socks[a].put + data[..n]);
            MidWrite(g, a, s) && EnqueueDone(g, FailedGraph(g, a, s), a, data, S.Writes(n, true), 1)
  {
    assert Placed(g, a);
    FailedKeys(g, a, g.socks[a].(put := g.socks[a].put + data[..n]));
  }

  lemma FailedKeys(g: Graph, a: Addr, s: Asocket)
    requires MidWrite(g, a, s)
    ensures FailedGraph(g, a, s).socks.Keys <= g.socks.Keys
  {
    CanFail(g, a, s.(hasWriteError := true));
    CloseEffect(Put(g, a, s.(hasWriteError := true)), a, S.WriteError);
  }

  // ----- fd events -----

  /** The packets a stream socket's step owes its far side, as StreamSocket lists them. */
  predicate DrainDone(g: Graph, g': Graph, a: Addr, w: S.Writes, goOn: bool)
    requires a in g.socks
  {
    && Valid(g') && OnlyTouched(g, g', a) && g'.socks.Keys <= g.socks.Keys
    && (IsStream(g, a) ==>
          var (x, msgs, b) := S.Drain(View(g, a), w);
          && Became(g', a, x) && b == goOn
          && msgs == (if goOn then [S.Okay] else if a in g'.socks || g.socks[a].peer == None then [] else [S.Clse]))
    && (goOn ==> a in g'.socks && g'.socks.Keys == g.socks.Keys && (IsStream(g, a) ==> IsStream(g', a)))
    && (goOn ==> SamePlace(g.socks[a], g'.socks[a]) && g'.socks[a].peer.Some? && g' == Put(g, a, g'.socks[a]))
  }

  /** The record after the fd took n bytes of the backlog and `rest` remains. */
  function Drained(s: Asocket, n: nat, rest: seq<Bytes>): Asocket
    requires n <= |Flat(s.queue)|
  {
    s.(put := s.put + Flat(s.queue)[..n], queue := rest)
  }

  lemma DrainFacts(g: Graph, a: Addr)
    requires Valid(g) && a in g.socks && IsLocal(g.socks[a].kind) && g.socks[a].writing
    ensures var s := g.socks[a];
            && s.queue != [] && !s.hasWriteError && (!s.closing ==> s.peer.Some?) && (s.closing ==> s.peer == None)
  {
    assert Placed(g, a) && Healthy(g.socks[a]) && Tied(g, a);
  }

  lemma DrainBlocks(g: Graph, a: Addr, n: nat)
    requires Valid(g) && a in g.socks && IsLocal(g.socks[a].kind) && g.socks[a].writing && n < |Flat(g.socks[a].queue)|
    ensures var s := g.socks[a];
            DrainDone(g, Put(g, a, Drained(s, n, S.DropBytes(s.queue, n))), a, S.Writes(n, false), false)
  {
    var s := g.socks[a];
    DrainFacts(g, a);
    S.DropBytesFlat(s.queue, n);
    assert Healthy(s);
    SetOk(g, a, Drained(s, n, S.DropBytes(s.queue, n)));
  }

  lemma DrainBreaks(g: Graph, a: Addr, n: nat)
    requires Valid(g) && a in g.socks && IsLocal(g.socks[a].kind) && g.socks[a].writing && n < |Flat(g.socks[a].queue)|
    ensures var s := g.socks[a];
            var s' := Drained(s, n, S.DropBytes(s.queue, n));
            MidWrite(g, a, s') && DrainDone(g, FailedGraph(g, a, s'), a, S.Writes(n, true), false)
  {
    DrainFacts(g, a);
    hide Valid, CanClose, S.DropBytes;
    var s' := Drained(g.socks[a], n, S.DropBytes(g.socks[a].queue, n));
    assert MidWrite(g, a, s');
    FailedKeys(g, a, s');
    FailedIs(g, a, s');
    hide FailedGraph, MidWrite;
  }

  lemma DrainEmpties(g: Graph, a: Addr, n: nat)
    requires Valid(g) && a in g.socks && IsLocal(g.socks[a].kind) && g.socks[a].writing && n == |Flat(g.socks[a].queue)|
    requires !g.socks[a].closing
    ensures DrainDone(g, Put(g, a, Drained(g.socks[a], n, []).(writing := false)), a, S.Writes(n, false), true)
  {
    DrainFacts(g, a);
    assert Healthy(g.socks[a]);
    SetOk(g, a, Drained(g.socks[a], n, []).(writing := false));
  }

  lemma DrainFinishesPut(g: Graph, a: Addr, n: nat)
    requires Valid(g) && a in g.socks && IsLocal(g.socks[a].kind) && g.socks[a].writing && n == |Flat(g.socks[a].queue)|
    requires g.socks[a].closing
    ensures var b := Put(g, a, Drained(g.socks[a], n, []));
            && CanClose(b, a) && b.socks[a].peer == None && b.socks.Keys == g.socks.Keys && Dies(b.socks[a])
            && g.socks[a].peer == None
  {
    DrainFacts(g, a);
    UpdateKeeps(g, a, Drained(g.socks[a], n, []));
    hide Valid, Almost;
  }

  /** The last packet of a closing socket is out. */
  lemma DrainFinishes(g: Graph, a: Addr, n: nat)
    requires Valid(g) && a in g.socks && IsLocal(g.socks[a].kind) && g.socks[a].writing && n == |Flat(g.socks[a].queue)|
    requires g.socks[a].closing
    ensures var b := Put(g, a, Drained(g.socks[a], n, []));
            && CanClose(b, a) && b.socks[a].peer == None && b.socks.Keys == g.socks.Keys
            && DrainDone(g, CloseLone(b, a, S.Drained), a, S.Writes(n, false), false)
  {
    hide Valid, CanClose, CloseLone, View, S.Drain;
    var b := Put(g, a, Drained(g.socks[a], n, []));
    DrainFinishesPut(g, a, n);
    CloseKeeps(b, a, S.Drained);
    LoneEffect(b, a, S.Drained);
    DrainFinishesView(g, a, n);
  }

  lemma DrainFinishesView(g: Graph, a: Addr, n: nat)
    requires a in g.socks && g.socks[a].closing && g.socks[a].peer == None && n == |Flat(g.socks[a].queue)|
    ensures IsStream(g, a) ==>
              var (x, msgs, b) := S.Drain(View(g, a), S.Writes(n, false));
              x.status.Freed? && msgs == [] && !b
  {
  }

  /** What the FDE_READ half comes to: on a stream socket, StreamSocket.Read. */
  predicate ReadDone(g: Graph, g': Graph, a: Addr, r: S.Reads, maxPayload: nat)
    requires a in g.socks
  {
    && Valid(g') && OnlyTouched(g, g', a) && g'.socks.Keys <= g.socks.Keys
    && (IsStream(g, a) ==> Became(g', a, S.Read(View(g, a), r, maxPayload).0))
  }

  /** The record once `data` has been read and handed to the peer, if there is one. */
  function ReadRecord(s: Asocket, data: Bytes): Asocket {
    if data != [] && s.peer.Some? then s.(got := s.got + data, calm := s.calm && s.reading, reading := false)
    else if data != [] then s.(spilt := s.spilt + data)
    else s
  }

  lemma {:induction false} ReadView(s: Asocket, peerId: Option<nat>, data: Bytes, maxPayload: nat)
    requires |data| <= maxPayload && (s.peer.Some? <==> peerId.Some?)
    ensures RecordView(ReadRecord(s, data), peerId) == S.Read(RecordView(s, peerId), S.Reads(data, false), maxPayload).0
  {
    assert data[..|data|] == data;
  }

  /** Between calls any socket may be closed. */
  lemma ValidCanClose(g: Graph, a: Addr)
    requires Valid(g) && a in g.socks
    ensures CanClose(g, a) && Tied(g, a)
  {
    assert Healthy(g.socks[a]) && Tied(g, a);
  }

  lemma {:induction false} ReadPlace(g: Graph, a: Addr, data: Bytes)
    requires Valid(g) && a in g.socks && IsLocal(g.socks[a].kind)
    ensures var s' := ReadRecord(g.socks[a], data);
            SamePlace(g.socks[a], s') && Healthy(s') && (s'.queue != [] && !s'.closing ==> s'.peer.Some?)
  {
    assert Healthy(g.socks[a]) && Tied(g, a);
  }

  lemma {:induction false} ReadStaysPut(g: Graph, a: Addr, data: Bytes)
    requires Valid(g) && a in g.socks && IsLocal(g.socks[a].kind)
    ensures var g' := Put(g, a, ReadRecord(g.socks[a], data));
            && Valid(g') && g'.socks.Keys == g.socks.Keys && CanClose(g', a) && Tied(g', a) && OnlyTouched(g, g', a)
            && (IsStream(g, a) ==> IsStream(g', a) && View(g', a) == RecordView(ReadRecord(g.socks[a], data), View(g, a).peer))
  {
    ReadPlace(g, a, data);
    hide Valid, Healthy, Tied, CanClose, RecordView, SamePlace, ReadRecord, OnlyTouched;
    SetOk(g, a, ReadRecord(g.socks[a], data));
    ValidCanClose(Put(g, a, ReadRecord(g.socks[a], data)), a);
  }

  lemma {:induction false} ReadStays(g: Graph, a: Addr, data: Bytes, maxPayload: nat)
    requires Valid(g) && a in g.socks && IsLocal(g.socks[a].kind) && |data| <= maxPayload
    ensures var g' := Put(g, a, ReadRecord(g.socks[a], data));
            && Valid(g') && g'.socks.Keys == g.socks.Keys && CanClose(g', a) && Tied(g', a)
            && OnlyTouched(g, g', a) && ReadDone(g, g', a, S.Reads(data, false), maxPayload)
            && (IsStream(g, a) ==> IsStream(g', a) && View(g', a) == S.Read(View(g, a), S.Reads(data, false), maxPayload).0)
  {
    ReadStaysPut(g, a, data);
    hide Valid, Healthy, Tied, CanClose, S.Read, SamePlace, ReadRecord, OnlyTouched, Put;
    if IsStream(g, a) {
      ReadView(g.socks[a], View(g, a).peer, data, maxPayload);
      ReadLives(View(g, a), data, maxPayload);
    }
  }

  lemma {:induction false} ReadLives(s: S.Sock, data: Bytes, maxPayload: nat)
    ensures S.Read(s, S.Reads(data, false), maxPayload).0.status == s.status
  {
  }

  lemma {:induction false} ReadEnds(g: Graph, a: Addr, data: Bytes, maxPayload: nat)
    requires Valid(g) && a in g.socks && IsLocal(g.socks[a].kind) && |data| < maxPayload
    ensures var g' := Put(g, a, ReadRecord(g.socks[a], data));
            && CanClose(g', a) && Tied(g', a)
            && ReadDone(g, CloseGraph(g', a, S.HungUp), a, S.Reads(data, true), maxPayload)
  {
    ReadStays(g, a, data, maxPayload);
    ReadPlace(g, a, data);
    PutKin(g, a, ReadRecord(g.socks[a], data));
    hide Valid, CanClose, CloseGraph, CloseDone, KinOrRemote, OnlyTouched, Tied, Healthy, ReadRecord;
    var g' := Put(g, a, ReadRecord(g.socks[a], data));
    CloseKeeps(g', a, S.HungUp);
    CloseEffect(g', a, S.HungUp);
    ReadCloses(g, g', a, CloseGraph(g', a, S.HungUp));
    ReadEndsView(g, a, data, maxPayload);
  }

  /** A read that ends is a read and then a close. */
  lemma {:induction false} ReadThenClose(v: S.Sock, data: Bytes, maxPayload: nat)
    requires |data| < maxPayload
    ensures S.Read(v, S.Reads(data, true), maxPayload).0
         == S.Close(S.Read(v, S.Reads(data, false), maxPayload).0, S.HungUp).0
  {
    hide S.Close, S.Handed;
  }

  lemma {:induction false} ReadNoError(g: Graph, a: Addr, data: Bytes)
    requires Valid(g) && a in g.socks && IsLocal(g.socks[a].kind)
    ensures !ReadRecord(g.socks[a], data).hasWriteError
  {
    assert Healthy(g.socks[a]);
  }

  lemma {:induction false} ReadEndsView(g: Graph, a: Addr, data: Bytes, maxPayload: nat)
    requires Valid(g) && a in g.socks && IsLocal(g.socks[a].kind) && |data| < maxPayload
    requires CanClose(Put(g, a, ReadRecord(g.socks[a], data)), a) && Tied(Put(g, a, ReadRecord(g.socks[a], data)), a)
    ensures IsStream(g, a) ==>
              Became(CloseGraph(Put(g, a, ReadRecord(g.socks[a], data)), a, S.HungUp), a,
                     S.Read(View(g, a), S.Reads(data, true), maxPayload).0)
  {
    hide Valid, CanClose, CloseGraph, View, Became, S.Read, S.Close, ReadRecord, Tied, OnlyTouched, IsStream, ReadDone;
    if IsStream(g, a) {
      ReadStays(g, a, data, maxPayload);
      ReadNoError(g, a, data);
      ReadThenClose(View(g, a), data, maxPayload);
      CloseView(Put(g, a, ReadRecord(g.socks[a], data)), a, S.HungUp);
    }
  }

  lemma ReadCloses(g: Graph, g': Graph, a: Addr, g'': Graph)
    requires a in g.socks && a in g'.socks && g' == Put(g, a, g'.socks[a]) && g'.socks[a].peer == g.socks[a].peer
    requires CloseDone(g', g'', a)
    requires KinOrRemote(g, g')
    ensures OnlyTouched(g, g'', a) && g''.socks.Keys <= g'.socks.Keys
  {
    KinTwice(g, g', g'');
    hide KinOrRemote;
    forall x | x in g.socks && x != a && Some(x) != g.socks[a].peer ensures x in g''.socks && g''.socks[x] == g.socks[x] {
      assert !Concerned(g', a, x);
    }
  }

  /** A new remote socket for far id `id` on transport t, tied to its local socket. */
  function RemoteOf(a: Addr, id: nat, t: nat): Asocket {
    Asocket(id, false, false, Some(a), Remote, [], false, false, Some(t), [], [], [], [], false, true, None)
  }

  function Attach(g: Graph, a: Addr, p: Addr, id: nat, t: nat): Graph
    requires a in g.socks
  {
    Put(Put(g, p, RemoteOf(a, id, t)), a, g.socks[a].(peer := Some(p)))
  }

  lemma AttachKeeps(g: Graph, a: Addr, p: Addr, id: nat, t: nat)
    requires Valid(g) && a in g.mainList && g.socks[a].peer == None && p !in g.socks && id != 0
    ensures Valid(Attach(g, a, p, id, t))
  {
    AttachEach(g, a, p, id, t);
    assert p != a && p !in g.mainList && p !in g.closingList;
    assert ListsOk(Attach(g, a, p, id, t));
  }

  lemma AttachView(g: Graph, a: Addr, p: Addr, id: nat, t: nat)
    requires IsStream(g, a) && g.socks[a].peer == None && p !in g.socks
    ensures var g' := Attach(g, a, p, id, t);
            && IsStream(g', a) && View(g', a) == View(g, a).(peer := Some(id))
            && OnlyTouched(g, g', a) && g'.socks.Keys == g.socks.Keys + {p}
  {
  }

  lemma AttachEach(g: Graph, a: Addr, p: Addr, id: nat, t: nat)
    requires Valid(g) && a in g.mainList && g.socks[a].peer == None && p !in g.socks && id != 0
    ensures var g' := Attach(g, a, p, id, t);
            forall x :: x in g'.socks ==> Placed(g', x) && Healthy(g'.socks[x]) && Tied(g', x)
  {
    var g' := Attach(g, a, p, id, t);
    assert Placed(g, a) && Tied(g, a) && Healthy(g.socks[a]);
    forall x | x in g'.socks ensures Placed(g', x) && Healthy(g'.socks[x]) && Tied(g', x) {
      if x != p {
        assert Placed(g, x) && Tied(g, x) && Healthy(g.socks[x]);
      }
    }
  }

  /** A local socket just made: no peer, no interest, the next id. */
  function NewLocal(id: nat, openedBy: Option<nat>): Asocket {
    Asocket(id, false, false, None, Local, [], false, false, None, [], [], [], [], false, true, openedBy)
  }

  function Installed(g: Graph, a: Addr, openedBy: Option<nat>): Graph {
    Graph(g.socks[a := NewLocal(g.nextId, openedBy)], g.mainList + [a], g.closingList, g.nextId + 1)
  }

  lemma InstallFlags(g: Graph, a: Addr, openedBy: Option<nat>)
    requires Valid(g) && a !in g.socks
    ensures var g' := Installed(g, a, openedBy); forall x :: x in g'.socks ==> Placed(g', x) && Healthy(g'.socks[x])
  {
    hide Tied;
    var g' := Installed(g, a, openedBy);
    forall x | x in g'.socks ensures Placed(g', x) && Healthy(g'.socks[x]) {
      if x != a {
        assert Placed(g, x) && Healthy(g.socks[x]);
      }
    }
  }

  lemma InstallTies(g: Graph, a: Addr, openedBy: Option<nat>)
    requires Valid(g) && a !in g.socks
    ensures var g' := Installed(g, a, openedBy); forall x :: x in g'.socks ==> Tied(g', x)
  {
    hide ListsOk, Placed, Healthy;
    var g' := Installed(g, a, openedBy);
    forall x | x in g'.socks ensures Tied(g', x) {
      if x != a {
        assert Tied(g, x);
      }
    }
  }

  lemma InstallLists(g: Graph, a: Addr, openedBy: Option<nat>)
    requires Valid(g) && a !in g.socks
    ensures ListsOk(Installed(g, a, openedBy))
  {
    hide Tied, Healthy;
    forall x | x in g.mainList ensures g.socks[x].id != g.nextId {
      assert Placed(g, x);
    }
  }

  lemma InstallKeeps(g: Graph, a: Addr, openedBy: Option<nat>)
    requires Valid(g) && a !in g.socks
    ensures var g' := Installed(g, a, openedBy);
            && Valid(g') && IsStream(g', a) && View(g', a) == S.Fresh(None, openedBy)
            && a in g'.mainList && g'.socks.Keys == g.socks.Keys + {a}
            && g'.socks[a].id == g.nextId && g'.nextId == g.nextId + 1 && g'.socks[a].peer == None
            && forall x :: x in g.socks ==> g'.socks[x] == g.socks[x]
  {
    hide Placed, Healthy, Tied, ListsOk;
    InstallFlags(g, a, openedBy);
    InstallTies(g, a, openedBy);
    InstallLists(g, a, openedBy);
  }
}
