/**
 * Two online endpoints joined by two FIFO channels, with any number of streams opened from either
 * side. Endpoints run handle_packet (adb.cpp) and the socket entry points of StreamSocket.
 */
module StreamSystem {
  import opened AdbBase
  import opened StreamSocket
  import opened StreamPair
  import opened StreamCredit

  /** OPEN(id, 0, name); every other packet names its source and destination sockets. */
  datatype Packet = Open(id: nat, name: Bytes) | Stream(src: nat, dst: nat, msg: Msg)

  /** Every socket the endpoint ever made, under the id it was given; live ones are the main list. */
  datatype Endpoint = Endpoint(nextId: nat, socks: map<nat, Sock>)

  datatype System = System(l: Endpoint, r: Endpoint, lr: seq<Packet>, rl: seq<Packet>)

  datatype Act =
    | Connect(name: Bytes)
    | FdEvent(id: nat, ev: Event, w: Writes, r: Reads, maxPayload: nat)
    | Deliver(accept: bool, dw: Writes)

  const EMPTY := Endpoint(1, map[])
  const START := System(EMPTY, EMPTY, [], [])

  function Wrap(src: nat, dst: nat, msgs: seq<Msg>): seq<Packet> {
    if msgs == [] then [] else [Stream(src, dst, msgs[0])] + Wrap(src, dst, msgs[1..])
  }

  /** install_local_socket aborts the process rather than hand out id 0. */
  predicate CanInstall(e: Endpoint) { e.nextId + 1 < TWO_32 }

  function Install(e: Endpoint, s: Sock): Endpoint {
    Endpoint(e.nextId + 1, e.socks[e.nextId := s])
  }

  /** handle_packet; `accept` says whether the service an OPEN names could be started. */
  function HandlePacket(e: Endpoint, p: Packet, accept: bool, w: Writes): (Endpoint, seq<Packet>) {
    match p
    case Open(id, name) =>
      if id == 0 then (e, [])
      else if accept then (Install(e, Fresh(Some(id), Some(id))), [Stream(e.nextId, id, Okay)])
      else (e, [Stream(0, id, Clse)])
    case Stream(src, dst, m) =>
      if dst == 0 || (src == 0 && !m.Clse?) then (e, [])
      else if dst in e.socks then
        var s := e.socks[dst];
        var (s', msgs) := OnMsg(s, src, m, w);
        (Endpoint(e.nextId, e.socks[dst := s']), Wrap(dst, if s.peer.Some? then s.peer.value else src, msgs))
      else (e, if m.Okay? then [Stream(dst, src, Clse)] else [])
  }

  /** The left endpoint acts; a disabled action changes nothing. */
  function LeftStep(s: System, a: Act): System {
    match a
    case Connect(name) =>
      if CanInstall(s.l) then
        s.(l := Install(s.l, Fresh(None, None)), lr := s.lr + [Open(s.l.nextId, name)])
      else s
    case FdEvent(id, ev, w, r, maxPayload) =>
      if id in s.l.socks && Enabled(s.l.socks[id], ev) then
        var x := s.l.socks[id];
        var (x', msgs) := OnEvent(x, ev, w, r, maxPayload);
        s.(l := Endpoint(s.l.nextId, s.l.socks[id := x']),
           lr := s.lr + Wrap(id, if x.peer.Some? then x.peer.value else 0, msgs))
      else s
    case Deliver(accept, w) =>
      if s.rl == [] || (s.rl[0].Open? && accept && !CanInstall(s.l)) then s
      else
        var (l', out) := HandlePacket(s.l, s.rl[0], accept, w);
        s.(l := l', lr := s.lr + out, rl := s.rl[1..])
  }

  function Swap(s: System): System { System(s.r, s.l, s.rl, s.lr) }

  datatype Step = Left(act: Act) | Right(act: Act)

  function Next(s: System, step: Step): System {
    match step
    case Left(a) => LeftStep(s, a)
    case Right(a) => Swap(LeftStep(Swap(s), a))
  }

  /** The state after a whole run. */
  function Run(steps: seq<Step>): System {
    if steps == [] then START else Next(Run(steps[..|steps| - 1]), steps[|steps| - 1])
  }

  // ----- the invariant -----

  /** Socket i on the left and socket j on the right are the two ends of one stream. */
  ghost predicate Linked(l: Endpoint, r: Endpoint, i: nat, j: nat) {
    || (j in r.socks && r.socks[j].openedBy == Some(i))
    || (i in l.socks && l.socks[i].openedBy == Some(j))
  }

  /** The packets of one stream, in order. */
  function Proj(ch: seq<Packet>, src: nat, dst: nat): seq<Msg> {
    if ch == [] then []
    else (if ch[0].Stream? && ch[0].src == src && ch[0].dst == dst then [ch[0].msg] else []) + Proj(ch[1..], src, dst)
  }

  function Opens(ch: seq<Packet>, id: nat): nat {
    if ch == [] then 0 else (if ch[0].Open? && ch[0].id == id then 1 else 0) + Opens(ch[1..], id)
  }

  function Refusals(ch: seq<Packet>, id: nat): nat {
    if ch == [] then 0 else (if ch[0] == Stream(0, id, Clse) then 1 else 0) + Refusals(ch[1..], id)
  }

  ghost predicate Accepted(r: Endpoint, i: nat) {
    exists j :: j in r.socks && r.socks[j].openedBy == Some(i)
  }

  ghost predicate SocksOk(l: Endpoint, r: Endpoint) {
    && l.nextId >= 1
    && (forall i :: i in l.socks ==> 1 <= i < l.nextId && SockInv(l.socks[i]))
    && (forall i :: i in l.socks && l.socks[i].openedBy.Some? ==>
          var j := l.socks[i].openedBy.value;
          j in r.socks && r.socks[j].openedBy == None)
    && (forall i, i' :: i in l.socks && i' in l.socks && l.socks[i].openedBy.Some? ==>
          (l.socks[i].openedBy == l.socks[i'].openedBy ==> i == i'))
    && (forall i :: i in l.socks && l.socks[i].peer.Some? ==> Linked(l, r, i, l.socks[i].peer.value))
  }

  /** A socket whose OPEN the far side has not accepted has neither sent nor received anything. */
  ghost predicate OpenersOk(l: Endpoint, r: Endpoint, lr: seq<Packet>, rl: seq<Packet>) {
    && (forall i :: i in l.socks && l.socks[i].openedBy == None && !Accepted(r, i) ==>
          var x := l.socks[i];
          && x.peer == None && x.got == [] && x.put == [] && x.queue == [] && x.calm
          && (Waiting(x) ==> Opens(lr, i) + Refusals(rl, i) == 1)
          && (!Waiting(x) ==> x.status.Freed?))
    && (forall i :: Opens(lr, i) + Refusals(rl, i) <= 1)
  }

  ghost predicate PacketOk(l: Endpoint, r: Endpoint, p: Packet) {
    match p
    case Open(id, _) =>
      id in l.socks && l.socks[id].openedBy == None && !Accepted(r, id) && (Dead(l.socks[id]) ==> l.socks[id].cut)
    case Stream(src, dst, m) =>
      if src != 0 then Linked(l, r, src, dst)
      else m == Clse && dst in r.socks && r.socks[dst].openedBy == None && !Accepted(l, dst)
  }

  ghost predicate ChannelOk(l: Endpoint, r: Endpoint, lr: seq<Packet>) {
    forall k :: 0 <= k < |lr| ==> PacketOk(l, r, lr[k])
  }

  ghost predicate PairsOk(s: System) {
    forall i, j :: Linked(s.l, s.r, i, j) ==>
      && i in s.l.socks && j in s.r.socks
      && StreamInv(i, j, s.l.socks[i], s.r.socks[j], Proj(s.lr, i, j), Proj(s.rl, j, i))
  }

  ghost predicate Inv(s: System) {
    && SocksOk(s.l, s.r) && SocksOk(s.r, s.l)
    && OpenersOk(s.l, s.r, s.lr, s.rl) && OpenersOk(s.r, s.l, s.rl, s.lr)
    && ChannelOk(s.l, s.r, s.lr) && ChannelOk(s.r, s.l, s.rl)
    && PairsOk(s)
  }

  lemma SwapInv(s: System)
    requires Inv(s)
    ensures Inv(Swap(s))
  {
    var t := Swap(s);
    forall i, j | Linked(t.l, t.r, i, j)
      ensures i in t.l.socks && j in t.r.socks
           && StreamInv(i, j, t.l.socks[i], t.r.socks[j], Proj(t.lr, i, j), Proj(t.rl, j, i))
    {
      assert Linked(s.l, s.r, j, i);
    }
  }

  /** Each socket is an end of at most one stream. */
  lemma LinkedUnique(l: Endpoint, r: Endpoint, i: nat, j: nat, i': nat, j': nat)
    requires SocksOk(l, r) && SocksOk(r, l)
    requires Linked(l, r, i, j) && Linked(l, r, i', j')
    ensures i == i' <==> j == j'
  {
  }

  // ----- channel lemmas -----

  lemma {:induction false} Appended(a: seq<Packet>, b: seq<Packet>, src: nat, dst: nat)
    ensures Proj(a + b, src, dst) == Proj(a, src, dst) + Proj(b, src, dst)
    ensures Opens(a + b, src) == Opens(a, src) + Opens(b, src)
    ensures Refusals(a + b, dst) == Refusals(a, dst) + Refusals(b, dst)
  {
    if a == [] {
      assert a + b == b;
    } else {
      assert (a + b)[1..] == a[1..] + b;
      Appended(a[1..], b, src, dst);
    }
  }

  lemma {:induction false} Wrapped(src: nat, dst: nat, msgs: seq<Msg>, i: nat, j: nat)
    requires src != 0
    ensures Proj(Wrap(src, dst, msgs), i, j) == if i == src && j == dst then msgs else []
    ensures Opens(Wrap(src, dst, msgs), i) == 0 && Refusals(Wrap(src, dst, msgs), j) == 0
    ensures forall k :: 0 <= k < |Wrap(src, dst, msgs)| ==>
              Wrap(src, dst, msgs)[k].Stream? && Wrap(src, dst, msgs)[k].src == src && Wrap(src, dst, msgs)[k].dst == dst
  {
    if msgs != [] {
      Wrapped(src, dst, msgs[1..], i, j);
      assert Wrap(src, dst, msgs)[1..] == Wrap(src, dst, msgs[1..]);
    }
  }

  lemma {:induction false} NoneOpen(ch: seq<Packet>, id: nat)
    ensures Opens(ch, id) > 0 <==> exists k :: 0 <= k < |ch| && ch[k].Open? && ch[k].id == id
  {
    if ch != [] {
      NoneOpen(ch[1..], id);
      if k :| 0 <= k < |ch[1..]| && ch[1..][k].Open? && ch[1..][k].id == id {
        assert ch[k + 1].Open? && ch[k + 1].id == id;
      }
      if k :| 0 <= k < |ch| && ch[k].Open? && ch[k].id == id {
        assert k == 0 || ch[1..][k - 1].Open?;
      }
    }
  }

  lemma {:induction false} NoneRefused(ch: seq<Packet>, id: nat)
    ensures Refusals(ch, id) > 0 <==> Stream(0, id, Clse) in ch
  {
    if ch != [] {
      NoneRefused(ch[1..], id);
      assert ch == [ch[0]] + ch[1..];
    }
  }

  lemma {:induction false} ProjEmpty(ch: seq<Packet>, src: nat, dst: nat)
    requires forall k :: 0 <= k < |ch| ==> !(ch[k].Stream? && ch[k].src == src && ch[k].dst == dst)
    ensures Proj(ch, src, dst) == []
  {
    if ch != [] {
      ProjEmpty(ch[1..], src, dst);
    }
  }

  /** Socket i of the left changes state and nothing else does, the channels aside. */
  ghost predicate Touch(s: System, t: System, i: nat, x': Sock) {
    && i in s.l.socks && t.l == Endpoint(s.l.nextId, s.l.socks[i := x']) && t.r == s.r
    && x'.openedBy == s.l.socks[i].openedBy && SockInv(x')
    && (x'.peer.Some? ==> Linked(s.l, s.r, i, x'.peer.value))
  }

  lemma TouchLinks(s: System, t: System, i: nat, x': Sock)
    requires Touch(s, t, i, x')
    ensures forall a, b :: Linked(t.l, t.r, a, b) == Linked(s.l, s.r, a, b)
    ensures forall a, b :: Linked(t.r, t.l, a, b) == Linked(s.r, s.l, a, b)
  {
  }

  lemma TouchAccepts(s: System, t: System, i: nat, x': Sock, a: nat)
    requires Touch(s, t, i, x')
    ensures Accepted(t.l, a) == Accepted(s.l, a)
  {
    if b :| b in s.l.socks && s.l.socks[b].openedBy == Some(a) {
      assert b in t.l.socks && t.l.socks[b].openedBy == Some(a);
    }
    if b :| b in t.l.socks && t.l.socks[b].openedBy == Some(a) {
      assert b in s.l.socks && s.l.socks[b].openedBy == Some(a);
    }
  }

  lemma TouchSocks(s: System, t: System, i: nat, x': Sock)
    requires Touch(s, t, i, x') && SocksOk(s.l, s.r) && SocksOk(s.r, s.l)
    ensures SocksOk(t.l, t.r) && SocksOk(t.r, t.l)
  {
    TouchLinks(s, t, i, x');
  }

  lemma TouchSent(s: System, t: System, i: nat, x': Sock, p: Packet)
    requires Touch(s, t, i, x') && PacketOk(s.l, s.r, p)
    requires p.Open? && p.id == i && Dead(x') ==> x'.cut
    ensures PacketOk(t.l, t.r, p)
  {
    TouchLinks(s, t, i, x');
    if p.Stream? {
      TouchAccepts(s, t, i, x', p.dst);
    }
  }

  lemma TouchTaken(s: System, t: System, i: nat, x': Sock, p: Packet)
    requires Touch(s, t, i, x') && PacketOk(s.r, s.l, p)
    ensures PacketOk(t.r, t.l, p)
  {
    TouchLinks(s, t, i, x');
    TouchAccepts(s, t, i, x', if p.Open? then p.id else p.dst);
  }

  // ----- one step of a stream -----

  /** Socket i of the left takes a step that sends `more` to j, and perhaps takes a packet from j. */
  ghost predicate Move(s: System, t: System, i: nat, j: nat, x': Sock, more: seq<Msg>) {
    && Touch(s, t, i, x') && Linked(s.l, s.r, i, j) && j in s.r.socks && i != 0 && j != 0
    && t.lr == s.lr + Wrap(i, j, more)
    && (t.rl == s.rl || (s.rl != [] && t.rl == s.rl[1..] && s.rl[0].Stream? && s.rl[0].src == j && s.rl[0].dst == i))
  }

  lemma {:induction false} MoveCounts(s: System, t: System, i: nat, j: nat, x': Sock, more: seq<Msg>, a: nat)
    requires Move(s, t, i, j, x', more)
    ensures Opens(t.lr, a) == Opens(s.lr, a) && Refusals(t.lr, a) == Refusals(s.lr, a)
    ensures Opens(t.rl, a) == Opens(s.rl, a) && Refusals(t.rl, a) == Refusals(s.rl, a)
  {
    Appended(s.lr, Wrap(i, j, more), a, a);
    Wrapped(i, j, more, a, a);
  }

  lemma {:induction false} MoveOpeners(s: System, t: System, i: nat, j: nat, x': Sock, more: seq<Msg>)
    requires Move(s, t, i, j, x', more)
    requires OpenersOk(s.l, s.r, s.lr, s.rl) && OpenersOk(s.r, s.l, s.rl, s.lr)
    ensures OpenersOk(t.l, t.r, t.lr, t.rl) && OpenersOk(t.r, t.l, t.rl, t.lr)
  {
    forall a ensures Opens(t.lr, a) + Refusals(t.rl, a) <= 1 && Opens(t.rl, a) + Refusals(t.lr, a) <= 1 {
      MoveCounts(s, t, i, j, x', more, a);
    }
    forall a | a in t.l.socks && t.l.socks[a].openedBy == None && !Accepted(t.r, a)
      ensures t.l.socks[a] == s.l.socks[a]
      ensures Opens(t.lr, a) == Opens(s.lr, a) && Refusals(t.rl, a) == Refusals(s.rl, a)
    {
      MoveCounts(s, t, i, j, x', more, a);
      assert a != i;
    }
    forall a | a in t.r.socks && t.r.socks[a].openedBy == None && !Accepted(t.l, a)
      ensures !Accepted(s.l, a) && Opens(t.rl, a) == Opens(s.rl, a) && Refusals(t.lr, a) == Refusals(s.lr, a)
    {
      MoveCounts(s, t, i, j, x', more, a);
      TouchAccepts(s, t, i, x', a);
    }
  }

  lemma {:induction false} MoveChannels(s: System, t: System, i: nat, j: nat, x': Sock, more: seq<Msg>)
    requires Move(s, t, i, j, x', more)
    requires ChannelOk(s.l, s.r, s.lr) && ChannelOk(s.r, s.l, s.rl)
    ensures ChannelOk(t.l, t.r, t.lr) && ChannelOk(t.r, t.l, t.rl)
  {
    Wrapped(i, j, more, 0, 0);
    forall k | 0 <= k < |t.lr| ensures PacketOk(t.l, t.r, t.lr[k]) {
      if k < |s.lr| {
        assert PacketOk(s.l, s.r, s.lr[k]);
        TouchSent(s, t, i, x', s.lr[k]);
      } else {
        assert t.lr[k] == Wrap(i, j, more)[k - |s.lr|];
        TouchLinks(s, t, i, x');
      }
    }
    forall k | 0 <= k < |t.rl| ensures PacketOk(t.r, t.l, t.rl[k]) {
      TouchTaken(s, t, i, x', s.rl[k + |s.rl| - |t.rl|]);
    }
  }

  lemma {:induction false} MovePairs(s: System, t: System, i: nat, j: nat, x': Sock, more: seq<Msg>)
    requires Move(s, t, i, j, x', more) && PairsOk(s) && SocksOk(s.l, s.r) && SocksOk(s.r, s.l)
    requires StreamInv(i, j, x', s.r.socks[j], Proj(s.lr, i, j) + more, Proj(t.rl, j, i))
    ensures PairsOk(t)
  {
    forall a, b | Linked(t.l, t.r, a, b)
      ensures a in t.l.socks && b in t.r.socks
           && StreamInv(a, b, t.l.socks[a], t.r.socks[b], Proj(t.lr, a, b), Proj(t.rl, b, a))
    {
      TouchLinks(s, t, i, x');
      LinkedUnique(s.l, s.r, i, j, a, b);
      Appended(s.lr, Wrap(i, j, more), a, b);
      Wrapped(i, j, more, a, b);
      if a != i {
        assert Proj(t.lr, a, b) == Proj(s.lr, a, b) && Proj(t.rl, b, a) == Proj(s.rl, b, a);
      }
    }
  }

  /** A step of socket i that leaves its own stream a pair leaves the whole system consistent. */
  lemma {:induction false} MoveKeeps(s: System, t: System, i: nat, j: nat, x': Sock, more: seq<Msg>)
    requires Inv(s) && Move(s, t, i, j, x', more)
    requires StreamInv(i, j, x', s.r.socks[j], Proj(s.lr, i, j) + more, Proj(t.rl, j, i))
    ensures Inv(t)
  {
    TouchSocks(s, t, i, x');
    MoveOpeners(s, t, i, j, x', more);
    MoveChannels(s, t, i, j, x', more);
    MovePairs(s, t, i, j, x', more);
  }

  // ----- new sockets -----

  /** The left endpoint installs x under the next id, sends p, and perhaps takes the head of rl. */
  ghost predicate Grow(s: System, t: System, x: Sock, p: Packet) {
    && t.l == Install(s.l, x) && t.r == s.r
    && t.lr == s.lr + [p] && (t.rl == s.rl || (s.rl != [] && t.rl == s.rl[1..]))
    && SockInv(x) && (x.peer.Some? ==> x.peer == x.openedBy)
    && (x.openedBy.Some? ==>
          var j := x.openedBy.value;
          j in s.r.socks && s.r.socks[j].openedBy == None && !Accepted(s.l, j))
  }

  /** Nothing in the system knows an id that has not been handed out. */
  lemma FreshId(s: System, a: nat)
    requires Inv(s)
    ensures var n := s.l.nextId;
            && n !in s.l.socks && n != 0 && !Linked(s.l, s.r, n, a) && !Accepted(s.r, n)
            && Opens(s.lr, n) == 0 && Refusals(s.rl, n) == 0 && Proj(s.lr, n, a) == [] && Proj(s.rl, a, n) == []
  {
    var n := s.l.nextId;
    NoneOpen(s.lr, n);
    NoneRefused(s.rl, n);
    forall k | 0 <= k < |s.lr| ensures !(s.lr[k].Stream? && s.lr[k].src == n && s.lr[k].dst == a) {
      assert PacketOk(s.l, s.r, s.lr[k]);
    }
    forall k | 0 <= k < |s.rl| ensures !(s.rl[k].Stream? && s.rl[k].src == a && s.rl[k].dst == n) {
      assert PacketOk(s.r, s.l, s.rl[k]);
    }
    ProjEmpty(s.lr, n, a);
    ProjEmpty(s.rl, a, n);
    forall k | 0 <= k < |s.lr| ensures !(s.lr[k].Open? && s.lr[k].id == n) {
      assert PacketOk(s.l, s.r, s.lr[k]);
    }
    forall k | 0 <= k < |s.rl| ensures s.rl[k] != Stream(0, n, Clse) {
      assert PacketOk(s.r, s.l, s.rl[k]);
    }
  }

  lemma GrowLinks(s: System, t: System, x: Sock, p: Packet)
    requires Inv(s) && Grow(s, t, x, p)
    ensures forall a: nat, b: nat :: Linked(t.l, t.r, a, b) == (Linked(s.l, s.r, a, b) || (a == s.l.nextId && x.openedBy == Some(b)))
    ensures forall a: nat, b: nat :: Linked(t.r, t.l, b, a) == Linked(t.l, t.r, a, b)
  {
  }

  lemma GrowAccepts(s: System, t: System, x: Sock, p: Packet, a: nat)
    requires Inv(s) && Grow(s, t, x, p)
    ensures Accepted(t.l, a) == (Accepted(s.l, a) || x.openedBy == Some(a))
  {
    FreshId(s, a);
    if b :| b in s.l.socks && s.l.socks[b].openedBy == Some(a) {
      assert b in t.l.socks && t.l.socks[b].openedBy == Some(a);
    }
    if x.openedBy == Some(a) {
      assert s.l.nextId in t.l.socks && t.l.socks[s.l.nextId].openedBy == Some(a);
    }
    if b :| b in t.l.socks && t.l.socks[b].openedBy == Some(a) && b != s.l.nextId {
      assert b in s.l.socks && s.l.socks[b].openedBy == Some(a);
    }
  }

  lemma GrowSocks(s: System, t: System, x: Sock, p: Packet)
    requires Inv(s) && Grow(s, t, x, p)
    ensures SocksOk(t.l, t.r) && SocksOk(t.r, t.l)
  {
    GrowLinks(s, t, x, p);
    FreshId(s, 0);
    forall i | i in s.l.socks && x.openedBy.Some? ensures s.l.socks[i].openedBy != x.openedBy {
      assert !Accepted(s.l, x.openedBy.value);
    }
    forall i | i in t.r.socks && t.r.socks[i].openedBy.Some?
      ensures var j := t.r.socks[i].openedBy.value; j in t.l.socks && t.l.socks[j].openedBy == None
    {
      assert t.r.socks[i].openedBy.value != s.l.nextId;
    }
  }

  lemma GrowPackets(s: System, t: System, x: Sock, p: Packet)
    requires Inv(s) && Grow(s, t, x, p) && PacketOk(t.l, t.r, p)
    requires x.openedBy.Some? ==> Opens(t.rl, x.openedBy.value) == 0 && Refusals(s.lr, x.openedBy.value) == 0
    ensures ChannelOk(t.l, t.r, t.lr) && ChannelOk(t.r, t.l, t.rl)
  {
    hide OpenersOk, PairsOk, SockInv;
    GrowLinks(s, t, x, p);
    FreshId(s, 0);
    forall k | 0 <= k < |t.lr| ensures PacketOk(t.l, t.r, t.lr[k]) {
      if k < |s.lr| {
        var q := s.lr[k];
        assert PacketOk(s.l, s.r, q) && t.lr[k] == q;
        if q.Stream? && q.src == 0 {
          GrowAccepts(s, t, x, p, q.dst);
          NoneRefused(s.lr, q.dst);
        }
      }
    }
    forall k | 0 <= k < |t.rl| ensures PacketOk(t.r, t.l, t.rl[k]) {
      var q := t.rl[k];
      assert PacketOk(s.r, s.l, s.rl[k + |s.rl| - |t.rl|]) && q == s.rl[k + |s.rl| - |t.rl|];
      if q.Open? {
        GrowAccepts(s, t, x, p, q.id);
        NoneOpen(t.rl, q.id);
      }
    }
  }

  lemma {:induction false} ConnectOpeners(s: System, t: System, name: Bytes)
    requires Inv(s) && Grow(s, t, Fresh(None, None), Open(s.l.nextId, name)) && t.rl == s.rl
    ensures OpenersOk(t.l, t.r, t.lr, t.rl) && OpenersOk(t.r, t.l, t.rl, t.lr)
  {
    var n, x, p := s.l.nextId, Fresh(None, None), Open(s.l.nextId, name);
    forall a
      ensures Opens(t.lr, a) == Opens(s.lr, a) + (if a == n then 1 else 0) && Refusals(t.lr, a) == Refusals(s.lr, a)
      ensures Accepted(t.l, a) == Accepted(s.l, a)
    {
      Appended(s.lr, [p], a, a);
      assert [p][1..] == [] && Opens([p], a) == (if a == n then 1 else 0) && Refusals([p], a) == 0;
      GrowAccepts(s, t, x, p, a);
    }
    FreshId(s, 0);
    forall i | i in t.l.socks && t.l.socks[i].openedBy == None && !Accepted(t.r, i)
      ensures var y := t.l.socks[i];
              && y.peer == None && y.got == [] && y.put == [] && y.queue == []
              && (Waiting(y) ==> Opens(t.lr, i) + Refusals(t.rl, i) == 1)
              && (!Waiting(y) ==> y.status.Freed?)
    {
      assert i == n || i in s.l.socks;
    }
  }

  lemma {:induction false} ConnectPairs(s: System, t: System, name: Bytes)
    requires Inv(s) && Grow(s, t, Fresh(None, None), Open(s.l.nextId, name)) && t.rl == s.rl
    ensures PairsOk(t)
  {
    var n, x, p := s.l.nextId, Fresh(None, None), Open(s.l.nextId, name);
    GrowLinks(s, t, x, p);
    forall a, b | Linked(t.l, t.r, a, b)
      ensures a in t.l.socks && b in t.r.socks
           && StreamInv(a, b, t.l.socks[a], t.r.socks[b], Proj(t.lr, a, b), Proj(t.rl, b, a))
    {
      FreshId(s, b);
      Appended(s.lr, [p], a, b);
      assert [p][1..] == [] && Proj([p], a, b) == [];
      assert Linked(s.l, s.r, a, b) && a != n;
      assert Proj(t.lr, a, b) == Proj(s.lr, a, b);
    }
  }

  /** connect_to_remote. */
  lemma {:induction false} ConnectKeeps(s: System, name: Bytes)
    requires Inv(s)
    ensures Inv(LeftStep(s, Connect(name)))
  {
    if CanInstall(s.l) {
      var x, p := Fresh(None, None), Open(s.l.nextId, name);
      var t := LeftStep(s, Connect(name));
      GrowSocks(s, t, x, p);
      FreshId(s, 0);
      GrowPackets(s, t, x, p);
      ConnectOpeners(s, t, name);
      ConnectPairs(s, t, name);
    }
  }

  /** An OPEN arrives, its service starts: the new socket and the opener are the ends of a stream. */
  lemma AcceptKeeps(s: System, w: Writes)
    requires Inv(s) && s.rl != [] && s.rl[0].Open?
    ensures Inv(LeftStep(s, Deliver(true, w)))
  {
    if CanInstall(s.l) {
      var q := s.rl[0].id;
      var n, x := s.l.nextId, Fresh(Some(q), Some(q));
      var p := Stream(n, q, Okay);
      var t := LeftStep(s, Deliver(true, w));
      assert PacketOk(s.r, s.l, s.rl[0]);
      AcceptTokens(s);
      GrowSocks(s, t, x, p);
      GrowLinks(s, t, x, p);
      GrowPackets(s, t, x, p);
      AcceptOpeners(s, t);
      AcceptPairs(s, t);
    }
  }

  lemma AcceptTokens(s: System)
    requires Inv(s) && s.rl != [] && s.rl[0].Open?
    ensures Opens(s.rl[1..], s.rl[0].id) == 0 && Refusals(s.lr, s.rl[0].id) == 0
  {
    assert Opens(s.rl, s.rl[0].id) + Refusals(s.lr, s.rl[0].id) <= 1;
  }

  lemma AcceptOpeners(s: System, t: System)
    requires Inv(s) && s.rl != [] && s.rl[0].Open? && t.rl == s.rl[1..]
    requires var q := s.rl[0].id; Grow(s, t, Fresh(Some(q), Some(q)), Stream(s.l.nextId, q, Okay))
    ensures OpenersOk(t.l, t.r, t.lr, t.rl) && OpenersOk(t.r, t.l, t.rl, t.lr)
  {
    var q := s.rl[0].id;
    var x, p := Fresh(Some(q), Some(q)), Stream(s.l.nextId, q, Okay);
    forall a
      ensures Opens(t.lr, a) == Opens(s.lr, a) && Refusals(t.lr, a) == Refusals(s.lr, a)
      ensures Opens(t.rl, a) + (if a == q then 1 else 0) == Opens(s.rl, a) && Refusals(t.rl, a) == Refusals(s.rl, a)
      ensures Accepted(t.l, a) == (Accepted(s.l, a) || a == q)
    {
      Appended(s.lr, [p], a, a);
      assert [p][1..] == [] && Opens([p], a) == 0 && Refusals([p], a) == 0;
      GrowAccepts(s, t, x, p, a);
    }
    FreshId(s, 0);
  }

  /** The stream an accepted OPEN creates. */
  lemma AcceptBorn(s: System)
    requires Inv(s) && s.rl != [] && s.rl[0].Open?
    ensures var q := s.rl[0].id;
            q in s.r.socks && StreamInv(s.l.nextId, q, Fresh(Some(q), Some(q)), s.r.socks[q], [Okay], [])
  {
    var q := s.rl[0].id;
    assert PacketOk(s.r, s.l, s.rl[0]);
    PairBorn(q, s.l.nextId, s.r.socks[q]);
    CreditBorn(q, s.r.socks[q]);
    PairSwap(q, s.l.nextId, s.r.socks[q], Fresh(Some(q), Some(q)), [], [Okay]);
  }

  lemma AcceptPairs(s: System, t: System)
    requires Inv(s) && s.rl != [] && s.rl[0].Open? && t.rl == s.rl[1..]
    requires var q := s.rl[0].id; Grow(s, t, Fresh(Some(q), Some(q)), Stream(s.l.nextId, q, Okay))
    ensures PairsOk(t)
  {
    hide OpenersOk, ChannelOk, StreamInv, SockInv, SocksOk;
    var n, q := s.l.nextId, s.rl[0].id;
    var x, p := Fresh(Some(q), Some(q)), Stream(n, q, Okay);
    GrowLinks(s, t, x, p);
    AcceptBorn(s);
    forall a, b | Linked(t.l, t.r, a, b)
      ensures a in t.l.socks && b in t.r.socks
      ensures StreamInv(a, b, t.l.socks[a], t.r.socks[b], Proj(t.lr, a, b), Proj(t.rl, b, a))
    {
      FreshId(s, b);
      Appended(s.lr, [p], a, b);
      assert [p][1..] == [];
      assert Proj([p], a, b) == if a == n && b == q then [Okay] else [];
      assert Proj(t.rl, b, a) == Proj(s.rl, b, a);
      if Linked(s.l, s.r, a, b) {
        assert a != n && t.l.socks[a] == s.l.socks[a] && Proj(t.lr, a, b) == Proj(s.lr, a, b);
      } else {
        assert a == n && b == q && t.l.socks[a] == x && Proj(t.lr, a, b) == [Okay];
      }
    }
  }

  // ----- fd events, deliveries, runs -----

  /** A step of a socket without a stream; it closes if its client vanishes or its OPEN is refused. */
  ghost predicate Abandon(s: System, t: System, i: nat, x': Sock) {
    && Touch(s, t, i, x') && Waiting(s.l.socks[i]) && s.l.socks[i].openedBy == None && !Accepted(s.r, i)
    && t.lr == s.lr
    && var x := s.l.socks[i].(spilt := x'.spilt);
    && (t.rl == s.rl ==> x' == x || x' == x.(status := Freed, reading := false, writing := false, cut := true))
    && (t.rl != s.rl ==> s.rl != [] && s.rl[0] == Stream(0, i, Clse) && t.rl == s.rl[1..])
    && (t.rl != s.rl ==> x' == x.(status := Freed, reading := false, writing := false))
  }

  lemma AbandonChannels(s: System, t: System, i: nat, x': Sock)
    requires Inv(s) && Abandon(s, t, i, x')
    ensures ChannelOk(t.l, t.r, t.lr) && ChannelOk(t.r, t.l, t.rl)
  {
    NoneOpen(s.lr, i);
    forall k | 0 <= k < |t.lr| ensures PacketOk(t.l, t.r, t.lr[k]) {
      assert PacketOk(s.l, s.r, s.lr[k]);
      TouchSent(s, t, i, x', s.lr[k]);
    }
    forall k | 0 <= k < |t.rl| ensures PacketOk(t.r, t.l, t.rl[k]) {
      TouchTaken(s, t, i, x', s.rl[k + |s.rl| - |t.rl|]);
    }
  }

  lemma AbandonOpeners(s: System, t: System, i: nat, x': Sock)
    requires Inv(s) && Abandon(s, t, i, x')
    ensures OpenersOk(t.l, t.r, t.lr, t.rl) && OpenersOk(t.r, t.l, t.rl, t.lr)
  {
    forall a: nat
      ensures Accepted(t.l, a) == Accepted(s.l, a)
      ensures a != i ==> Refusals(t.rl, a) == Refusals(s.rl, a)
      ensures Refusals(t.rl, a) <= Refusals(s.rl, a) && Opens(t.rl, a) == Opens(s.rl, a)
    {
      TouchAccepts(s, t, i, x', a);
    }
  }

  lemma AbandonPairs(s: System, t: System, i: nat, x': Sock)
    requires PairsOk(s) && SocksOk(s.r, s.l) && SocksOk(s.l, s.r) && Abandon(s, t, i, x')
    ensures PairsOk(t)
  {
    TouchLinks(s, t, i, x');
    forall a, b | Linked(t.l, t.r, a, b)
      ensures a in t.l.socks && b in t.r.socks
      ensures StreamInv(a, b, t.l.socks[a], t.r.socks[b], Proj(t.lr, a, b), Proj(t.rl, b, a))
    {
      assert Linked(s.l, s.r, a, b);
      assert t.l.socks[a] == s.l.socks[a] && Proj(t.rl, b, a) == Proj(s.rl, b, a) by {
        assert a != i && b != 0;
      }
    }
  }

  lemma AbandonKeeps(s: System, t: System, i: nat, x': Sock)
    requires Inv(s) && Abandon(s, t, i, x')
    ensures Inv(t)
  {
    TouchSocks(s, t, i, x');
    AbandonChannels(s, t, i, x');
    AbandonOpeners(s, t, i, x');
    AbandonPairs(s, t, i, x');
  }

  /** An OPEN arrives and its service cannot be started: CLSE(0, id) goes back. */
  lemma RefuseKeeps(s: System, w: Writes)
    requires Inv(s) && s.rl != [] && s.rl[0].Open?
    ensures Inv(LeftStep(s, Deliver(false, w)))
  {
    var t := LeftStep(s, Deliver(false, w));
    var q := s.rl[0].id;
    var p := Stream(0, q, Clse);
    assert PacketOk(s.r, s.l, s.rl[0]);
    assert t == s.(lr := s.lr + [p], rl := s.rl[1..]);
    forall a
      ensures Opens(t.lr, a) == Opens(s.lr, a) && Refusals(t.lr, a) == Refusals(s.lr, a) + (if a == q then 1 else 0)
      ensures Opens(t.rl, a) + (if a == q then 1 else 0) == Opens(s.rl, a) && Refusals(t.rl, a) == Refusals(s.rl, a)
    {
      Appended(s.lr, [p], a, a);
      assert [p][1..] == [] && Opens([p], a) == 0 && Refusals([p], a) == (if a == q then 1 else 0);
    }
    forall k | 0 <= k < |t.lr| ensures PacketOk(t.l, t.r, t.lr[k]) {
      assert k < |s.lr| ==> PacketOk(s.l, s.r, s.lr[k]);
    }
    forall k | 0 <= k < |t.rl| ensures PacketOk(t.r, t.l, t.rl[k]) {
      assert PacketOk(s.r, s.l, s.rl[k + 1]);
    }
    RefusePairs(s, t, p);
  }

  lemma RefusePairs(s: System, t: System, p: Packet)
    requires PairsOk(s) && SocksOk(s.l, s.r) && SocksOk(s.r, s.l) && p.Stream? && p.src == 0
    requires s.rl != [] && s.rl[0].Open? && t == s.(lr := s.lr + [p], rl := s.rl[1..])
    ensures PairsOk(t)
  {
    forall a, b | Linked(t.l, t.r, a, b)
      ensures a in t.l.socks && b in t.r.socks
      ensures StreamInv(a, b, t.l.socks[a], t.r.socks[b], Proj(t.lr, a, b), Proj(t.rl, b, a))
    {
      assert Linked(s.l, s.r, a, b);
      Appended(s.lr, [p], a, b);
      assert [p][1..] == [] && Proj([p], a, b) == [];
      assert Proj(t.lr, a, b) == Proj(s.lr, a, b) && Proj(t.rl, b, a) == Proj(s.rl, b, a);
    }
  }

  /** A socket with no peer that the far side knows is an opener whose first OKAY is on its way. */
  lemma PartnerOf(s: System, i: nat) returns (j: nat)
    requires Inv(s) && i in s.l.socks
    requires s.l.socks[i].openedBy.Some? || Accepted(s.r, i)
    ensures Linked(s.l, s.r, i, j) && j in s.r.socks && i != 0 && j != 0
    ensures StreamInv(i, j, s.l.socks[i], s.r.socks[j], Proj(s.lr, i, j), Proj(s.rl, j, i))
  {
    if s.l.socks[i].openedBy.Some? {
      j := s.l.socks[i].openedBy.value;
    } else {
      j :| j in s.r.socks && s.r.socks[j].openedBy == Some(i);
    }
    assert Linked(s.l, s.r, i, j);
  }

  lemma LinkedEventKeeps(s: System, id: nat, ev: Event, w: Writes, r: Reads, maxPayload: nat)
    requires Inv(s) && id in s.l.socks && Enabled(s.l.socks[id], ev)
    requires s.l.socks[id].openedBy.Some? || Accepted(s.r, id)
    ensures Inv(LeftStep(s, FdEvent(id, ev, w, r, maxPayload)))
  {
    hide OnEvent, OpenersOk, ChannelOk, PairInv, CreditInv;
    var x := s.l.socks[id];
    var t := LeftStep(s, FdEvent(id, ev, w, r, maxPayload));
    var (x', more) := OnEvent(x, ev, w, r, maxPayload);
    var j := PartnerOf(s, id);
    var y, xy, yx := s.r.socks[j], Proj(s.lr, id, j), Proj(s.rl, j, id);
    EventMoves(x, ev, w, r, maxPayload);
    EventKeepsOrigin(x, ev, w, r, maxPayload);
    PairEvent(id, j, x, y, xy, yx, ev, w, r, maxPayload);
    CreditEvent(x, y, xy, yx, ev, w, r, maxPayload);
    assert Wrap(id, if x.peer.Some? then x.peer.value else 0, more) == Wrap(id, j, more);
    assert Move(s, t, id, j, x', more);
    MoveKeeps(s, t, id, j, x', more);
  }

  /** local_socket_event_func, whatever poll and the fd do. */
  lemma EventKeeps(s: System, id: nat, ev: Event, w: Writes, r: Reads, maxPayload: nat)
    requires Inv(s) && id in s.l.socks && Enabled(s.l.socks[id], ev)
    ensures Inv(LeftStep(s, FdEvent(id, ev, w, r, maxPayload)))
  {
    if s.l.socks[id].openedBy.Some? || Accepted(s.r, id) {
      LinkedEventKeeps(s, id, ev, w, r, maxPayload);
    } else {
      EventMoves(s.l.socks[id], ev, w, r, maxPayload);
      EventKeepsOrigin(s.l.socks[id], ev, w, r, maxPayload);
      AbandonKeeps(s, LeftStep(s, FdEvent(id, ev, w, r, maxPayload)), id,
                   OnEvent(s.l.socks[id], ev, w, r, maxPayload).0);
    }
  }

  lemma EventKeepsOrigin(x: Sock, ev: Event, w: Writes, r: Reads, maxPayload: nat)
    ensures var x' := OnEvent(x, ev, w, r, maxPayload).0;
            && x'.openedBy == x.openedBy
            && (Waiting(x) && x.queue == [] && !ev.write ==>
                  var n := x.(spilt := x'.spilt);
                  x' == n || x' == n.(status := Freed, reading := false, writing := false, cut := true))
  {
    hide Drain, Read;
    HalvesKeepOrigin(x, w, r, maxPayload);
    HalvesKeepOrigin(Drain(x, w).0, w, r, maxPayload);
  }

  lemma HalvesKeepOrigin(x: Sock, w: Writes, r: Reads, maxPayload: nat)
    ensures Drain(x, w).0.openedBy == x.openedBy && Read(x, r, maxPayload).0.openedBy == x.openedBy
    ensures Waiting(x) && x.queue == [] ==>
              var x' := Read(x, r, maxPayload).0;
              var n := x.(spilt := x'.spilt);
              x' == n || x' == n.(status := Freed, reading := false, writing := false, cut := true)
  {
  }

  /** What handle_packet does with a packet of a stream whose far end is src. */
  lemma HandleStream(e: Endpoint, src: nat, dst: nat, m: Msg, accept: bool, w: Writes)
    requires dst in e.socks && src != 0 && dst != 0
    requires e.socks[dst].peer.Some? ==> e.socks[dst].peer.value == src
    ensures var (x', more) := OnMsg(e.socks[dst], src, m, w);
            && HandlePacket(e, Stream(src, dst, m), accept, w)
               == (Endpoint(e.nextId, e.socks[dst := x']), Wrap(dst, src, more))
            && x'.openedBy == e.socks[dst].openedBy && (x'.peer == None || x'.peer == Some(src))
  {
  }

  /** A packet of a stream arrives. */
  lemma StreamKeeps(s: System, accept: bool, w: Writes)
    requires Inv(s) && s.rl != [] && s.rl[0].Stream? && s.rl[0].src != 0
    ensures Inv(LeftStep(s, Deliver(accept, w)))
  {
    var j, i, m := s.rl[0].src, s.rl[0].dst, s.rl[0].msg;
    var t := LeftStep(s, Deliver(accept, w));
    assert Linked(s.l, s.r, i, j) by {
      assert PacketOk(s.r, s.l, s.rl[0]);
    }
    var x, y := s.l.socks[i], s.r.socks[j];
    var (x', more) := OnMsg(x, j, m, w);
    var xy, yx := Proj(s.lr, i, j), Proj(s.rl, j, i);
    assert yx == [m] + Proj(s.rl[1..], j, i);
    assert StreamInv(i, j, x, y, xy, yx);
    assert i != 0 && j != 0;
    PairDeliver(i, j, x, y, xy, yx, w);
    CreditDeliver(i, j, x, y, xy, yx, w);
    HandleStream(s.l, j, i, m, accept, w);
    MsgKeepsSockInv(x, j, m, w);
    assert Move(s, t, i, j, x', more);
    MoveKeeps(s, t, i, j, x', more);
  }

  /** A refusal arrives. */
  lemma RefusedKeeps(s: System, accept: bool, w: Writes)
    requires Inv(s) && s.rl != [] && s.rl[0].Stream? && s.rl[0].src == 0
    ensures Inv(LeftStep(s, Deliver(accept, w)))
  {
    var i := s.rl[0].dst;
    var t := LeftStep(s, Deliver(accept, w));
    assert PacketOk(s.r, s.l, s.rl[0]);
    var x := s.l.socks[i];
    if Waiting(x) {
      AbandonKeeps(s, t, i, OnMsg(x, 0, Clse, w).0);
    } else {
      assert s.l.socks[i := x] == s.l.socks;
      assert t == s.(rl := s.rl[1..]);
      forall k | 0 <= k < |t.rl| ensures PacketOk(t.r, t.l, t.rl[k]) {
        assert PacketOk(s.r, s.l, s.rl[k + 1]);
      }
      DropPairs(s, t);
    }
  }

  lemma DropPairs(s: System, t: System)
    requires PairsOk(s) && SocksOk(s.l, s.r) && SocksOk(s.r, s.l)
    requires s.rl != [] && s.rl[0].Stream? && s.rl[0].src == 0 && t == s.(rl := s.rl[1..])
    ensures PairsOk(t)
  {
    forall a, b | Linked(t.l, t.r, a, b)
      ensures a in t.l.socks && b in t.r.socks
      ensures StreamInv(a, b, t.l.socks[a], t.r.socks[b], Proj(t.lr, a, b), Proj(t.rl, b, a))
    {
      assert Linked(s.l, s.r, a, b);
      assert Proj(t.rl, b, a) == Proj(s.rl, b, a);
    }
  }

  lemma LeftKeeps(s: System, a: Act)
    requires Inv(s)
    ensures Inv(LeftStep(s, a))
  {
    match a
    case Connect(name) => ConnectKeeps(s, name);
    case FdEvent(id, ev, w, r, maxPayload) =>
      if id in s.l.socks && Enabled(s.l.socks[id], ev) {
        EventKeeps(s, id, ev, w, r, maxPayload);
      }
    case Deliver(accept, w) =>
      if s.rl != [] {
        if s.rl[0].Open? {
          if accept { AcceptKeeps(s, w); } else { RefuseKeeps(s, w); }
        } else if s.rl[0].src != 0 {
          StreamKeeps(s, accept, w);
        } else {
          RefusedKeeps(s, accept, w);
        }
      }
  }

  lemma StepKeeps(s: System, step: Step)
    requires Inv(s)
    ensures Inv(Next(s, step))
  {
    match step
    case Left(a) => LeftKeeps(s, a);
    case Right(a) =>
      SwapInv(s);
      LeftKeeps(Swap(s), a);
      SwapInv(LeftStep(Swap(s), a));
  }

  /** Every state of every run satisfies the invariant. */
  lemma {:induction false} RunInv(steps: seq<Step>)
    ensures Inv(Run(steps))
  {
    if steps != [] {
      RunInv(steps[..|steps| - 1]);
      StepKeeps(Run(steps[..|steps| - 1]), steps[|steps| - 1]);
    }
  }
}
