/** Every OPEN in flight between two socket layers was dialled by a listener, and names the service it dialled. */
module LayerOpens {
  import opened AdbBase
  import opened SocketGraph
  import opened Sockets
  import opened AdbPackets
  import opened EndpointRefinement
  import opened LayerTheorems
  import S = StreamSocket
  import StreamSystem

  lemma {:induction false} FarMsgsAreStreams(g: Graph, a: Addr, msgs: seq<S.Msg>)
    requires a in g.socks
    ensures forall tp :: tp in FarMsgs(g, a, msgs) ==> tp.1.Stream?
  {
    if msgs != [] && g.socks[a].peer.Some? {
      FarMsgsAreStreams(g, a, msgs[1..]);
    }
  }

  /** An OPEN leaves a layer only when a client comes. */
  lemma {:induction false} ActsOpens(g: Graph, g': Graph, t: nat, why: Cause, inbox: seq<Packet>, inbox': seq<Packet>,
                                     out: seq<(nat, Packet)>)
    requires Acts(g, g', t, why, inbox, inbox', out)
    ensures forall tp :: tp in out && tp.1.Open? ==>
              why.Client? && tp == (t, StreamSystem.Open(g.nextId, OpenPayload(why.destination)))
  {
    hide Valid, Answered, Accepted, OpenPayload;
    match why
    case Fd(a, ev, w, r, m) =>
      FarMsgsAreStreams(g, a, S.OnEvent(View(g, a), ev, w, r, m).1);
    case Client(_, _) =>
    case Arrival(accept) =>
      forall tp | tp in out ensures tp.1.Stream? {
        var k :| 0 <= k < |out| && out[k] == tp;
      }
  }

  lemma {:induction false} OnIn(t: nat, out: seq<(nat, Packet)>, p: Packet)
    ensures p in On(t, out) ==> (t, p) in out
  {
    if out != [] {
      OnIn(t, out[1..], p);
      assert out == [out[0]] + out[1..];
    }
  }

  /** In this step of the left layer a listener dials `destination` with the socket that gets this id. */
  ghost predicate Dials(c: Cluster, c': Cluster, t: nat, id: nat, destination: Bytes) {
    exists a, out :: Dialled(c.l, c'.l, a, t, destination, out) && id == c.l.nextId
  }

  /** The OPEN p was dialled somewhere in the run. */
  ghost predicate WasDialled(cs: seq<Cluster>, t: nat, p: Packet)
    requires p.Open?
  {
    exists n, d :: 0 < n < |cs| && p == StreamSystem.Open(p.id, OpenPayload(d)) && Dials(cs[n - 1], cs[n], t, p.id, d)
  }

  lemma {:induction false} LeftSends(c: Cluster, c': Cluster, t: nat, p: Packet)
    requires LeftMoves(c, c', t) && p in c'.lr && p !in c.lr && p.Open?
    ensures exists d :: p == StreamSystem.Open(p.id, OpenPayload(d)) && Dials(c, c', t, p.id, d)
  {
    hide Valid, Handled, Fired, OpenPayload;
    var why, out :| Acts(c.l, c'.l, t, why, c.rl, c'.rl, out) && c'.r == c.r && c'.lr == c.lr + On(t, out);
    OnIn(t, out, p);
    ActsOpens(c.l, c'.l, t, why, c.rl, c'.rl, out);
    assert Dialled(c.l, c'.l, why.a, t, why.destination, out);
  }

  /** A step of the right layer only takes from what is on its way to it. */
  lemma {:induction false} RightTakes(c: Cluster, c': Cluster, t: nat, p: Packet)
    requires LeftMoves(Mirror(c), Mirror(c'), t) && p in c'.lr
    ensures p in c.lr
  {
    hide Valid, Handled, Fired, Dialled;
  }

  lemma {:induction false} DialledBefore(cs: seq<Cluster>, n: nat, t: nat, p: Packet)
    requires p.Open? && n <= |cs| && WasDialled(cs[..n], t, p)
    ensures WasDialled(cs, t, p)
  {
    hide Dials, OpenPayload;
    var k, d :| 0 < k < n && p == StreamSystem.Open(p.id, OpenPayload(d)) && Dials(cs[..n][k - 1], cs[..n][k], t, p.id, d);
    assert Dials(cs[k - 1], cs[k], t, p.id, d);
  }

  /** Every OPEN on its way from left to right was dialled by the left layer. */
  lemma {:induction false} OpenWasDialled(cs: seq<Cluster>, lt: nat, rt: nat, p: Packet)
    requires IsRun(cs, lt, rt) && p in cs[|cs| - 1].lr && p.Open?
    ensures WasDialled(cs, lt, p)
  {
    hide LeftMoves, Dials, OpenPayload;
    var n := |cs| - 1;
    if n > 0 {
      var c, c' := cs[n - 1], cs[n];
      if !LeftMoves(c, c', lt) {
        RightTakes(c, c', rt, p);
      }
      if p in c.lr {
        OpenWasDialled(cs[..n], lt, rt, p);
        DialledBefore(cs, n, lt, p);
      } else {
        LeftSends(c, c', lt, p);
        var d :| p == StreamSystem.Open(p.id, OpenPayload(d)) && Dials(c, c', lt, p.id, d);
      }
    }
  }

  /** So the name the far end's handle_packet takes from an OPEN is that of the service that was dialled. */
  lemma {:induction false} ServiceWasDialled(cs: seq<Cluster>, lt: nat, rt: nat, p: Packet)
    requires IsRun(cs, lt, rt) && p in cs[|cs| - 1].lr && p.Open?
    ensures exists n, d :: 0 < n < |cs| && Dials(cs[n - 1], cs[n], lt, p.id, d)
                           && ServiceName(p.name) == CString(d) && (0 !in d ==> ServiceName(p.name) == d)
  {
    hide IsRun, Dials, OpenPayload, ServiceName;
    OpenWasDialled(cs, lt, rt, p);
    var n, d :| 0 < n < |cs| && p == StreamSystem.Open(p.id, OpenPayload(d)) && Dials(cs[n - 1], cs[n], lt, p.id, d);
    OpenNames(d);
  }
}
