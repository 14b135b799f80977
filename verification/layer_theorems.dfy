/**
 * What holds of two socket layers that exchange packets over FIFO channels, after any run: the theorems
 * about StreamSystem, said of the records in memory.
 */
module LayerTheorems {
  import opened AdbBase
  import opened SocketGraph
  import opened EndpointRefinement
  import S = StreamSocket
  import StreamPair
  import StreamSystem
  import StreamTheorems

  type Packet = StreamSystem.Packet

  /** Two layers, joined by transport lt of the left and rt of the right, and the packets in flight. */
  datatype Cluster = Cluster(l: Graph, r: Graph, lr: seq<Packet>, rl: seq<Packet>)

  const NEW := Graph(map[], [], [], 1)
  const FIRST := Cluster(NEW, NEW, [], [])

  function Mirror(c: Cluster): Cluster { Cluster(c.r, c.l, c.rl, c.lr) }

  /** The left layer does something; what it sends on lt is now in flight. */
  ghost predicate LeftMoves(c: Cluster, c': Cluster, lt: nat) {
    exists why, out :: Acts(c.l, c'.l, lt, why, c.rl, c'.rl, out) && c'.r == c.r && c'.lr == c.lr + On(lt, out)
  }

  ghost predicate Moves(c: Cluster, c': Cluster, lt: nat, rt: nat) {
    LeftMoves(c, c', lt) || LeftMoves(Mirror(c), Mirror(c'), rt)
  }

  ghost predicate IsRun(cs: seq<Cluster>, lt: nat, rt: nat) {
    && cs != [] && cs[0] == FIRST
    && forall k :: 0 < k < |cs| ==> Moves(cs[k - 1], cs[k], lt, rt)
  }

  /** System s is what c amounts to. */
  ghost predicate Pictures(s: StreamSystem.System, c: Cluster, lids: Names, rids: Names, lt: nat, rt: nat) {
    && Valid(c.l) && Valid(c.r) && Represents(s.l, c.l, lids, lt) && Represents(s.r, c.r, rids, rt)
    && s.lr == c.lr && s.rl == c.rl
  }

  lemma FirstPictured(lt: nat, rt: nat)
    ensures Pictures(StreamSystem.START, FIRST, map[], map[], lt, rt)
  {
  }

  lemma {:induction false} LeftPictured(s: StreamSystem.System, c: Cluster, c': Cluster, lids: Names, rids: Names, lt: nat, rt: nat)
    returns (act: StreamSystem.Act, lids': Names)
    requires Pictures(s, c, lids, rids, lt, rt) && LeftMoves(c, c', lt)
    ensures Pictures(StreamSystem.LeftStep(s, act), c', lids', rids, lt, rt)
  {
    hide Valid, Represents, Acts, StreamSystem.LeftStep;
    var why, out :| Acts(c.l, c'.l, lt, why, c.rl, c'.rl, out) && c'.r == c.r && c'.lr == c.lr + On(lt, out);
    ActsSound(c.l, c'.l, lt, why, c.rl, c'.rl, out);
    act, lids' := StepSimulated(s, c.l, c'.l, lids, lt, why, c'.rl, out);
  }

  lemma {:induction false} ActsSound(g: Graph, g': Graph, t: nat, why: Cause, inbox: seq<Packet>, inbox': seq<Packet>, out: seq<(nat, Packet)>)
    requires Acts(g, g', t, why, inbox, inbox', out)
    ensures Valid(g')
  {
  }

  /** Every run of two socket layers is a run of StreamSystem. */
  lemma {:induction false} RunRefines(cs: seq<Cluster>, lt: nat, rt: nat)
    returns (steps: seq<StreamSystem.Step>, lids: Names, rids: Names)
    requires IsRun(cs, lt, rt)
    ensures Pictures(StreamSystem.Run(steps), cs[|cs| - 1], lids, rids, lt, rt)
  {
    hide LeftMoves, Pictures, StreamSystem.LeftStep;
    if |cs| == 1 {
      FirstPictured(lt, rt);
      return [], map[], map[];
    }
    var n := |cs| - 1;
    var c, c' := cs[n - 1], cs[n];
    var before;
    before, lids, rids := RunRefines(cs[..n], lt, rt);
    var s := StreamSystem.Run(before);
    var act;
    if LeftMoves(c, c', lt) {
      act, lids := LeftPictured(s, c, c', lids, rids, lt, rt);
      steps := before + [StreamSystem.Left(act)];
    } else {
      SwapPictured(s, c, lids, rids, lt, rt);
      act, rids := LeftPictured(StreamSystem.Swap(s), Mirror(c), Mirror(c'), rids, lids, rt, lt);
      SwapPictured(StreamSystem.LeftStep(StreamSystem.Swap(s), act), Mirror(c'), rids, lids, rt, lt);
      steps := before + [StreamSystem.Right(act)];
    }
    assert steps[..|steps| - 1] == before;
  }

  lemma {:induction false} SwapPictured(s: StreamSystem.System, c: Cluster, lids: Names, rids: Names, lt: nat, rt: nat)
    requires Pictures(s, c, lids, rids, lt, rt)
    ensures Pictures(StreamSystem.Swap(s), Mirror(c), rids, lids, rt, lt)
  {
    hide Valid, Represents;
  }

  /** c is the state after some run, seen from either end. */
  ghost predicate Seen(c: Cluster, lt: nat, rt: nat) {
    exists s, lids, rids :: StreamTheorems.Reached(s) && Pictures(s, c, lids, rids, lt, rt)
  }

  lemma {:induction false} RunSeen(cs: seq<Cluster>, lt: nat, rt: nat)
    requires IsRun(cs, lt, rt)
    ensures Seen(cs[|cs| - 1], lt, rt) && Seen(Mirror(cs[|cs| - 1]), rt, lt)
  {
    hide Pictures;
    var steps, lids, rids := RunRefines(cs, lt, rt);
    var s := StreamSystem.Run(steps);
    SwapPictured(s, cs[|cs| - 1], lids, rids, lt, rt);
    assert StreamTheorems.Reached(s) && StreamTheorems.Reached(StreamSystem.Swap(s));
  }

  // ----- the theorems -----

  /** A socket on the main list, by its id. */
  predicate Lists(g: Graph, a: Addr, i: nat) { a in g.mainList && a in g.socks && g.socks[a].id == i }

  /** The id of the far socket a is connected to. */
  predicate FarIs(g: Graph, a: Addr, j: nat) {
    a in g.socks && g.socks[a].peer.Some? && g.socks[a].peer.value in g.socks && g.socks[g.socks[a].peer.value].id == j
  }

  ghost predicate Connected(g: Graph, i: nat, j: nat) {
    exists a :: Lists(g, a, i) && FarIs(g, a, j)
  }

  ghost predicate Waiting(g: Graph, i: nat) {
    exists a :: Lists(g, a, i) && g.socks[a].peer == None
  }

  ghost predicate Gone(g: Graph, i: nat) {
    forall a :: a in g.mainList ==> !Lists(g, a, i)
  }

  /** A listed socket is a live socket of the endpoint, with the same far end. */
  lemma ListedShown(e: StreamSystem.Endpoint, g: Graph, ids: Names, t: nat, a: Addr, i: nat)
    requires Valid(g) && Represents(e, g, ids, t) && Lists(g, a, i)
    ensures i in e.socks && IsStream(g, a) && e.socks[i] == View(g, a) && e.socks[i].status.Live? && i != 0
    ensures e.socks[i].peer.Some? ==> FarIs(g, a, e.socks[i].peer.value)
    ensures e.socks[i].peer == None <==> g.socks[a].peer == None
    ensures forall j: nat :: FarIs(g, a, j) ==> e.socks[i].peer == Some(j)
  {
    assert Placed(g, a);
    FoundShown(e, g, ids, t, i, a);
    hide Valid, Represents;
  }

  lemma LiveListed(e: StreamSystem.Endpoint, g: Graph, ids: Names, t: nat, i: nat)
    requires Valid(g) && Represents(e, g, ids, t) && i in e.socks
    ensures Gone(g, i) <==> !e.socks[i].status.Live?
    ensures S.Waiting(e.socks[i]) ==> Waiting(g, i)
    ensures S.Connected(e.socks[i]) ==> Connected(g, i, e.socks[i].peer.value)
  {
    FoundIsLive(e, g, ids, t, i);
    hide Valid, Represents;
    if !Gone(g, i) {
      var a :| a in g.mainList && Lists(g, a, i);
    }
    if e.socks[i].status.Live? {
      var a :| a in g.mainList && a in g.socks && g.socks[a].id == i;
      ListedShown(e, g, ids, t, a, i);
      assert Lists(g, a, i);
    }
  }

  /**
   * No half-open stream is orphaned: the far socket of a connected one is connected back to it, or is
   * still waiting or gone, and then an OKAY or CLSE that will settle the matter is in flight.
   */
  lemma {:induction false} NoOrphan(c: Cluster, lt: nat, rt: nat, i: nat, j: nat)
    requires Seen(c, lt, rt) && Connected(c.l, i, j)
    ensures || Connected(c.r, j, i)
            || (Waiting(c.r, j) && StreamSystem.Stream(i, j, S.Okay) in c.lr)
            || (Gone(c.r, j) && (StreamSystem.Stream(i, j, S.Okay) in c.lr || StreamSystem.Stream(j, i, S.Clse) in c.rl))
  {
    hide Valid, Represents, StreamTheorems.Reached;
    var s, lids, rids :| StreamTheorems.Reached(s) && Pictures(s, c, lids, rids, lt, rt);
    var a :| Lists(c.l, a, i) && FarIs(c.l, a, j);
    ListedShown(s.l, c.l, lids, lt, a, i);
    StreamTheorems.NoOrphan(s, i);
    LiveListed(s.r, c.r, rids, rt, j);
  }

  /** With nothing in flight nobody waits, and the two layers' peer relations are inverse. */
  lemma {:induction false} QuietMeansInverse(c: Cluster, lt: nat, rt: nat, a: Addr)
    requires Seen(c, lt, rt) && c.lr == [] && c.rl == [] && a in c.l.mainList && a in c.l.socks
    ensures exists j :: FarIs(c.l, a, j) && Connected(c.r, j, c.l.socks[a].id)
  {
    hide Valid, Represents, StreamTheorems.Reached;
    var s, lids, rids :| StreamTheorems.Reached(s) && Pictures(s, c, lids, rids, lt, rt);
    var i := c.l.socks[a].id;
    ListedShown(s.l, c.l, lids, lt, a, i);
    StreamTheorems.QuietMeansInverse(s, i);
    var j := s.l.socks[i].peer.value;
    LiveListed(s.r, c.r, rids, rt, j);
    assert FarIs(c.l, a, j);
  }

  /**
   * Between two sockets of which one is connected to the other: what b's fd took, its backlog and the
   * WRTEs in flight are what a's fd gave; and while neither handed over data unasked one go-ahead is about.
   */
  lemma {:induction false} BytesAndCredit(c: Cluster, lt: nat, rt: nat, a: Addr, b: Addr, i: nat, j: nat)
    requires Seen(c, lt, rt) && Lists(c.l, a, i) && Lists(c.r, b, j)
    requires FarIs(c.l, a, j) || FarIs(c.r, b, i)
    ensures var x, y, xy, yx := c.l.socks[a], c.r.socks[b], StreamSystem.Proj(c.lr, i, j), StreamSystem.Proj(c.rl, j, i);
            && y.put + Flat(y.queue) + StreamPair.Payload(xy) == x.got
            && (x.calm && y.calm ==>
                  && (if x.reading then 1 else 0) + StreamPair.Wrtes(xy) + (if y.queue != [] then 1 else 0) + StreamPair.Okays(yx) == 1
                  && |y.queue| <= 1)
  {
    hide Valid, Represents, StreamTheorems.Reached, StreamSystem.Linked;
    var s, lids, rids :| StreamTheorems.Reached(s) && Pictures(s, c, lids, rids, lt, rt);
    ListedShown(s.l, c.l, lids, lt, a, i);
    ListedShown(s.r, c.r, rids, rt, b, j);
    FarLinked(s, i, j);
    StreamTheorems.BytesArriveIntact(s, i, j);
    StreamTheorems.CreditConserved(s, i, j);
  }

  lemma FarLinked(s: StreamSystem.System, i: nat, j: nat)
    requires StreamTheorems.Reached(s) && i in s.l.socks && j in s.r.socks
    requires s.l.socks[i].peer == Some(j) || s.r.socks[j].peer == Some(i)
    ensures StreamSystem.Linked(s.l, s.r, i, j)
  {
    StreamTheorems.ReachedInv(s);
  }
}
