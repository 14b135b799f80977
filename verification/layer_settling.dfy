/** Answers die out between two socket layers as they do in StreamSystem, and nothing is ever stuck. */
module LayerSettling {
  import opened AdbBase
  import opened SocketGraph
  import opened Sockets
  import opened AdbPackets
  import opened EndpointRefinement
  import opened LayerTheorems
  import S = StreamSocket
  import StreamSystem
  import StreamRank

  // ----- any packet can be taken -----

  lemma FreshAddress(used: set<Addr>) returns (a: Addr)
    ensures a !in used
  {
    a := 0;
    ghost var seen: set<Addr> := {};
    while a in used
      invariant seen <= used && (forall x: Addr :: x in seen <==> x < a) && |seen| == a
      decreases |used - seen|
    {
      seen := seen + {a};
      a := a + 1;
    }
  }

  lemma CanTakeOkay(g: Graph, t: nat, src: nat, dst: nat) returns (g': Graph, out: seq<(nat, Packet)>)
    requires Valid(g) && src != 0
    ensures Valid(g') && Answered(g, g', t, src, dst, S.Okay, out) && NoData(out)
  {
    hide Valid, Answered, PacketDone, IsStream, Readied, Attach, Put;
    if a :| a in g.mainList && a in g.socks && g.socks[a].id == dst {
      OkayFound(g, a, dst);
      out := [];
      if g.socks[a].peer == None {
        var p := FreshAddress(g.socks.Keys);
        AttachKeeps(g, a, p, src, t);
        var g1 := Attach(g, a, p, src, t);
        AttachedThere(g, a, p, src, t);
        ReadyKeeps(g1, a);
        FirstOkay(g, a, p, t, src);
        g' := Put(g1, a, Readied(g1.socks[a]));
      } else if g.socks[g.socks[a].peer.value].id == src {
        NextOkay(g, a, t, src);
        ReadyKeeps(g, a);
        g' := Put(g, a, Readied(g.socks[a]));
      } else {
        WrongOkay(g, a, t, src);
        g' := g;
      }
      FoundAnswer(g, g', t, src, dst, S.Okay, a, []);
    } else {
      NothingFound(g, t, src, dst);
      g', out := g, [(t, StreamSystem.Stream(dst, src, S.Clse))];
    }
  }

  lemma AttachedThere(g: Graph, a: Addr, p: Addr, id: nat, t: nat)
    requires a in g.socks && a in g.mainList
    ensures var g1 := Attach(g, a, p, id, t); a in g1.socks && a in g1.mainList
  {
  }

  lemma CanTakeClse(g: Graph, t: nat, src: nat, dst: nat) returns (g': Graph, out: seq<(nat, Packet)>)
    requires Valid(g)
    ensures Valid(g') && Answered(g, g', t, src, dst, S.Clse, out) && NoData(out)
  {
    hide Valid, Answered, PacketDone, IsStream, CloseGraph, Farewell, CanClose;
    g', out := g, [];
    if a :| Finds(g, dst, src, a) {
      if Foreign(g, a, t, src, S.Clse) {
        ForeignClse(g, a, t, src, dst);
      } else {
        ClseFound(g, a, t, src, dst);
        ClseCloses(g, a, t, src, dst);
        g', out := CloseGraph(g, a, S.ByPeer), Farewell(g, a);
        FarewellNoData(g, a);
        FoundAnswer(g, g', t, src, dst, S.Clse, a, out);
      }
    } else {
      NoneToTell(g, t, src, dst, S.Clse);
    }
  }

  lemma {:induction false} CanTakeWrte(g: Graph, t: nat, src: nat, dst: nat, data: Bytes) returns (g': Graph, out: seq<(nat, Packet)>)
    requires Valid(g) && src != 0
    ensures Valid(g') && Answered(g, g', t, src, dst, S.Wrte(data), out) && NoData(out)
  {
    hide Valid, Answered, PacketDone, PacketDoneBy, IsStream, EnqueueDone, Farewell, Enqueued, Put;
    g', out := g, [];
    if a :| Finds(g, dst, src, a) {
      var n := |data|;
      var r := if g.socks[a].queue == [] && n == |data| then 0 else 1;
      EnqueuedOk(g, a, data, n);
      FarewellNoData(g, a);
      g' := Put(g, a, Enqueued(g.socks[a], data, n));
      out := (if a in g'.socks then [] else Farewell(g, a)) + (if r == 0 then [(t, StreamSystem.Stream(dst, src, S.Okay))] else []);
      WrteEnqueued(g, g', a, t, src, dst, data, S.Writes(n, false), r);
      DoneBySome(g, g', a, t, src, S.Wrte(data), S.Writes(n, false), out);
      FoundAnswer(g, g', t, src, dst, S.Wrte(data), a, out);
    } else {
      NoneToTell(g, t, src, dst, S.Wrte(data));
    }
  }

  /** handle_packet has something to do for every packet in every sound graph. */
  lemma CanTake(g: Graph, t: nat, p: Packet) returns (g': Graph, out: seq<(nat, Packet)>)
    requires Valid(g)
    ensures Valid(g') && Handled(g, g', t, p, false, out)
  {
    hide Valid, Answered;
    g', out := g, [];
    match p
    case Open(id, _) =>
      if id != 0 {
        out := [(t, StreamSystem.Stream(0, id, S.Clse))];
      }
    case Stream(src, dst, m) =>
      if dst != 0 && (src != 0 || m.Clse?) {
        match m
        case Okay => g', out := CanTakeOkay(g, t, src, dst);
        case Clse => g', out := CanTakeClse(g, t, src, dst);
        case Wrte(data) => g', out := CanTakeWrte(g, t, src, dst, data);
      }
  }

  // ----- answers die out -----

  /** Nothing new comes in: a packet is taken, or the fd takes some of a backlog. */
  predicate Productive(g: Graph, why: Cause) {
    match why
    case Fd(a, ev, w, _, _) => ev.write && !ev.read && IsStream(g, a) && StreamRank.Progress(View(g, a), w)
    case Client(_, _) => false
    case Arrival(_) => true
  }

  ghost predicate LeftSettles(c: Cluster, c': Cluster, lt: nat) {
    exists why, out ::
      Productive(c.l, why) && Acts(c.l, c'.l, lt, why, c.rl, c'.rl, out) && c'.r == c.r && c'.lr == c.lr + On(lt, out)
  }

  ghost predicate Settles(c: Cluster, c': Cluster, lt: nat, rt: nat) {
    LeftSettles(c, c', lt) || LeftSettles(Mirror(c), Mirror(c'), rt)
  }

  ghost predicate Settling(cs: seq<Cluster>, n: nat, lt: nat, rt: nat) {
    forall k :: n < k < |cs| ==> Settles(cs[k - 1], cs[k], lt, rt)
  }

  lemma {:induction false} KindCascades(s: StreamSystem.System, act: StreamSystem.Act, why: Cause, g: Graph, ids: Names, t: nat, g': Graph,
                                        inbox': seq<Packet>, out: seq<(nat, Packet)>)
    requires Valid(g) && Represents(s.l, g, ids, t) && SameKind(s, act, why, ids) && Productive(g, why)
    requires Acts(g, g', t, why, s.rl, inbox', out)
    ensures StreamRank.Cascade(s, act)
  {
    hide Valid, Represents, Handled, Dialled, EventDone, S.Enabled, View, IsStream;
    match why
    case Fd(a, ev, w, r, m) => EventSound(s.l, g, ids, t, a, ev, w, r, m);
    case Client(_, _) =>
    case Arrival(_) =>
  }

  lemma {:induction false} LeftSettled(s: StreamSystem.System, c: Cluster, c': Cluster, lids: Names, rids: Names, lt: nat, rt: nat)
    returns (act: StreamSystem.Act, lids': Names)
    requires Pictures(s, c, lids, rids, lt, rt) && LeftSettles(c, c', lt)
    ensures Pictures(StreamSystem.LeftStep(s, act), c', lids', rids, lt, rt) && StreamRank.Cascade(s, act)
  {
    hide Valid, Represents, Acts, Productive, SameKind, StreamSystem.LeftStep, StreamRank.Cascade;
    var why, out :|
      Productive(c.l, why) && Acts(c.l, c'.l, lt, why, c.rl, c'.rl, out) && c'.r == c.r && c'.lr == c.lr + On(lt, out);
    ActsSound(c.l, c'.l, lt, why, c.rl, c'.rl, out);
    act, lids' := StepSimulated(s, c.l, c'.l, lids, lt, why, c'.rl, out);
    KindCascades(s, act, why, c.l, lids, lt, c'.l, c'.rl, out);
  }

  /** A productive step of either layer is a step of the system, and lowers its rank. */
  lemma {:induction false} Settled(s: StreamSystem.System, c: Cluster, c': Cluster, lids: Names, rids: Names, lt: nat, rt: nat)
    returns (s': StreamSystem.System, lids': Names, rids': Names)
    requires Pictures(s, c, lids, rids, lt, rt) && StreamSystem.Inv(s) && Settles(c, c', lt, rt)
    ensures Pictures(s', c', lids', rids', lt, rt) && StreamSystem.Inv(s') && StreamRank.Rank(s') < StreamRank.Rank(s)
  {
    hide Pictures, LeftSettles, StreamSystem.LeftStep, StreamSystem.Inv, StreamRank.Cascade, StreamRank.Rank;
    var step;
    lids', rids' := lids, rids;
    if LeftSettles(c, c', lt) {
      var act;
      act, lids' := LeftSettled(s, c, c', lids, rids, lt, rt);
      step := StreamSystem.Left(act);
    } else {
      SwapPictured(s, c, lids, rids, lt, rt);
      var act;
      act, rids' := LeftSettled(StreamSystem.Swap(s), Mirror(c), Mirror(c'), rids, lids, rt, lt);
      SwapPictured(StreamSystem.LeftStep(StreamSystem.Swap(s), act), Mirror(c'), rids', lids, rt, lt);
      step := StreamSystem.Right(act);
    }
    s' := StreamSystem.Next(s, step);
    StreamSystem.StepKeeps(s, step);
    StreamRank.RankDrops(s, step);
  }

  lemma {:induction false} BoundedBy(cs: seq<Cluster>, n: nat, s: StreamSystem.System, lids: Names, rids: Names, lt: nat, rt: nat)
    requires n < |cs| && Pictures(s, cs[n], lids, rids, lt, rt) && StreamSystem.Inv(s) && Settling(cs, n, lt, rt)
    ensures |cs| - 1 - n <= StreamRank.Rank(s)
    decreases |cs| - n
  {
    hide Pictures, Settles, StreamSystem.Inv, StreamRank.Rank;
    if n + 1 < |cs| {
      assert Settles(cs[n + 1 - 1], cs[n + 1], lt, rt);
      var s', lids', rids' := Settled(s, cs[n], cs[n + 1], lids, rids, lt, rt);
      BoundedBy(cs, n + 1, s', lids', rids', lt, rt);
    }
  }

  /** After any run there is a bound on how long answers and drains can go on with nothing new coming in. */
  lemma {:induction false} CascadeEnds(cs: seq<Cluster>, lt: nat, rt: nat) returns (bound: nat)
    requires IsRun(cs, lt, rt)
    ensures forall more :: Settling(cs + more, |cs| - 1, lt, rt) ==> |more| <= bound
  {
    hide Pictures, Settling, StreamSystem.Inv, StreamRank.Rank;
    var steps, lids, rids := RunRefines(cs, lt, rt);
    var s := StreamSystem.Run(steps);
    StreamSystem.RunInv(steps);
    bound := StreamRank.Rank(s);
    forall more | Settling(cs + more, |cs| - 1, lt, rt) ensures |more| <= bound {
      assert (cs + more)[|cs| - 1] == cs[|cs| - 1];
      BoundedBy(cs + more, |cs| - 1, s, lids, rids, lt, rt);
    }
  }

  // ----- nothing is stuck -----

  /** The left layer takes its next packet. */
  lemma {:induction false} CanDeliver(c: Cluster, lt: nat) returns (c': Cluster)
    requires Valid(c.l) && c.rl != []
    ensures LeftSettles(c, c', lt)
  {
    hide Valid, Handled;
    var g', out := CanTake(c.l, lt, c.rl[0]);
    c' := Cluster(g', c.r, c.lr + On(lt, out), c.rl[1..]);
    assert Acts(c.l, c'.l, lt, Arrival(false), c.rl, c'.rl, out) && Productive(c.l, Arrival(false));
  }

  lemma {:induction false} SettlesMoves(c: Cluster, c': Cluster, lt: nat, rt: nat)
    requires Settles(c, c', lt, rt)
    ensures Moves(c, c', lt, rt)
  {
    hide Acts, Productive;
  }

  lemma {:induction false} SettleFrom(cs: seq<Cluster>, s: StreamSystem.System, lids: Names, rids: Names, lt: nat, rt: nat)
    returns (more: seq<Cluster>)
    requires IsRun(cs, lt, rt) && Pictures(s, cs[|cs| - 1], lids, rids, lt, rt) && StreamSystem.Inv(s)
    ensures IsRun(cs + more, lt, rt) && Settling(cs + more, |cs| - 1, lt, rt)
    ensures var last := (cs + more)[|cs + more| - 1]; last.lr == [] && last.rl == []
    decreases StreamRank.Rank(s)
  {
    hide Valid, Represents, Settles, Moves, StreamSystem.Inv, StreamRank.Rank;
    var c := cs[|cs| - 1];
    if c.lr == [] && c.rl == [] {
      more := [];
      assert cs + more == cs;
    } else {
      var c';
      if c.rl != [] {
        c' := CanDeliver(c, lt);
      } else {
        var d := CanDeliver(Mirror(c), rt);
        c' := Mirror(d);
      }
      assert Settles(c, c', lt, rt) by { SettlesEither(c, c', lt, rt); }
      SettlesMoves(c, c', lt, rt);
      var s', lids', rids' := Settled(s, c, c', lids, rids, lt, rt);
      var rest := SettleFrom(cs + [c'], s', lids', rids', lt, rt);
      more := [c'] + rest;
      assert cs + more == cs + [c'] + rest;
      forall k | |cs| - 1 < k < |cs + more| ensures Settles((cs + more)[k - 1], (cs + more)[k], lt, rt) {
        if k == |cs| {
          assert (cs + more)[k - 1] == c && (cs + more)[k] == c';
        }
      }
    }
  }

  lemma {:induction false} SettlesEither(c: Cluster, c': Cluster, lt: nat, rt: nat)
    requires LeftSettles(c, c', lt) || LeftSettles(Mirror(c), Mirror(c'), rt)
    ensures Settles(c, c', lt, rt)
  {
  }

  /** From any state two layers can come to, taking the packets in flight and their answers leads to empty channels. */
  lemma {:induction false} CanSettle(cs: seq<Cluster>, lt: nat, rt: nat) returns (all: seq<Cluster>)
    requires IsRun(cs, lt, rt)
    ensures cs <= all && IsRun(all, lt, rt) && Settling(all, |cs| - 1, lt, rt)
    ensures all[|all| - 1].lr == [] && all[|all| - 1].rl == []
  {
    hide Pictures, IsRun, Settling, StreamSystem.Inv;
    var steps, lids, rids := RunRefines(cs, lt, rt);
    StreamSystem.RunInv(steps);
    var more := SettleFrom(cs, StreamSystem.Run(steps), lids, rids, lt, rt);
    all := cs + more;
  }
}
