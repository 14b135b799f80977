/** With no new fd input and no new streams, the packets answering packets run out. */
module StreamRank {
  import opened AdbBase
  import opened StreamSocket
  import opened StreamPair
  import opened StreamSystem
  import opened StreamTheorems

  function MsgWeight(m: Msg): nat {
    match m
    case Okay => 2
    case Clse => 1
    case Wrte(d) => 4 + |d|
  }

  function PacketWeight(p: Packet): nat {
    if p.Open? then 6 else MsgWeight(p.msg)
  }

  function ChannelWeight(ch: seq<Packet>): nat {
    if ch == [] then 0 else PacketWeight(ch[0]) + ChannelWeight(ch[1..])
  }

  function MsgsWeight(ms: seq<Msg>): nat {
    if ms == [] then 0 else MsgWeight(ms[0]) + MsgsWeight(ms[1..])
  }

  function Backlog(queue: seq<Bytes>): nat {
    if queue == [] then 0 else 3 + |queue[0]| + Backlog(queue[1..])
  }

  function SockWeight(x: Sock): nat {
    match x.status
    case Live => 3 + Backlog(x.queue)
    case Closing => 1 + Backlog(x.queue)
    case Freed => 0
  }

  function SocksWeight(e: Endpoint, n: nat): nat {
    if n == 0 then 0 else SocksWeight(e, n - 1) + if n - 1 in e.socks then SockWeight(e.socks[n - 1]) else 0
  }

  /** Packets in flight, backlogs and live sockets. */
  function Rank(s: System): nat {
    SocksWeight(s.l, s.l.nextId) + SocksWeight(s.r, s.r.nextId) + ChannelWeight(s.lr) + ChannelWeight(s.rl)
  }

  lemma {:induction false} ChannelWeightAppend(a: seq<Packet>, b: seq<Packet>)
    ensures ChannelWeight(a + b) == ChannelWeight(a) + ChannelWeight(b)
  {
    if a == [] {
      assert a + b == b;
    } else {
      assert (a + b)[1..] == a[1..] + b;
      ChannelWeightAppend(a[1..], b);
    }
  }

  lemma {:induction false} WrapWeight(src: nat, dst: nat, ms: seq<Msg>)
    ensures ChannelWeight(Wrap(src, dst, ms)) == MsgsWeight(ms)
  {
    if ms != [] {
      WrapWeight(src, dst, ms[1..]);
    }
  }

  lemma {:induction false} BacklogAppend(queue: seq<Bytes>, d: Bytes)
    ensures Backlog(queue + [d]) == Backlog(queue) + 3 + |d|
  {
    if queue == [] {
      assert queue + [d] == [d] && [d][1..] == [];
    } else {
      assert (queue + [d])[1..] == queue[1..] + [d];
      BacklogAppend(queue[1..], d);
    }
  }

  lemma {:induction false} BacklogDrops(queue: seq<Bytes>, n: nat)
    requires n <= |Flat(queue)|
    ensures Backlog(DropBytes(queue, n)) + n <= Backlog(queue)
  {
    if queue != [] {
      if n >= |queue[0]| {
        BacklogDrops(queue[1..], n - |queue[0]|);
      } else {
        assert ([queue[0][n..]] + queue[1..])[1..] == queue[1..];
      }
    }
  }

  lemma {:induction false} SocksWeightUpdate(e: Endpoint, e': Endpoint, i: nat, x': Sock, n: nat)
    requires i in e.socks && e'.socks == e.socks[i := x']
    ensures SocksWeight(e', n) == if i < n then SocksWeight(e, n) - SockWeight(e.socks[i]) + SockWeight(x') else SocksWeight(e, n)
    ensures i < n ==> SocksWeight(e, n) >= SockWeight(e.socks[i])
  {
    if n > 0 {
      SocksWeightUpdate(e, e', i, x', n - 1);
    }
  }

  lemma {:induction false} SocksWeightInstall(e: Endpoint, x: Sock, n: nat)
    requires n <= e.nextId
    ensures SocksWeight(Install(e, x), n) == SocksWeight(e, n)
  {
    if n > 0 {
      SocksWeightInstall(e, x, n - 1);
    }
  }

  /** Each packet outweighs all it can bring about. */
  lemma MsgDrops(x: Sock, from: nat, m: Msg, w: Writes)
    requires SockInv(x)
    ensures var (x', more) := OnMsg(x, from, m, w);
            SockWeight(x') + MsgsWeight(more) < SockWeight(x) + MsgWeight(m)
  {
    var (x', more) := OnMsg(x, from, m, w);
    assert MsgsWeight([Clse]) == 1 + MsgsWeight([]);
    assert MsgsWeight([Okay]) == 2 + MsgsWeight([]);
    if m.Wrte? && x.queue != [] {
      BacklogAppend(x.queue, m.data);
    }
    if m.Wrte? {
      var n := Min(w.n, |m.data|);
      assert [m.data[n..]][1..] == [];
      assert Backlog([m.data[n..]]) == 3 + |m.data| - n;
    }
  }

  /** The fd took something, or failed. */
  predicate Progress(x: Sock, w: Writes) {
    w.n > 0 || w.failed || |Flat(x.queue)| == 0
  }

  lemma DrainDrops(x: Sock, w: Writes)
    requires SockInv(x) && x.writing && Progress(x, w)
    ensures var (x', more, _) := Drain(x, w);
            SockWeight(x') + MsgsWeight(more) < SockWeight(x)
  {
    var n := Min(w.n, |Flat(x.queue)|);
    BacklogDrops(x.queue, n);
    assert MsgsWeight([Clse]) == 1 + MsgsWeight([]);
    assert MsgsWeight([Okay]) == 2 + MsgsWeight([]);
    assert Backlog(x.queue) >= 3;
  }

  /** A delivery, or a productive drain: nothing else happens in a cascade. */
  predicate Cascade(s: System, a: Act) {
    match a
    case Connect(_) => false
    case FdEvent(id, ev, w, _, _) =>
      id in s.l.socks && ev.write && !ev.read && Enabled(s.l.socks[id], ev) && Progress(s.l.socks[id], w)
    case Deliver(accept, _) => s.rl != [] && (s.rl[0].Open? && accept ==> CanInstall(s.l))
  }

  predicate CascadeStep(s: System, step: Step) {
    match step
    case Left(a) => Cascade(s, a)
    case Right(a) => Cascade(Swap(s), a)
  }

  lemma {:induction false} UpdateDrops(s: System, t: System, i: nat, x': Sock, out: seq<Packet>)
    requires i in s.l.socks && i < s.l.nextId
    requires t.l == Endpoint(s.l.nextId, s.l.socks[i := x']) && t.r == s.r && t.lr == s.lr + out
    requires t.rl == s.rl || (s.rl != [] && t.rl == s.rl[1..])
    requires SockWeight(x') + ChannelWeight(out) < SockWeight(s.l.socks[i]) + ChannelWeight(s.rl) - ChannelWeight(t.rl)
    ensures Rank(t) < Rank(s)
  {
    SocksWeightUpdate(s.l, t.l, i, x', s.l.nextId);
    ChannelWeightAppend(s.lr, out);
  }

  lemma EventRank(s: System, id: nat, ev: Event, w: Writes, r: Reads, maxPayload: nat)
    requires Known(s.l, id) && Cascade(s, FdEvent(id, ev, w, r, maxPayload)) && id < s.l.nextId
    ensures Rank(LeftStep(s, FdEvent(id, ev, w, r, maxPayload))) < Rank(s)
  {
    var x := s.l.socks[id];
    var (x', more) := OnEvent(x, ev, w, r, maxPayload);
    DrainDrops(x, w);
    var dst := if x.peer.Some? then x.peer.value else 0;
    WrapWeight(id, dst, more);
    UpdateDrops(s, LeftStep(s, FdEvent(id, ev, w, r, maxPayload)), id, x', Wrap(id, dst, more));
  }

  lemma StreamRankDrops(s: System, accept: bool, w: Writes)
    requires s.rl != [] && s.rl[0].Stream? && s.rl[0].dst in s.l.socks
    requires Known(s.l, s.rl[0].dst) && s.rl[0].dst < s.l.nextId
    ensures Rank(LeftStep(s, Deliver(accept, w))) < Rank(s)
  {
    var t := LeftStep(s, Deliver(accept, w));
    var src, i, m := s.rl[0].src, s.rl[0].dst, s.rl[0].msg;
    if i == 0 || (src == 0 && !m.Clse?) {
      assert t == s.(lr := s.lr + [], rl := s.rl[1..]) && s.lr + [] == s.lr;
    } else {
      var x := s.l.socks[i];
      var (x', more) := OnMsg(x, src, m, w);
      MsgDrops(x, src, m, w);
      var dst := if x.peer.Some? then x.peer.value else src;
      WrapWeight(i, dst, more);
      UpdateDrops(s, t, i, x', Wrap(i, dst, more));
    }
  }

  lemma OpenRankDrops(s: System, accept: bool, w: Writes)
    requires s.rl != [] && s.rl[0].Open? && (accept ==> CanInstall(s.l))
    ensures Rank(LeftStep(s, Deliver(accept, w))) < Rank(s)
  {
    var t := LeftStep(s, Deliver(accept, w));
    var (e, out) := HandlePacket(s.l, s.rl[0], accept, w);
    ChannelWeightAppend(s.lr, out);
    assert out != [] ==> out[1..] == [];
    var q := s.rl[0].id;
    if q != 0 && accept {
      SocksWeightInstall(s.l, Fresh(Some(q), Some(q)), s.l.nextId);
      assert SocksWeight(e, e.nextId) == SocksWeight(e, s.l.nextId) + SockWeight(e.socks[s.l.nextId]) <= SocksWeight(s.l, s.l.nextId) + 3;
    }
  }

  lemma LeftRank(s: System, a: Act)
    requires Inv(s) && Cascade(s, a)
    ensures Rank(LeftStep(s, a)) < Rank(s)
  {
    match a
    case Connect(_) =>
    case FdEvent(id, ev, w, r, maxPayload) => EventRank(s, id, ev, w, r, maxPayload);
    case Deliver(accept, w) =>
      if s.rl[0].Open? {
        OpenRankDrops(s, accept, w);
      } else {
        assert PacketOk(s.r, s.l, s.rl[0]);
        assert s.rl[0].dst in s.l.socks by {
          if s.rl[0].src != 0 { assert Linked(s.l, s.r, s.rl[0].dst, s.rl[0].src); }
        }
        StreamRankDrops(s, accept, w);
      }
  }

  /** Every delivery and every productive drain brings the system down by at least one. */
  lemma RankDrops(s: System, step: Step)
    requires Inv(s) && CascadeStep(s, step)
    ensures Rank(Next(s, step)) < Rank(s)
  {
    match step
    case Left(a) => LeftRank(s, a);
    case Right(a) =>
      SwapInv(s);
      LeftRank(Swap(s), a);
  }

  /** Nothing but deliveries and productive drains happens after the first n steps. */
  predicate Settling(steps: seq<Step>, n: nat) {
    forall k :: n <= k < |steps| ==> CascadeStep(Run(steps[..k]), steps[k])
  }

  /** A cascade is never longer than the rank it starts from. */
  lemma {:induction false} CascadeEnds(steps: seq<Step>, n: nat)
    requires n <= |steps| && Settling(steps, n)
    ensures |steps| - n + Rank(Run(steps)) <= Rank(Run(steps[..n]))
    decreases |steps|
  {
    hide Next, Rank, CascadeStep, Inv;
    if n == |steps| {
      assert steps[..n] == steps;
    } else {
      var before := steps[..|steps| - 1];
      assert before[..n] == steps[..n];
      assert Settling(before, n) by {
        forall k | n <= k < |before| ensures CascadeStep(Run(before[..k]), before[k]) {
          assert before[..k] == steps[..k];
        }
      }
      CascadeEnds(before, n);
      RunInv(before);
      assert CascadeStep(Run(steps[..|before|]), steps[|before|]);
      RankDrops(Run(before), steps[|before|]);
    }
  }

  /** From any reachable state, deliveries alone lead to a state with nothing in flight. */
  lemma {:induction false} CanSettle(steps: seq<Step>) returns (all: seq<Step>)
    ensures steps <= all && Settling(all, |steps|)
    ensures Run(all).lr == [] && Run(all).rl == []
    decreases Rank(Run(steps))
  {
    var s := Run(steps);
    if s.lr == [] && s.rl == [] {
      all := steps;
    } else {
      var a := Deliver(false, Writes(0, false));
      var step := if s.rl != [] then Left(a) else Right(a);
      var longer := steps + [step];
      assert longer[..|steps|] == steps;
      RunInv(steps);
      RankDrops(s, step);
      all := CanSettle(longer);
      forall k | |steps| <= k < |all| ensures CascadeStep(Run(all[..k]), all[k]) {
        if k == |steps| {
          assert all[..k] == steps && all[k] == step;
        }
      }
    }
  }
}
