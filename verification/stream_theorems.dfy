/** What holds in every reachable state of two online endpoints. */
module StreamTheorems {
  import opened AdbBase
  import opened StreamSocket
  import opened StreamPair
  import opened StreamCredit
  import opened StreamSystem

  /** s is the state after some run, seen from either end. */
  ghost predicate Reached(s: System) {
    exists steps :: s == Run(steps) || s == Swap(Run(steps))
  }

  lemma ReachedInv(s: System)
    requires Reached(s)
    ensures Inv(s)
  {
    var steps :| s == Run(steps) || s == Swap(Run(steps));
    RunInv(steps);
    SwapInv(Run(steps));
  }

  lemma {:induction false} InFlight(ch: seq<Packet>, src: nat, dst: nat, m: Msg)
    ensures m in Proj(ch, src, dst) <==> Stream(src, dst, m) in ch
  {
    if ch != [] {
      InFlight(ch[1..], src, dst, m);
      assert ch == [ch[0]] + ch[1..];
    }
  }

  /**
   * No half-open stream is orphaned: the far end of a connected socket is connected back to it, or
   * an OKAY or CLSE that will settle the matter is in flight.
   */
  lemma NoOrphan(s: System, i: nat)
    requires Reached(s) && i in s.l.socks && Connected(s.l.socks[i])
    ensures var j := s.l.socks[i].peer.value;
            && j in s.r.socks
            && (|| (s.r.socks[j].status.Live? && s.r.socks[j].peer == Some(i))
                || (Waiting(s.r.socks[j]) && Stream(i, j, Okay) in s.lr)
                || (Dead(s.r.socks[j]) && (Stream(i, j, Okay) in s.lr || Stream(j, i, Clse) in s.rl)))
  {
    ReachedInv(s);
    var j := s.l.socks[i].peer.value;
    assert Linked(s.l, s.r, i, j);
    InFlight(s.lr, i, j, Okay);
    InFlight(s.rl, j, i, Clse);
  }

  /** A socket that waits for its OPEN to be answered will hear back. */
  lemma OpenIsAnswered(s: System, i: nat)
    requires Reached(s) && i in s.l.socks && Waiting(s.l.socks[i])
    ensures || (exists k :: 0 <= k < |s.lr| && s.lr[k].Open? && s.lr[k].id == i)
            || Stream(0, i, Clse) in s.rl
            || (exists j :: Stream(j, i, Okay) in s.rl && j in s.r.socks)
  {
    ReachedInv(s);
    if s.l.socks[i].openedBy.Some? || Accepted(s.r, i) {
      var j := PartnerOf(s, i);
      InFlight(s.rl, j, i, Okay);
      assert Proj(s.rl, j, i)[0] == Okay;
    } else {
      NoneOpen(s.lr, i);
      NoneRefused(s.rl, i);
    }
  }

  /** With nothing in flight the two ends' peer relations are inverse, and nobody waits. */
  lemma QuietMeansInverse(s: System, i: nat)
    requires Reached(s) && s.lr == [] && s.rl == [] && i in s.l.socks && s.l.socks[i].status.Live?
    ensures var x := s.l.socks[i];
            && x.peer.Some? && x.peer.value in s.r.socks
            && s.r.socks[x.peer.value].status.Live? && s.r.socks[x.peer.value].peer == Some(i)
  {
    if Waiting(s.l.socks[i]) {
      OpenIsAnswered(s, i);
    } else {
      NoOrphan(s, i);
    }
  }

  /**
   * Credit conservation, for a stream neither end of which has closed or handed over data unasked: one
   * go-ahead per direction, so at most one WRTE in flight and at most one packet queued.
   */
  lemma CreditConserved(s: System, i: nat, j: nat)
    requires Reached(s) && Linked(s.l, s.r, i, j)
    ensures i in s.l.socks && j in s.r.socks
    ensures var x, y, xy, yx := s.l.socks[i], s.r.socks[j], Proj(s.lr, i, j), Proj(s.rl, j, i);
            !Dead(x) && !Dead(y) && x.calm && y.calm ==>
              && One(x.reading) + Wrtes(xy) + One(y.queue != []) + Okays(yx) == 1
              && Wrtes(xy) <= 1 && |y.queue| <= 1
  {
    ReachedInv(s);
  }

  lemma {:induction false} RunLast(steps: seq<Step>, n: nat)
    requires n < |steps|
    ensures Run(steps[..n + 1]) == Next(Run(steps[..n]), steps[n])
  {
    assert steps[..n + 1][..n] == steps[..n];
  }

  /** Two connected sockets with id 1, and what is in flight from left to right. */
  function Joined(x: Sock, lr: seq<Packet>): System {
    System(Endpoint(2, map[1 := x]), Endpoint(2, map[1 := Fresh(Some(1), Some(1))]), lr, [])
  }

  lemma JoinedUp(w: Writes)
    ensures Run([Left(Connect([])), Right(Deliver(true, w)), Left(Deliver(true, w))])
         == Joined(Fresh(None, None).(peer := Some(1), reading := true), [])
  {
    var steps := [Left(Connect([])), Right(Deliver(true, w)), Left(Deliver(true, w))];
    RunLast(steps, 0);
    RunLast(steps, 1);
    RunLast(steps, 2);
    assert steps[..3] == steps && steps[..0] == [];
    hide Run;
    var (x, y) := (Fresh(None, None), Fresh(Some(1), Some(1)));
    var s1 := System(Endpoint(2, map[1 := x]), EMPTY, [Open(1, [])], []);
    assert Next(START, steps[0]) == s1;
    var s2 := System(Endpoint(2, map[1 := x]), Endpoint(2, map[1 := y]), [], [Stream(1, 1, Okay)]);
    assert Next(s1, steps[1]) == s2;
    assert map[1 := x][1 := x.(peer := Some(1), reading := true)] == map[1 := x.(peer := Some(1), reading := true)];
  }

  /** One byte is read, whether or not reading was asked for. */
  function ByteEvent(): Act { FdEvent(1, Event(false, true), Writes(0, false), Reads([1], false), MAX_PAYLOAD) }

  function AfterByte(x: Sock): Sock { x.(calm := x.calm && x.reading, got := x.got + [1], reading := false) }

  lemma {:induction false} ByteGoesOut(x: Sock, lr: seq<Packet>)
    requires x.status.Live? && x.peer == Some(1)
    ensures Next(Joined(x, lr), Left(ByteEvent())) == Joined(AfterByte(x), lr + [Stream(1, 1, Wrte([1]))])
  {
    var r := Reads([1], false);
    assert r.data[..1] == r.data;
    assert [] + [Wrte(r.data)] == [Wrte(r.data)];
    assert OnEvent(x, Event(false, true), Writes(0, false), r, MAX_PAYLOAD) == (AfterByte(x), [Wrte([1])]);
    assert Wrap(1, 1, [Wrte([1])]) == [Stream(1, 1, Wrte([1]))] + Wrap(1, 1, [Wrte([1])][1..]);
    assert map[1 := x][1 := AfterByte(x)] == map[1 := AfterByte(x)];
    hide OnEvent, Wrap;
  }

  lemma {:induction false} ProjStep(p: Msg, ch: seq<Packet>)
    ensures Proj([Stream(1, 1, p)] + ch, 1, 1) == [p] + Proj(ch, 1, 1)
    ensures Wrtes([p] + Proj(ch, 1, 1)) == (if p.Wrte? then 1 else 0) + Wrtes(Proj(ch, 1, 1))
  {
    assert ([Stream(1, 1, p)] + ch)[1..] == ch;
    assert ([p] + Proj(ch, 1, 1))[1..] == Proj(ch, 1, 1);
  }

  function HangUpRun(): seq<Step> {
    var w := Writes(0, false);
    [Left(Connect([])), Right(Deliver(true, w)), Left(Deliver(true, w)), Left(ByteEvent()), Left(ByteEvent())]
  }

  lemma TwoBytesOut()
    ensures var (x, m) := (Fresh(None, None).(peer := Some(1), reading := true), Stream(1, 1, Wrte([1])));
            Run(HangUpRun()) == Joined(AfterByte(AfterByte(x)), [m, m])
  {
    var w := Writes(0, false);
    var steps := HangUpRun();
    RunLast(steps, 3);
    RunLast(steps, 4);
    assert steps[..3] == [Left(Connect([])), Right(Deliver(true, w)), Left(Deliver(true, w))] && steps[..5] == steps;
    hide Run, Next, Joined, AfterByte, ByteEvent;
    JoinedUp(w);
    var x := Fresh(None, None).(peer := Some(1), reading := true);
    var m := Stream(1, 1, Wrte([1]));
    AfterByteOpen(x);
    ByteGoesOut(x, []);
    ByteGoesOut(AfterByte(x), [m]);
    assert [] + [m] == [m] && [m] + [m] == [m, m];
  }

  lemma AfterByteOpen(x: Sock)
    ensures AfterByte(x).status == x.status && AfterByte(x).peer == x.peer
    ensures !AfterByte(AfterByte(x)).calm
  {
  }

  /** The smallest failure of credit: the read event faked for a hang-up lets a second WRTE out unanswered. */
  lemma HangUpBreaksCredit()
    ensures var s := Run(HangUpRun());
            && 1 in s.l.socks && 1 in s.r.socks && Linked(s.l, s.r, 1, 1)
            && !Dead(s.l.socks[1]) && !Dead(s.r.socks[1]) && !s.l.socks[1].calm
            && Wrtes(Proj(s.lr, 1, 1)) == 2
  {
    hide Run, Next, AfterByte, Proj, Wrtes;
    TwoBytesOut();
    var x := Fresh(None, None).(peer := Some(1), reading := true);
    AfterByteOpen(x);
    AfterByteOpen(AfterByte(x));
    var m := Stream(1, 1, Wrte([1]));
    TwoInFlight();
    assert Run(HangUpRun()).r.socks[1].openedBy == Some(1);
  }

  lemma TwoInFlight()
    ensures var m := Stream(1, 1, Wrte([1])); Wrtes(Proj([m, m], 1, 1)) == 2
  {
    var m := Stream(1, 1, Wrte([1]));
    ProjStep(Wrte([1]), [m]);
    ProjStep(Wrte([1]), []);
    assert [m] + [m] == [m, m] && [m] + [] == [m];
  }

  /**
   * End-to-end integrity. The bytes one end's fd has taken are always a prefix of those the other
   * end's fd has given. While the receiver is live the difference is its backlog and the WRTEs in
   * flight; if it closed only because the far side did, it is freed with every byte written.
   */
  lemma BytesArriveIntact(s: System, i: nat, j: nat)
    requires Reached(s) && Linked(s.l, s.r, i, j)
    ensures i in s.l.socks && j in s.r.socks
    ensures var x, y, xy := s.l.socks[i], s.r.socks[j], Proj(s.lr, i, j);
            && y.put <= x.got
            && (!Dead(y) ==> y.put + Flat(y.queue) + Payload(xy) == x.got)
            && (Dead(y) && !y.cut ==> Dead(x) && y.put + Flat(y.queue) == x.got)
            && (y.status.Freed? && !y.cut ==> y.put == x.got)
  {
    ReachedInv(s);
  }

  /** A socket that is on its closing list has no peer, a backlog and FDE_WRITE on. */
  lemma ClosingListShape(s: System, i: nat)
    requires Reached(s) && i in s.l.socks && s.l.socks[i].status.Closing?
    ensures s.l.socks[i].peer == None && s.l.socks[i].queue != [] && s.l.socks[i].writing
  {
    ReachedInv(s);
  }

  /** How a socket may change over a step. */
  ghost predicate Later(x: Sock, x': Sock) {
    && x.put <= x'.put && x.got <= x'.got && x.spilt <= x'.spilt && x'.openedBy == x.openedBy
    && (Dead(x) ==> Dead(x') && x'.got == x.got && (x.peer == None ==> x'.peer == None))
    && (x.status.Freed? ==> x' == x)
    && (x.peer.Some? ==> x'.peer == x.peer || (Dead(x') && x'.peer == None))
  }

  lemma DrainLater(x: Sock, w: Writes)
    requires SockInv(x) && x.writing && !x.status.Freed?
    ensures x.put <= Drain(x, w).0.put && Drain(x, w).0.spilt == x.spilt && Drain(x, w).0.openedBy == x.openedBy
  {
  }

  lemma ReadLater(x: Sock, r: Reads, maxPayload: nat)
    ensures var x' := Read(x, r, maxPayload).0; x'.put == x.put && x.spilt <= x'.spilt && x'.openedBy == x.openedBy
  {
  }

  lemma HandleLater(x: Sock, ev: Event, w: Writes, r: Reads, maxPayload: nat)
    requires SockInv(x) && Enabled(x, ev)
    ensures var x' := OnEvent(x, ev, w, r, maxPayload).0; x.put <= x'.put && x.spilt <= x'.spilt && x'.openedBy == x.openedBy
  {
    hide Drain, Read, SockInv;
    if ev.write {
      DrainLater(x, w);
    }
    ReadLater(if ev.write then Drain(x, w).0 else x, r, maxPayload);
  }

  lemma EventLater(x: Sock, ev: Event, w: Writes, r: Reads, maxPayload: nat)
    requires SockInv(x) && Enabled(x, ev)
    ensures Later(x, OnEvent(x, ev, w, r, maxPayload).0)
  {
    hide OnEvent, Payload, Flat;
    EventMoves(x, ev, w, r, maxPayload);
    HandleLater(x, ev, w, r, maxPayload);
    NoBytes();
  }

  lemma NoBytes()
    ensures Payload([]) == [] && forall b: Bytes :: b + [] == b
  {
  }

  lemma MsgLater(x: Sock, from: nat, m: Msg, w: Writes)
    requires SockInv(x)
    ensures Later(x, OnMsg(x, from, m, w).0)
  {
  }

  lemma StepLater(s: System, a: Act, i: nat)
    requires i in s.l.socks && i != s.l.nextId && SockInv(s.l.socks[i])
    ensures var t := LeftStep(s, a);
            && i in t.l.socks && Later(s.l.socks[i], t.l.socks[i]) && t.r == s.r
  {
    var x := s.l.socks[i];
    match a
    case Connect(_) =>
    case FdEvent(id, ev, w, r, maxPayload) =>
      if id == i && Enabled(x, ev) {
        EventLater(x, ev, w, r, maxPayload);
      }
    case Deliver(accept, w) =>
      if s.rl != [] && s.rl[0].Stream? {
        MsgLater(x, s.rl[0].src, s.rl[0].msg, w);
      }
  }

  ghost predicate Known(e: Endpoint, i: nat) {
    i in e.socks ==> i != e.nextId && SockInv(e.socks[i])
  }

  lemma {:induction false} AllKnown(steps: seq<Step>, i: nat)
    ensures Known(Run(steps).l, i) && Known(Run(steps).r, i)
  {
    RunInv(steps);
  }

  ghost predicate Keeps(e: Endpoint, e': Endpoint, i: nat) {
    i in e.socks ==> i in e'.socks && Later(e.socks[i], e'.socks[i])
  }

  lemma KeepsTwice(e: Endpoint, e': Endpoint, e'': Endpoint, i: nat)
    requires Keeps(e, e', i) && Keeps(e', e'', i)
    ensures Keeps(e, e'', i)
  {
  }

  lemma NextKeeps(s: System, step: Step, i: nat)
    requires Known(s.l, i) && Known(s.r, i)
    ensures Keeps(s.l, Next(s, step).l, i) && Keeps(s.r, Next(s, step).r, i)
  {
    match step
    case Left(a) =>
      assert LeftStep(s, a).r == s.r;
      if i in s.l.socks { StepLater(s, a, i); }
    case Right(a) =>
      assert LeftStep(Swap(s), a).r == s.l;
      if i in s.r.socks { StepLater(Swap(s), a, i); }
  }

  /**
   * Over any stretch of any run: no socket is forgotten or revived, none changes its far end, the dead
   * read nothing more, the freed do not change at all, and the byte histories only grow.
   */
  lemma {:induction false} HistoriesGrow(steps: seq<Step>, n: nat, i: nat)
    requires n <= |steps|
    ensures Keeps(Run(steps[..n]).l, Run(steps).l, i) && Keeps(Run(steps[..n]).r, Run(steps).r, i)
    decreases |steps|
  {
    if n == |steps| {
      assert steps[..n] == steps;
    } else {
      var before := steps[..|steps| - 1];
      assert before[..n] == steps[..n];
      HistoriesGrow(before, n, i);
      AllKnown(before, i);
      NextKeeps(Run(before), steps[|steps| - 1], i);
      KeepsTwice(Run(steps[..n]).l, Run(before).l, Run(steps).l, i);
      KeepsTwice(Run(steps[..n]).r, Run(before).r, Run(steps).r, i);
    }
  }
}
