/**
 * How many CLSEs an end sends for one stream: one if it closes with a peer, and one for each OKAY that
 * comes after it has closed; never more than two if it was never made to read unasked.
 */
module StreamClosing {
  import opened AdbBase
  import opened StreamSocket
  import opened StreamPair
  import opened StreamCredit
  import opened StreamSystem
  import opened StreamTheorems
  import opened StreamFlow

  // ----- one step of one socket -----

  function Clses(ms: seq<Msg>): nat {
    if ms == [] then 0 else One(ms[0].Clse?) + Clses(ms[1..])
  }

  lemma {:induction false} ClsesAppend(a: seq<Msg>, b: seq<Msg>)
    ensures Clses(a + b) == Clses(a) + Clses(b)
  {
    if a == [] {
      assert a + b == b;
    } else {
      assert (a + b)[1..] == a[1..] + b;
      ClsesAppend(a[1..], b);
    }
  }

  lemma {:induction false} OneMsg(m: Msg)
    ensures Clses([m]) == One(m.Clse?) && Wrtes([m]) == One(m.Wrte?) && Okays([m]) == One(m.Okay?)
    ensures Clses([]) == 0 && Wrtes([]) == 0 && Okays([]) == 0
  {
    assert [m][1..] == [];
  }

  lemma DrainCounts(x: Sock, w: Writes)
    requires SockInv(x) && x.writing
    ensures var (x', more, goOn) := Drain(x, w);
            && Clses(more) == One(x.peer.Some? && Dead(x')) && Wrtes(more) == 0
            && Okays(more) + One(!Dead(x') && x'.queue != []) <= One(!Dead(x) && x.queue != [])
            && x'.calm == x.calm && One(x'.reading) <= One(x.reading)
            && (goOn ==> x'.peer == x.peer && x'.reading == x.reading && !Dead(x') && x.peer.Some? && SockInv(x'))
  {
    OneMsg(Okay);
    OneMsg(Clse);
    DropBytesFlat(x.queue, Min(w.n, |Flat(x.queue)|));
  }

  lemma ReadCounts(x: Sock, r: Reads, maxPayload: nat)
    requires SockInv(x) && !x.status.Freed?
    ensures var (x', more) := Read(x, r, maxPayload);
            var unasked := !x.reading && x.peer.Some? && r.data != [] && maxPayload > 0;
            && Clses(more) == One(x.peer.Some? && Dead(x')) && Okays(more) == 0
            && One(x'.reading) + Wrtes(more) <= One(x.reading) + One(unasked)
            && x'.queue == x.queue && (Dead(x) ==> Dead(x'))
  {
    var d := r.data[..Min(|r.data|, maxPayload)];
    OneMsg(Wrte(d));
    OneMsg(Clse);
    ClsesAppend([Wrte(d)], [Clse]);
    ClsesAppend([], [Clse]);
    PayloadAppend([Wrte(d)], [Clse]);
    PayloadAppend([], [Clse]);
  }

  /** What an fd event does to the counts, whether or not the socket survives it. */
  lemma EventCounts(x: Sock, ev: Event, w: Writes, r: Reads, maxPayload: nat)
    requires SockInv(x) && Enabled(x, ev)
    ensures var (x', more) := OnEvent(x, ev, w, r, maxPayload);
            && Clses(more) == One(x.peer.Some? && Dead(x'))
            && One(x'.reading) + Wrtes(more) <= One(x.reading) + One(Unasked(x, ev, w, r, maxPayload))
            && Okays(more) + One(!Dead(x') && x'.queue != []) <= One(!Dead(x) && x.queue != [])
  {
    hide SockInv, Drain, Read;
    var (x1, m1, goOn) := if ev.write then Drain(x, w) else (x, [], true);
    OneMsg(Clse);
    DeadHasNoPeer(x);
    if ev.write {
      DrainCounts(x, w);
    }
    if goOn && ev.read {
      ReadCounts(x1, r, maxPayload);
      var m2 := Read(x1, r, maxPayload).1;
      ClsesAppend(m1, m2);
      PayloadAppend(m1, m2);
    }
  }

  lemma DeadHasNoPeer(x: Sock)
    requires SockInv(x)
    ensures Dead(x) ==> x.peer == None && !x.reading
  {
  }

  /** What a packet does to the counts. */
  lemma MsgCounts(x: Sock, from: nat, m: Msg, w: Writes)
    requires SockInv(x)
    ensures var (x', more) := OnMsg(x, from, m, w);
            && Clses(more) == One(x.peer.Some? && Dead(x')) + One(m.Okay? && Dead(x))
            && Wrtes(more) == 0
            && One(x'.reading) <= One(x.reading) + One(m.Okay? && !Dead(x))
            && Okays(more) + One(!Dead(x') && x'.queue != []) <= One(!Dead(x) && x.queue != []) + One(m.Wrte?)
  {
    OneMsg(Okay);
    OneMsg(Clse);
  }

  // ----- one step of the system -----

  /** CLSEs for stream socket i among packets on their way. */
  function ClsesBy(ps: seq<Packet>, i: nat): nat {
    if ps == [] then 0 else One(ps[0].Stream? && ps[0].src == i && ps[0].msg.Clse?) + ClsesBy(ps[1..], i)
  }

  lemma {:induction false} ClsesByWrap(src: nat, dst: nat, ms: seq<Msg>, i: nat)
    ensures ClsesBy(Wrap(src, dst, ms), i) == if src == i then Clses(ms) else 0
  {
    if ms != [] {
      assert Wrap(src, dst, ms)[1..] == Wrap(src, dst, ms[1..]);
      ClsesByWrap(src, dst, ms[1..], i);
    }
  }

  /** What the left endpoint sends by an action. */
  function Sent(s: System, a: Act): seq<Packet> {
    var lr := LeftStep(s, a).lr;
    if |s.lr| <= |lr| then lr[|s.lr|..] else []
  }

  /** Socket i closes and had a peer to tell. */
  predicate LeftParts(s: System, a: Act, i: nat) {
    var t := LeftStep(s, a);
    i in s.l.socks && i in t.l.socks && s.l.socks[i].peer.Some? && Dead(t.l.socks[i])
  }

  /** An OKAY comes to socket i, which has closed. */
  predicate LeftLate(s: System, a: Act, i: nat) {
    a.Deliver? && s.rl != [] && s.rl[0].Stream? && s.rl[0].dst == i && s.rl[0].msg.Okay?
    && i in s.l.socks && Dead(s.l.socks[i])
  }

  /** The step replaces socket k by x'. */
  ghost predicate Replaces(s: System, t: System, k: nat, x': Sock, out: seq<Packet>) {
    k in s.l.socks && t.l.socks == s.l.socks[k := x'] && t.lr == s.lr + out
  }

  lemma {:induction false} PartsAre(s: System, a: Act, k: nat, x': Sock, out: seq<Packet>, i: nat)
    requires Replaces(s, LeftStep(s, a), k, x', out) && (i in s.l.socks ==> SockInv(s.l.socks[i]))
    ensures Sent(s, a) == out
    ensures LeftParts(s, a, i) <==> i == k && s.l.socks[k].peer.Some? && Dead(x')
  {
    hide LeftStep, SockInv;
    if i in s.l.socks {
      DeadHasNoPeer(s.l.socks[i]);
    }
  }

  lemma {:induction false} EventReplaces(s: System, id: nat, ev: Event, w: Writes, r: Reads, maxPayload: nat)
    requires id in s.l.socks && Enabled(s.l.socks[id], ev)
    ensures var x := s.l.socks[id];
            var (x', more) := OnEvent(x, ev, w, r, maxPayload);
            Replaces(s, LeftStep(s, FdEvent(id, ev, w, r, maxPayload)), id, x', Wrap(id, if x.peer.Some? then x.peer.value else 0, more))
  {
    hide OnEvent, Wrap;
  }

  lemma {:induction false} EventSends(s: System, id: nat, ev: Event, w: Writes, r: Reads, maxPayload: nat, i: nat)
    requires Known(s.l, id) && Known(s.l, i) && id in s.l.socks && Enabled(s.l.socks[id], ev)
    ensures var a := FdEvent(id, ev, w, r, maxPayload);
            ClsesBy(Sent(s, a), i) == One(LeftParts(s, a, i)) + One(LeftLate(s, a, i))
  {
    hide OnEvent, SockInv, LeftStep, Sent, LeftParts, Wrap, Enabled;
    var a, x := FdEvent(id, ev, w, r, maxPayload), s.l.socks[id];
    var p := if x.peer.Some? then x.peer.value else 0;
    var (x', more) := OnEvent(x, ev, w, r, maxPayload);
    EventCounts(x, ev, w, r, maxPayload);
    ClsesByWrap(id, p, more, i);
    EventReplaces(s, id, ev, w, r, maxPayload);
    PartsAre(s, a, id, x', Wrap(id, p, more), i);
  }

  lemma {:induction false} ArrivalReplaces(s: System, accept: bool, w: Writes)
    requires Inv(s) && s.rl != [] && s.rl[0].Stream?
    ensures var p := s.rl[0];
            && p.dst in s.l.socks
            && var x := s.l.socks[p.dst];
               var (x', more) := OnMsg(x, p.src, p.msg, w);
               Replaces(s, LeftStep(s, Deliver(accept, w)), p.dst, x', Wrap(p.dst, if x.peer.Some? then x.peer.value else p.src, more))
  {
    ArrivalKnown(s);
    hide OnMsg, Wrap, Inv;
  }

  lemma {:induction false} ArrivalSends(s: System, accept: bool, w: Writes, i: nat)
    requires Inv(s) && s.rl != [] && s.rl[0].Stream? && Known(s.l, i) && Known(s.l, s.rl[0].dst)
    ensures var a := Deliver(accept, w);
            ClsesBy(Sent(s, a), i) == One(LeftParts(s, a, i)) + One(LeftLate(s, a, i))
  {
    hide OnMsg, SockInv, LeftStep, Sent, LeftParts, Wrap, Inv;
    var a, p := Deliver(accept, w), s.rl[0];
    ArrivalReplaces(s, accept, w);
    var x := s.l.socks[p.dst];
    var (x', more) := OnMsg(x, p.src, p.msg, w);
    var far := if x.peer.Some? then x.peer.value else p.src;
    MsgCounts(x, p.src, p.msg, w);
    ClsesByWrap(p.dst, far, more, i);
    PartsAre(s, a, p.dst, x', Wrap(p.dst, far, more), i);
  }

  /** A packet names a socket that is there, or was. */
  lemma ArrivalKnown(s: System)
    requires Inv(s) && s.rl != [] && s.rl[0].Stream?
    ensures s.rl[0].dst in s.l.socks && s.rl[0].dst != 0 && (s.rl[0].src == 0 ==> s.rl[0].msg.Clse?)
  {
    assert PacketOk(s.r, s.l, s.rl[0]);
    assert s.rl[0].src != 0 ==> Linked(s.l, s.r, s.rl[0].dst, s.rl[0].src);
  }

  /** What an action sends for socket i: a CLSE if the socket closes with a peer, and one for a late OKAY. */
  lemma {:induction false} LeftSends(s: System, a: Act, i: nat)
    requires Inv(s) && i != 0
    ensures ClsesBy(Sent(s, a), i) == One(LeftParts(s, a, i)) + One(LeftLate(s, a, i))
  {
    hide Inv, Known, Enabled;
    AllInvKnown(s, i);
    var enabled := match a
      case Connect(_) => CanInstall(s.l)
      case FdEvent(id, ev, _, _, _) => id in s.l.socks && Enabled(s.l.socks[id], ev)
      case Deliver(accept, _) => s.rl != [] && (s.rl[0].Open? && accept ==> CanInstall(s.l));
    if a.FdEvent? && enabled {
      AllInvKnown(s, a.id);
      EventSends(s, a.id, a.ev, a.w, a.r, a.maxPayload, i);
    } else if a.Deliver? && enabled && s.rl[0].Stream? {
      AllInvKnown(s, s.rl[0].dst);
      ArrivalSends(s, a.accept, a.dw, i);
    } else {
      OthersSend(s, a, i);
    }
  }

  lemma AllInvKnown(s: System, i: nat)
    requires Inv(s)
    ensures Known(s.l, i)
  {
  }

  lemma {:induction false} OthersSend(s: System, a: Act, i: nat)
    requires i != 0 && Known(s.l, i)
    requires match a
             case Connect(_) => true
             case FdEvent(id, ev, _, _, _) => !(id in s.l.socks && Enabled(s.l.socks[id], ev))
             case Deliver(accept, _) => s.rl == [] || s.rl[0].Open?
    ensures ClsesBy(Sent(s, a), i) == 0 && !LeftParts(s, a, i) && !LeftLate(s, a, i)
  {
    hide SockInv, Enabled, ClsesBy;
    var n := s.l.nextId;
    assert s.lr + [] == s.lr;
    NoneSent(i);
    if i in s.l.socks {
      DeadHasNoPeer(s.l.socks[i]);
    }
    match a
    case Connect(name) => OneSent(Open(n, name), i);
    case FdEvent(_, _, _, _, _) =>
    case Deliver(_, _) =>
      if s.rl != [] {
        OneSent(Stream(n, s.rl[0].id, Okay), i);
        OneSent(Stream(0, s.rl[0].id, Clse), i);
      }
  }

  lemma NoneSent(i: nat)
    ensures ClsesBy([], i) == 0
  {
  }

  lemma {:induction false} OneSent(p: Packet, i: nat)
    ensures ClsesBy([p], i) == One(p.Stream? && p.src == i && p.msg.Clse?)
  {
    assert [p][1..] == [];
  }

  // ----- runs -----

  /** The system as the end in question sees it: itself on the left. */
  function Facing(s: System, left: bool): System { if left then s else Swap(s) }

  function StepClses(s: System, step: Step, left: bool, i: nat): nat {
    if step.Left? == left then ClsesBy(Sent(Facing(s, left), step.act), i) else 0
  }

  predicate StepParts(s: System, step: Step, left: bool, i: nat) {
    step.Left? == left && LeftParts(Facing(s, left), step.act, i)
  }

  predicate StepLate(s: System, step: Step, left: bool, i: nat) {
    step.Left? == left && LeftLate(Facing(s, left), step.act, i)
  }

  /** CLSEs the end's socket i has sent in a run. */
  function CloseCount(steps: seq<Step>, left: bool, i: nat): nat {
    if steps == [] then 0
    else
      var before := steps[..|steps| - 1];
      CloseCount(before, left, i) + StepClses(Run(before), steps[|before|], left, i)
  }

  /** OKAYs that came to socket i after it had closed. */
  function LateOkays(steps: seq<Step>, left: bool, i: nat): nat {
    if steps == [] then 0
    else
      var before := steps[..|steps| - 1];
      LateOkays(before, left, i) + One(StepLate(Run(before), steps[|before|], left, i))
  }

  /** Somewhere in the run socket i closed while it had a peer. */
  ghost predicate Parted(steps: seq<Step>, left: bool, i: nat) {
    exists n :: 0 <= n < |steps| && StepParts(Run(steps[..n]), steps[n], left, i)
  }

  lemma {:induction false} PartedLast(steps: seq<Step>, left: bool, i: nat)
    requires steps != []
    ensures var before := steps[..|steps| - 1];
            Parted(steps, left, i) <==> Parted(before, left, i) || StepParts(Run(before), steps[|before|], left, i)
  {
    hide Run, StepParts;
    var before := steps[..|steps| - 1];
    assert forall n :: 0 <= n < |before| ==> before[..n] == steps[..n] && before[n] == steps[n];
    if n :| 0 <= n < |steps| && StepParts(Run(steps[..n]), steps[n], left, i) {
      if n < |before| {
        assert StepParts(Run(before[..n]), before[n], left, i);
      }
    }
    if n :| 0 <= n < |before| && StepParts(Run(before[..n]), before[n], left, i) {
      assert StepParts(Run(steps[..n]), steps[n], left, i);
    }
  }

  /** Whoever has parted has no peer. */
  lemma {:induction false} PartedIsDead(steps: seq<Step>, left: bool, i: nat)
    requires Parted(steps, left, i)
    ensures var e := Seat(Run(steps), left); i in e.socks && Dead(e.socks[i]) && e.socks[i].peer == None
  {
    hide Run;
    var n :| 0 <= n < |steps| && StepParts(Run(steps[..n]), steps[n], left, i);
    RunLast(steps, n);
    HistoriesGrow(steps, n + 1, i);
    AllKnown(steps, i);
    hide LeftStep;
    var e := Seat(Run(steps), left);
    assert i in Seat(Run(steps[..n + 1]), left).socks && Dead(Seat(Run(steps[..n + 1]), left).socks[i]);
    DeadHasNoPeer(e.socks[i]);
  }

  /** In any run: one CLSE if the end closed with a peer, and one for each OKAY that came too late. */
  lemma {:induction false} ClsesCounted(steps: seq<Step>, left: bool, i: nat)
    requires i != 0
    ensures CloseCount(steps, left, i) == One(Parted(steps, left, i)) + LateOkays(steps, left, i)
  {
    hide Run, StepParts, StepLate, StepClses, Inv;
    if steps != [] {
      var before := steps[..|steps| - 1];
      ClsesCounted(before, left, i);
      RunInv(before);
      StepCounted(Run(before), steps[|before|], left, i);
      PartedLast(steps, left, i);
      if Parted(before, left, i) {
        PartedIsDead(before, left, i);
        PartsOnce(Run(before), steps[|before|], left, i);
      }
    }
  }

  lemma StepCounted(s: System, step: Step, left: bool, i: nat)
    requires Inv(s) && i != 0
    ensures StepClses(s, step, left, i) == One(StepParts(s, step, left, i)) + One(StepLate(s, step, left, i))
  {
    hide Inv, LeftParts, LeftLate, Sent;
    SwapInv(s);
    LeftSends(Facing(s, left), step.act, i);
  }

  lemma PartsOnce(s: System, step: Step, left: bool, i: nat)
    ensures StepParts(s, step, left, i) ==> i in Seat(s, left).socks && Seat(s, left).socks[i].peer.Some?
  {
    hide LeftStep;
  }

  /** So more than one exactly if an OKAY comes after it closed with a peer, or two come after it closed. */
  lemma {:induction false} SecondClseIff(steps: seq<Step>, left: bool, i: nat)
    requires i != 0
    ensures CloseCount(steps, left, i) > 1
       <==> (Parted(steps, left, i) && LateOkays(steps, left, i) >= 1) || LateOkays(steps, left, i) >= 2
  {
    ClsesCounted(steps, left, i);
  }
}
