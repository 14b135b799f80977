/** When flow control holds: over any run, exactly while no end hands over data without a go-ahead. */
module StreamFlow {
  import opened AdbBase
  import opened StreamSocket
  import opened StreamPair
  import opened StreamCredit
  import opened StreamSystem
  import opened StreamTheorems

  /** One go-ahead in each direction of the stream between i and j, if there is one. */
  ghost predicate Credits(s: System, i: nat, j: nat) {
    i in s.l.socks && j in s.r.socks && Linked(s.l, s.r, i, j) ==>
      var x, y, xy, yx := s.l.socks[i], s.r.socks[j], Proj(s.lr, i, j), Proj(s.rl, j, i);
      Credit(x, y, xy, yx) && Credit(y, x, yx, xy)
  }

  function Seat(s: System, left: bool): Endpoint { if left then s.l else s.r }

  /** The left endpoint's socket i is told to read although nobody asked, and hands over what it finds. */
  predicate LeftUnasked(s: System, a: Act, i: nat) {
    a.FdEvent? && a.id == i && i in s.l.socks && Enabled(s.l.socks[i], a.ev)
    && Unasked(s.l.socks[i], a.ev, a.w, a.r, a.maxPayload)
  }

  predicate StepUnasked(s: System, step: Step, left: bool, i: nat) {
    step.Left? == left && LeftUnasked(if left then s else Swap(s), step.act, i)
  }

  predicate Never(steps: seq<Step>, left: bool, i: nat) {
    forall n :: 0 <= n < |steps| ==> !StepUnasked(Run(steps[..n]), steps[n], left, i)
  }

  lemma EventCalm(x: Sock, ev: Event, w: Writes, r: Reads, maxPayload: nat)
    requires SockInv(x) && Enabled(x, ev)
    ensures OnEvent(x, ev, w, r, maxPayload).0.calm == (x.calm && !Unasked(x, ev, w, r, maxPayload))
  {
    if ev.write && Drain(x, w).2 {
      DrainStays(x, w);
    }
  }

  lemma LeftCalm(s: System, a: Act, i: nat)
    requires Known(s.l, i)
    ensures var t := LeftStep(s, a);
            && t.r == s.r && (i in s.l.socks ==> i in t.l.socks)
            && (i in t.l.socks ==> t.l.socks[i].calm == ((i in s.l.socks ==> s.l.socks[i].calm) && !LeftUnasked(s, a, i)))
  {
    match a
    case Connect(_) =>
    case FdEvent(id, ev, w, r, maxPayload) =>
      if id == i && id in s.l.socks && Enabled(s.l.socks[id], ev) {
        EventCalm(s.l.socks[id], ev, w, r, maxPayload);
      }
      hide OnEvent, Unasked;
    case Deliver(accept, w) =>
      if s.rl != [] && s.rl[0].Stream? {
        ArrivalCalm(s.l, s.rl[0], accept, w, i);
      }
      hide HandlePacket, OnMsg;
  }

  lemma ArrivalCalm(e: Endpoint, p: Packet, accept: bool, w: Writes, i: nat)
    requires p.Stream?
    ensures var e' := HandlePacket(e, p, accept, w).0;
            (i in e'.socks <==> i in e.socks) && (i in e.socks ==> e'.socks[i].calm == e.socks[i].calm)
  {
    hide OnMsg;
    if p.dst in e.socks {
      StaysOpen(e.socks[p.dst], p.src, p.msg, w);
    }
  }

  lemma StepCalm(s: System, step: Step, left: bool, i: nat)
    requires Known(s.l, i) && Known(s.r, i)
    ensures var (e, e') := (Seat(s, left), Seat(Next(s, step), left));
            && (i in e.socks ==> i in e'.socks)
            && (i in e'.socks ==> e'.socks[i].calm == ((i in e.socks ==> e.socks[i].calm) && !StepUnasked(s, step, left, i)))
  {
    hide LeftStep, LeftUnasked, Known;
    LeftCalm(if step.Left? then s else Swap(s), step.act, i);
  }

  lemma {:induction false} SamePrefixes(steps: seq<Step>)
    requires steps != []
    ensures var before := steps[..|steps| - 1]; forall n :: 0 <= n < |before| ==> before[..n] == steps[..n] && before[n] == steps[n]
  {
  }

  lemma {:induction false} NeverLast(steps: seq<Step>, left: bool, i: nat)
    requires steps != []
    ensures var before := steps[..|steps| - 1];
            Never(steps, left, i) <==> Never(before, left, i) && !StepUnasked(Run(before), steps[|before|], left, i)
  {
    hide Run, StepUnasked;
    var before := steps[..|steps| - 1];
    SamePrefixes(steps);
    if Never(steps, left, i) {
      forall n | 0 <= n < |before| ensures !StepUnasked(Run(before[..n]), before[n], left, i) {
        assert !StepUnasked(Run(steps[..n]), steps[n], left, i);
      }
      assert !StepUnasked(Run(steps[..|before|]), steps[|before|], left, i);
    }
    if Never(before, left, i) {
      forall n | 0 <= n < |before| ensures !StepUnasked(Run(steps[..n]), steps[n], left, i) {
        assert !StepUnasked(Run(before[..n]), before[n], left, i);
      }
    }
  }

  lemma NeverYet(left: bool, i: nat)
    ensures Never([], left, i) && i !in Seat(START, left).socks
  {
  }

  /** The flag of a socket says whether it ever handed over data unasked. */
  lemma {:induction false} CalmIffNever(steps: seq<Step>, left: bool, i: nat)
    ensures var e := Seat(Run(steps), left); (i in e.socks ==> e.socks[i].calm) <==> Never(steps, left, i)
  {
    hide Never, StepUnasked, Known, Next;
    if steps == [] {
      NeverYet(left, i);
    } else {
      var before := steps[..|steps| - 1];
      CalmIffNever(before, left, i);
      NeverLast(steps, left, i);
      AllKnown(before, i);
      StepCalm(Run(before), steps[|before|], left, i);
      UnaskedThere(Run(before), steps[|before|], left, i);
    }
  }

  /** A stream stays one, and an end that is dead stays dead. */
  lemma {:induction false} LinkStays(steps: seq<Step>, n: nat, i: nat, j: nat)
    requires n <= |steps|
    ensures var (s, t) := (Run(steps[..n]), Run(steps));
            && (Linked(s.l, s.r, i, j) ==> Linked(t.l, t.r, i, j))
            && (i in s.l.socks && Dead(s.l.socks[i]) ==> i in t.l.socks && Dead(t.l.socks[i]))
            && (j in s.r.socks && Dead(s.r.socks[j]) ==> j in t.r.socks && Dead(t.r.socks[j]))
  {
    hide Run;
    HistoriesGrow(steps, n, i);
    HistoriesGrow(steps, n, j);
  }

  /** Handing over data unasked breaks the credit of the stream there and then. */
  lemma LeftBreaks(s: System, a: Act, i: nat, j: nat)
    requires Inv(s) && LeftUnasked(s, a, i) && s.l.socks[i].peer == Some(j) && Linked(s.l, s.r, i, j)
    requires var t := LeftStep(s, a); !Dead(t.l.socks[i])
    ensures Credits(s, i, j) ==> !Credits(LeftStep(s, a), i, j)
  {
    var x := s.l.socks[i];
    var t := LeftStep(s, a);
    var more := OnEvent(x, a.ev, a.w, a.r, a.maxPayload).1;
    assert i in s.l.socks && j in s.r.socks && SockInv(x) && i != 0;
    Appended(s.lr, Wrap(i, j, more), i, j);
    Wrapped(i, j, more, i, j);
    EventCalm(x, a.ev, a.w, a.r, a.maxPayload);
    assert Linked(t.l, t.r, i, j) by { StepKept(x, a); }
    hide OnEvent, Credit, Inv, Unasked, Linked;
    if Credits(s, i, j) {
      EventKeepsCreditIff(x, s.r.socks[j], Proj(s.lr, i, j), Proj(s.rl, j, i), a.ev, a.w, a.r, a.maxPayload);
    }
  }

  lemma StepKept(x: Sock, a: Act)
    requires a.FdEvent?
    ensures OnEvent(x, a.ev, a.w, a.r, a.maxPayload).0.openedBy == x.openedBy
  {
    EventKeepsOrigin(x, a.ev, a.w, a.r, a.maxPayload);
  }

  /** The same at either end, in a run. */
  lemma UnaskedBreaks(s: System, step: Step, left: bool, i: nat, j: nat)
    requires Inv(s) && StepUnasked(s, step, left, if left then i else j)
    requires Seat(s, left).socks[if left then i else j].peer == Some(if left then j else i) && Linked(s.l, s.r, i, j)
    requires var t := Seat(Next(s, step), left); (if left then i else j) in t.socks && !Dead(t.socks[if left then i else j])
    ensures Credits(s, i, j) ==> !Credits(Next(s, step), i, j)
  {
    hide Inv, LeftStep, Credit, LeftUnasked;
    if left {
      LeftBreaks(s, step.act, i, j);
    } else {
      SwapInv(s);
      LeftBreaks(Swap(s), step.act, j, i);
    }
  }

  /** A socket that hands over data has a peer, the far end of its stream. */
  lemma {:induction false} UnaskedEnd(steps: seq<Step>, n: nat, left: bool, i: nat, j: nat)
    requires n < |steps| && StepUnasked(Run(steps[..n]), steps[n], left, if left then i else j)
    requires Linked(Run(steps).l, Run(steps).r, i, j)
    ensures var s := Run(steps[..n]);
            Linked(s.l, s.r, i, j) && Seat(s, left).socks[if left then i else j].peer == Some(if left then j else i)
  {
    RunInv(steps[..n]);
    RunInv(steps);
    var s := Run(steps[..n]);
    hide Run, Inv;
    PeerIsLinked(s, left, if left then i else j);
    var k := Seat(s, left).socks[if left then i else j].peer.value;
    LinkStays(steps, n, if left then i else k, if left then k else j);
    RunLinks(Run(steps), if left then i else k, if left then k else j, i, j);
  }

  lemma PeerIsLinked(s: System, left: bool, i: nat)
    requires Inv(s) && i in Seat(s, left).socks && Seat(s, left).socks[i].peer.Some?
    ensures var k := Seat(s, left).socks[i].peer.value; if left then Linked(s.l, s.r, i, k) else Linked(s.l, s.r, k, i)
  {
  }

  lemma RunLinks(s: System, i: nat, j: nat, i': nat, j': nat)
    requires Inv(s) && Linked(s.l, s.r, i, j) && Linked(s.l, s.r, i', j')
    ensures i == i' <==> j == j'
  {
    LinkedUnique(s.l, s.r, i, j, i', j');
  }

  /** i and j are the two ends of a stream, both open. */
  ghost predicate BothOpen(s: System, i: nat, j: nat) {
    && Linked(s.l, s.r, i, j) && i in s.l.socks && j in s.r.socks
    && !Dead(s.l.socks[i]) && !Dead(s.r.socks[j])
  }

  /**
   * Flow control, exactly: along a run after which a stream is still open, each direction had exactly
   * one go-ahead at every moment if and only if neither end was ever made to read unasked, by an event
   * faked for a hang-up or an error, with data to be found and a peer to hand it to.
   */
  lemma {:induction false} FlowIff(steps: seq<Step>, i: nat, j: nat)
    requires BothOpen(Run(steps), i, j)
    ensures (forall n :: 0 <= n <= |steps| ==> Credits(Run(steps[..n]), i, j))
       <==> Never(steps, true, i) && Never(steps, false, j)
  {
    hide Run, StepUnasked;
    if Never(steps, true, i) && Never(steps, false, j) {
      forall n | 0 <= n <= |steps| ensures Credits(Run(steps[..n]), i, j) {
        FlowHolds(steps, n, i, j);
      }
    } else {
      var left := !Never(steps, true, i);
      var n :| 0 <= n < |steps| && StepUnasked(Run(steps[..n]), steps[n], left, if left then i else j);
      FlowBreaks(steps, n, left, i, j);
      assert !Credits(Run(steps[..n]), i, j) || !Credits(Run(steps[..n + 1]), i, j);
    }
  }

  lemma {:induction false} FlowHolds(steps: seq<Step>, n: nat, i: nat, j: nat)
    requires n <= |steps| && BothOpen(Run(steps), i, j) && Never(steps, true, i) && Never(steps, false, j)
    ensures Credits(Run(steps[..n]), i, j)
  {
    hide Run, Linked, Credit, Never;
    LinkStays(steps, n, i, j);
    NeverBefore(steps, n, true, i);
    NeverBefore(steps, n, false, j);
    CalmIffNever(steps[..n], true, i);
    CalmIffNever(steps[..n], false, j);
    var s := Run(steps[..n]);
    if Linked(s.l, s.r, i, j) {
      RunInv(steps[..n]);
      InvCredit(s, i, j);
    }
  }

  lemma {:induction false} NeverBefore(steps: seq<Step>, n: nat, left: bool, i: nat)
    requires n <= |steps| && Never(steps, left, i)
    ensures Never(steps[..n], left, i)
  {
    hide Run, StepUnasked;
    forall k | 0 <= k < n ensures !StepUnasked(Run(steps[..n][..k]), steps[..n][k], left, i) {
      assert steps[..n][..k] == steps[..k];
      assert !StepUnasked(Run(steps[..k]), steps[k], left, i);
    }
  }

  lemma InvCredit(s: System, i: nat, j: nat)
    requires Inv(s) && Linked(s.l, s.r, i, j)
    ensures i in s.l.socks && j in s.r.socks
    ensures CreditInv(s.l.socks[i], s.r.socks[j], Proj(s.lr, i, j), Proj(s.rl, j, i))
  {
  }

  lemma {:induction false} FlowBreaks(steps: seq<Step>, n: nat, left: bool, i: nat, j: nat)
    requires n < |steps| && BothOpen(Run(steps), i, j)
    requires StepUnasked(Run(steps[..n]), steps[n], left, if left then i else j)
    ensures Credits(Run(steps[..n]), i, j) ==> !Credits(Run(steps[..n + 1]), i, j)
  {
    hide Run, StepUnasked, Linked, Credits, Inv;
    UnaskedEnd(steps, n, left, i, j);
    var s := Run(steps[..n]);
    RunLast(steps, n);
    RunInv(steps[..n]);
    AllKnown(steps[..n], if left then i else j);
    StepCalm(s, steps[n], left, if left then i else j);
    UnaskedThere(s, steps[n], left, if left then i else j);
    LinkStays(steps, n + 1, i, j);
    UnaskedBreaks(s, steps[n], left, i, j);
  }

  lemma UnaskedThere(s: System, step: Step, left: bool, i: nat)
    ensures StepUnasked(s, step, left, i) ==> i in Seat(s, left).socks
  {
  }
}
