/** Every byte read from an fd: handed to the peer, or thrown away because there was none. */
module StreamSpill {
  import opened AdbBase
  import opened StreamSocket
  import opened StreamPair
  import opened StreamSystem
  import opened StreamTheorems
  import opened StreamFlow
  import opened StreamClosing

  /** The bytes an event makes the handler read. */
  function Taken(x: Sock, ev: Event, w: Writes, r: Reads, maxPayload: nat): Bytes {
    if ev.read && (ev.write ==> Drain(x, w).2) then r.data[..Min(|r.data|, maxPayload)] else []
  }

  /** The handler reads something and there is no peer to give it to. */
  predicate Spills(x: Sock, ev: Event, w: Writes, r: Reads, maxPayload: nat) {
    ev.read && !ev.write && x.peer == None && r.data != [] && maxPayload > 0
  }

  lemma {:induction false} ReadSpills(x: Sock, r: Reads, maxPayload: nat)
    ensures var (x', d) := (Read(x, r, maxPayload).0, r.data[..Min(|r.data|, maxPayload)]);
            && (x.peer.Some? ==> x'.got == x.got + d && x'.spilt == x.spilt)
            && (x.peer == None ==> x'.spilt == x.spilt + d && x'.got == x.got)
  {
    var d := r.data[..Min(|r.data|, maxPayload)];
    assert d == [] ==> x.got + d == x.got && x.spilt + d == x.spilt;
  }

  lemma DrainSpillsNothing(x: Sock, w: Writes)
    requires SockInv(x) && x.writing
    ensures var (x', _, goOn) := Drain(x, w);
            x'.got == x.got && x'.spilt == x.spilt && (goOn ==> x.peer.Some? && x'.peer == x.peer)
  {
  }

  /** A socket without a peer is not waiting to read. */
  lemma SpillsUnasked(x: Sock, ev: Event, w: Writes, r: Reads, maxPayload: nat)
    requires SockInv(x) && Spills(x, ev, w, r, maxPayload)
    ensures !x.reading
  {
  }

  /** Where the bytes of one event go; they are lost only by a read event nobody asked for. */
  lemma {:induction false} EventSpills(x: Sock, ev: Event, w: Writes, r: Reads, maxPayload: nat)
    requires SockInv(x) && Enabled(x, ev)
    ensures var (x', d) := (OnEvent(x, ev, w, r, maxPayload).0, Taken(x, ev, w, r, maxPayload));
            if Spills(x, ev, w, r, maxPayload) then x'.spilt == x.spilt + d && d != [] && x'.got == x.got
            else x'.spilt == x.spilt && x'.got == x.got + d
    ensures Spills(x, ev, w, r, maxPayload) ==> !x.reading
  {
    hide Drain, Read, SockInv;
    if Spills(x, ev, w, r, maxPayload) {
      SpillsUnasked(x, ev, w, r, maxPayload);
    }
    var (x1, goOn) := if ev.write then (Drain(x, w).0, Drain(x, w).2) else (x, true);
    if ev.write {
      DrainSpillsNothing(x, w);
    }
    ReadSpills(x1, r, maxPayload);
    assert x.got + [] == x.got && x.spilt + [] == x.spilt;
  }

  lemma MsgSpillsNothing(x: Sock, from: nat, m: Msg, w: Writes)
    ensures OnMsg(x, from, m, w).0.got == x.got && OnMsg(x, from, m, w).0.spilt == x.spilt
  {
  }

  // ----- runs -----

  predicate Fires(s: System, a: Act, i: nat) {
    a.FdEvent? && a.id == i && i in s.l.socks && Enabled(s.l.socks[i], a.ev)
  }

  /** What the left endpoint's socket i reads in a step. */
  function LeftTaken(s: System, a: Act, i: nat): Bytes {
    if Fires(s, a, i) then Taken(s.l.socks[i], a.ev, a.w, a.r, a.maxPayload) else []
  }

  predicate LeftSpills(s: System, a: Act, i: nat) {
    Fires(s, a, i) && Spills(s.l.socks[i], a.ev, a.w, a.r, a.maxPayload)
  }

  function StepTaken(s: System, step: Step, left: bool, i: nat): Bytes {
    if step.Left? == left then LeftTaken(Facing(s, left), step.act, i) else []
  }

  predicate StepSpills(s: System, step: Step, left: bool, i: nat) {
    step.Left? == left && LeftSpills(Facing(s, left), step.act, i)
  }

  /** All the bytes socket i has read from its fd in a run. */
  function AllTaken(steps: seq<Step>, left: bool, i: nat): Bytes {
    if steps == [] then []
    else
      var before := steps[..|steps| - 1];
      AllTaken(before, left, i) + StepTaken(Run(before), steps[|before|], left, i)
  }

  /** In some step of the run a byte was lost. */
  ghost predicate Spilled(steps: seq<Step>, left: bool, i: nat) {
    exists n :: 0 <= n < |steps| && StepSpills(Run(steps[..n]), steps[n], left, i)
  }

  lemma {:induction false} SpilledLast(steps: seq<Step>, left: bool, i: nat)
    requires steps != []
    ensures var before := steps[..|steps| - 1];
            Spilled(steps, left, i) <==> Spilled(before, left, i) || StepSpills(Run(before), steps[|before|], left, i)
  {
    hide Run, StepSpills;
    var before := steps[..|steps| - 1];
    assert forall n :: 0 <= n < |before| ==> before[..n] == steps[..n] && before[n] == steps[n];
    if n :| 0 <= n < |steps| && StepSpills(Run(steps[..n]), steps[n], left, i) {
      if n < |before| {
        assert StepSpills(Run(before[..n]), before[n], left, i);
      }
    }
    if n :| 0 <= n < |before| && StepSpills(Run(before[..n]), before[n], left, i) {
      assert StepSpills(Run(steps[..n]), steps[n], left, i);
    }
  }

  /** The histories of socket i, empty before it is made. */
  function GotBy(e: Endpoint, i: nat): Bytes { if i in e.socks then e.socks[i].got else [] }

  function SpiltBy(e: Endpoint, i: nat): Bytes { if i in e.socks then e.socks[i].spilt else [] }

  /** Where the bytes of one step go. */
  ghost predicate Moved(e: Endpoint, e': Endpoint, i: nat, taken: Bytes, spills: bool) {
    if spills then SpiltBy(e', i) == SpiltBy(e, i) + taken && taken != [] && GotBy(e', i) == GotBy(e, i)
    else SpiltBy(e', i) == SpiltBy(e, i) && GotBy(e', i) == GotBy(e, i) + taken
  }

  lemma {:induction false} LeftMoved(s: System, a: Act, i: nat)
    requires Known(s.l, i)
    ensures Moved(s.l, LeftStep(s, a).l, i, LeftTaken(s, a, i), LeftSpills(s, a, i)) && LeftStep(s, a).r == s.r
  {
    assert GotBy(s.l, i) + [] == GotBy(s.l, i);
    match a
    case Connect(_) =>
    case FdEvent(id, ev, w, r, maxPayload) =>
      hide OnEvent, Taken, Spills, Enabled, SockInv;
      if Fires(s, a, i) {
        EventSpills(s.l.socks[i], ev, w, r, maxPayload);
      }
    case Deliver(accept, w) =>
      hide OnMsg, Wrap;
      if s.rl != [] && s.rl[0].Stream? && s.rl[0].dst in s.l.socks {
        MsgSpillsNothing(s.l.socks[s.rl[0].dst], s.rl[0].src, s.rl[0].msg, w);
      }
  }

  lemma {:induction false} StepMoved(s: System, step: Step, left: bool, i: nat)
    requires Known(s.l, i) && Known(s.r, i)
    ensures Moved(Seat(s, left), Seat(Next(s, step), left), i, StepTaken(s, step, left, i), StepSpills(s, step, left, i))
  {
    hide LeftStep, LeftTaken, LeftSpills, Known;
    LeftMoved(if step.Left? then s else Swap(s), step.act, i);
    assert GotBy(Seat(s, left), i) + [] == GotBy(Seat(s, left), i);
  }

  /** Over any run every byte read is handed over or thrown away, and none is thrown away but in a step that spills. */
  lemma {:induction false} BytesAccounted(steps: seq<Step>, left: bool, i: nat)
    ensures var e := Seat(Run(steps), left);
            && |AllTaken(steps, left, i)| == |GotBy(e, i)| + |SpiltBy(e, i)|
            && (Spilled(steps, left, i) <==> SpiltBy(e, i) != [])
            && (!Spilled(steps, left, i) ==> AllTaken(steps, left, i) == GotBy(e, i))
  {
    hide Known, Next, StepTaken, StepSpills, GotBy, SpiltBy;
    if steps == [] {
      NothingTaken(left, i);
    } else {
      var before := steps[..|steps| - 1];
      BytesAccounted(before, left, i);
      AllKnown(before, i);
      SpilledLast(steps, left, i);
      StepMoved(Run(before), steps[|before|], left, i);
    }
  }

  lemma NothingTaken(left: bool, i: nat)
    ensures GotBy(Seat(START, left), i) == [] && SpiltBy(Seat(START, left), i) == [] && !Spilled([], left, i)
  {
  }

  /**
   * An end hands over all it reads, in order, if and only if it is never made to read, by an event faked
   * for a hang-up or an error, while it has no peer and there is data to be found.
   */
  lemma {:induction false} NothingLostIff(steps: seq<Step>, left: bool, i: nat)
    ensures AllTaken(steps, left, i) == GotBy(Seat(Run(steps), left), i) <==> !Spilled(steps, left, i)
  {
    hide Run, AllTaken, Spilled, GotBy, SpiltBy;
    BytesAccounted(steps, left, i);
  }

  /** So, of all the bytes read at one end, those that arrive. */
  lemma {:induction false} AllReadArrives(steps: seq<Step>, i: nat, j: nat)
    requires var s := Run(steps); Linked(s.l, s.r, i, j) && !Spilled(steps, true, i)
    ensures var s := Run(steps);
            && i in s.l.socks && j in s.r.socks
            && var (y, xy) := (s.r.socks[j], Proj(s.lr, i, j));
               && y.put <= AllTaken(steps, true, i)
               && (!Dead(y) ==> y.put + Flat(y.queue) + Payload(xy) == AllTaken(steps, true, i))
               && (y.status.Freed? && !y.cut ==> y.put == AllTaken(steps, true, i))
  {
    hide Run, AllTaken, Spilled, Linked, Inv;
    BytesAccounted(steps, true, i);
    assert Reached(Run(steps));
    BytesArriveIntact(Run(steps), i, j);
  }

  /** A client that hangs up right after it has written a byte, before its OPEN is answered. */
  function SpillRun(): seq<Step> {
    [Left(Connect([])), Left(FdEvent(1, Event(false, true), Writes(0, false), Reads([1], true), MAX_PAYLOAD))]
  }

  /** The smallest case of a lost byte. */
  lemma ByteLost()
    ensures AllTaken(SpillRun(), true, 1) == [1] && GotBy(Run(SpillRun()).l, 1) == []
  {
    var steps := SpillRun();
    RunLast(steps, 0);
    assert steps[..0] == [] && steps[..2] == steps && steps[..|steps| - 1] == steps[..1];
    var s1 := System(Endpoint(2, map[1 := Fresh(None, None)]), EMPTY, [StreamSystem.Open(1, [])], []);
    assert Run(steps[..1]) == s1;
    var r := Reads([1], true);
    assert r.data[..1] == r.data;
    SpillStep(s1);
    BytesAccounted(steps[..1], true, 1);
    BytesAccounted(steps, true, 1);
    StepMoved(s1, steps[1], true, 1);
    RunLast(steps, 1);
  }

  lemma SpillStep(s: System)
    requires s == System(Endpoint(2, map[1 := Fresh(None, None)]), EMPTY, [StreamSystem.Open(1, [])], [])
    ensures Known(s.l, 1) && Known(s.r, 1)
    ensures StepSpills(s, SpillRun()[1], true, 1) && StepTaken(s, SpillRun()[1], true, 1) == [1]
    ensures GotBy(s.l, 1) == [] && SpiltBy(s.l, 1) == []
  {
    var r := Reads([1], true);
    assert r.data[..1] == r.data;
  }
}
