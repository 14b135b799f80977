/**
 * Credit carried past the death of the sender: an end that is never made to read unasked gets at most
 * one OKAY after it has closed, and so sends at most two CLSEs for a stream.
 */
module StreamDebt {
  import opened AdbBase
  import opened StreamSocket
  import opened StreamPair
  import opened StreamCredit
  import opened StreamSystem
  import opened StreamTheorems
  import opened StreamFlow
  import opened StreamClosing

  /** y still has something of x's to acknowledge. */
  function Holds(y: Sock): nat { One(!Dead(y) && y.queue != []) }

  /** The OKAYs that x may still see, and those that came too late, are one in all. */
  ghost predicate Debt(late: nat, x: Sock, y: Sock, xy: seq<Msg>, yx: seq<Msg>) {
    x.calm ==> late + One(x.reading) + Wrtes(xy) + Holds(y) + Okays(yx) <= 1
  }

  // ----- what a step of the left endpoint does to the stream between i and j -----

  datatype Change =
    | Born
    | Quiet
    | Fired(ev: Event, w: Writes, r: Reads, m: nat)
    | Took(msg: Msg, tw: Writes)

  ghost predicate Changed(c: Change, j: nat, x: Sock, x': Sock, y: Sock, xy: seq<Msg>, xy': seq<Msg>, yx: seq<Msg>, yx': seq<Msg>) {
    match c
    case Born => x' == Fresh(Some(j), Some(j)) && xy' == [Okay] && yx' == [] && y.queue == [] && !y.reading
    case Quiet => x' == x && xy' == xy && yx' == yx
    case Fired(ev, w, r, m) =>
      SockInv(x) && Enabled(x, ev) && x' == OnEvent(x, ev, w, r, m).0 && xy' == xy + OnEvent(x, ev, w, r, m).1 && yx' == yx
    case Took(m, w) =>
      SockInv(x) && x' == OnMsg(x, j, m, w).0 && xy' == xy + OnMsg(x, j, m, w).1 && yx == [m] + yx'
  }

  /** The left end of the stream acted: its own credit. */
  lemma {:induction false} SenderDebt(c: Change, j: nat, late: nat, x: Sock, x': Sock, y: Sock,
                                      xy: seq<Msg>, xy': seq<Msg>, yx: seq<Msg>, yx': seq<Msg>)
    requires Changed(c, j, x, x', y, xy, xy', yx, yx')
    requires if c.Born? then late == 0 else Debt(late, x, y, xy, yx)
    ensures Debt(late + One(c.Took? && c.msg.Okay? && Dead(x)), x', y, xy', yx')
  {
    hide SockInv, OnEvent, OnMsg, Enabled, Wrtes, Okays;
    OneMsg(Okay);
    match c
    case Born =>
    case Quiet =>
    case Fired(ev, w, r, m) =>
      EventCounts(x, ev, w, r, m);
      EventCalm(x, ev, w, r, m);
      PayloadAppend(xy, OnEvent(x, ev, w, r, m).1);
    case Took(m, w) =>
      MsgCounts(x, j, m, w);
      StaysOpen(x, j, m, w);
      PayloadAppend(xy, OnMsg(x, j, m, w).1);
      PayloadAppend([m], yx');
      OneMsg(m);
  }

  /** The same step as the other end's credit sees it. */
  lemma {:induction false} ReceiverDebt(c: Change, j: nat, late: nat, x: Sock, x': Sock, y: Sock,
                                        xy: seq<Msg>, xy': seq<Msg>, yx: seq<Msg>, yx': seq<Msg>)
    requires Changed(c, j, x, x', y, xy, xy', yx, yx')
    requires if c.Born? then late == 0 else Debt(late, y, x, yx, xy)
    ensures Debt(late, y, x', yx', xy')
  {
    hide SockInv, OnEvent, OnMsg, Enabled, Wrtes, Okays;
    OneMsg(Okay);
    match c
    case Born =>
    case Quiet =>
    case Fired(ev, w, r, m) =>
      EventCounts(x, ev, w, r, m);
      PayloadAppend(xy, OnEvent(x, ev, w, r, m).1);
    case Took(m, w) =>
      MsgCounts(x, j, m, w);
      PayloadAppend(xy, OnMsg(x, j, m, w).1);
      PayloadAppend([m], yx');
      OneMsg(m);
  }

  /** How the stream between i and j changes when the left endpoint acts. */
  ghost predicate PairChanged(c: Change, s: System, t: System, i: nat, j: nat) {
    && i in t.l.socks && j in t.r.socks && j in s.r.socks && t.r == s.r
    && (c.Born? ==> !Linked(s.l, s.r, i, j))
    && (!c.Born? ==> Linked(s.l, s.r, i, j) && i in s.l.socks)
    && Changed(c, j, if c.Born? then t.l.socks[i] else s.l.socks[i], t.l.socks[i], t.r.socks[j],
               Proj(s.lr, i, j), Proj(t.lr, i, j), Proj(s.rl, j, i), Proj(t.rl, j, i))
  }

  lemma LinkFacts(s: System, i: nat, j: nat)
    requires Inv(s) && Linked(s.l, s.r, i, j)
    ensures i in s.l.socks && j in s.r.socks && i != 0 && j != 0 && SockInv(s.l.socks[i])
    ensures s.l.socks[i].peer.Some? ==> s.l.socks[i].peer.value == j
  {
    PeerIsPartner(s, i, j);
  }

  /** The step replaces socket k by x', sends `out`, and leaves the other endpoint alone. */
  ghost predicate Shape(s: System, t: System, k: nat, x': Sock, out: seq<Packet>) {
    Replaces(s, t, k, x', out) && t.r == s.r && x'.openedBy == s.l.socks[k].openedBy
  }

  lemma ShapeLinks(s: System, t: System, k: nat, x': Sock, out: seq<Packet>, i: nat, j: nat)
    requires Shape(s, t, k, x', out) && Linked(t.l, t.r, i, j)
    ensures Linked(s.l, s.r, i, j)
  {
  }

  /** What a step of socket k, whose far end is p, adds to the channel of stream i, j. */
  lemma {:induction false} ShapeSends(s: System, t: System, k: nat, x': Sock, p: nat, more: seq<Msg>, i: nat, j: nat)
    requires Shape(s, t, k, x', Wrap(k, p, more)) && k != 0 && i in s.l.socks
    requires k == i ==> more == [] || p == j
    ensures i in t.l.socks
    ensures k == i ==> t.l.socks[i] == x' && Proj(t.lr, i, j) == Proj(s.lr, i, j) + more
    ensures k != i ==> t.l.socks[i] == s.l.socks[i] && Proj(t.lr, i, j) == Proj(s.lr, i, j)
  {
    Appended(s.lr, Wrap(k, p, more), i, j);
    Wrapped(k, p, more, i, j);
    assert Proj(s.lr, i, j) + [] == Proj(s.lr, i, j);
  }

  lemma {:induction false} EventShape(s: System, id: nat, ev: Event, w: Writes, r: Reads, maxPayload: nat)
    requires id in s.l.socks && Enabled(s.l.socks[id], ev)
    ensures var x := s.l.socks[id];
            var (x', more) := OnEvent(x, ev, w, r, maxPayload);
            var t := LeftStep(s, FdEvent(id, ev, w, r, maxPayload));
            Shape(s, t, id, x', Wrap(id, if x.peer.Some? then x.peer.value else 0, more)) && t.rl == s.rl
  {
    EventKeepsOrigin(s.l.socks[id], ev, w, r, maxPayload);
    hide OnEvent, Wrap;
  }

  lemma {:induction false} EventChange(s: System, id: nat, ev: Event, w: Writes, r: Reads, maxPayload: nat, i: nat, j: nat)
    returns (c: Change)
    requires Inv(s) && id in s.l.socks && Enabled(s.l.socks[id], ev)
    requires var t := LeftStep(s, FdEvent(id, ev, w, r, maxPayload)); Linked(t.l, t.r, i, j)
    ensures PairChanged(c, s, LeftStep(s, FdEvent(id, ev, w, r, maxPayload)), i, j)
    ensures !c.Took? && !c.Born?
  {
    hide LeftStep, OnEvent, Enabled, SockInv, Inv, Linked, Proj, Wrap, Replaces;
    var x := s.l.socks[id];
    var p := if x.peer.Some? then x.peer.value else 0;
    var t := LeftStep(s, FdEvent(id, ev, w, r, maxPayload));
    var (x', more) := OnEvent(x, ev, w, r, maxPayload);
    EventShape(s, id, ev, w, r, maxPayload);
    ShapeLinks(s, t, id, x', Wrap(id, p, more), i, j);
    LinkFacts(s, i, j);
    SockFacts(s, id);
    if id == i {
      EventMoves(x, ev, w, r, maxPayload);
      c := Fired(ev, w, r, maxPayload);
    } else {
      c := Quiet;
    }
    ShapeSends(s, t, id, x', p, more, i, j);
  }

  lemma SockFacts(s: System, i: nat)
    requires Inv(s) && i in s.l.socks
    ensures i != 0 && SockInv(s.l.socks[i])
  {
  }

  lemma {:induction false} ArrivalShape(s: System, accept: bool, w: Writes)
    requires Inv(s) && s.rl != [] && s.rl[0].Stream?
    ensures var q := s.rl[0];
            && q.dst in s.l.socks
            && var x := s.l.socks[q.dst];
               var (x', more) := OnMsg(x, q.src, q.msg, w);
               var t := LeftStep(s, Deliver(accept, w));
               Shape(s, t, q.dst, x', Wrap(q.dst, if x.peer.Some? then x.peer.value else q.src, more)) && t.rl == s.rl[1..]
  {
    ArrivalKnown(s);
    ArrivalReplaces(s, accept, w);
    MsgKeepsOrigin(s.l.socks[s.rl[0].dst], s.rl[0].src, s.rl[0].msg, w);
    hide OnMsg, Wrap, Inv;
  }

  lemma MsgKeepsOrigin(x: Sock, from: nat, m: Msg, w: Writes)
    ensures OnMsg(x, from, m, w).0.openedBy == x.openedBy
  {
  }

  /** A packet for socket i of a stream comes from the stream's other end. */
  lemma ArrivalFrom(s: System, i: nat, j: nat)
    requires Inv(s) && s.rl != [] && s.rl[0].Stream? && s.rl[0].dst == i && Linked(s.l, s.r, i, j)
    ensures s.rl[0].src == j
  {
    assert PacketOk(s.r, s.l, s.rl[0]);
    if s.rl[0].src != 0 {
      LinkedUnique(s.l, s.r, i, j, i, s.rl[0].src);
    }
  }

  lemma {:induction false} ArrivalChange(s: System, accept: bool, w: Writes, i: nat, j: nat) returns (c: Change)
    requires Inv(s) && s.rl != [] && s.rl[0].Stream?
    requires var t := LeftStep(s, Deliver(accept, w)); Linked(t.l, t.r, i, j)
    ensures PairChanged(c, s, LeftStep(s, Deliver(accept, w)), i, j) && !c.Born?
    ensures c == if s.rl[0].dst == i then Took(s.rl[0].msg, w) else Quiet
  {
    hide LeftStep, OnMsg, SockInv, Inv, Linked, Wrap, Replaces;
    var q := s.rl[0];
    ArrivalShape(s, accept, w);
    var x := s.l.socks[q.dst];
    var p := if x.peer.Some? then x.peer.value else q.src;
    var t := LeftStep(s, Deliver(accept, w));
    var (x', more) := OnMsg(x, q.src, q.msg, w);
    ShapeLinks(s, t, q.dst, x', Wrap(q.dst, p, more), i, j);
    LinkFacts(s, i, j);
    SockFacts(s, q.dst);
    c := if q.dst == i then Took(q.msg, w) else Quiet;
    if q.dst == i {
      ArrivalFrom(s, i, j);
    }
    ShapeSends(s, t, q.dst, x', p, more, i, j);
  }

  /** An action that concerns no stream there is: a new client, a refusal, or nothing at all. */
  ghost predicate Aside(s: System, t: System) {
    && t.r == s.r && (t.l == s.l || t.l == Install(s.l, Fresh(None, None)))
    && (t.rl == s.rl || (s.rl != [] && s.rl[0].Open? && t.rl == s.rl[1..]))
    && (t.lr == s.lr || exists p :: t.lr == s.lr + [p] && (p.Stream? ==> p.src == 0))
  }

  lemma {:induction false} IsAside(s: System, a: Act)
    requires match a
             case Connect(_) => true
             case FdEvent(id, ev, _, _, _) => !(id in s.l.socks && Enabled(s.l.socks[id], ev))
             case Deliver(accept, _) => s.rl == [] || (s.rl[0].Open? && !(accept && CanInstall(s.l) && s.rl[0].id != 0))
    ensures Aside(s, LeftStep(s, a))
  {
    hide Enabled;
    assert s.lr + [] == s.lr;
  }

  lemma {:induction false} AsideChange(s: System, t: System, i: nat, j: nat)
    requires Inv(s) && Aside(s, t) && Linked(t.l, t.r, i, j)
    ensures PairChanged(Quiet, s, t, i, j)
  {
    hide Inv, Linked, Proj, SockInv;
    AsideLinks(s, t, i, j);
    LinkFacts(s, i, j);
    FreshId(s, 0);
    if p :| t.lr == s.lr + [p] && (p.Stream? ==> p.src == 0) {
      SideSent(s.lr, p, i, j);
    }
    if s.rl != [] && s.rl[0].Open? {
      SideTaken(s.rl, j, i);
    }
  }

  lemma AsideLinks(s: System, t: System, i: nat, j: nat)
    requires Inv(s) && Aside(s, t) && Linked(t.l, t.r, i, j)
    ensures Linked(s.l, s.r, i, j)
  {
  }

  lemma {:induction false} SideSent(ch: seq<Packet>, p: Packet, i: nat, j: nat)
    requires i != 0 && (p.Stream? ==> p.src != i || p.dst != j)
    ensures Proj(ch + [p], i, j) == Proj(ch, i, j)
  {
    Appended(ch, [p], i, j);
    assert [p][1..] == [] && Proj([p], i, j) == [];
    assert Proj(ch, i, j) + [] == Proj(ch, i, j);
  }

  lemma {:induction false} SideTaken(ch: seq<Packet>, i: nat, j: nat)
    requires ch != [] && ch[0].Open?
    ensures Proj(ch[1..], i, j) == Proj(ch, i, j)
  {
  }

  /** An OPEN is accepted: the new stream is born, the others are not concerned. */
  lemma {:induction false} OpenChange(s: System, w: Writes, i: nat, j: nat) returns (c: Change)
    requires Inv(s) && s.rl != [] && s.rl[0].Open? && CanInstall(s.l) && s.rl[0].id != 0
    requires var t := LeftStep(s, Deliver(true, w)); Linked(t.l, t.r, i, j)
    ensures PairChanged(c, s, LeftStep(s, Deliver(true, w)), i, j)
    ensures c.Quiet? || c.Born?
  {
    hide Inv, Linked, LeftStep, HandlePacket, Proj;
    var n, q := s.l.nextId, s.rl[0].id;
    var t := LeftStep(s, Deliver(true, w));
    OpenStep(s, w);
    FreshId(s, j);
    OpenerIdle(s);
    OpenLinks(s, t, i, j);
    SideTaken(s.rl, j, i);
    if i == n {
      Appended(s.lr, [Stream(n, q, Okay)], i, j);
      OneProj(n, q);
      c := Born;
    } else {
      LinkFacts(s, i, j);
      SideSent(s.lr, Stream(n, q, Okay), i, j);
      c := Quiet;
    }
  }

  lemma OpenStep(s: System, w: Writes)
    requires s.rl != [] && s.rl[0].Open? && CanInstall(s.l) && s.rl[0].id != 0
    ensures var (n, q) := (s.l.nextId, s.rl[0].id);
            var t := LeftStep(s, Deliver(true, w));
            && t.l == Install(s.l, Fresh(Some(q), Some(q))) && t.r == s.r
            && t.lr == s.lr + [Stream(n, q, Okay)] && t.rl == s.rl[1..]
  {
  }

  lemma OneProj(n: nat, q: nat)
    ensures Proj([Stream(n, q, Okay)], n, q) == [Okay] && [] + [Okay] == [Okay]
  {
    assert [Stream(n, q, Okay)][1..] == [];
  }

  lemma OpenLinks(s: System, t: System, i: nat, j: nat)
    requires Inv(s) && s.rl != [] && s.rl[0].Open? && t.r == s.r
    requires var q := s.rl[0].id; t.l == Install(s.l, Fresh(Some(q), Some(q)))
    requires Linked(t.l, t.r, i, j)
    ensures if i == s.l.nextId then j == s.rl[0].id && !Linked(s.l, s.r, i, j) else Linked(s.l, s.r, i, j)
  {
    FreshId(s, j);
  }

  /** The socket whose OPEN is under way has done nothing yet. */
  lemma OpenerIdle(s: System)
    requires Inv(s) && s.rl != [] && s.rl[0].Open?
    ensures var q := s.rl[0].id; q in s.r.socks && s.r.socks[q].queue == [] && !s.r.socks[q].reading
  {
    assert PacketOk(s.r, s.l, s.rl[0]);
  }

  lemma {:induction false} LeftChange(s: System, a: Act, i: nat, j: nat) returns (c: Change)
    requires Inv(s)
    requires var t := LeftStep(s, a); Linked(t.l, t.r, i, j)
    ensures PairChanged(c, s, LeftStep(s, a), i, j)
    ensures c.Took? && c.msg.Okay? && i in s.l.socks && Dead(s.l.socks[i]) <==> LeftLate(s, a, i)
  {
    hide Inv, LeftStep, Enabled, Linked, Changed;
    if a.FdEvent? && a.id in s.l.socks && Enabled(s.l.socks[a.id], a.ev) {
      c := EventChange(s, a.id, a.ev, a.w, a.r, a.maxPayload, i, j);
    } else if a.Deliver? && s.rl != [] && s.rl[0].Stream? {
      c := ArrivalChange(s, a.accept, a.dw, i, j);
    } else if a.Deliver? && s.rl != [] && a.accept && CanInstall(s.l) && s.rl[0].id != 0 {
      c := OpenChange(s, a.dw, i, j);
    } else {
      IsAside(s, a);
      AsideChange(s, LeftStep(s, a), i, j);
      c := Quiet;
    }
  }

  // ----- runs -----

  /** The stream between i and j, as the end whose credit it is sees it. */
  ghost predicate InDebt(late: nat, s: System, i: nat, j: nat) {
    Linked(s.l, s.r, i, j) ==>
      && i in s.l.socks && j in s.r.socks
      && Debt(late, s.l.socks[i], s.r.socks[j], Proj(s.lr, i, j), Proj(s.rl, j, i))
  }

  lemma {:induction false} OwnStep(s: System, a: Act, late: nat, i: nat, j: nat)
    requires Inv(s) && InDebt(late, s, i, j) && (!Linked(s.l, s.r, i, j) ==> late == 0)
    ensures InDebt(late + One(LeftLate(s, a, i)), LeftStep(s, a), i, j)
  {
    hide Inv, LeftStep, Linked, Debt, Changed;
    var t := LeftStep(s, a);
    if Linked(t.l, t.r, i, j) {
      var c := LeftChange(s, a, i, j);
      SenderDebt(c, j, late, if c.Born? then t.l.socks[i] else s.l.socks[i], t.l.socks[i], t.r.socks[j],
                 Proj(s.lr, i, j), Proj(t.lr, i, j), Proj(s.rl, j, i), Proj(t.rl, j, i));
    }
  }

  lemma {:induction false} FarStep(s: System, a: Act, late: nat, i: nat, j: nat)
    requires Inv(s) && InDebt(late, s, i, j) && (!Linked(s.l, s.r, i, j) ==> late == 0)
    ensures InDebt(late, Swap(LeftStep(Swap(s), a)), i, j)
  {
    hide Inv, LeftStep, Debt, Changed;
    var u := Swap(s);
    var t := LeftStep(u, a);
    SwapInv(s);
    if Linked(t.r, t.l, i, j) {
      var c := LeftChange(u, a, j, i);
      ReceiverDebt(c, i, late, if c.Born? then t.l.socks[j] else u.l.socks[j], t.l.socks[j], t.r.socks[i],
                   Proj(u.lr, j, i), Proj(t.lr, j, i), Proj(u.rl, i, j), Proj(t.rl, i, j));
    }
  }

  lemma StreamsStay(steps: seq<Step>, left: bool, i: nat, j: nat)
    requires steps != []
    ensures var (s, t) := (Facing(Run(steps[..|steps| - 1]), left), Facing(Run(steps), left));
            Linked(s.l, s.r, i, j) ==> Linked(t.l, t.r, i, j)
  {
    hide Run;
    LinkStays(steps, |steps| - 1, if left then i else j, if left then j else i);
  }

  /** Only a socket with a stream gets an OKAY. */
  lemma {:induction false} LateHasStream(steps: seq<Step>, left: bool, i: nat) returns (j: nat)
    ensures var s := Facing(Run(steps), left); LateOkays(steps, left, i) > 0 ==> Linked(s.l, s.r, i, j)
  {
    hide Run, Linked, StepLate, Inv;
    j := 0;
    if LateOkays(steps, left, i) > 0 {
      var before := steps[..|steps| - 1];
      if LateOkays(before, left, i) > 0 {
        j := LateHasStream(before, left, i);
      } else {
        RunInv(before);
        j := LateFrom(Run(before), steps[|before|], left, i);
      }
      StreamsStay(steps, left, i, j);
    }
  }

  lemma LateFrom(s: System, step: Step, left: bool, i: nat) returns (j: nat)
    requires Inv(s) && StepLate(s, step, left, i)
    ensures var f := Facing(s, left); Linked(f.l, f.r, i, j)
  {
    SwapInv(s);
    var f := Facing(s, left);
    assert PacketOk(f.r, f.l, f.rl[0]);
    j := f.rl[0].src;
  }

  /** The stream is not there yet, so nothing has come too late. */
  lemma NoLateYet(steps: seq<Step>, left: bool, i: nat, j: nat)
    requires steps != []
    ensures var before := steps[..|steps| - 1];
            var (s, t) := (Facing(Run(before), left), Facing(Run(steps), left));
            Linked(t.l, t.r, i, j) && !Linked(s.l, s.r, i, j) ==> LateOkays(before, left, i) == 0
  {
    hide Run, Inv, Linked;
    var before := steps[..|steps| - 1];
    var k := LateHasStream(before, left, i);
    StreamsStay(steps, left, i, k);
    RunInv(steps);
    SwapInv(Run(steps));
    SamePartner(Facing(Run(steps), left), i, j, k);
  }

  lemma SamePartner(s: System, i: nat, j: nat, k: nat)
    requires Inv(s)
    ensures Linked(s.l, s.r, i, j) && Linked(s.l, s.r, i, k) ==> j == k
  {
    if Linked(s.l, s.r, i, j) && Linked(s.l, s.r, i, k) {
      LinkedUnique(s.l, s.r, i, j, i, k);
    }
  }

  lemma FacingStep(s: System, step: Step, left: bool)
    ensures Facing(Next(s, step), left)
         == if step.Left? == left then LeftStep(Facing(s, left), step.act)
            else Swap(LeftStep(Swap(Facing(s, left)), step.act))
  {
    hide LeftStep;
  }

  lemma NothingYet(left: bool, i: nat, j: nat)
    ensures InDebt(LateOkays([], left, i), Facing(Run([]), left), i, j)
  {
  }

  /** Credit, for as long as the stream is remembered, dead or alive. */
  lemma {:induction false} RunDebt(steps: seq<Step>, left: bool, i: nat, j: nat)
    ensures InDebt(LateOkays(steps, left, i), Facing(Run(steps), left), i, j)
  {
    hide Run, Inv, LeftStep, InDebt, Next, LeftLate, Linked;
    if steps == [] {
      NothingYet(left, i, j);
    } else {
      var before := steps[..|steps| - 1];
      var step := steps[|before|];
      RunDebt(before, left, i, j);
      RunInv(before);
      SwapInv(Run(before));
      NoLateYet(steps, left, i, j);
      RunLast(steps, |before|);
      assert steps[..|steps|] == steps;
      FacingStep(Run(before), step, left);
      StepDebt(Facing(Run(before), left), step.act, step.Left? == left, LateOkays(before, left, i), i, j);
    }
  }

  /** A step of either end; a stream that has just begun owes nothing. */
  lemma {:induction false} StepDebt(s: System, a: Act, own: bool, late: nat, i: nat, j: nat)
    requires Inv(s) && InDebt(late, s, i, j)
    requires var t := if own then LeftStep(s, a) else Swap(LeftStep(Swap(s), a));
             Linked(t.l, t.r, i, j) && !Linked(s.l, s.r, i, j) ==> late == 0
    ensures InDebt(late + One(own && LeftLate(s, a, i)), if own then LeftStep(s, a) else Swap(LeftStep(Swap(s), a)), i, j)
  {
    hide Inv, LeftStep, LeftLate, Linked, Debt;
    var t := if own then LeftStep(s, a) else Swap(LeftStep(Swap(s), a));
    if Linked(t.l, t.r, i, j) {
      if own {
        OwnStep(s, a, late, i, j);
      } else {
        FarStep(s, a, late, i, j);
      }
    }
  }

  // ----- the bound -----

  lemma {:induction false} OneLate(steps: seq<Step>, left: bool, i: nat)
    requires Never(steps, left, i)
    ensures LateOkays(steps, left, i) <= 1
  {
    hide Run, Never, LateOkays, Linked;
    CalmIffNever(steps, left, i);
    if LateOkays(steps, left, i) > 0 {
      var j := LateHasStream(steps, left, i);
      RunDebt(steps, left, i, j);
    }
  }

  /** An end that was never made to read unasked sends at most two CLSEs for a stream, whatever the other end does. */
  lemma {:induction false} AtMostTwoClses(steps: seq<Step>, left: bool, i: nat)
    requires i != 0 && Never(steps, left, i)
    ensures CloseCount(steps, left, i) <= 2
  {
    ClsesCounted(steps, left, i);
    OneLate(steps, left, i);
  }

  lemma PeerIsPartner(s: System, i: nat, j: nat)
    requires Inv(s) && Linked(s.l, s.r, i, j) && i in s.l.socks
    ensures s.l.socks[i].peer.Some? ==> s.l.socks[i].peer.value == j
  {
    if s.l.socks[i].peer.Some? {
      LinkedUnique(s.l, s.r, i, j, i, s.l.socks[i].peer.value);
    }
  }

  // ----- the smallest case -----

  /** The client sends a byte and hangs up before the byte is acknowledged. */
  function TwiceRun(): seq<Step> {
    var w := Writes(0, false);
    [Left(Connect([])), Right(Deliver(true, w)), Left(Deliver(true, w)), Left(ByteEvent()),
     Left(FdEvent(1, Event(false, true), w, Reads([], true), MAX_PAYLOAD)),
     Right(Deliver(true, Writes(1, false))), Left(Deliver(true, w))]
  }

  const JOINED := Fresh(None, None).(peer := Some(1), reading := true)

  /** The client's socket once it is closed. */
  function HungUpSock(): Sock { AfterByte(JOINED).(peer := None, status := Freed, cut := true) }

  function HungUp(y: Sock, lr: seq<Packet>, rl: seq<Packet>): System {
    System(Endpoint(2, map[1 := HungUpSock()]), Endpoint(2, map[1 := y]), lr, rl)
  }

  lemma ByteThenHangUp()
    ensures var m := Stream(1, 1, Wrte([1]));
            Next(Joined(AfterByte(JOINED), [m]), TwiceRun()[4]) == HungUp(Fresh(Some(1), Some(1)), [m, Stream(1, 1, Clse)], [])
  {
    var w := Writes(0, false);
    var x := AfterByte(JOINED);
    var r := Reads([], true);
    assert r.data[..0] == [] && [] + [Clse] == [Clse];
    assert OnEvent(x, Event(false, true), w, r, MAX_PAYLOAD) == (HungUpSock(), [Clse]);
    assert Wrap(1, 1, [Clse]) == [Stream(1, 1, Clse)] + Wrap(1, 1, [Clse][1..]);
    assert map[1 := x][1 := HungUpSock()] == map[1 := HungUpSock()];
  }

  lemma ByteIsTaken()
    ensures var (y, c) := (Fresh(Some(1), Some(1)), Stream(1, 1, Clse));
            Next(HungUp(y, [Stream(1, 1, Wrte([1])), c], []), TwiceRun()[5]) == HungUp(y.(put := [1]), [c], [Stream(1, 1, Okay)])
  {
    var y := Fresh(Some(1), Some(1));
    var d: Bytes := [1];
    assert d[..1] == d && y.put + d == d;
    assert OnMsg(y, 1, Wrte(d), Writes(1, false)) == (y.(put := d), [Okay]);
    assert Wrap(1, 1, [Okay]) == [Stream(1, 1, Okay)] + Wrap(1, 1, [Okay][1..]);
    assert map[1 := y][1 := y.(put := d)] == map[1 := y.(put := d)];
    assert [Stream(1, 1, Wrte(d)), Stream(1, 1, Clse)][1..] == [Stream(1, 1, Clse)];
    assert [] + [Stream(1, 1, Okay)] == [Stream(1, 1, Okay)];
  }

  lemma OkayComesLate()
    ensures var (y, c) := (Fresh(Some(1), Some(1)).(put := [1]), Stream(1, 1, Clse));
            Next(HungUp(y, [c], [Stream(1, 1, Okay)]), TwiceRun()[6]) == HungUp(y, [c, c], [])
  {
    var x := HungUpSock();
    assert OnMsg(x, 1, Okay, Writes(0, false)) == (x, [Clse]);
    assert Wrap(1, 1, [Clse]) == [Stream(1, 1, Clse)] + Wrap(1, 1, [Clse][1..]);
    assert map[1 := x][1 := x] == map[1 := x];
  }

  lemma TwiceSteps()
    ensures var (steps, w) := (TwiceRun(), Writes(0, false));
            && |steps| == 7 && steps[..7] == steps && steps[3] == Left(ByteEvent())
            && steps[..3] == [Left(Connect([])), Right(Deliver(true, w)), Left(Deliver(true, w))]
  {
  }

  lemma TwiceRunEnds()
    ensures var (c, steps) := (Stream(1, 1, Clse), TwiceRun());
            && Run(steps[..4]) == Joined(AfterByte(JOINED), [Stream(1, 1, Wrte([1]))])
            && Run(steps[..6]) == HungUp(Fresh(Some(1), Some(1)).(put := [1]), [c], [Stream(1, 1, Okay)])
            && Run(steps) == HungUp(Fresh(Some(1), Some(1)).(put := [1]), [c, c], [])
  {
    hide Run, Next, Joined, HungUp, AfterByte, ByteEvent, TwiceRun, HungUpSock;
    var steps, w := TwiceRun(), Writes(0, false);
    TwiceSteps();
    RunLast(steps, 3);
    RunLast(steps, 4);
    RunLast(steps, 5);
    RunLast(steps, 6);
    JoinedUp(w);
    ByteGoesOut(JOINED, []);
    ByteThenHangUp();
    ByteIsTaken();
    OkayComesLate();
    assert [] + [Stream(1, 1, Wrte([1]))] == [Stream(1, 1, Wrte([1]))];
  }

  /** Two CLSEs for one stream, with nothing ever read unasked: the bound is reached. */
  lemma TwoClses()
    ensures CloseCount(TwiceRun(), true, 1) == 2 && Never(TwiceRun(), true, 1)
    ensures Run(TwiceRun()).lr == [Stream(1, 1, Clse), Stream(1, 1, Clse)]
  {
    TwiceRunEnds();
    CalmIffNever(TwiceRun(), true, 1);
    TwiceCounted();
  }

  lemma TwiceCounted()
    requires Never(TwiceRun(), true, 1)
    ensures CloseCount(TwiceRun(), true, 1) == 2
  {
    var steps := TwiceRun();
    TwiceRunEnds();
    ByteThenHangUp();
    assert steps[..|steps| - 1] == steps[..6];
    SecondClseIff(steps, true, 1);
    AtMostTwoClses(steps, true, 1);
    hide Run, Next, CloseCount, Never;
    HangUpParts(Joined(AfterByte(JOINED), [Stream(1, 1, Wrte([1]))]));
    OkayIsLate(HungUp(Fresh(Some(1), Some(1)).(put := [1]), [Stream(1, 1, Clse)], [Stream(1, 1, Okay)]));
    assert StepParts(Run(steps[..4]), steps[4], true, 1);
  }

  lemma HangUpParts(s: System)
    requires s == Joined(AfterByte(JOINED), [Stream(1, 1, Wrte([1]))])
    requires Next(s, TwiceRun()[4]).l == Endpoint(2, map[1 := HungUpSock()])
    ensures StepParts(s, TwiceRun()[4], true, 1)
  {
    hide LeftStep;
  }

  lemma OkayIsLate(s: System)
    requires s == HungUp(Fresh(Some(1), Some(1)).(put := [1]), [Stream(1, 1, Clse)], [Stream(1, 1, Okay)])
    ensures StepLate(s, TwiceRun()[6], true, 1)
  {
  }
}
