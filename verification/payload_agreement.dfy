/**
 * The CNXN exchange (adb.cpp, transport.cpp) as steps of a host and a device whose own limits may
 * differ, and when a check_header refuses what the other's socket layer sends.
 */
module PayloadAgreement {
  import opened AdbBase
  import opened SocketGraph
  import opened Sockets
  import opened AdbPackets
  import S = StreamSocket
  import StreamSystem

  type Packet = StreamSystem.Packet

  /** msg.data_length. */
  function Size(p: Packet): nat {
    match p
    case Open(_, name) => |name|
    case Stream(_, _, m) => if m.Wrte? then |m.data| else 0
  }

  /** What the socket layer sends by a transport with that limit; LayerSends proves that it does. */
  predicate Allowed(p: Packet, limit: nat) {
    match p
    case Open(_, name) => name != [] && name == OpenPayload(name[..|name| - 1]) && OpenGoesOut(name[..|name| - 1], Min(MAX_PAYLOAD, limit))
    case Stream(_, _, m) => m.Wrte? ==> |m.data| <= Min(MAX_PAYLOAD, limit)
  }

  /** What is allowed fits, but for an OPEN by a transport whose limit is 0. */
  lemma AllowedFits(p: Packet, limit: nat)
    requires Allowed(p, limit)
    ensures Size(p) <= limit <==> !(p.Open? && limit == 0)
  {
  }

  // ----- what the socket layer sends -----

  /** The packet is allowed by its transport's limit. */
  predicate Permitted(limits: map<nat, nat>, tp: (nat, Packet)) {
    tp.0 in limits ==> Allowed(tp.1, limits[tp.0])
  }

  ghost predicate AllPermitted(limits: map<nat, nat>, out: seq<(nat, Packet)>) {
    forall k :: 0 <= k < |out| ==> Permitted(limits, out[k])
  }

  /** The payload fits the transport's limit, or that limit is 0. */
  ghost predicate AllFit(limits: map<nat, nat>, out: seq<(nat, Packet)>) {
    forall k :: 0 <= k < |out| && out[k].0 in limits && limits[out[k].0] != 0 ==> Size(out[k].1) <= limits[out[k].0]
  }

  lemma {:induction false} PermittedFit(limits: map<nat, nat>, out: seq<(nat, Packet)>)
    requires AllPermitted(limits, out)
    ensures AllFit(limits, out)
  {
    hide Allowed, Size;
    forall k | 0 <= k < |out| && out[k].0 in limits && limits[out[k].0] != 0
      ensures Size(out[k].1) <= limits[out[k].0]
    {
      assert Permitted(limits, out[k]);
      AllowedFits(out[k].1, limits[out[k].0]);
    }
  }

  lemma FarFits(g: Graph, limits: map<nat, nat>, a: Addr, m: S.Msg)
    requires a in g.socks && (m.Wrte? ==> |m.data| <= MaxPayloadOf(g, limits, a))
    ensures g.socks[a].peer.Some? ==> AllPermitted(limits, ToFar(g, g.socks[a].peer.value, m))
  {
  }

  lemma {:induction false} FarMsgsFit(g: Graph, limits: map<nat, nat>, a: Addr, msgs: seq<S.Msg>)
    requires a in g.socks && forall k :: 0 <= k < |msgs| && msgs[k].Wrte? ==> |msgs[k].data| <= MaxPayloadOf(g, limits, a)
    ensures AllPermitted(limits, FarMsgs(g, a, msgs))
  {
    if msgs != [] && g.socks[a].peer.Some? {
      FarFits(g, limits, a, msgs[0]);
      FarMsgsFit(g, limits, a, msgs[1..]);
    }
  }

  lemma ReadWithinLimit(s: S.Sock, ev: S.Event, w: S.Writes, r: S.Reads, m: nat)
    ensures var msgs := S.OnEvent(s, ev, w, r, m).1; forall k :: 0 <= k < |msgs| && msgs[k].Wrte? ==> |msgs[k].data| <= m
  {
  }

  /** Whatever an fd event makes a stream socket send is allowed. */
  lemma {:induction false} EventsPermitted(g: Graph, g': Graph, limits: map<nat, nat>, a: Addr, ev: S.Event, w: S.Writes, r: S.Reads, out: seq<(nat, Packet)>)
    requires IsStream(g, a) && EventDone(g, g', a, ev, w, r, MaxPayloadOf(g, limits, a), out)
    ensures AllPermitted(limits, out)
  {
    ReadWithinLimit(View(g, a), ev, w, r, MaxPayloadOf(g, limits, a));
    FarMsgsFit(g, limits, a, S.OnEvent(View(g, a), ev, w, r, MaxPayloadOf(g, limits, a)).1);
  }

  /** The OPEN of a new connection is allowed. */
  lemma {:induction false} DialPermitted(g: Graph, g': Graph, limits: map<nat, nat>, a: Addr, t: nat, destination: Bytes, out: seq<(nat, Packet)>)
    requires Dialled(g, g', a, t, destination, out) && OpenGoesOut(destination, LimitOn(limits, t))
    ensures AllPermitted(limits, out)
  {
    var d := CString(destination);
    CStringNoNul(destination);
    assert OpenPayload(destination)[..|d|] == d;
  }

  /** Every packet that the entry points of the socket layer send is allowed by its transport's limit. */
  method LayerSends(l: SocketLayer, why: Entry) returns (ghost out: seq<(nat, Packet)>)
    requires l.Ok() && (why.Event? ==> IsStream(l.g, why.a) && (why.ev.write ==> l.g.socks[why.a].writing))
    modifies l`g, l`links, l`sent, l`heapTop, l`freed, l`readLog, l`writeLog
    ensures l.Ok() && l.sent == old(l.sent) + out && AllPermitted(l.limits, out) && AllFit(l.limits, out)
  {
    hide Permitted, AllFit, EventDone, Dialled, IsStream, Valid;
    match why {
    case Event(a, ev) =>
      ghost var w, r;
      w, r, out := l.LocalSocketEventFunc(a, ev);
      EventsPermitted(old(l.g), l.g, l.limits, a, ev, w, r, out);
    case Arrival(t, online, p, starts) =>
      var _, sent := HandlePacket(l, t, online, p, starts);
      out := sent;
      NoDataPermitted(l.limits, out);
    case Client(t, destination) =>
      var alive, sent := ListenerConnects(l, t, destination);
      out := sent;
      if alive {
        ghost var a :| Dialled(old(l.g), l.g, a, t, destination, out);
        DialPermitted(old(l.g), l.g, l.limits, a, t, destination, out);
      }
    }
    PermittedFit(l.limits, out);
  }

  /** A way into the socket layer. */
  datatype Entry =
    | Event(a: Addr, ev: S.Event)
    | Arrival(t: nat, online: bool, p: Packet, starts: Bytes -> bool)
    | Client(to: nat, destination: Bytes)

  lemma {:induction false} NoDataPermitted(limits: map<nat, nat>, out: seq<(nat, Packet)>)
    requires NoData(out)
    ensures AllPermitted(limits, out)
  {
  }

  // ----- the two ends -----

  /** CNXN with the sender's limit, or a packet of the socket layer. */
  datatype Msg = Cnxn(limit: nat) | Data(p: Packet)

  /** One end: its build's limit, the transport's current limit, and whether the transport is online. */
  datatype End = End(own: nat, limit: nat, online: bool)

  /** `replying` while the device has taken a CNXN and not yet answered it; `refused` are the packets that failed a header check. */
  datatype Link = Link(host: End, device: End, replying: bool, hd: seq<Msg>, dh: seq<Msg>, refused: seq<Packet>)

  datatype Step =
    | HostConnect
    | DeviceReceive
    | DeviceAnswer
    | HostReceive
    | HostSend(p: Packet)
    | DeviceSend(p: Packet)

  function Start(hostOwn: nat, deviceOwn: nat): Link {
    Link(End(hostOwn, hostOwn, false), End(deviceOwn, deviceOwn, false), false, [], [], [])
  }

  /** update_version. */
  function Updated(e: End, limit: nat): End { e.(limit := Min(limit, e.own)) }

  /** check_header. */
  function Checked(e: End, p: Packet): seq<Packet> { if Size(p) > e.limit then [p] else [] }

  /** OKAY or CLSE. */
  predicate Plain(p: Packet) { p.Stream? && !p.msg.Wrte? }

  /** OPEN and WRTE are sent while online; sockets that are closed on going offline still say CLSE. */
  predicate MaySend(e: End, p: Packet) { Allowed(p, e.limit) && (e.online || Plain(p)) }

  function Next(s: Link, step: Step): Link {
    match step
    case HostConnect => s.(hd := s.hd + [Cnxn(s.host.limit)])
    case DeviceReceive =>
      if s.hd == [] then s
      else (match s.hd[0]
        case Cnxn(limit) => s.(device := Updated(s.device, limit).(online := false), replying := true, hd := s.hd[1..])
        case Data(p) => s.(refused := s.refused + Checked(s.device, p), hd := s.hd[1..]))
    case DeviceAnswer =>
      if s.replying
      then s.(device := s.device.(online := true), replying := false, dh := s.dh + [Cnxn(s.device.limit)]) else s
    case HostReceive =>
      if s.dh == [] then s
      else (match s.dh[0]
        case Cnxn(limit) => s.(host := Updated(s.host, limit).(online := true), dh := s.dh[1..])
        case Data(p) => s.(refused := s.refused + Checked(s.host, p), dh := s.dh[1..]))
    case HostSend(p) => if MaySend(s.host, p) then s.(hd := s.hd + [Data(p)]) else s
    case DeviceSend(p) => if MaySend(s.device, p) then s.(dh := s.dh + [Data(p)]) else s
  }

  function Run(hostOwn: nat, deviceOwn: nat, steps: seq<Step>): Link {
    if steps == [] then Start(hostOwn, deviceOwn)
    else Next(Run(hostOwn, deviceOwn, steps[..|steps| - 1]), steps[|steps| - 1])
  }

  /** With a the smaller of the two limits: an end that is online has it, and what is under way was allowed by it. */
  predicate Sound(s: Link, hostOwn: nat, deviceOwn: nat) {
    var a := Min(hostOwn, deviceOwn);
    && s.host.own == hostOwn && s.device.own == deviceOwn && (a != 0 ==> s.refused == []) && (forall q :: q in s.refused ==> q.Open?)
    && (s.host.limit == hostOwn || s.host.limit == a) && (s.device.limit == deviceOwn || s.device.limit == a)
    && (s.host.online ==> s.host.limit == a) && (s.device.online || s.replying ==> s.device.limit == a) && !(s.replying && s.device.online)
    && (forall k :: 0 <= k < |s.hd| ==> if s.hd[k].Cnxn? then s.hd[k].limit == hostOwn || s.hd[k].limit == a else Allowed(s.hd[k].p, a))
    && (forall k :: 0 <= k < |s.dh| ==> if s.dh[k].Cnxn? then s.dh[k].limit == a else Allowed(s.dh[k].p, a))
  }

  lemma NextSound(s: Link, step: Step, hostOwn: nat, deviceOwn: nat)
    requires Sound(s, hostOwn, deviceOwn)
    ensures Sound(Next(s, step), hostOwn, deviceOwn)
  {
    hide Allowed, Checked, Plain;
    var a := Min(hostOwn, deviceOwn);
    if step.HostSend? || step.DeviceSend? {
      PlainAllowed(step.p, a);
    }
    if step.DeviceReceive? && s.hd != [] && s.hd[0].Data? {
      CheckedOpens(s.device, s.hd[0].p, a);
    }
    if step.HostReceive? && s.dh != [] && s.dh[0].Data? {
      CheckedOpens(s.host, s.dh[0].p, a);
    }
  }

  lemma PlainAllowed(p: Packet, limit: nat)
    ensures Plain(p) ==> Allowed(p, limit)
  {
  }

  lemma CheckedOpens(e: End, p: Packet, a: nat)
    requires Allowed(p, a) && a <= e.limit
    ensures (a != 0 ==> Checked(e, p) == []) && forall q :: q in Checked(e, p) ==> q.Open?
  {
    AllowedFits(p, a);
  }

  /**
   * Over every run and for any two limits: an end that is online holds the smaller of them, so both
   * do once both are online, and nothing is refused but, at a limit of 0, an OPEN. The reader thread
   * may check a packet before the main thread has taken the CNXN ahead of it.
   */
  lemma {:induction false} LimitsAgree(hostOwn: nat, deviceOwn: nat, steps: seq<Step>)
    ensures var s := Run(hostOwn, deviceOwn, steps);
            && (s.host.online ==> s.host.limit == Min(hostOwn, deviceOwn))
            && (s.device.online ==> s.device.limit == Min(hostOwn, deviceOwn)) && !(s.replying && s.device.online)
            && (Min(hostOwn, deviceOwn) != 0 ==> s.refused == []) && (forall q :: q in s.refused ==> q.Open?)
    ensures Sound(Run(hostOwn, deviceOwn, steps), hostOwn, deviceOwn)
  {
    hide Next;
    if steps != [] {
      LimitsAgree(hostOwn, deviceOwn, steps[..|steps| - 1]);
      NextSound(Run(hostOwn, deviceOwn, steps[..|steps| - 1]), steps[|steps| - 1], hostOwn, deviceOwn);
    }
  }

  /** The OPEN of the empty destination. */
  const SHORTEST := StreamSystem.Open(1, [0])

  /** The device opens a stream as soon as it is online. */
  function EarlyOpen(): seq<Step> {
    [HostConnect, DeviceReceive, DeviceAnswer, DeviceSend(SHORTEST), HostReceive, HostReceive]
  }

  lemma {:induction false} RunOneMore(a: nat, b: nat, steps: seq<Step>, n: nat)
    requires n < |steps|
    ensures Run(a, b, steps[..n + 1]) == Next(Run(a, b, steps[..n]), steps[n])
  {
    assert steps[..n + 1][..n] == steps[..n];
  }

  lemma ShortestRefused(e: End)
    requires e.limit == 0
    ensures Allowed(SHORTEST, 0) && Checked(e, SHORTEST) == [SHORTEST]
  {
    assert OpenPayload([]) == [0] && [0][..0] == [];
  }

  /** The device online at a limit of 0, its CNXN on the way. */
  function Greeted(a: nat, b: nat): Link {
    Start(a, b).(dh := [Cnxn(0)], device := End(b, 0, true))
  }

  lemma GreetedSoon(a: nat, b: nat)
    requires Min(a, b) == 0
    ensures Run(a, b, EarlyOpen()[..3]) == Greeted(a, b)
  {
    var steps := EarlyOpen();
    assert steps[..0] == [];
    RunOneMore(a, b, steps, 0);
    RunOneMore(a, b, steps, 1);
    RunOneMore(a, b, steps, 2);
  }

  lemma EarlyOpenRefused(a: nat, b: nat)
    requires Min(a, b) == 0
    ensures Run(a, b, EarlyOpen()).refused == [SHORTEST]
  {
    var steps := EarlyOpen();
    assert steps[..6] == steps;
    GreetedSoon(a, b);
    ShortestRefused(End(a, 0, true));
    RunOneMore(a, b, steps, 3);
    RunOneMore(a, b, steps, 4);
    RunOneMore(a, b, steps, 5);
    hide Run, Allowed, Checked, Size;
    var s4 := Greeted(a, b).(dh := [Cnxn(0), Data(SHORTEST)]);
    assert Next(Greeted(a, b), steps[3]) == s4;
  }

  /**
   * A packet of the socket layer can be refused if and only if one of the builds has a limit of 0; then
   * the length check of connect_to_remote, which subtracts 1, has wrapped round.
   */
  lemma RefusedIff(hostOwn: nat, deviceOwn: nat)
    ensures (exists steps :: Run(hostOwn, deviceOwn, steps).refused != []) <==> Min(hostOwn, deviceOwn) == 0
  {
    if Min(hostOwn, deviceOwn) == 0 {
      EarlyOpenRefused(hostOwn, deviceOwn);
    } else {
      forall steps ensures Run(hostOwn, deviceOwn, steps).refused == [] {
        LimitsAgree(hostOwn, deviceOwn, steps);
      }
    }
  }

  // ----- the exchange can be carried through -----

  /** The link after a few more steps. */
  function Onward(s: Link, steps: seq<Step>): Link {
    if steps == [] then s else Next(Onward(s, steps[..|steps| - 1]), steps[|steps| - 1])
  }

  lemma {:induction false} OnwardTwice(s: Link, steps: seq<Step>, more: seq<Step>)
    ensures Onward(Onward(s, steps), more) == Onward(s, steps + more)
  {
    hide Next;
    if more == [] {
      assert steps + more == steps;
    } else {
      var all := steps + more;
      OnwardTwice(s, steps, more[..|more| - 1]);
      assert all[..|all| - 1] == steps + more[..|more| - 1];
    }
  }

  lemma {:induction false} RunIsOnward(a: nat, b: nat, steps: seq<Step>)
    ensures Run(a, b, steps) == Onward(Start(a, b), steps)
  {
    hide Next;
    if steps != [] {
      RunIsOnward(a, b, steps[..|steps| - 1]);
    }
  }

  lemma {:induction false} OnwardOne(s: Link, step: Step)
    ensures Onward(s, [step]) == Next(s, step)
  {
    hide Next;
    assert [step][..0] == [];
  }

  /** The other end takes all that is under way. */
  function Takes(n: nat, device: bool): seq<Step> { seq(n, _ => if device then DeviceReceive else HostReceive) }

  lemma {:induction false} TakesOne(s: Link, n: nat, device: bool)
    ensures Onward(s, Takes(n + 1, device)) == Onward(Next(s, if device then DeviceReceive else HostReceive), Takes(n, device))
  {
    hide Next;
    var step := if device then DeviceReceive else HostReceive;
    assert Takes(n + 1, device) == [step] + Takes(n, device);
    OnwardTwice(s, [step], Takes(n, device));
    OnwardOne(s, step);
  }

  /** A CNXN behind everything else makes the device ready to answer. */
  lemma {:induction false} DeviceDrains(s: Link)
    requires s.hd != [] && s.hd[|s.hd| - 1].Cnxn?
    ensures var t := Onward(s, Takes(|s.hd|, true)); t.replying && t.hd == [] && t.dh == s.dh && t.host == s.host
    decreases |s.hd|
  {
    var t := Next(s, DeviceReceive);
    TakesOne(s, |s.hd| - 1, true);
    if |s.hd| == 1 {
      assert Takes(0, true) == [];
    } else {
      DeviceDrains(t);
    }
  }

  /** A CNXN behind everything else brings the host online. */
  lemma {:induction false} HostDrains(s: Link)
    requires s.dh != [] && s.dh[|s.dh| - 1].Cnxn?
    ensures var t := Onward(s, Takes(|s.dh|, false)); t.host.online && t.dh == [] && t.device == s.device
    decreases |s.dh|
  {
    var t := Next(s, HostReceive);
    TakesOne(s, |s.dh| - 1, false);
    if |s.dh| == 1 {
      assert Takes(0, false) == [];
    } else {
      HostDrains(t);
    }
  }

  /**
   * From any state of the link the host's CNXN, if both ends take what is under way and the device
   * answers, brings both ends online, with the smaller of the two limits.
   */
  lemma {:induction false} ComeOnline(hostOwn: nat, deviceOwn: nat, before: seq<Step>) returns (after: seq<Step>)
    ensures var s := Run(hostOwn, deviceOwn, before + after);
            && s.host.online && s.device.online
            && s.host.limit == Min(hostOwn, deviceOwn) && s.device.limit == Min(hostOwn, deviceOwn)
  {
    var s := Run(hostOwn, deviceOwn, before);
    var s1 := Next(s, HostConnect);
    DeviceDrains(s1);
    var s2 := Onward(s1, Takes(|s1.hd|, true));
    var s3 := Next(s2, DeviceAnswer);
    HostDrains(s3);
    hide Next, Onward, Run;
    OnwardOne(s, HostConnect);
    OnwardTwice(s, [HostConnect], Takes(|s1.hd|, true));
    OnwardOne(s2, DeviceAnswer);
    OnwardTwice(s, [HostConnect] + Takes(|s1.hd|, true), [DeviceAnswer]);
    OnwardTwice(s, [HostConnect] + Takes(|s1.hd|, true) + [DeviceAnswer], Takes(|s3.dh|, false));
    after := [HostConnect] + Takes(|s1.hd|, true) + [DeviceAnswer] + Takes(|s3.dh|, false);
    RunIsOnward(hostOwn, deviceOwn, before);
    RunIsOnward(hostOwn, deviceOwn, before + after);
    OnwardTwice(Start(hostOwn, deviceOwn), before, after);
    LimitsAgree(hostOwn, deviceOwn, before + after);
  }
}
