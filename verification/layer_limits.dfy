/**
 * Two socket layers on one transport together with the CNXN exchange that sets its payload limit: what
 * the layers send by that limit is what the far end's header check sees.
 */
module LayerLimits {
  import opened AdbBase
  import opened SocketGraph
  import opened Sockets
  import opened AdbPackets
  import opened EndpointRefinement
  import opened PayloadAgreement
  import LayerTheorems

  /** The host's and the device's layer, and the transport between them. */
  datatype Joint = Joint(host: Graph, device: Graph, link: Link)

  function Datas(ps: seq<Packet>): seq<Msg> {
    if ps == [] then [] else [Data(ps[0])] + Datas(ps[1..])
  }

  /** A step of a layer, as in EndpointRefinement.Acts, with the limits that get_max_payload consults. */
  ghost predicate Limited(g: Graph, g': Graph, t: nat, limits: map<nat, nat>, why: Cause, inbox: seq<Packet>, out: seq<(nat, Packet)>) {
    && Acts(g, g', t, why, inbox, if why.Arrival? && inbox != [] then inbox[1..] else inbox, out)
    && match why
       case Fd(a, _, _, _, m) => IsStream(g, a) && m == MaxPayloadOf(g, limits, a)
       case Client(_, d) => OpenGoesOut(d, LimitOn(limits, t))
       case Arrival(_) => true
  }

  lemma {:induction false} LimitedPermitted(g: Graph, g': Graph, t: nat, limits: map<nat, nat>, why: Cause, inbox: seq<Packet>,
                                            out: seq<(nat, Packet)>)
    requires Limited(g, g', t, limits, why, inbox, out)
    ensures Valid(g') && AllPermitted(limits, out)
  {
    hide Valid, EventDone, Dialled, Permitted, Answered, Accepted;
    match why
    case Fd(a, ev, w, r, m) => EventsPermitted(g, g', limits, a, ev, w, r, out);
    case Client(a, d) => DialPermitted(g, g', limits, a, t, d, out);
    case Arrival(accept) =>
      AnswersPlain(g, g', t, inbox[0], accept, out);
      NoDataPermitted(limits, out);
  }

  lemma {:induction false} AnswersPlain(g: Graph, g': Graph, t: nat, p: Packet, accept: bool, out: seq<(nat, Packet)>)
    requires Handled(g, g', t, p, accept, out)
    ensures NoData(out)
  {
    hide Answered, Accepted;
  }

  // ----- the steps, seen from the host; the device's are the same the other way round -----

  /** The end e sends what `out` has for transport t; without being online only CLSEs and OKAYs. */
  ghost predicate SendsOn(e: End, t: nat, limits: map<nat, nat>, out: seq<(nat, Packet)>) {
    t in limits && limits[t] == e.limit && (e.online || NoData(out))
  }

  /** The host's layer takes a step of its own: an fd event or a new client. */
  ghost predicate HostActs(c: Joint, c': Joint, t: nat) {
    exists why: Cause, limits, out ::
      && !why.Arrival? && Limited(c.host, c'.host, t, limits, why, [], out) && SendsOn(c.link.host, t, limits, out)
      && c'.device == c.device && c'.link == c.link.(hd := c.link.hd + Datas(On(t, out)))
  }

  /**
   * The host receives a packet. If its header is refused nobody sees it; it is ignored while offline. On
   * a CNXN the sockets of the transport are closed, which may change any of the layer and send CLSEs.
   */
  ghost predicate HostReceives(c: Joint, c': Joint, t: nat) {
    var link := Next(c.link, HostReceive);
    && c.link.dh != [] && c'.device == c.device
    && match c.link.dh[0]
       case Cnxn(_) =>
         Valid(c'.host) && exists out :: NoData(out) && c'.link == link.(hd := link.hd + Datas(On(t, out)))
       case Data(p) =>
         if Checked(c.link.host, p) != [] || !c.link.host.online then c'.host == c.host && c'.link == link
         else exists accept, limits, out ::
             && Limited(c.host, c'.host, t, limits, Cause.Arrival(accept), [p], out) && SendsOn(c.link.host, t, limits, out)
             && c'.link == link.(hd := link.hd + Datas(On(t, out)))
  }

  ghost predicate DeviceActs(c: Joint, c': Joint, t: nat) {
    exists why: Cause, limits, out ::
      && !why.Arrival? && Limited(c.device, c'.device, t, limits, why, [], out) && SendsOn(c.link.device, t, limits, out)
      && c'.host == c.host && c'.link == c.link.(dh := c.link.dh + Datas(On(t, out)))
  }

  ghost predicate DeviceReceives(c: Joint, c': Joint, t: nat) {
    var link := Next(c.link, DeviceReceive);
    && c.link.hd != [] && c'.host == c.host
    && match c.link.hd[0]
       case Cnxn(_) =>
         Valid(c'.device) && exists out :: NoData(out) && c'.link == link.(dh := link.dh + Datas(On(t, out)))
       case Data(p) =>
         if Checked(c.link.device, p) != [] || !c.link.device.online then c'.device == c.device && c'.link == link
         else exists accept, limits, out ::
             && Limited(c.device, c'.device, t, limits, Cause.Arrival(accept), [p], out) && SendsOn(c.link.device, t, limits, out)
             && c'.link == link.(dh := link.dh + Datas(On(t, out)))
  }

  ghost predicate Greets(c: Joint, c': Joint) {
    && c'.host == c.host && c'.device == c.device
    && (c'.link == Next(c.link, HostConnect) || c'.link == Next(c.link, DeviceAnswer))
  }

  ghost predicate JointMoves(c: Joint, c': Joint, ht: nat, dt: nat) {
    || Greets(c, c') || HostActs(c, c', ht) || HostReceives(c, c', ht) || DeviceActs(c, c', dt) || DeviceReceives(c, c', dt)
  }

  ghost predicate JointRun(cs: seq<Joint>, hostOwn: nat, deviceOwn: nat, ht: nat, dt: nat) {
    && cs != [] && cs[0] == Joint(LayerTheorems.NEW, LayerTheorems.NEW, Start(hostOwn, deviceOwn))
    && forall k :: 0 < k < |cs| ==> JointMoves(cs[k - 1], cs[k], ht, dt)
  }

  // ----- they are steps of the exchange -----

  /** Packets the end may send, one by one. */
  function Sends(ps: seq<Packet>, host: bool): seq<Step> {
    if ps == [] then [] else [if host then HostSend(ps[0]) else DeviceSend(ps[0])] + Sends(ps[1..], host)
  }

  ghost predicate AllMay(e: End, ps: seq<Packet>) {
    forall k :: 0 <= k < |ps| ==> MaySend(e, ps[k])
  }

  lemma SendGoesOut(s: Link, p: Packet, host: bool)
    requires MaySend(if host then s.host else s.device, p)
    ensures Next(s, if host then HostSend(p) else DeviceSend(p))
         == if host then s.(hd := s.hd + [Data(p)]) else s.(dh := s.dh + [Data(p)])
  {
  }

  /** Nothing the layer sends is held back: the guard of a send is always met. */
  lemma {:induction false} SendsGoOut(s: Link, ps: seq<Packet>, host: bool)
    requires AllMay(if host then s.host else s.device, ps)
    ensures Onward(s, Sends(ps, host)) == if host then s.(hd := s.hd + Datas(ps)) else s.(dh := s.dh + Datas(ps))
    decreases |ps|
  {
    hide MaySend, Next;
    if ps == [] {
      assert s.hd + [] == s.hd && s.dh + [] == s.dh;
    } else {
      var one := if host then HostSend(ps[0]) else DeviceSend(ps[0]);
      var s1 := Next(s, one);
      assert MaySend(if host then s.host else s.device, ps[0]);
      SendGoesOut(s, ps[0], host);
      SendsGoOut(s1, ps[1..], host);
      OnwardOne(s, one);
      OnwardTwice(s, [one], Sends(ps[1..], host));
      assert s.hd + [Data(ps[0])] + Datas(ps[1..]) == s.hd + Datas(ps);
      assert s.dh + [Data(ps[0])] + Datas(ps[1..]) == s.dh + Datas(ps);
    }
  }

  /** What is permitted by the limits may be sent. */
  lemma {:induction false} PermittedMay(e: End, t: nat, limits: map<nat, nat>, out: seq<(nat, Packet)>)
    requires AllPermitted(limits, out) && SendsOn(e, t, limits, out)
    ensures AllMay(e, On(t, out))
  {
    hide Allowed;
    if out != [] {
      assert Permitted(limits, out[0]);
      forall k | 0 <= k < |out[1..]| ensures Permitted(limits, out[1..][k]) {
        assert out[1..][k] == out[k + 1];
      }
      PermittedMay(e, t, limits, out[1..]);
    }
  }

  lemma {:induction false} PlainMay(e: End, t: nat, out: seq<(nat, Packet)>)
    requires NoData(out)
    ensures AllMay(e, On(t, out))
  {
    hide Allowed;
    if out != [] {
      PlainAllowed(out[0].1, e.limit);
      forall k | 0 <= k < |out[1..]| ensures out[1..][k].1.Stream? && !out[1..][k].1.msg.Wrte? {
        assert out[1..][k] == out[k + 1];
      }
      PlainMay(e, t, out[1..]);
    }
  }

  lemma {:induction false} ActsOnward(c: Joint, c': Joint, t: nat, host: bool) returns (steps: seq<Step>)
    requires if host then HostActs(c, c', t) else DeviceActs(c, c', t)
    ensures c'.link == Onward(c.link, steps)
  {
    hide Limited, SendsOn, AllMay, Onward;
    var g, g', e := if host then c.host else c.device, if host then c'.host else c'.device, if host then c.link.host else c.link.device;
    var why: Cause, limits, out :|
      && !why.Arrival? && Limited(g, g', t, limits, why, [], out) && SendsOn(e, t, limits, out)
      && c'.link == if host then c.link.(hd := c.link.hd + Datas(On(t, out))) else c.link.(dh := c.link.dh + Datas(On(t, out)));
    LimitedPermitted(g, g', t, limits, why, [], out);
    PermittedMay(e, t, limits, out);
    SendsGoOut(c.link, On(t, out), host);
    steps := Sends(On(t, out), host);
  }

  /** A receive and the answers to it. */
  lemma {:induction false} AnswersOnward(s: Link, step: Step, ps: seq<Packet>, host: bool) returns (steps: seq<Step>)
    requires var link := Next(s, step); AllMay(if host then link.host else link.device, ps)
    ensures var link := Next(s, step);
            Onward(s, steps) == if host then link.(hd := link.hd + Datas(ps)) else link.(dh := link.dh + Datas(ps))
  {
    hide Next, AllMay;
    SendsGoOut(Next(s, step), ps, host);
    OnwardOne(s, step);
    OnwardTwice(s, [step], Sends(ps, host));
    steps := [step] + Sends(ps, host);
  }

  lemma {:induction false} HostReceivesOnward(c: Joint, c': Joint, t: nat) returns (steps: seq<Step>)
    requires HostReceives(c, c', t)
    ensures c'.link == Onward(c.link, steps)
  {
    hide Limited, SendsOn, AllMay, Onward, Datas, On, Valid, Checked;
    var link := Next(c.link, HostReceive);
    match c.link.dh[0]
    case Cnxn(_) =>
      var out :| NoData(out) && c'.link == link.(hd := link.hd + Datas(On(t, out)));
      PlainMay(link.host, t, out);
      steps := AnswersOnward(c.link, HostReceive, On(t, out), true);
    case Data(p) =>
      if Checked(c.link.host, p) != [] || !c.link.host.online {
        OnwardOne(c.link, HostReceive);
        steps := [HostReceive];
      } else {
        var accept, limits, out :|
          && Limited(c.host, c'.host, t, limits, Cause.Arrival(accept), [p], out) && SendsOn(c.link.host, t, limits, out)
          && c'.link == link.(hd := link.hd + Datas(On(t, out)));
        LimitedPermitted(c.host, c'.host, t, limits, Cause.Arrival(accept), [p], out);
        PermittedMay(c.link.host, t, limits, out);
        steps := AnswersOnward(c.link, HostReceive, On(t, out), true);
      }
  }

  lemma {:induction false} DeviceReceivesOnward(c: Joint, c': Joint, t: nat) returns (steps: seq<Step>)
    requires DeviceReceives(c, c', t)
    ensures c'.link == Onward(c.link, steps)
  {
    hide Limited, SendsOn, AllMay, Onward, Datas, On, Valid, Checked;
    var link := Next(c.link, DeviceReceive);
    match c.link.hd[0]
    case Cnxn(_) =>
      var out :| NoData(out) && c'.link == link.(dh := link.dh + Datas(On(t, out)));
      PlainMay(link.device, t, out);
      steps := AnswersOnward(c.link, DeviceReceive, On(t, out), false);
    case Data(p) =>
      if Checked(c.link.device, p) != [] || !c.link.device.online {
        OnwardOne(c.link, DeviceReceive);
        steps := [DeviceReceive];
      } else {
        var accept, limits, out :|
          && Limited(c.device, c'.device, t, limits, Cause.Arrival(accept), [p], out) && SendsOn(c.link.device, t, limits, out)
          && c'.link == link.(dh := link.dh + Datas(On(t, out)));
        LimitedPermitted(c.device, c'.device, t, limits, Cause.Arrival(accept), [p], out);
        PermittedMay(c.link.device, t, limits, out);
        steps := AnswersOnward(c.link, DeviceReceive, On(t, out), false);
      }
  }

  lemma {:induction false} MoveOnward(c: Joint, c': Joint, ht: nat, dt: nat) returns (steps: seq<Step>)
    requires JointMoves(c, c', ht, dt)
    ensures c'.link == Onward(c.link, steps)
  {
    hide Next, Onward, HostActs, HostReceives, DeviceActs, DeviceReceives;
    if Greets(c, c') {
      steps := [if c'.link == Next(c.link, HostConnect) then HostConnect else DeviceAnswer];
      OnwardOne(c.link, steps[0]);
    } else if HostActs(c, c', ht) {
      steps := ActsOnward(c, c', ht, true);
    } else if HostReceives(c, c', ht) {
      steps := HostReceivesOnward(c, c', ht);
    } else if DeviceActs(c, c', dt) {
      steps := ActsOnward(c, c', dt, false);
    } else {
      steps := DeviceReceivesOnward(c, c', dt);
    }
  }

  /** Every run of the two layers and the exchange is, on the link, a run of PayloadAgreement. */
  lemma {:induction false} JointRefines(cs: seq<Joint>, hostOwn: nat, deviceOwn: nat, ht: nat, dt: nat)
    returns (steps: seq<Step>)
    requires JointRun(cs, hostOwn, deviceOwn, ht, dt)
    ensures cs[|cs| - 1].link == Onward(Start(hostOwn, deviceOwn), steps)
  {
    hide JointMoves, Onward;
    var n := |cs| - 1;
    if n == 0 {
      steps := [];
      NoStep(Start(hostOwn, deviceOwn));
    } else {
      var before := JointRefines(cs[..n], hostOwn, deviceOwn, ht, dt);
      var more := MoveOnward(cs[n - 1], cs[n], ht, dt);
      OnwardTwice(Start(hostOwn, deviceOwn), before, more);
      steps := before + more;
    }
  }

  lemma NoStep(s: Link)
    ensures Onward(s, []) == s
  {
  }

  /**
   * No packet that the layers send is refused by the far end's header check, for any two limits but 0;
   * and an end that is online holds the smaller limit.
   */
  lemma {:induction false} NothingRefused(cs: seq<Joint>, hostOwn: nat, deviceOwn: nat, ht: nat, dt: nat)
    requires JointRun(cs, hostOwn, deviceOwn, ht, dt)
    ensures var s := cs[|cs| - 1].link;
            && (Min(hostOwn, deviceOwn) != 0 ==> s.refused == [])
            && (forall p :: p in s.refused ==> p.Open?)
            && (s.host.online ==> s.host.limit == Min(hostOwn, deviceOwn))
            && (s.device.online ==> s.device.limit == Min(hostOwn, deviceOwn))
  {
    hide JointRun, Onward, Run;
    var steps := JointRefines(cs, hostOwn, deviceOwn, ht, dt);
    RunIsOnward(hostOwn, deviceOwn, steps);
    LimitsAgree(hostOwn, deviceOwn, steps);
  }
}
