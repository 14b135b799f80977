/**
 * A client's whole conversation with the smart socket of sockets.cpp: any number of requests in any
 * packets, until the socket closes or hands its client over to a service.
 */
module SmartSession {
  import opened AdbBase
  import opened ProtocolStrings
  import opened SmartSocket

  /**
   * What a request comes to: the conversation ends (a host request was answered, or the service, the
   * transport or the device is not there), the transport is chosen, or the client is joined to the service.
   */
  datatype Answer = Ends | TransportChosen | Joins

  /** The oracle: the answer to the last of the services asked for so far. */
  type Host = seq<Bytes> -> Answer

  datatype State = Pending | Broken | Closed | Joined

  /** `rest` is what came after the conversation: for the service if it was joined, else for nobody. */
  datatype Session = Session(services: seq<Bytes>, state: State, held: Held, rest: Bytes)

  const NEW := Session([], Pending, None, [])

  /** A packet from the client. After "transport" the packet is emptied; a socket that closes drops it. */
  function Step(s: Session, p: Bytes, maxPayload: nat, host: Host): Session {
    if !s.state.Pending? then s.(rest := s.rest + p)
    else
      var (held, d) := Take(s.held, p, maxPayload);
      match d
      case Wait => s.(held := held)
      case Fail => s.(state := Broken, held := held, rest := HeldBytes(s.held) + p)
      case Dispatch(service, extra) =>
        var services := s.services + [service];
        match host(services)
        case Ends => Session(services, Closed, held, extra)
        case TransportChosen => Session(services, Pending, Some([]), [])
        case Joins => Session(services, Joined, held, [])
  }

  function Run(s: Session, ps: seq<Bytes>, maxPayload: nat, host: Host): Session
    decreases |ps|
  {
    if ps == [] then s else Run(Step(s, ps[0], maxPayload, host), ps[1..], maxPayload, host)
  }

  /** What a conversation has come to: the services asked for, its state, and the bytes that are left over. */
  datatype Outcome = Outcome(services: seq<Bytes>, state: State, bytes: Bytes)

  function OutcomeOf(s: Session): Outcome {
    Outcome(s.services, s.state, if s.state.Pending? then HeldBytes(s.held) else s.rest)
  }

  /** What it would come to if the bytes were read as one stream and none were lost. */
  function Ideal(services: seq<Bytes>, content: Bytes, host: Host): Outcome
    decreases |content|
  {
    match Decide(content)
    case Wait => Outcome(services, Pending, content)
    case Fail => Outcome(services, Broken, content)
    case Dispatch(service, extra) =>
      var more := services + [service];
      match host(more)
      case Ends => Outcome(more, Closed, extra)
      case TransportChosen => Ideal(more, extra, host)
      case Joins => Outcome(more, Joined, extra)
  }

  // ----- the condition -----

  /**
   * Every request that is followed by anything ends where a packet does, and no packet takes a request
   * over the limit; once the bytes cannot be a request any more nothing matters. `b` is held so far.
   */
  predicate Clean(services: seq<Bytes>, b: Bytes, ps: seq<Bytes>, maxPayload: nat, host: Host)
    decreases |ps|
  {
    if ps == [] then true
    else
      var c := b + ps[0];
      if |c| > maxPayload then Decide(c + Flat(ps[1..])).Fail?
      else
        match Decide(c)
        case Wait => Clean(services, c, ps[1..], maxPayload, host)
        case Fail => true
        case Dispatch(service, extra) =>
          match host(services + [service])
          case Ends => true
          case TransportChosen => extra == [] && Clean(services + [service], [], ps[1..], maxPayload, host)
          case Joins => extra == []
  }

  /** Some packet ends after n bytes. */
  ghost predicate IsCut(ps: seq<Bytes>, n: nat) {
    exists k :: 0 <= k <= |ps| && |Flat(ps[..k])| == n
  }

  /** In the stream `content`, which starts at offset `at`, each request that is followed by anything ends at a cut. */
  ghost predicate EndsAtCuts(services: seq<Bytes>, content: Bytes, host: Host, at: nat, ps: seq<Bytes>)
    decreases |content|
  {
    match Decide(content)
    case Wait => true
    case Fail => true
    case Dispatch(service, extra) =>
      var end := at + 4 + |service|;
      match host(services + [service])
      case Ends => true
      case TransportChosen => IsCut(ps, end) && EndsAtCuts(services + [service], extra, host, end, ps)
      case Joins => IsCut(ps, end)
  }

  // ----- no byte is invented -----

  /** The bytes of the requests for these services. */
  function Asked(services: seq<Bytes>): nat {
    if services == [] then 0 else Asked(services[..|services| - 1]) + 4 + |services[|services| - 1]|
  }

  function Accounted(o: Outcome): nat { Asked(o.services) + |o.bytes| }

  lemma {:induction false} AskedOneMore(services: seq<Bytes>, service: Bytes)
    ensures Asked(services + [service]) == Asked(services) + 4 + |service|
  {
    assert (services + [service])[..|services|] == services;
  }

  /** The parts of a dispatched request. */
  lemma {:induction false} DispatchParts(x: Bytes, y: Bytes)
    requires Decide(x).Dispatch?
    ensures 4 + |Decide(x).service| + |Decide(x).extra| == |x|
    ensures Decide(x + y) == Dispatch(Decide(x).service, Decide(x).extra + y)
  {
    assert (x + y)[..4] == x[..4];
    var n := 4 + Length(x);
    assert (x + y)[4..n] == x[4..n] && (x + y)[n..] == x[n..] + y;
  }

  lemma {:induction false} IdealAccounts(services: seq<Bytes>, content: Bytes, host: Host)
    ensures Accounted(Ideal(services, content, host)) == Asked(services) + |content|
    ensures services <= Ideal(services, content, host).services
    ensures Decide(content).Dispatch? ==> |services| < |Ideal(services, content, host).services|
    decreases |content|
  {
    if Decide(content).Dispatch? {
      var d := Decide(content);
      DispatchParts(content, []);
      AskedOneMore(services, d.service);
      if host(services + [d.service]).TransportChosen? {
        IdealAccounts(services + [d.service], d.extra, host);
      }
    }
  }

  lemma {:induction false} StepAccounts(s: Session, p: Bytes, maxPayload: nat, host: Host)
    ensures Accounted(OutcomeOf(Step(s, p, maxPayload, host))) <= Accounted(OutcomeOf(s)) + |p|
  {
    hide Decide, Asked;
    if s.state.Pending? {
      var (held, d) := Take(s.held, p, maxPayload);
      assert d.Fail? || HeldBytes(held) == HeldBytes(s.held) + p;
      if d.Dispatch? {
        DispatchParts(HeldBytes(held), []);
        AskedOneMore(s.services, d.service);
      }
    }
  }

  lemma {:induction false} RunAccounts(s: Session, ps: seq<Bytes>, maxPayload: nat, host: Host)
    ensures Accounted(OutcomeOf(Run(s, ps, maxPayload, host))) <= Accounted(OutcomeOf(s)) + |Flat(ps)|
    decreases |ps|
  {
    if ps != [] {
      StepAccounts(s, ps[0], maxPayload, host);
      RunAccounts(Step(s, ps[0], maxPayload, host), ps[1..], maxPayload, host);
    }
  }

  /** What comes when all is over is left over. */
  lemma {:induction false} RunOver(s: Session, ps: seq<Bytes>, maxPayload: nat, host: Host)
    requires !s.state.Pending?
    ensures Run(s, ps, maxPayload, host) == s.(rest := s.rest + Flat(ps))
    decreases |ps|
  {
    if ps == [] {
      assert s.rest + [] == s.rest;
    } else {
      RunOver(s.(rest := s.rest + ps[0]), ps[1..], maxPayload, host);
      assert s.rest + ps[0] + Flat(ps[1..]) == s.rest + Flat(ps);
    }
  }

  // ----- the theorem -----

  /** A packet takes the request over the limit. */
  lemma {:induction false} Overflows(s: Session, c: Bytes, ps: seq<Bytes>, maxPayload: nat, host: Host)
    requires s.state.Broken? && s.rest == c
    ensures OutcomeOf(Run(s, ps, maxPayload, host)) == Ideal(s.services, c + Flat(ps), host) <==> Decide(c + Flat(ps)).Fail?
  {
    RunOver(s, ps, maxPayload, host);
    IdealAccounts(s.services, c + Flat(ps), host);
  }

  /** A request that chose the transport is followed, in its packet, by bytes that are lost. */
  lemma {:induction false} ExtraLost(services: seq<Bytes>, extra: Bytes, ps: seq<Bytes>, maxPayload: nat, host: Host)
    requires extra != []
    ensures OutcomeOf(Run(Session(services, Pending, Some([]), []), ps, maxPayload, host)) != Ideal(services, extra + Flat(ps), host)
  {
    RunAccounts(Session(services, Pending, Some([]), []), ps, maxPayload, host);
    IdealAccounts(services, extra + Flat(ps), host);
  }

  /** The first request is complete. */
  lemma {:induction false} Dispatched(s: Session, c: Bytes, ps: seq<Bytes>, maxPayload: nat, host: Host)
    requires Decide(c).Dispatch?
    requires var more := s.services + [Decide(c).service];
             host(more).TransportChosen? && Decide(c).extra == [] ==>
               (OutcomeOf(Run(Session(more, Pending, Some([]), []), ps, maxPayload, host)) == Ideal(more, Flat(ps), host)
                <==> Clean(more, [], ps, maxPayload, host))
    ensures var (d, more) := (Decide(c), s.services + [Decide(c).service]);
            var next := match host(more)
              case Ends => Session(more, Closed, Some(c), d.extra)
              case TransportChosen => Session(more, Pending, Some([]), [])
              case Joins => Session(more, Joined, Some(c), []);
            OutcomeOf(Run(next, ps, maxPayload, host)) == Ideal(s.services, c + Flat(ps), host)
            <==> match host(more) {
              case Ends => true
              case TransportChosen => d.extra == [] && Clean(more, [], ps, maxPayload, host)
              case Joins => d.extra == []
            }
  {
    DispatchParts(c, Flat(ps));
    var (d, more) := (Decide(c), s.services + [Decide(c).service]);
    match host(more)
    case Ends => RunOver(Session(more, Closed, Some(c), d.extra), ps, maxPayload, host);
    case Joins =>
      RunOver(Session(more, Joined, Some(c), []), ps, maxPayload, host);
      assert [] + Flat(ps) == Flat(ps) && |d.extra + Flat(ps)| == |d.extra| + |Flat(ps)|;
    case TransportChosen =>
      if d.extra == [] {
        assert [] + Flat(ps) == Flat(ps);
      } else {
        ExtraLost(more, d.extra, ps, maxPayload, host);
      }
  }

  /**
   * However a conversation is cut into packets, and whatever the host answers: it comes to just what
   * its bytes say, the same services in the same order and the same bytes left over, if and only if
   * the cut is clean.
   */
  lemma {:induction false} SessionIff(s: Session, ps: seq<Bytes>, maxPayload: nat, host: Host)
    requires s.state.Pending? && Decide(HeldBytes(s.held)).Wait? && |HeldBytes(s.held)| <= maxPayload
    requires forall k :: 0 <= k < |ps| ==> |ps[k]| <= maxPayload
    ensures OutcomeOf(Run(s, ps, maxPayload, host)) == Ideal(s.services, HeldBytes(s.held) + Flat(ps), host)
       <==> Clean(s.services, HeldBytes(s.held), ps, maxPayload, host)
    decreases |ps|
  {
    var b := HeldBytes(s.held);
    if ps == [] {
      assert b + [] == b;
    } else {
      var (c, rest) := (b + ps[0], ps[1..]);
      assert c + Flat(rest) == b + Flat(ps);
      assert b == [] ==> c == ps[0];
      var next := Step(s, ps[0], maxPayload, host);
      if |c| > maxPayload {
        Overflows(next, c, rest, maxPayload, host);
      } else {
        match Decide(c)
        case Wait => SessionIff(next, rest, maxPayload, host);
        case Fail =>
          DecideSticks(c, Flat(rest));
          Overflows(next, c, rest, maxPayload, host);
        case Dispatch(service, extra) =>
          if host(s.services + [service]).TransportChosen? && extra == [] {
            assert [] + Flat(rest) == Flat(rest);
            SessionIff(next, rest, maxPayload, host);
          }
          Dispatched(s, c, rest, maxPayload, host);
      }
    }
  }

  // ----- within the limit -----

  lemma {:induction false} FlatParts(x: seq<Bytes>, y: seq<Bytes>)
    ensures Flat(x + y) == Flat(x) + Flat(y)
  {
    if x == [] {
      assert x + y == y;
    } else {
      assert (x + y)[1..] == x[1..] + y;
      FlatParts(x[1..], y);
    }
  }

  lemma {:induction false} Upto(ps: seq<Bytes>, k: nat, n: nat)
    requires k <= n <= |ps|
    ensures |Flat(ps[..k])| <= |Flat(ps[..n])|
  {
    assert ps[..n] == ps[..k] + ps[k..n];
    FlatParts(ps[..k], ps[k..n]);
  }

  /** Between the ends of two packets in a row there is no cut but at the second. */
  lemma {:induction false} NextCut(done: seq<Bytes>, p: Bytes, ps: seq<Bytes>, n: nat)
    requires |Flat(done)| < n <= |Flat(done + [p])|
    ensures IsCut(done + [p] + ps, n) <==> n == |Flat(done + [p])|
  {
    var all := done + [p] + ps;
    assert all[..|done|] == done && all[..|done| + 1] == done + [p];
    forall k | 0 <= k <= |all| && |Flat(all[..k])| == n ensures n == |Flat(done + [p])| {
      if k <= |done| {
        Upto(all, k, |done|);
      } else {
        Upto(all, |done| + 1, k);
      }
    }
  }

  lemma {:induction false} CleanIffCuts(services: seq<Bytes>, b: Bytes, done: seq<Bytes>, ps: seq<Bytes>, at: nat,
                                        maxPayload: nat, host: Host)
    requires Decide(b).Wait? && |Flat(done)| == at + |b| && |b + Flat(ps)| <= maxPayload
    ensures Clean(services, b, ps, maxPayload, host) <==> EndsAtCuts(services, b + Flat(ps), host, at, done + ps)
    decreases |ps|
  {
    hide Decide, IsCut;
    if ps == [] {
      assert b + [] == b;
    } else {
      var (p, c, rest) := (ps[0], b + ps[0], ps[1..]);
      assert c + Flat(rest) == b + Flat(ps) && done + ps == done + [p] + rest;
      FlatAppend(done, p);
      match Decide(c)
      case Wait => CleanIffCuts(services, c, done + [p], rest, at, maxPayload, host);
      case Fail => DecideSticks(c, Flat(rest));
      case Dispatch(service, extra) =>
        RequestCut(b, done, p, rest, at);
        if extra == [] {
          assert [] + Flat(rest) == Flat(rest);
          Undecided();
          CleanIffCuts(services + [service], [], done + [p], rest, at + |c|, maxPayload, host);
        }
    }
  }

  lemma Undecided()
    ensures Decide([]).Wait?
  {
  }

  /** The packet that completes a request ends with it exactly if there is a cut there. */
  lemma {:induction false} RequestCut(b: Bytes, done: seq<Bytes>, p: Bytes, rest: seq<Bytes>, at: nat)
    requires Decide(b).Wait? && |Flat(done)| == at + |b| && Decide(b + p).Dispatch?
    ensures var d := Decide(b + p);
            && Decide(b + p + Flat(rest)) == Dispatch(d.service, d.extra + Flat(rest))
            && (IsCut(done + [p] + rest, at + 4 + |d.service|) <==> d.extra == [])
            && 4 + |d.service| + |d.extra| == |b + p|
  {
    DispatchParts(b + p, Flat(rest));
    WaitsBefore(b, p);
    FlatAppend(done, p);
    NextCut(done, p, rest, at + 4 + |Decide(b + p).service|);
  }

  /** A request is not complete before its last byte. */
  lemma {:induction false} WaitsBefore(b: Bytes, p: Bytes)
    requires Decide(b).Wait? && Decide(b + p).Dispatch?
    ensures |b| < 4 + |Decide(b + p).service|
  {
    assert |b| >= 4 ==> (b + p)[..4] == b[..4];
  }

  /**
   * For a conversation within the payload limit: it comes to what its bytes say if and only if each
   * request that is followed by anything ends where some packet ends.
   */
  lemma {:induction false} PipelineIff(ps: seq<Bytes>, maxPayload: nat, host: Host)
    requires |Flat(ps)| <= maxPayload
    ensures OutcomeOf(Run(NEW, ps, maxPayload, host)) == Ideal([], Flat(ps), host)
       <==> EndsAtCuts([], Flat(ps), host, 0, ps)
  {
    forall k | 0 <= k < |ps| ensures |ps[k]| <= maxPayload {
      Upto(ps, k, k + 1);
      Upto(ps, k + 1, |ps|);
      assert ps[..k + 1] == ps[..k] + [ps[k]] && ps[..|ps|] == ps;
      FlatAppend(ps[..k], ps[k]);
    }
    assert [] + Flat(ps) == Flat(ps) && [] + ps == ps;
    SessionIff(NEW, ps, maxPayload, host);
    CleanIffCuts([], [], [], ps, 0, maxPayload, host);
  }

  /**
   * The smallest case: what is sent behind a request that chose the transport, in the same packet, is
   * dropped, while in a packet of its own it is the next request.
   */
  lemma {:induction false} PipelinedRequestLost(first: Bytes, second: Bytes, maxPayload: nat, host: Host)
    requires 0 < |first| <= 0xffff && 0 < |second| <= 0xffff && 0 !in first && 0 !in second
    requires |Printed(first) + Printed(second)| <= maxPayload && host([first]).TransportChosen?
    ensures OutcomeOf(Run(NEW, [Printed(first) + Printed(second)], maxPayload, host)) == Outcome([first], Pending, [])
    ensures Run(NEW, [Printed(first), Printed(second)], maxPayload, host).services == [first, second]
  {
    hide Step, Printed;
    assert Printed(first) + [] == Printed(first) && Printed(second) + [] == Printed(second);
    var (both, one) := ([Printed(first) + Printed(second)], [Printed(first), Printed(second)]);
    assert both[1..] == [] && one[1..] == [Printed(second)] && one[1..][1..] == [];
    assert [] + [first] == [first] && [first] + [second] == [first, second];
    OneRequest(NEW, first, Printed(second), maxPayload, host);
    OneRequest(NEW, first, [], maxPayload, host);
    var s1 := Session([first], Pending, Some([]), []);
    OneRequest(s1, second, [], maxPayload, host);
    assert Run(s1, one[1..], maxPayload, host) == Step(s1, Printed(second), maxPayload, host);
  }

  /** One packet with a request in it. */
  lemma {:induction false} OneRequest(s: Session, name: Bytes, extra: Bytes, maxPayload: nat, host: Host)
    requires s.state.Pending? && HeldBytes(s.held) == [] && |Printed(name) + extra| <= maxPayload
    requires 0 < |name| <= 0xffff && 0 !in name
    ensures var t := Step(s, Printed(name) + extra, maxPayload, host);
            && t.services == s.services + [name]
            && (host(t.services).TransportChosen? ==> t == Session(s.services + [name], Pending, Some([]), []))
  {
    RequestParses(name, extra);
    hide Decide, Printed;
    assert [] + (Printed(name) + extra) == Printed(name) + extra;
  }

  /** The services alone do not tell: a lost byte that has not grown to a request shows only in what is left over. */
  lemma {:induction false} SameServicesByteLost(first: Bytes, maxPayload: nat, host: Host)
    requires 0 < |first| <= 0xffff && 0 !in first && |Printed(first)| < maxPayload && host([first]).TransportChosen?
    ensures var (o, ideal) := (OutcomeOf(Run(NEW, [Printed(first) + [0x30]], maxPayload, host)), Ideal([], Printed(first) + [0x30], host));
            o.services == ideal.services == [first] && o.bytes == [] && ideal.bytes == [0x30]
  {
    RequestParses(first, [0x30]);
    assert [] + [first] == [first] && [Printed(first) + [0x30]][1..] == [];
  }

  // ----- the code -----

  /** The decision smart_socket_enqueue takes on what it holds. */
  method Judge(data: Bytes) returns (d: Decision)
    ensures d == Decide(data)
  {
    if |data| < 4 {
      return Wait;
    }
    var len := Unhex(data[..4]);
    FourBound(data[..4]);
    if len < 1 || len > MAX_PAYLOAD {
      return Fail;
    }
    if len + 4 > |data| {
      return Wait;
    }
    return Dispatch(data[4..4 + len], data[4 + len..]);
  }

  class Smart {
    /** pkt_first with its data, if any packet has come. */
    var held: Held
    /** The services asked for, what became of the conversation, and what came after it. */
    var services: seq<Bytes>
    var state: State
    ghost var rest: Bytes

    ghost function Now(): Session
      reads this
    {
      Session(services, state, held, rest)
    }

    constructor ()
      ensures Now() == NEW
    {
      held, services, state, rest := None, [], Pending, [];
    }

    /** smart_socket_enqueue; `host` is what handle_host_request and what follows it make of a service. */
    method Enqueue(p: Bytes, maxPayload: nat, host: Host)
      requires state.Pending?
      modifies this
      ensures Now() == Step(old(Now()), p, maxPayload, host)
    {
      hide Decide;
      if held == None {
        held := Some(p);
      } else {
        if |held.value| + |p| > maxPayload {
          rest := held.value + p;
          state := Broken;
          return;
        }
        held := Some(held.value + p);
      }
      var d := Judge(held.value);
      assert held.value == HeldBytes(old(held)) + p;
      match d {
      case Wait =>
      case Fail => state, rest := Broken, held.value;
      case Dispatch(service, extra) =>
        services := services + [service];
        match host(services)
        case Ends => state, rest := Closed, extra;
        case TransportChosen => held, rest := Some([]), [];
        case Joins => state, rest := Joined, [];
      }
    }
  }
}
