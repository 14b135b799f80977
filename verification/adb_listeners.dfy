/**
 * The listener registry of adb_listeners.cpp and the disconnect lists of transport.cpp, which must
 * agree on who listens for whom while the registry is edited in place.
 */
module AdbListeners {
  import opened AdbBase

  type Addr = nat
  type TransportId = nat

  datatype Listener = Listener(localName: string, connectTo: string, transport: Option<TransportId>)

  /** An adisconnect: the one inside a listener, or somebody else's. */
  datatype Disconnect = Of(listener: Addr) | Other(id: nat)

  datatype InstallStatus = Ok | InternalError | CannotBind | CannotRebind | ListenerNotFound

  /** What socket_spec_listen came back with; `port` is set when port 0 was asked for. */
  datatype Listen = Failed | Bound(port: Option<nat>)

  /** A special listener, like the smart socket's. */
  predicate Special(l: Listener) { |l.connectTo| > 0 && l.connectTo[0] == '*' }

  function Decimal(n: nat): string {
    (if n < 10 then "" else Decimal(n / 10)) + [('0' as int + n % 10) as char]
  }

  function PortName(port: nat): string { "tcp:" + Decimal(port) }

  /** The number that some decimal digits stand for, if that is what they are. */
  function Number(s: string): Option<nat> {
    if s == "" then Some(0)
    else
      var c := s[|s| - 1];
      match Number(s[..|s| - 1])
      case Some(n) => if '0' <= c <= '9' then Some(10 * n + (c as int - '0' as int)) else None
      case None => None
  }

  lemma {:induction false} DigitReads(s: string, n: nat, d: nat)
    requires Number(s) == Some(n) && d < 10
    ensures Number(s + [('0' as int + d) as char]) == Some(10 * n + d)
  {
    var t := s + [('0' as int + d) as char];
    assert t[..|t| - 1] == s;
  }

  lemma {:induction false} DecimalReads(n: nat)
    ensures Number(Decimal(n)) == Some(n) && Decimal(n) != "" && (n > 0 ==> Decimal(n)[0] != '0')
  {
    if n < 10 {
      DigitReads("", 0, n);
    } else {
      hide Number;
      DecimalReads(n / 10);
      DigitReads(Decimal(n / 10), n / 10, n % 10);
    }
  }

  /** The name of a listener on a resolved port is "tcp:" and that port in plain decimal digits, no other port's. */
  lemma {:induction false} PortNameReads(port: nat)
    ensures |PortName(port)| > 4 && PortName(port)[..4] == "tcp:" && Number(PortName(port)[4..]) == Some(port)
    ensures port > 0 ==> PortName(port)[4] != '0'
    ensures forall other: nat :: PortName(other) == PortName(port) ==> other == port
  {
    DecimalReads(port);
    assert PortName(port)[4..] == Decimal(port);
    forall other: nat | PortName(other) == PortName(port) ensures other == port {
      DecimalReads(other);
      assert PortName(other)[4..] == Decimal(other);
    }
  }

  // ----- the invariant -----

  ghost predicate ListOk(mem: map<Addr, Listener>, list: seq<Addr>) {
    && Distinct(list) && (forall a :: a in list <==> a in mem)
    && (forall a, b :: a in mem && b in mem && mem[a].localName == mem[b].localName ==> a == b)
    && (forall a :: a in mem ==> (mem[a].transport == None <==> Special(mem[a])))
  }

  /** A listener has transport t exactly if its record is in t's list, and it is there once. */
  ghost predicate Agree(mem: map<Addr, Listener>, discs: map<TransportId, seq<Disconnect>>) {
    && (forall a :: a in mem && mem[a].transport.Some? ==> mem[a].transport.value in discs)
    && (forall t :: t in discs ==> Distinct(discs[t]))
    && (forall t, a :: t in discs ==> (Of(a) in discs[t] <==> a in mem && mem[a].transport == Some(t)))
  }

  predicate Taken(mem: map<Addr, Listener>, name: string) { exists a :: a in mem && mem[a].localName == name }

  function Forget(mem: map<Addr, Listener>, a: Addr): map<Addr, Listener> {
    map x | x in mem && x != a :: mem[x]
  }

  /** RemoveDisconnect for a's record, if it is registered. */
  function Unlisted(discs: map<TransportId, seq<Disconnect>>, l: Listener, a: Addr): map<TransportId, seq<Disconnect>> {
    if l.transport.Some? && l.transport.value in discs
    then discs[l.transport.value := Without(discs[l.transport.value], Of(a))] else discs
  }

  lemma {:induction false} DropKeepsList(mem: map<Addr, Listener>, list: seq<Addr>, a: Addr)
    requires ListOk(mem, list) && a in mem
    ensures ListOk(Forget(mem, a), Without(list, a))
  {
    WithoutDistinct(list, a);
  }

  lemma {:induction false} DropAgrees(mem: map<Addr, Listener>, discs: map<TransportId, seq<Disconnect>>, a: Addr)
    requires Agree(mem, discs) && a in mem
    ensures Agree(Forget(mem, a), Unlisted(discs, mem[a], a))
  {
    if mem[a].transport.Some? {
      WithoutDistinct(discs[mem[a].transport.value], Of(a));
    }
  }

  lemma {:induction false} DropKeeps(mem: map<Addr, Listener>, list: seq<Addr>, discs: map<TransportId, seq<Disconnect>>, a: Addr)
    requires ListOk(mem, list) && Agree(mem, discs) && a in mem
    ensures ListOk(Forget(mem, a), Without(list, a)) && Agree(Forget(mem, a), Unlisted(discs, mem[a], a))
  {
    hide ListOk, Agree;
    DropKeepsList(mem, list, a);
    DropAgrees(mem, discs, a);
  }

  lemma {:induction false} Present(mem: map<Addr, Listener>, list: seq<Addr>)
    requires ListOk(mem, list)
    ensures forall i :: 0 <= i < |list| ==> list[i] in mem
  {
  }

  lemma {:induction false} AddKeeps(mem: map<Addr, Listener>, list: seq<Addr>, discs: map<TransportId, seq<Disconnect>>, a: Addr, l: Listener)
    requires ListOk(mem, list) && Agree(mem, discs) && a !in mem && !Taken(mem, l.localName)
    requires (l.transport == None <==> Special(l)) && (l.transport.Some? ==> l.transport.value in discs)
    ensures ListOk(mem[a := l], list + [a])
    ensures var discs' := if l.transport.Some? then discs[l.transport.value := discs[l.transport.value] + [Of(a)]] else discs;
            Agree(mem[a := l], discs')
  {
  }

  lemma {:induction false} RebindAgrees(mem: map<Addr, Listener>, discs: map<TransportId, seq<Disconnect>>, a: Addr, l: Listener)
    requires Agree(mem, discs) && a in mem && l.transport.Some? && l.transport.value in discs && mem[a].transport.Some?
    ensures mem[a].transport == l.transport ==> Agree(mem[a := l], discs)
    ensures var d := Unlisted(discs, mem[a], a);
            mem[a].transport != l.transport ==>
              l.transport.value in d && Agree(mem[a := l], d[l.transport.value := d[l.transport.value] + [Of(a)]])
  {
    WithoutDistinct(discs[mem[a].transport.value], Of(a));
  }

  lemma {:induction false} RebindKeeps(mem: map<Addr, Listener>, list: seq<Addr>, discs: map<TransportId, seq<Disconnect>>, a: Addr, l: Listener)
    requires ListOk(mem, list) && Agree(mem, discs) && a in mem && mem[a].localName == l.localName
    requires l.transport.Some? && l.transport.value in discs && !Special(l) && mem[a].transport.Some?
    ensures ListOk(mem[a := l], list)
    ensures mem[a].transport == l.transport ==> Agree(mem[a := l], discs)
    ensures var d := Unlisted(discs, mem[a], a);
            mem[a].transport != l.transport ==>
              l.transport.value in d && Agree(mem[a := l], d[l.transport.value := d[l.transport.value] + [Of(a)]])
  {
    hide Agree;
    RebindAgrees(mem, discs, a, l);
  }

  function Elsewhere(t: TransportId): Listener -> bool { (l: Listener) => l.transport != Some(t) }

  /** The listeners of `list` that are kept, in order. */
  function Keep(mem: map<Addr, Listener>, list: seq<Addr>, keep: Listener -> bool): seq<Addr> {
    if list == [] then []
    else (if list[0] in mem && keep(mem[list[0]]) then [list[0]] else []) + Keep(mem, list[1..], keep)
  }

  lemma {:induction false} KeepAppend(mem: map<Addr, Listener>, a: seq<Addr>, b: seq<Addr>, keep: Listener -> bool)
    ensures Keep(mem, a + b, keep) == Keep(mem, a, keep) + Keep(mem, b, keep)
  {
    if a == [] {
      assert a + b == b;
    } else {
      assert (a + b)[1..] == a[1..] + b;
      KeepAppend(mem, a[1..], b, keep);
    }
  }

  lemma KeepNone(mem: map<Addr, Listener>, keep: Listener -> bool)
    ensures Keep(mem, [], keep) == []
  {
  }

  lemma {:induction false} KeepOne(mem: map<Addr, Listener>, list: seq<Addr>, at: nat, keep: Listener -> bool)
    requires at < |list| && list[at] in mem
    ensures Keep(mem, list[..at + 1], keep)
         == Keep(mem, list[..at], keep) + (if keep(mem[list[at]]) then [list[at]] else [])
  {
    assert list[..at + 1] == list[..at] + [list[at]];
    KeepAppend(mem, list[..at], [list[at]], keep);
  }

  /** What is left of `list` once the listeners among `gone` have been disconnected. */
  function Outside(list: seq<Addr>, gone: seq<Disconnect>): seq<Addr> {
    if list == [] then [] else (if Of(list[0]) in gone then [] else [list[0]]) + Outside(list[1..], gone)
  }

  lemma {:induction false} OutsideNone(list: seq<Addr>)
    ensures Outside(list, []) == list
  {
    if list != [] {
      OutsideNone(list[1..]);
    }
  }

  lemma {:induction false} WithoutFirst(x: Addr, rest: seq<Addr>, a: Addr)
    ensures Without([x] + rest, a) == if x == a then Without(rest, a) else [x] + Without(rest, a)
  {
    assert ([x] + rest)[1..] == rest;
  }

  lemma {:induction false} OutsideOne(list: seq<Addr>, gone: seq<Disconnect>, d: Disconnect)
    ensures Outside(list, gone + [d]) == if d.Of? then Without(Outside(list, gone), d.listener) else Outside(list, gone)
    decreases |list|
  {
    if list != [] {
      OutsideOne(list[1..], gone, d);
      if d.Of? {
        WithoutFirst(list[0], Outside(list[1..], gone), d.listener);
      }
      hide Without;
      assert Of(list[0]) in gone + [d] <==> Of(list[0]) in gone || Of(list[0]) == d;
      assert [] + Outside(list[1..], gone) == Outside(list[1..], gone);
      assert [] + Outside(list[1..], gone + [d]) == Outside(list[1..], gone + [d]);
    }
  }

  lemma {:induction false} OutsideKept(mem: map<Addr, Listener>, list: seq<Addr>, gone: seq<Disconnect>, keep: Listener -> bool)
    requires forall i :: 0 <= i < |list| ==> list[i] in mem && (Of(list[i]) in gone <==> !keep(mem[list[i]]))
    ensures Outside(list, gone) == Keep(mem, list, keep)
  {
    if list != [] {
      assert list[0] in mem;
      OutsideKept(mem, list[1..], gone, keep);
    }
  }

  lemma {:induction false} WalkedAll(mem: map<Addr, Listener>, list: seq<Addr>, discs: map<TransportId, seq<Disconnect>>, t: TransportId)
    requires ListOk(mem, list) && Agree(mem, discs) && t in discs
    ensures forall a :: a in mem ==> (Of(a) in discs[t] <==> mem[a].transport == Some(t))
  {
  }

  lemma {:induction false} AgreeAfter(mem: map<Addr, Listener>, mem': map<Addr, Listener>, discs: map<TransportId, seq<Disconnect>>, t: TransportId)
    requires Agree(mem, discs) && t in discs
    requires forall a :: a in mem' <==> a in mem && mem[a].transport != Some(t)
    requires forall a :: a in mem' ==> mem'[a] == mem[a]
    ensures Agree(mem', discs[t := []])
  {
  }

  class Registry {
    /** The listeners there are, by address. */
    var mem: map<Addr, Listener>
    /** listener_list */
    var list: seq<Addr>
    /** disconnects_ of each transport there is. */
    var discs: map<TransportId, seq<Disconnect>>

    ghost predicate Valid()
      reads this
    {
      ListOk(mem, list) && Agree(mem, discs)
    }

    constructor (transports: set<TransportId>)
      ensures Valid() && list == [] && discs.Keys == transports && forall t :: t in transports ==> discs[t] == []
    {
      mem, list := map[], [];
      discs := map t | t in transports :: [];
    }

    method AddDisconnect(t: TransportId, d: Disconnect)
      requires t in discs
      modifies this`discs
      ensures discs == old(discs)[t := old(discs)[t] + [d]]
    {
      discs := discs[t := discs[t] + [d]];
    }

    method RemoveDisconnect(t: TransportId, d: Disconnect)
      requires t in discs
      modifies this`discs
      ensures discs == old(discs)[t := Without(old(discs)[t], d)]
    {
      discs := discs[t := Without(discs[t], d)];
    }

    /** Erasing entry i, and the destructor it runs. */
    method EraseEntry(i: nat)
      requires Valid() && i < |list|
      modifies this
      ensures Valid() && list == Without(old(list), old(list)[i]) && mem == Forget(old(mem), old(list)[i])
      ensures list == old(list)[..i] + old(list)[i + 1..]
      ensures discs == Unlisted(old(discs), old(mem)[old(list)[i]], old(list)[i])
    {
      var a := list[i];
      EraseAt(list, i);
      DropKeeps(mem, list, discs, a);
      hide ListOk, Agree;
      list := list[..i] + list[i + 1..];
      var l := mem[a];
      if l.transport.Some? && l.transport.value in discs {
        RemoveDisconnect(l.transport.value, Of(a));
      }
      mem := Forget(mem, a);
    }

    /** remove_listener; the transport it is given plays no part. */
    method RemoveListener(name: string) returns (status: InstallStatus)
      requires Valid()
      modifies this
      ensures Valid() && status == (if Taken(old(mem), name) then Ok else ListenerNotFound)
      ensures !Taken(mem, name)
      ensures forall a :: a in mem <==> a in old(mem) && old(mem)[a].localName != name
      ensures forall a :: a in mem ==> mem[a] == old(mem)[a]
    {
      for i := 0 to |list|
        invariant Valid() && mem == old(mem) && list == old(list) && discs == old(discs)
        invariant forall k :: 0 <= k < i ==> mem[list[k]].localName != name
      {
        if mem[list[i]].localName == name {
          EraseEntry(i);
          return Ok;
        }
      }
      return ListenerNotFound;
    }

    /** remove_all_listeners: everything goes but the special listeners. */
    method RemoveAllListeners()
      requires Valid()
      modifies this
      ensures Valid() && list == Keep(old(mem), old(list), Special)
      ensures forall a :: a in mem ==> a in old(mem) && mem[a] == old(mem)[a]
    {
      hide ListOk, Agree, Unlisted, Keep;
      var i := 0;
      ghost var at := 0;
      KeepNone(mem, Special);
      assert list[..0] == [] && old(list)[..0] == [];
      while i < |list|
        invariant Valid() && i <= |list| && at <= |old(list)|
        invariant list[..i] == Keep(old(mem), old(list)[..at], Special) && list[i..] == old(list)[at..]
        invariant forall a :: a in mem ==> a in old(mem) && mem[a] == old(mem)[a]
        decreases |list| - i
      {
        Present(mem, list);
        assert list[i] == list[i..][0] == old(list)[at];
        KeepOne(old(mem), old(list), at, Special);
        if Special(mem[list[i]]) {
          i := i + 1;
        } else {
          EraseEntry(i);
        }
        at := at + 1;
      }
      assert list == list[..i] && old(list)[..at] == old(list);
    }

    // ----- installing -----

    /**
     * install_listener. A special listener has no transport, any other has one, and a special one is
     * not asked for under a name that is not special already; `listen` is what the system answered:
     * it never resolves port 0 to a port some listener holds.
     */
    method InstallListener(name: string, connectTo: string, transport: Option<TransportId>, noRebind: bool, listen: Listen, newAddr: Addr)
      returns (status: InstallStatus)
      requires Valid() && newAddr !in mem
      requires (transport == None <==> Special(Listener(name, connectTo, transport))) && (transport.Some? ==> transport.value in discs)
      requires transport == None ==> forall a :: a in mem && mem[a].localName == name ==> Special(mem[a])
      requires listen.Bound? && listen.port.Some? ==> !Taken(mem, PortName(listen.port.value))
      modifies this
      ensures Valid()
      ensures forall a :: a in old(mem) && old(mem)[a].localName == name ==>
                status == if Special(old(mem)[a]) then InternalError else if noRebind then CannotRebind else Ok
      ensures !Taken(old(mem), name) ==> status == if listen.Failed? then CannotBind else Ok
      ensures status != Ok ==> mem == old(mem) && list == old(list) && discs == old(discs)
      ensures status == Ok ==>
                var bound := if !Taken(old(mem), name) && listen.Bound? && listen.port.Some? then PortName(listen.port.value) else name;
                && Taken(mem, bound)
                && (forall a :: a in mem && mem[a].localName == bound ==> mem[a] == Listener(bound, connectTo, transport))
                && (forall a :: a in old(mem) && old(mem)[a].localName != name ==> a in mem && mem[a] == old(mem)[a])
                && (Taken(old(mem), name) ==> list == old(list))
                && (!Taken(old(mem), name) ==> list == old(list) + [newAddr])
    {
      hide Agree, PortName;
      for i := 0 to |list|
        invariant Valid() && mem == old(mem) && list == old(list) && discs == old(discs)
        invariant forall k :: 0 <= k < i ==> mem[list[k]].localName != name
      {
        Present(mem, list);
        if mem[list[i]].localName == name {
          status := Rebind(list[i], connectTo, transport, noRebind);
          assert mem[list[i]].localName == name;
          return;
        }
      }
      assert !Taken(mem, name);
      if listen.Failed? {
        return CannotBind;
      }
      var bound := if listen.port.Some? then PortName(listen.port.value) else name;
      var l := Listener(bound, connectTo, transport);
      AddKeeps(mem, list, discs, newAddr, l);
      mem := mem[newAddr := l];
      if transport.Some? {
        AddDisconnect(transport.value, Of(newAddr));
      }
      list := list + [newAddr];
      assert mem[newAddr].localName == bound;
      return Ok;
    }

    /** The loop body of install_listener on the listener that has the name. */
    method Rebind(a: Addr, connectTo: string, transport: Option<TransportId>, noRebind: bool) returns (status: InstallStatus)
      requires Valid() && a in mem && (transport.Some? ==> transport.value in discs)
      requires transport == None <==> Special(Listener("", connectTo, transport))
      requires transport == None ==> Special(mem[a])
      modifies this
      ensures Valid() && list == old(list)
      ensures status == if Special(old(mem)[a]) then InternalError else if noRebind then CannotRebind else Ok
      ensures status != Ok ==> mem == old(mem) && discs == old(discs)
      ensures status == Ok ==> mem == old(mem)[a := Listener(old(mem)[a].localName, connectTo, transport)]
    {
      var l := mem[a];
      if Special(l) {
        return InternalError;
      }
      if noRebind {
        return CannotRebind;
      }
      RebindKeeps(mem, list, discs, a, Listener(l.localName, connectTo, transport));
      hide ListOk, Agree;
      mem := mem[a := l.(connectTo := connectTo, transport := transport)];
      if l.transport != transport {
        RemoveDisconnect(l.transport.value, Of(a));
        AddDisconnect(transport.value, Of(a));
      }
      return Ok;
    }

    // ----- disconnecting -----

    /** listener_disconnect: the pointer is cleared first, so the destructor leaves the walked list alone. */
    method ListenerDisconnect(a: Addr)
      requires ListOk(mem, list)
      modifies this`mem, this`list
      ensures ListOk(mem, list)
      ensures mem == (if a in old(mem) then Forget(old(mem), a) else old(mem))
      ensures list == Without(old(list), a)
    {
      for i := 0 to |list|
        invariant mem == old(mem) && list == old(list)
        invariant forall k :: 0 <= k < i ==> list[k] != a
      {
        if list[i] == a {
          EraseAt(list, i);
          DropKeepsList(mem, list, a);
          hide ListOk;
          list := list[..i] + list[i + 1..];
          mem := Forget(mem, a);
          return;
        }
      }
      NotThere(list, a);
    }

    /** RunDisconnects: every listener of t goes, no other does, and the list walked stays as it was until cleared. */
    method RunDisconnects(t: TransportId)
      requires Valid() && t in discs
      modifies this
      ensures Valid() && discs == old(discs)[t := []]
      ensures forall a :: a in mem <==> a in old(mem) && old(mem)[a].transport != Some(t)
      ensures forall a :: a in mem ==> mem[a] == old(mem)[a]
      ensures list == Keep(old(mem), old(list), Elsewhere(t))
    {
      var walked := discs[t];
      OutsideNone(list);
      Present(mem, list);
      WalkedAll(mem, list, discs, t);
      hide ListOk, Agree, Outside, Keep;
      for i := 0 to |walked|
        invariant ListOk(mem, list) && discs == old(discs) && walked == discs[t]
        invariant forall a :: a in mem <==> a in old(mem) && Of(a) !in walked[..i]
        invariant forall a :: a in mem ==> mem[a] == old(mem)[a]
        invariant list == Outside(old(list), walked[..i])
      {
        assert walked[..i + 1] == walked[..i] + [walked[i]];
        OutsideOne(old(list), walked[..i], walked[i]);
        match walked[i]
        case Of(a) => ListenerDisconnect(a);
        case Other(_) =>
      }
      assert walked[..|walked|] == walked;
      OutsideKept(old(mem), old(list), walked, Elsewhere(t));
      AgreeAfter(old(mem), mem, discs, t);
      discs := discs[t := []];
    }
  }
}
