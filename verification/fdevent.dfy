/**
 * The event loop of fdevent.cpp. It keeps three views of the same facts, the state bits of each
 * fdevent, the poll map and the pending list, while callbacks install, remove and re-arm events.
 */
module Fdevent {
  import opened AdbBase

  type Addr = nat

  const FDE_READ: bv16 := 0x0001
  const FDE_WRITE: bv16 := 0x0002
  const FDE_ERROR: bv16 := 0x0004
  const FDE_DONT_CLOSE: bv16 := 0x0080
  const FDE_EVENTMASK: bv16 := 0x00ff
  const FDE_STATEMASK: bv16 := 0xff00
  const FDE_ACTIVE: bv16 := 0x0100
  const FDE_PENDING: bv16 := 0x0200
  const FDE_CREATED: bv16 := 0x0400

  const POLLIN: bv16 := 0x0001
  const POLLOUT: bv16 := 0x0004
  const POLLRDHUP: bv16 := 0x2000
  const POLLERR: bv16 := 0x0008
  const POLLHUP: bv16 := 0x0010
  const POLLNVAL: bv16 := 0x0020
  /** What poll reports unasked, and the far end's hang-up. */
  const POLLTROUBLE: bv16 := POLLERR | POLLHUP | POLLNVAL | POLLRDHUP

  /** The record's address stands for its callback and argument. */
  datatype Fde = Fde(fd: int, state: bv16, events: bv16, forceEof: bool)

  datatype PollNode = PollNode(fde: Addr, events: bv16)

  /** What a callback does, call by call. A kick is what the subproc handler does for a shell's fd. */
  datatype Op =
    | Install(fde: Addr, fd: int, created: bool)
    | Remove(fde: Addr)
    | Destroy(fde: Addr)
    | Set(fde: Addr, events: bv16)
    | Add(fde: Addr, events: bv16)
    | Del(fde: Addr, events: bv16)
    | Kick(fd: int, moreData: bool, callback: seq<Op>)

  /** The history: callbacks made, with who owned the fd and what it wanted then, and why a pending event went unheard. */
  datatype Happening = Called(fde: Addr, events: bv16, owner: Option<Addr>, interest: bv16) | Removed(fde: Addr) | Unwanted(fde: Addr)

  /** The three bit operations by name, so that proofs can do without what they mean. */
  function And(x: bv16, y: bv16): bv16 { x & y }
  function Or(x: bv16, y: bv16): bv16 { x | y }
  function Clear(x: bv16, y: bv16): bv16 { x & !y }

  predicate Has(bits: bv16, flag: bv16) { And(bits, flag) != 0 }
  predicate Active(f: Fde) { Has(f.state, FDE_ACTIVE) }
  predicate Pending(f: Fde) { Has(f.state, FDE_PENDING) }
  function Interest(f: Fde): bv16 { And(f.state, FDE_EVENTMASK) }

  /** fdevent_update on the state bits. */
  function WithInterest(state: bv16, events: bv16): bv16 { Or(And(state, FDE_STATEMASK), events) }

  /** fdevent_update on the poll bits. */
  function PollBits(bits: bv16, events: bv16): bv16 {
    var b := if Has(events, FDE_READ) then Or(bits, POLLIN) else Clear(bits, POLLIN);
    if Has(events, FDE_WRITE) then Or(b, POLLOUT) else Clear(b, POLLOUT)
  }

  /** How fdevent_process reads the bits poll returned: trouble is faked as a read. */
  function Reported(revents: bv16): bv16 {
    (if Has(revents, POLLIN) then FDE_READ else 0)
    | (if Has(revents, POLLOUT) then FDE_WRITE else 0)
    | (if Has(revents, POLLTROUBLE) then FDE_READ | FDE_ERROR else 0)
  }

  lemma StateBits(state: bv16, events: bv16)
    requires And(events, FDE_EVENTMASK) == events
    ensures var s := WithInterest(state, events);
            && And(s, FDE_EVENTMASK) == events
            && Has(s, FDE_ACTIVE) == Has(state, FDE_ACTIVE) && Has(s, FDE_PENDING) == Has(state, FDE_PENDING)
            && Has(s, FDE_CREATED) == Has(state, FDE_CREATED)
            && Has(s, FDE_READ) == Has(events, FDE_READ) && Has(s, FDE_WRITE) == Has(events, FDE_WRITE)
  {
  }

  lemma MarkBits(state: bv16)
    ensures var s := Or(state, FDE_PENDING);
            && Has(s, FDE_PENDING) && Has(s, FDE_ACTIVE) == Has(state, FDE_ACTIVE)
            && Has(s, FDE_READ) == Has(state, FDE_READ) && Has(s, FDE_WRITE) == Has(state, FDE_WRITE)
            && And(s, FDE_EVENTMASK) == And(state, FDE_EVENTMASK)
  {
  }

  lemma UnmarkBits(state: bv16)
    ensures var s := Clear(state, FDE_PENDING);
            && !Has(s, FDE_PENDING) && Has(s, FDE_ACTIVE) == Has(state, FDE_ACTIVE)
            && Has(s, FDE_READ) == Has(state, FDE_READ) && Has(s, FDE_WRITE) == Has(state, FDE_WRITE)
            && And(s, FDE_EVENTMASK) == And(state, FDE_EVENTMASK)
  {
  }

  lemma PollBitsSet(bits: bv16, events: bv16)
    ensures Has(PollBits(bits, events), POLLIN) == Has(events, FDE_READ)
    ensures Has(PollBits(bits, events), POLLOUT) == Has(events, FDE_WRITE)
  {
  }

  /** What FDE_READ, FDE_WRITE and FDE_ERROR stand for when poll has come back. */
  predicate Means(events: bv16, revents: bv16) {
    && (Has(events, FDE_READ) <==> Has(revents, POLLIN) || Has(revents, POLLTROUBLE))
    && (Has(events, FDE_WRITE) <==> Has(revents, POLLOUT))
    && (Has(events, FDE_ERROR) <==> Has(revents, POLLTROUBLE))
    && (events == 0 <==> !Has(revents, POLLIN) && !Has(revents, POLLOUT) && !Has(revents, POLLTROUBLE))
  }

  lemma ReportedBits(revents: bv16)
    ensures Means(Reported(revents), revents)
  {
  }

  /** Poll returns nothing but what it was asked for and trouble. */
  predicate Promised(revents: bv16, asked: bv16) { Clear(revents, Or(asked, POLLTROUBLE)) == 0 }

  lemma PromisedBits(revents: bv16, asked: bv16)
    ensures Promised(And(revents, Or(asked, POLLTROUBLE)), asked)
    ensures Promised(revents, asked) && Has(revents, POLLOUT) ==> Has(asked, POLLOUT)
  {
  }

  /** What poll reports of what the kernel has to say; nothing if it fails. */
  type Kernel = Option<int -> bv16>

  function Answered(polled: map<int, PollNode>, k: Kernel): map<int, bv16> {
    if k == None then map[] else map fd | fd in polled :: And(k.value(fd), Or(polled[fd].events, POLLTROUBLE))
  }

  lemma AnswerKept(polled: map<int, PollNode>, k: Kernel)
    ensures k.Some? ==> Answered(polled, k).Keys == polled.Keys
    ensures k == None ==> Answered(polled, k) == map[]
    ensures forall fd :: fd in Answered(polled, k) ==> fd in polled && Promised(Answered(polled, k)[fd], polled[fd].events)
  {
    hide And, Or, Promised;
    forall fd | fd in Answered(polled, k) ensures fd in polled && Promised(Answered(polled, k)[fd], polled[fd].events) {
      PromisedBits(k.value(fd), polled[fd].events);
    }
  }

  /** FDE_WRITE is pending only where it is wanted. */
  predicate Wished(f: Fde) { Has(f.events, FDE_WRITE) ==> Has(f.state, FDE_WRITE) }

  lemma WishedBits(f: Fde, events: bv16)
    ensures Has(And(f.events, events), FDE_WRITE) ==> Has(events, FDE_WRITE)
    ensures Has(Or(f.events, FDE_READ), FDE_WRITE) == Has(f.events, FDE_WRITE)
    ensures Has(Interest(f), FDE_WRITE) == Has(f.state, FDE_WRITE) && !Has(0, FDE_WRITE)
  {
  }

  lemma MoreBits(events: bv16)
    ensures Or(events, FDE_READ) != 0
  {
  }

  // ----- the three views -----

  /** The poll map entry of an fde mirrors its interest. */
  predicate Mirrored(f: Fde, n: PollNode) {
    Has(n.events, POLLIN) == Has(f.state, FDE_READ) && Has(n.events, POLLOUT) == Has(f.state, FDE_WRITE)
  }

  predicate MapOk(fdes: map<Addr, Fde>, polled: map<int, PollNode>) {
    && (forall a :: a in fdes && Active(fdes[a]) ==> fdes[a].fd in polled && polled[fdes[a].fd].fde == a)
    && (forall fd :: fd in polled ==>
          && fd >= 0 && polled[fd].fde in fdes
          && fdes[polled[fd].fde].fd == fd && Active(fdes[polled[fd].fde]) && Mirrored(fdes[polled[fd].fde], polled[fd]))
  }

  /** `popped` has been taken off the list but not called yet. */
  predicate ListOk(fdes: map<Addr, Fde>, pending: seq<Addr>, popped: Option<Addr>) {
    && Distinct(pending) && (popped.Some? ==> popped.value !in pending && popped.value in fdes)
    && (forall a :: a in pending ==> a in fdes)
    && (forall a :: a in fdes ==>
          && (Pending(fdes[a]) <==> a in pending || popped == Some(a))
          && (Pending(fdes[a]) <==> fdes[a].events != 0)
          && (Pending(fdes[a]) ==> Active(fdes[a])) && Wished(fdes[a]))
  }

  /** No callback without events, none for an fde that no longer owned its fd, none with FDE_WRITE unasked. */
  predicate LogOk(log: seq<Happening>) {
    forall i :: 0 <= i < |log| && log[i].Called? ==>
                  && log[i].events != 0 && log[i].owner == Some(log[i].fde)
                  && (Has(log[i].events, FDE_WRITE) ==> Has(log[i].interest, FDE_WRITE))
  }

  /** a's turn came, or a reason why it did not. */
  predicate Heard(log: seq<Happening>, from: nat, a: Addr) {
    exists i :: from <= i < |log| && log[i].fde == a
  }

  /** The log has only grown, and nothing has left the pending list unheard. */
  ghost predicate Went(pending: seq<Addr>, log: seq<Happening>, pending': seq<Addr>, log': seq<Happening>) {
    && |pending'| <= |pending| && log <= log'
    && forall a :: a in pending && a !in pending' ==> Heard(log', |log|, a)
  }

  lemma {:induction false} WentTwice(p: seq<Addr>, l: seq<Happening>, p1: seq<Addr>, l1: seq<Happening>, p2: seq<Addr>, l2: seq<Happening>)
    requires Went(p, l, p1, l1) && Went(p1, l1, p2, l2)
    ensures Went(p, l, p2, l2)
  {
    forall a | a in p && a !in p2 ensures Heard(l2, |l|, a) {
      if a in p1 {
        var i :| |l1| <= i < |l2| && l2[i].fde == a;
        assert |l| <= i;
      } else {
        var i :| |l| <= i < |l1| && l1[i].fde == a;
        assert l2[i] == l1[i];
      }
    }
  }

  /** The front of the list has been popped and called. */
  lemma {:induction false} WentFront(p: seq<Addr>, l: seq<Happening>, p2: seq<Addr>, l2: seq<Happening>)
    requires p != [] && Went(p[1..], l, p2, l2) && Heard(l2, |l|, p[0])
    ensures Went(p, l, p2, l2) && |p2| < |p|
  {
    assert p == [p[0]] + p[1..];
  }

  /** The record fdevent_remove leaves behind. */
  function Retired(f: Fde): Fde {
    Fde(if Has(f.state, FDE_DONT_CLOSE) then f.fd else -1, 0, 0, f.forceEof)
  }

  function Erase(polled: map<int, PollNode>, fd: int): map<int, PollNode> {
    map x | x in polled && x != fd :: polled[x]
  }

  lemma RetireKeepsMap(fdes: map<Addr, Fde>, polled: map<int, PollNode>, a: Addr)
    requires MapOk(fdes, polled) && a in fdes && Active(fdes[a])
    ensures MapOk(fdes[a := Retired(fdes[a])], Erase(polled, fdes[a].fd))
    ensures forall fd :: fd in Erase(polled, fdes[a].fd) <==> fd in polled && polled[fd].fde != a
  {
    assert !Has(0, FDE_ACTIVE);
  }

  lemma {:induction false} RetireKeepsList(fdes: map<Addr, Fde>, pending: seq<Addr>, a: Addr)
    requires ListOk(fdes, pending, None) && a in fdes && Active(fdes[a])
    ensures ListOk(fdes[a := Retired(fdes[a])], if Pending(fdes[a]) then Without(pending, a) else pending, None)
  {
    assert !Has(0, FDE_PENDING) && !Has(0, FDE_WRITE);
    WithoutDistinct(pending, a);
  }

  lemma {:induction false} NotInMap(fdes: map<Addr, Fde>, polled: map<int, PollNode>, pending: seq<Addr>, a: Addr)
    requires MapOk(fdes, polled) && ListOk(fdes, pending, None) && a in fdes && !Active(fdes[a])
    ensures !Pending(fdes[a]) && forall fd :: fd in polled ==> polled[fd].fde != a
  {
  }

  lemma {:induction false} FreeKeeps(fdes: map<Addr, Fde>, polled: map<int, PollNode>, pending: seq<Addr>, a: Addr)
    requires MapOk(fdes, polled) && ListOk(fdes, pending, None) && a in fdes && !Active(fdes[a])
    ensures MapOk(fdes - {a}, polled) && ListOk(fdes - {a}, pending, None)
  {
  }

  lemma {:induction false} SetFacts(f: Fde, fdes: map<Addr, Fde>, pending: seq<Addr>, a: Addr, wanted: bv16)
    requires ListOk(fdes, pending, None) && a in fdes && f == fdes[a]
    ensures And(And(wanted, FDE_EVENTMASK), FDE_EVENTMASK) == And(wanted, FDE_EVENTMASK)
    ensures (!Pending(f) <==> f.events == 0) && (f.events == 0 ==> Without(pending, a) == pending)
    ensures f.events == 0 ==> And(f.events, And(wanted, FDE_EVENTMASK)) == 0
  {
    if f.events == 0 {
      NotThere(pending, a);
    }
  }

  lemma AddBits(state: bv16, more: bv16)
    ensures And(Or(And(state, FDE_EVENTMASK), more), FDE_EVENTMASK) == Or(And(state, FDE_EVENTMASK), And(more, FDE_EVENTMASK))
  {
  }

  lemma DelBits(state: bv16, less: bv16)
    ensures And(Clear(And(state, FDE_EVENTMASK), less), FDE_EVENTMASK) == Clear(And(state, FDE_EVENTMASK), less)
  {
  }

  /** Poll reports events for a, which has none yet. */
  lemma {:induction false} ReportKeeps(fdes: map<Addr, Fde>, polled: map<int, PollNode>, pending: seq<Addr>, a: Addr, f': Fde)
    requires MapOk(fdes, polled) && ListOk(fdes, pending, None) && a in fdes && Active(fdes[a]) && fdes[a].events == 0
    requires f'.events != 0 && f' == fdes[a].(state := Or(fdes[a].state, FDE_PENDING), events := f'.events)
    requires Has(f'.events, FDE_WRITE) ==> Has(fdes[a].state, FDE_WRITE)
    ensures MapOk(fdes[a := f'], polled) && ListOk(fdes[a := f'], pending + [a], None)
    ensures Interest(f') == Interest(fdes[a]) && Active(f')
  {
    MarkBits(fdes[a].state);
    hide And, Or, Clear;
    MarkKeepsMap(fdes, polled, a, f');
    assert a !in pending;
  }

  lemma {:induction false} PopKeeps(fdes: map<Addr, Fde>, pending: seq<Addr>)
    requires ListOk(fdes, pending, None) && pending != []
    ensures ListOk(fdes, pending[1..], Some(pending[0]))
  {
    assert pending == [pending[0]] + pending[1..];
  }

  /** The call takes the events; whoever is called is active and owns its fd. */
  lemma {:induction false} CallKeeps(fdes: map<Addr, Fde>, polled: map<int, PollNode>, pending: seq<Addr>, a: Addr)
    requires MapOk(fdes, polled) && ListOk(fdes, pending, Some(a))
    ensures a in fdes && Pending(fdes[a]) && fdes[a].events != 0
    ensures fdes[a].fd in polled && polled[fdes[a].fd].fde == a
    ensures Has(fdes[a].events, FDE_WRITE) ==> Has(Interest(fdes[a]), FDE_WRITE)
    ensures var f' := fdes[a].(events := 0, state := Clear(fdes[a].state, FDE_PENDING));
            MapOk(fdes[a := f'], polled) && ListOk(fdes[a := f'], pending, None)
  {
    UnmarkBits(fdes[a].state);
    WishedBits(fdes[a], 0);
    hide And, Or, Clear;
    MarkKeepsMap(fdes, polled, a, fdes[a].(events := 0, state := Clear(fdes[a].state, FDE_PENDING)));
  }

  /** A kick makes an fde that is not pending look as if it had just been popped. */
  lemma {:induction false} KickKeeps(fdes: map<Addr, Fde>, polled: map<int, PollNode>, pending: seq<Addr>, a: Addr, f': Fde)
    requires MapOk(fdes, polled) && ListOk(fdes, pending, None) && a in fdes && Active(fdes[a])
    requires f' == fdes[a].(forceEof := true)
          || f' == fdes[a].(forceEof := true, events := Or(fdes[a].events, FDE_READ), state := Or(fdes[a].state, FDE_PENDING))
    ensures MapOk(fdes[a := f'], polled)
    ensures f' == fdes[a].(forceEof := true) || Pending(fdes[a]) ==> ListOk(fdes[a := f'], pending, None)
    ensures f' != fdes[a].(forceEof := true) && !Pending(fdes[a]) ==> ListOk(fdes[a := f'], pending, Some(a))
  {
    MarkBits(fdes[a].state);
    MoreBits(fdes[a].events);
    WishedBits(fdes[a], 0);
    hide And, Or, Clear;
    MarkKeepsMap(fdes, polled, a, f');
  }

  lemma WriteWanted(f: Fde, n: PollNode, got: bv16, events: bv16)
    requires Mirrored(f, n) && Means(events, got) && Promised(got, n.events)
    ensures Has(events, FDE_WRITE) ==> Has(f.state, FDE_WRITE)
  {
    hide And, Or, Clear;
    PromisedBits(got, n.events);
  }

  lemma OrZero(events: bv16)
    ensures Or(0, events) == events
  {
  }

  lemma {:induction false} NewCall(log: seq<Happening>, a: Addr, events: bv16, interest: bv16)
    requires LogOk(log) && events != 0 && (Has(events, FDE_WRITE) ==> Has(interest, FDE_WRITE))
    ensures var log' := log + [Called(a, events, Some(a), interest)]; LogOk(log') && Heard(log', |log|, a)
  {
    assert (log + [Called(a, events, Some(a), interest)])[|log|].fde == a;
  }

  lemma {:induction false} OneLeaves(pending: seq<Addr>, pending': seq<Addr>, log: seq<Happening>, h: Happening)
    requires pending' == Without(pending, h.fde)
    ensures forall a :: a in pending && a !in pending' ==> Heard(log + [h], |log|, a)
  {
    assert (log + [h])[|log|].fde == h.fde;
  }

  /** The record and node once fdevent_set has gone through with `events`. */
  function Rearmed(f: Fde, events: bv16): Fde {
    var s := WithInterest(f.state, events);
    if !Pending(f) then f.(state := s)
    else if And(f.events, events) == 0 then f.(state := Clear(s, FDE_PENDING), events := 0)
    else f.(state := s, events := And(f.events, events))
  }

  lemma RearmedBits(f: Fde, events: bv16)
    requires And(events, FDE_EVENTMASK) == events
    ensures var f' := Rearmed(f, events);
            && Interest(f') == events && Active(f') == Active(f) && f'.fd == f.fd
            && Has(f'.state, FDE_READ) == Has(events, FDE_READ) && Has(f'.state, FDE_WRITE) == Has(events, FDE_WRITE)
            && (Pending(f') <==> Pending(f) && And(f.events, events) != 0)
            && (Pending(f) ==> f'.events == And(f.events, events)) && (!Pending(f) ==> f'.events == f.events)
            && (Pending(f) ==> Wished(f'))
  {
    WishedBits(f, events);
    hide And, Or, Clear;
    StateBits(f.state, events);
    UnmarkBits(WithInterest(f.state, events));
  }

  lemma NodeKeepsMap(fdes: map<Addr, Fde>, polled: map<int, PollNode>, a: Addr, f': Fde, n': PollNode)
    requires MapOk(fdes, polled) && a in fdes && Active(fdes[a]) && Active(f') && f'.fd == fdes[a].fd
    requires n'.fde == a && Mirrored(f', n')
    ensures f'.fd in polled && polled[f'.fd].fde == a
    ensures MapOk(fdes[a := f'], polled[f'.fd := n'])
  {
    hide And;
  }

  lemma RearmKeepsMap(fdes: map<Addr, Fde>, polled: map<int, PollNode>, a: Addr, events: bv16)
    requires MapOk(fdes, polled) && a in fdes && Active(fdes[a]) && And(events, FDE_EVENTMASK) == events
    ensures fdes[a].fd in polled && polled[fdes[a].fd].fde == a
    ensures var n := polled[fdes[a].fd];
            MapOk(fdes[a := Rearmed(fdes[a], events)], polled[fdes[a].fd := PollNode(a, PollBits(n.events, events))])
  {
    hide And, PollBits, Rearmed, Has;
    assert fdes[a].fd in polled && polled[fdes[a].fd].fde == a;
    var n := polled[fdes[a].fd];
    RearmedBits(fdes[a], events);
    PollBitsSet(n.events, events);
    hide MapOk;
    NodeKeepsMap(fdes, polled, a, Rearmed(fdes[a], events), PollNode(a, PollBits(n.events, events)));
  }

  lemma {:induction false} RearmKeepsList(fdes: map<Addr, Fde>, pending: seq<Addr>, a: Addr, events: bv16)
    requires ListOk(fdes, pending, None) && a in fdes && Active(fdes[a]) && And(events, FDE_EVENTMASK) == events
    ensures var f' := Rearmed(fdes[a], events);
            ListOk(fdes[a := f'], if Pending(fdes[a]) && !Pending(f') then Without(pending, a) else pending, None)
  {
    RearmedBits(fdes[a], events);
    WithoutDistinct(pending, a);
    WishedBits(fdes[a], events);
    hide And, Rearmed;
  }

  /** A record is marked pending with some events, or has its events taken for the call. */
  lemma MarkKeepsMap(fdes: map<Addr, Fde>, polled: map<int, PollNode>, a: Addr, f': Fde)
    requires MapOk(fdes, polled) && a in fdes && f'.fd == fdes[a].fd && Active(f') == Active(fdes[a])
    requires Has(f'.state, FDE_READ) == Has(fdes[a].state, FDE_READ)
    requires Has(f'.state, FDE_WRITE) == Has(fdes[a].state, FDE_WRITE)
    ensures MapOk(fdes[a := f'], polled)
  {
    hide And, Or, Clear;
  }

  /** What fdevent_process does to a record: it is pending with what poll reported for its fd, if anything. */
  ghost predicate Polled(f: Fde, f': Fde, revents: map<int, bv16>) {
    && f'.fd == f.fd && f'.forceEof == f.forceEof && Interest(f') == Interest(f) && Active(f') == Active(f)
    && f'.events == (if Active(f) && f.fd in revents then Reported(revents[f.fd]) else 0)
  }

  lemma PolledMeans(before: map<Addr, Fde>, fdes: map<Addr, Fde>, revents: map<int, bv16>)
    requires fdes.Keys == before.Keys && forall a :: a in fdes ==> Polled(before[a], fdes[a], revents)
    ensures forall a :: a in fdes ==>
              if Active(before[a]) && before[a].fd in revents then Means(fdes[a].events, revents[before[a].fd])
              else fdes[a].events == 0
  {
    hide Reported, Means, And;
    forall a | a in fdes && Active(before[a]) && before[a].fd in revents
      ensures Means(fdes[a].events, revents[before[a].fd])
    {
      ReportedBits(revents[before[a].fd]);
    }
  }

  lemma NoneMarked(fdes: map<Addr, Fde>)
    requires ListOk(fdes, [], None)
    ensures forall a :: a in fdes ==> Polled(fdes[a], fdes[a], map[])
  {
    hide And;
  }

  lemma PolledMore(before: map<Addr, Fde>, fdes: map<Addr, Fde>, revents: map<int, bv16>, fd: int, got: bv16, a: Addr)
    requires fdes.Keys == before.Keys && a in before && before[a].fd == fd && Active(before[a]) && fd !in revents
    requires forall x :: x in before && Active(before[x]) && before[x].fd == fd ==> x == a
    requires forall x :: x in fdes && x != a ==> Polled(before[x], fdes[x], revents)
    requires Polled(before[a], fdes[a], revents[fd := got])
    ensures forall x :: x in fdes ==> Polled(before[x], fdes[x], revents[fd := got])
  {
  }

  lemma PolledSame(before: map<Addr, Fde>, fdes: map<Addr, Fde>, done: map<int, bv16>, revents: map<int, bv16>)
    requires fdes.Keys == before.Keys && forall a :: a in fdes ==> Polled(before[a], fdes[a], done)
    requires done.Keys == revents.Keys && forall fd :: fd in done ==> done[fd] == revents[fd]
    ensures forall a :: a in fdes ==> Polled(before[a], fdes[a], revents)
  {
    hide Reported, And;
    assert forall fd :: fd in done <==> fd in done.Keys;
    assert forall fd :: fd in revents <==> fd in revents.Keys;
  }

  lemma NotEmpty(fds: set<int>)
    requires fds != {}
    ensures exists fd :: fd in fds
  {
    assert (forall fd :: fd !in fds) ==> fds == {};
  }

  lemma MapEntry(fdes: map<Addr, Fde>, polled: map<int, PollNode>, fd: int)
    requires MapOk(fdes, polled) && fd in polled
    ensures var a := polled[fd].fde;
            && a in fdes && fdes[a].fd == fd && Active(fdes[a]) && Mirrored(fdes[a], polled[fd])
            && forall x :: x in fdes && Active(fdes[x]) && fdes[x].fd == fd ==> x == a
  {
  }

  lemma {:induction false} NoChange(pending: seq<Addr>, log: seq<Happening>)
    ensures Went(pending, log, pending, log)
  {
  }

  lemma {:induction false} HeardStill(log: seq<Happening>, log': seq<Happening>, from: nat, a: Addr)
    requires Heard(log, from, a) && log <= log'
    ensures Heard(log', from, a)
  {
    var i :| from <= i < |log| && log[i].fde == a;
    assert log'[i].fde == a;
  }

  // ----- nothing reported goes unheard -----

  /** One return of poll: who owned the fds then, what it reported, and how long the log was. */
  datatype Poll = Poll(owners: map<int, PollNode>, revents: map<int, bv16>, from: nat)

  predicate Reports(revents: bv16) { Has(revents, POLLIN) || Has(revents, POLLOUT) || Has(revents, POLLTROUBLE) }

  ghost predicate AllHeard(p: Poll, log: seq<Happening>) {
    forall fd :: fd in p.revents && Reports(p.revents[fd]) ==> fd in p.owners && Heard(log, p.from, p.owners[fd].fde)
  }

  lemma {:induction false} AllPending(before: map<Addr, Fde>, fdes: map<Addr, Fde>, polled: map<int, PollNode>, pending: seq<Addr>, revents: map<int, bv16>)
    requires MapOk(fdes, polled) && ListOk(fdes, pending, None) && fdes.Keys == before.Keys
    requires forall a :: a in fdes ==> Polled(before[a], fdes[a], revents)
    requires forall a :: a in fdes && Active(before[a]) && before[a].fd in revents ==> Means(fdes[a].events, revents[before[a].fd])
    ensures forall fd :: fd in revents && fd in polled && Reports(revents[fd]) ==> polled[fd].fde in pending
  {
    hide Reported, And;
    forall fd | fd in revents && fd in polled && Reports(revents[fd]) ensures polled[fd].fde in pending {
      var a := polled[fd].fde;
      assert Polled(before[a], fdes[a], revents);
    }
  }

  lemma {:induction false} DrainedHears(p: Poll, pending: seq<Addr>, log: seq<Happening>, log': seq<Happening>)
    requires p.from == |log| && Went(pending, log, [], log') && p.revents.Keys <= p.owners.Keys
    requires forall fd :: fd in p.revents && fd in p.owners && Reports(p.revents[fd]) ==> p.owners[fd].fde in pending
    ensures AllHeard(p, log') && log <= log'
  {
    hide Reports, Heard;
  }

  lemma {:induction false} StillHeard(polls: seq<Poll>, log: seq<Happening>, log': seq<Happening>)
    requires log <= log' && forall k :: 0 <= k < |polls| ==> AllHeard(polls[k], log)
    ensures forall k :: 0 <= k < |polls| ==> AllHeard(polls[k], log')
  {
    hide Reports, Heard;
    forall k, fd | 0 <= k < |polls| && fd in polls[k].revents && Reports(polls[k].revents[fd])
      ensures fd in polls[k].owners && Heard(log', polls[k].from, polls[k].owners[fd].fde)
    {
      HeardStill(log, log', polls[k].from, polls[k].owners[fd].fde);
    }
  }

  class EventLoop {
    /** All fdevent records there are, installed or not. */
    var fdes: map<Addr, Fde>
    /** g_poll_node_map */
    var polled: map<int, PollNode>
    /** g_pending_list */
    var pending: seq<Addr>
    ghost var log: seq<Happening>

    ghost predicate ValidBut(popped: Option<Addr>)
      reads this
    {
      MapOk(fdes, polled) && ListOk(fdes, pending, popped) && LogOk(log)
    }

    ghost predicate Valid()
      reads this
    {
      ValidBut(None)
    }

    constructor ()
      ensures Valid() && fdes == map[] && polled == map[] && pending == [] && log == []
    {
      fdes, polled, pending := map[], map[], [];
      log := [];
    }

    /** What every operation keeps. */
    twostate predicate Onward()
      reads this
    {
      Went(old(pending), old(log), pending, log)
    }

    // ----- installing and removing -----

    /** fdevent_install or fdevent_create on a record not in use; false if a CHECK aborts the process. */
    method FdeventInstall(a: Addr, fd: int, created: bool) returns (alive: bool)
      requires Valid() && (a in fdes ==> !Active(fdes[a]))
      modifies this
      ensures alive <==> fd >= 0 && fd !in old(polled)
      ensures alive ==> Valid() && pending == old(pending) && log == old(log)
      ensures alive ==> fdes.Keys == old(fdes).Keys + {a} && forall x :: x in old(fdes) && x != a ==> fdes[x] == old(fdes)[x]
      ensures alive ==> Active(fdes[a]) && Interest(fdes[a]) == 0 && fdes[a].fd == fd && polled[fd].fde == a
      ensures alive ==> (Has(fdes[a].state, FDE_CREATED) <==> created)
    {
      if fd < 0 || fd in polled {
        return false;
      }
      assert a !in pending;
      fdes := fdes[a := Fde(fd, if created then FDE_ACTIVE | FDE_CREATED else FDE_ACTIVE, 0, false)];
      polled := polled[fd := PollNode(a, POLLRDHUP)];
      return true;
    }

    /** fdevent_remove. */
    method FdeventRemove(a: Addr)
      requires Valid() && a in fdes
      modifies this
      ensures Valid() && Onward() && fdes.Keys == old(fdes).Keys && !Active(fdes[a])
      ensures forall x :: x in old(fdes) && x != a ==> fdes[x] == old(fdes)[x]
      ensures forall fd :: fd in polled <==> fd in old(polled) && old(polled)[fd].fde != a
      ensures pending == if Pending(old(fdes)[a]) then Without(old(pending), a) else old(pending)
      ensures fdes[a].fd == if !Active(old(fdes)[a]) || Has(old(fdes)[a].state, FDE_DONT_CLOSE) then old(fdes)[a].fd else -1
    {
      hide MapOk, ListOk, Heard;
      var f := fdes[a];
      if Active(f) {
        RetireKeepsMap(fdes, polled, a);
        RetireKeepsList(fdes, pending, a);
        polled := Erase(polled, f.fd);
        if Pending(f) {
          pending := Without(pending, a);
          log := log + [Removed(a)];
          OneLeaves(old(pending), pending, old(log), Removed(a));
        }
        fdes := fdes[a := Retired(f)];
      } else {
        NotInMap(fdes, polled, pending, a);
      }
    }

    /** fdevent_destroy: only for what fdevent_create made. */
    method FdeventDestroy(a: Addr) returns (alive: bool)
      requires Valid() && a in fdes
      modifies this
      ensures alive <==> Has(old(fdes)[a].state, FDE_CREATED)
      ensures alive ==> Valid() && Onward() && fdes.Keys == old(fdes).Keys - {a}
      ensures alive ==> forall x :: x in fdes ==> fdes[x] == old(fdes)[x]
      ensures alive ==> forall fd :: fd in polled <==> fd in old(polled) && old(polled)[fd].fde != a
    {
      if !Has(fdes[a].state, FDE_CREATED) {
        return false;
      }
      FdeventRemove(a);
      FreeKeeps(fdes, polled, pending, a);
      hide MapOk, ListOk, Heard;
      fdes := fdes - {a};
      return true;
    }

    // ----- interest -----

    /** fdevent_set: an event no longer wanted is no longer pending either. */
    method FdeventSet(a: Addr, wanted: bv16) returns (alive: bool)
      requires Valid() && a in fdes
      modifies this
      ensures var events := And(wanted, FDE_EVENTMASK);
              var f := old(fdes)[a];
              && (alive <==> Interest(f) == events || Active(f))
              && (alive ==>
                    && Valid() && Onward() && fdes.Keys == old(fdes).Keys && Interest(fdes[a]) == events
                    && polled.Keys == old(polled).Keys && fdes[a].fd == f.fd && Active(fdes[a]) == Active(f)
                    && (forall x :: x in fdes && x != a ==> fdes[x] == old(fdes)[x])
                    && fdes[a].events == (if Interest(f) == events then f.events else And(f.events, events))
                    && pending == (if fdes[a].events == 0 then Without(old(pending), a) else old(pending)))
    {
      hide MapOk, ListOk, Heard, And, Or, Clear, Rearmed, PollBits, WithInterest;
      var f := fdes[a];
      var events := And(wanted, FDE_EVENTMASK);
      SetFacts(f, fdes, pending, a, wanted);
      if Interest(f) == events {
        return true;
      }
      if !Active(f) {
        return false;
      }
      RearmKeepsMap(fdes, polled, a, events);
      RearmKeepsList(fdes, pending, a, events);
      RearmedBits(f, events);
      var n := polled[f.fd];
      polled := polled[f.fd := PollNode(a, PollBits(n.events, events))];
      fdes := fdes[a := Rearmed(f, events)];
      if Pending(f) && !Pending(fdes[a]) {
        pending := Without(pending, a);
        log := log + [Unwanted(a)];
        OneLeaves(old(pending), pending, old(log), Unwanted(a));
      }
      return true;
    }

    method FdeventAdd(a: Addr, more: bv16) returns (alive: bool)
      requires Valid() && a in fdes
      modifies this
      ensures alive <==> Or(Interest(old(fdes)[a]), And(more, FDE_EVENTMASK)) == Interest(old(fdes)[a]) || Active(old(fdes)[a])
      ensures alive ==> Valid() && Onward() && fdes.Keys == old(fdes).Keys
      ensures alive ==> Interest(fdes[a]) == Or(Interest(old(fdes)[a]), And(more, FDE_EVENTMASK))
      ensures alive ==> forall x :: x in fdes && x != a ==> fdes[x] == old(fdes)[x]
    {
      AddBits(fdes[a].state, more);
      hide MapOk, ListOk, Heard, And, Or, Clear;
      alive := FdeventSet(a, Or(Interest(fdes[a]), more));
    }

    method FdeventDel(a: Addr, less: bv16) returns (alive: bool)
      requires Valid() && a in fdes
      modifies this
      ensures alive <==> Clear(Interest(old(fdes)[a]), less) == Interest(old(fdes)[a]) || Active(old(fdes)[a])
      ensures alive ==> Valid() && Onward() && fdes.Keys == old(fdes).Keys
      ensures alive ==> Interest(fdes[a]) == Clear(Interest(old(fdes)[a]), less)
      ensures alive ==> forall x :: x in fdes && x != a ==> fdes[x] == old(fdes)[x]
    {
      DelBits(fdes[a].state, less);
      hide MapOk, ListOk, Heard, And, Or, Clear;
      alive := FdeventSet(a, Clear(Interest(fdes[a]), less));
    }

    // ----- dispatch -----

    /** The loop body of fdevent_process: what poll said of one fd. */
    method TakeAnswer(fd: int, got: bv16, ghost before: map<Addr, Fde>, ghost done: map<int, bv16>)
      requires Valid() && fd in polled && Promised(got, polled[fd].events) && fd !in done
      requires MapOk(before, polled) && fdes.Keys == before.Keys && forall a :: a in fdes ==> Polled(before[a], fdes[a], done)
      modifies this
      ensures Valid() && log == old(log) && polled == old(polled) && fdes.Keys == old(fdes).Keys
      ensures forall a :: a in fdes ==> Polled(before[a], fdes[a], done[fd := got])
    {
      hide And, Or, Clear, Reported, ListOk, MapOk, Means, Promised;
      ReportedBits(got);
      MapEntry(fdes, polled, fd);
      MapEntry(before, polled, fd);
      var a := polled[fd].fde;
      assert fdes[a].fd == fd && Polled(before[a], fdes[a], done);
      var events := Reported(got);
      OrZero(events);
      WriteWanted(fdes[a], polled[fd], got, events);
      if events != 0 {
        var f := fdes[a];
        var f' := f.(events := Or(f.events, events), state := Or(f.state, FDE_PENDING));
        ReportKeeps(fdes, polled, pending, a, f');
        fdes := fdes[a := f'];
        pending := pending + [a];
      }
      PolledMore(before, fdes, done, fd, got, a);
    }

    /** fdevent_process: `revents` is what poll came back with; false if there was nothing to poll. */
    method FdeventProcess(k: Kernel) returns (alive: bool, ghost revents: map<int, bv16>)
      requires Valid() && pending == []
      modifies this
      ensures alive <==> old(polled) != map[]
      ensures revents == Answered(old(polled), k)
      ensures alive ==> Valid() && log == old(log) && polled == old(polled) && fdes.Keys == old(fdes).Keys
      ensures alive ==> forall fd :: fd in revents ==> fd in polled && Promised(revents[fd], polled[fd].events)
      ensures alive ==> forall a :: a in fdes ==>
                if Active(old(fdes)[a]) && old(fdes)[a].fd in revents then Means(fdes[a].events, revents[old(fdes)[a].fd])
                else fdes[a].events == 0
      ensures alive ==> forall a :: a in fdes ==> Polled(old(fdes)[a], fdes[a], revents)
    {
      hide And, Reported, ListOk, MapOk, LogOk, Means, Promised, Answered, Polled;
      var answer := Answered(polled, k);
      revents := answer;
      AnswerKept(polled, k);
      NoneMarked(fdes);
      PolledMeans(fdes, fdes, map[]);
      if polled == map[] {
        return false, revents;
      }
      if k == None {
        return true, revents;
      }
      var fds: set<int> := polled.Keys;
      ghost var done: map<int, bv16> := map[];
      while fds != {}
        invariant Valid() && log == old(log) && polled == old(polled) && fdes.Keys == old(fdes).Keys
        invariant fds <= polled.Keys && done.Keys == polled.Keys - fds
        invariant forall a :: a in fdes ==> Polled(old(fdes)[a], fdes[a], done)
        invariant forall fd :: fd in done ==> done[fd] == answer[fd]
        decreases |fds|
      {
        NotEmpty(fds);
        var fd: int :| fd in fds;
        fds := fds - {fd};
        TakeAnswer(fd, answer[fd], old(fdes), done);
        done := done[fd := answer[fd]];
      }
      PolledSame(old(fdes), fdes, done, answer);
      PolledMeans(old(fdes), fdes, revents);
      return true, revents;
    }

    /** fdevent_call_fdfunc, for a callback that does `script`. The CHECK on FDE_PENDING cannot fire. */
    method FdeventCallFdfunc(a: Addr, script: seq<Op>) returns (alive: bool)
      requires ValidBut(Some(a))
      modifies this
      ensures alive ==> Valid() && Onward() && Heard(log, |old(log)|, a)
      ensures alive ==> old(log) + [Called(a, old(fdes)[a].events, Some(a), Interest(old(fdes)[a]))] <= log
      decreases script, 1
    {
      hide MapOk, ListOk, LogOk, And, Or, Clear;
      CallKeeps(fdes, polled, pending, a);
      var f := fdes[a];
      assert Pending(f);
      NewCall(log, a, f.events, Interest(f));
      fdes := fdes[a := f.(events := 0, state := Clear(f.state, FDE_PENDING))];
      log := log + [Called(a, f.events, Some(polled[f.fd].fde), Interest(f))];
      ghost var p1, l1 := pending, log;
      alive := RunCallback(script);
      if alive {
        HeardStill(l1, log, |old(log)|, a);
        WentTwice(old(pending), old(log), p1, l1, pending, log);
      }
    }

    /** A callback works through its calls; false if a CHECK in one of them aborts the process. */
    method RunCallback(script: seq<Op>) returns (alive: bool)
      requires Valid()
      modifies this
      ensures alive ==> Valid() && Onward()
      decreases script, 0
    {
      hide MapOk, ListOk, LogOk, Went, Has;
      alive := true;
      NoChange(pending, log);
      for i := 0 to |script|
        invariant alive && Valid() && Onward()
      {
        ghost var p1, l1 := pending, log;
        NoChange(pending, log);
        alive := RunOp(script[i]);
        if !alive {
          return;
        }
        WentTwice(old(pending), old(log), p1, l1, pending, log);
      }
    }

    /** One call. A callback only passes records that exist, and installs only those not in use. */
    method RunOp(op: Op) returns (alive: bool)
      requires Valid()
      modifies this
      ensures alive ==> Valid() && Onward()
      decreases op, 0
    {
      hide MapOk, ListOk, LogOk, Went, And;
      alive := true;
      NoChange(pending, log);
      match op
      case Install(a, fd, created) =>
        if a !in fdes || !Active(fdes[a]) {
          alive := FdeventInstall(a, fd, created);
        }
      case Remove(a) =>
        if a in fdes {
          FdeventRemove(a);
        }
      case Destroy(a) =>
        if a in fdes {
          alive := FdeventDestroy(a);
        }
      case Set(a, events) =>
        if a in fdes {
          alive := FdeventSet(a, events);
        }
      case Add(a, events) =>
        if a in fdes {
          alive := FdeventAdd(a, events);
        }
      case Del(a, events) =>
        if a in fdes {
          alive := FdeventDel(a, events);
        }
      case Kick(fd, moreData, callback) =>
        alive := SubprocEvent(fd, moreData, callback);
    }

    /** fdevent_subproc_event_func, having read fd from the pipe. */
    method SubprocEvent(fd: int, moreData: bool, callback: seq<Op>) returns (alive: bool)
      requires Valid()
      modifies this
      ensures alive ==> Valid() && Onward()
      ensures fd !in old(polled) ==> alive && fdes == old(fdes) && pending == old(pending) && log == old(log)
      ensures fd in old(polled) ==>
                var a := old(polled)[fd].fde;
                var f := old(fdes)[a];
                var f' := if moreData then f.(forceEof := true) else f.(forceEof := true, events := Or(f.events, FDE_READ));
                if moreData || Pending(f) then alive && fdes == old(fdes)[a := f'] && pending == old(pending) && log == old(log)
                else alive ==> old(log) + [Called(a, f'.events, Some(a), Interest(f))] <= log
      decreases callback, 2
    {
      alive := true;
      if fd !in polled {
        return;
      }
      var a := polled[fd].fde;
      var f := fdes[a];
      if moreData {
        KickKeeps(fdes, polled, pending, a, f.(forceEof := true));
        hide MapOk, ListOk, Or, And;
        fdes := fdes[a := f.(forceEof := true)];
        return;
      }
      var f' := f.(forceEof := true, events := Or(f.events, FDE_READ), state := Or(f.state, FDE_PENDING));
      KickKeeps(fdes, polled, pending, a, f');
      if Pending(f) {
        fdes := fdes[a := f.(forceEof := true, events := Or(f.events, FDE_READ))];
        return;
      }
      fdes := fdes[a := f'];
      alive := FdeventCallFdfunc(a, callback);
    }

    /** The inner loop of fdevent_loop: everything pending is called, removed or no longer wanted. */
    method DrainPending() returns (alive: bool)
      requires Valid()
      modifies this
      ensures alive ==> Valid() && pending == [] && Onward()
    {
      hide MapOk, ListOk, LogOk, Went;
      alive := true;
      NoChange(pending, log);
      while pending != []
        invariant alive && Valid() && Onward()
        decreases |pending|
      {
        ghost var p1, l1 := pending, log;
        PopKeeps(fdes, pending);
        var a := pending[0];
        pending := pending[1..];
        var script: seq<Op> := *;
        alive := FdeventCallFdfunc(a, script);
        if !alive {
          return;
        }
        WentFront(p1, l1, pending, log);
        WentTwice(old(pending), old(log), p1, l1, pending, log);
      }
    }

    /** One turn of fdevent_loop: whatever poll reports is heard, that is called, removed, or re-armed without the event. */
    method FdeventRound(k: Kernel) returns (alive: bool, ghost poll: Poll)
      requires Valid() && pending == []
      modifies this
      ensures alive ==> Valid() && pending == [] && old(log) <= log && poll.from == |old(log)| && AllHeard(poll, log)
      ensures poll.owners == old(polled) && poll.revents == Answered(old(polled), k)
    {
      hide MapOk, ListOk, LogOk, Polled, Went, AllHeard, Means, Promised, Answered;
      ghost var before := fdes;
      poll := Poll(polled, Answered(polled, k), |log|);
      ghost var revents;
      alive, revents := FdeventProcess(k);
      if !alive {
        return;
      }
      assert forall fd :: fd in revents ==> fd in polled;
      ghost var p1, l1 := pending, log;
      AllPending(before, fdes, polled, pending, revents);
      alive := DrainPending();
      if alive {
        DrainedHears(poll, p1, l1, log);
      }
    }

    /** fdevent_loop for as many rounds as the kernel gives answers, whatever the callbacks do. */
    method FdeventLoop(ks: seq<Kernel>) returns (alive: bool, ghost polls: seq<Poll>)
      requires Valid() && pending == []
      modifies this
      ensures alive ==> Valid() && pending == [] && old(log) <= log && |polls| == |ks|
      ensures alive ==> forall i :: 0 <= i < |ks| ==>
                |old(log)| <= polls[i].from && polls[i].revents == Answered(polls[i].owners, ks[i]) && AllHeard(polls[i], log)
    {
      hide MapOk, ListOk, LogOk, AllHeard, Answered;
      alive, polls := true, [];
      for i := 0 to |ks|
        invariant alive && Valid() && pending == [] && old(log) <= log && |polls| == i
        invariant forall j :: 0 <= j < i ==>
                    |old(log)| <= polls[j].from && polls[j].revents == Answered(polls[j].owners, ks[j]) && AllHeard(polls[j], log)
      {
        ghost var l1, poll := log, *;
        alive, poll := FdeventRound(ks[i]);
        if !alive {
          return;
        }
        StillHeard(polls, l1, log);
        polls := polls + [poll];
      }
    }
  }
}
