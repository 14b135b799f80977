/**
 * One stream: a socket x on one endpoint, a socket y on the other, and the packets between the two
 * in flight, xy from x to y and yx from y to x. The invariant here holds from the moment the OPEN is
 * accepted; StreamSystem shows that every stream of a whole system is always such a pair.
 */
module StreamPair {
  import opened AdbBase
  import opened StreamSocket

  function Payload(ms: seq<Msg>): Bytes {
    if ms == [] then [] else (if ms[0].Wrte? then ms[0].data else []) + Payload(ms[1..])
  }

  function Okays(ms: seq<Msg>): nat {
    if ms == [] then 0 else (if ms[0].Okay? then 1 else 0) + Okays(ms[1..])
  }

  function Wrtes(ms: seq<Msg>): nat {
    if ms == [] then 0 else (if ms[0].Wrte? then 1 else 0) + Wrtes(ms[1..])
  }

  lemma {:induction false} PayloadAppend(a: seq<Msg>, b: seq<Msg>)
    ensures Payload(a + b) == Payload(a) + Payload(b)
    ensures Okays(a + b) == Okays(a) + Okays(b)
    ensures Wrtes(a + b) == Wrtes(a) + Wrtes(b)
  {
    if a == [] {
      assert a + b == b;
    } else {
      assert (a + b)[1..] == a[1..] + b;
      PayloadAppend(a[1..], b);
    }
  }

  lemma {:induction false} NoPayload(ms: seq<Msg>)
    requires forall k :: 0 <= k < |ms| ==> ms[k] == Clse
    ensures Payload(ms) == [] && Okays(ms) == 0 && Wrtes(ms) == 0
  {
    if ms != [] {
      NoPayload(ms[1..]);
    }
  }

  /** Once a socket has said CLSE it says nothing but CLSE. */
  ghost predicate CloseIsLast(ms: seq<Msg>) {
    forall j, k :: 0 <= j < k < |ms| && ms[j] == Clse ==> ms[k] == Clse
  }

  /** Bytes: what y's fd took, then y's backlog, then the WRTEs in flight, is what x's fd gave. */
  ghost predicate Intact(x: Sock, y: Sock, xy: seq<Msg>) {
    && (!Dead(y) ==> y.put + Flat(y.queue) + Payload(xy) == x.got)
    && (Dead(y) ==> y.put + Flat(y.queue) <= x.got)
    && (Dead(y) && !y.cut ==> Dead(x) && y.put + Flat(y.queue) == x.got)
  }

  /** One direction of the stream, x being the sender. */
  ghost predicate Half(yid: nat, x: Sock, y: Sock, xy: seq<Msg>, yx: seq<Msg>) {
    && SockInv(x)
    && (x.peer.Some? ==> x.peer.value == yid)
    && (Waiting(x) ==> xy == [] && yx != [] && yx[0] == Okay && x.got == [] && x.put == [])
    && (Connected(x) ==> Clse !in xy)
    && (Dead(x) && !Dead(y) ==> Clse in xy || Okay in yx)
    && CloseIsLast(xy)
    && Intact(x, y, xy)
  }

  ghost predicate PairInv(xid: nat, yid: nat, x: Sock, y: Sock, xy: seq<Msg>, yx: seq<Msg>) {
    && Half(yid, x, y, xy, yx)
    && Half(xid, y, x, yx, xy)
  }

  /** The far side has just accepted the OPEN of x: y is connected and its OKAY is on the way. */
  lemma PairBorn(xid: nat, yid: nat, x: Sock)
    requires SockInv(x) && x.peer == None && x.got == [] && x.put == [] && x.queue == []
    requires Dead(x) ==> x.status.Freed? && x.cut
    ensures PairInv(xid, yid, x, Fresh(Some(xid), Some(xid)), [], [Okay])
  {
  }

  /** What one side's step does to its own direction: it may only append. */
  lemma {:induction false} SendKeepsShape(xy: seq<Msg>, more: seq<Msg>)
    requires CloseIsLast(xy) && CloseIsLast(more)
    requires Clse in xy ==> forall m :: m in more ==> m == Clse
    ensures CloseIsLast(xy + more)
  {
    var all := xy + more;
    forall j, k | 0 <= j < k < |all| && all[j] == Clse
      ensures all[k] == Clse
    {
      if j < |xy| <= k {
        assert all[j] in xy && all[k] in more;
      }
    }
  }

  /** What one step of x says of the bytes it moved, given the packets it sent. */
  ghost predicate Moves(x: Sock, x': Sock, more: seq<Msg>) {
    && x'.got == x.got + Payload(more)
    && CloseIsLast(more)
    && (x.peer == None && x'.peer == None ==> forall m :: m in more ==> m == Clse)
    && (x.peer.Some? ==> (Clse in more <==> Dead(x')) && x'.peer == if Dead(x') then None else x.peer)
    && (Dead(x) ==> Dead(x') && (x.cut ==> x'.cut))
  }

  lemma CloseMoves(x: Sock, why: Cause)
    requires x.status.Freed? ==> x.peer == None
    ensures var (x', more) := Close(x, why);
            && Moves(x, x', more)
            && Dead(x') && x'.put == x.put && x'.queue == x.queue
            && (x.peer == None ==> more == [])
            && x'.cut == (x.cut || why.HungUp? || why.WriteError?)
  {
    PayloadAppend([], [Clse]);
  }

  lemma DrainMoves(x: Sock, w: Writes)
    requires SockInv(x) && x.writing
    ensures var (x', more, goOn) := Drain(x, w);
            && Moves(x, x', more)
            && x'.put + Flat(x'.queue) == x.put + Flat(x.queue)
            && (x.peer == None ==> more == [] && x'.peer == None)
            && (goOn ==> more == [Okay] && x'.peer == x.peer && x'.status == x.status && x'.got == x.got && x'.cut == x.cut)
            && (goOn ==> x.peer.Some?)
            && (!Dead(x) && Dead(x') ==> x'.cut)
  {
    var total := |Flat(x.queue)|;
    var n := Min(w.n, total);
    var s' := x.(put := x.put + Flat(x.queue)[..n], queue := DropBytes(x.queue, n));
    DropBytesFlat(x.queue, n);
    assert s'.put + Flat(s'.queue) == x.put + Flat(x.queue) by {
      assert x.put + Flat(x.queue)[..n] + Flat(x.queue)[n..] == x.put + Flat(x.queue);
    }
    if n < total {
      CloseMoves(s', WriteError);
    } else {
      assert Flat(x.queue)[..n] == Flat(x.queue);
      CloseMoves(s'.(queue := []), Drained);
      PayloadAppend([Okay], []);
    }
  }

  lemma {:induction false} ReadPayload(d: Bytes)
    ensures Payload([]) == [] && Payload([Wrte(d)]) == d && Payload([Clse]) == [] && Payload([Wrte(d)] + [Clse]) == d
    ensures [] + [Clse] == [Clse] && forall b: Bytes :: b + [] == b
    ensures CloseIsLast([]) && CloseIsLast([Wrte(d)]) && CloseIsLast([Clse]) && CloseIsLast([Wrte(d)] + [Clse])
    ensures Clse in [Wrte(d)] + [Clse] && Clse !in [Wrte(d)]
  {
    PayloadAppend([], [Clse]);
    PayloadAppend([], [Wrte(d)]);
    PayloadAppend([Wrte(d)], [Clse]);
    assert [Wrte(d)] + [Clse] == [Wrte(d), Clse];
    assert Payload([Clse][1..]) == [] && Payload([Wrte(d)][1..]) == [];
  }

  /** What handing d to the peer sends. */
  function HandedMsgs(x: Sock, d: Bytes): seq<Msg> { if d != [] && x.peer.Some? then [Wrte(d)] else [] }

  lemma {:induction false} HandedMoves(x: Sock, d: Bytes)
    requires SockInv(x) && !x.status.Freed?
    ensures var (h, m) := (Handed(x, d), HandedMsgs(x, d));
            && Moves(x, h, m) && SockInv(h) && h.put == x.put && h.queue == x.queue
            && h.peer == x.peer && h.status == x.status && h.cut == x.cut
  {
    ReadPayload(d);
    hide Payload, CloseIsLast;
  }

  lemma {:induction false} ReadMoves(x: Sock, r: Reads, maxPayload: nat)
    requires SockInv(x) && !x.status.Freed?
    ensures var (x', more) := Read(x, r, maxPayload);
            && Moves(x, x', more) && SockInv(x')
            && x'.put == x.put && x'.queue == x.queue
            && (x.peer == None ==> more == [] && x'.peer == None)
            && (!Dead(x) && Dead(x') ==> x'.cut)
  {
    var d := r.data[..Min(|r.data|, maxPayload)];
    HandedMoves(x, d);
    hide Handed, SockInv, Close, Moves;
    var (h, m) := (Handed(x, d), HandedMsgs(x, d));
    if r.eof && |d| < maxPayload {
      CloseKeepsInv(h);
      CloseMoves(h, HungUp);
      ThenClosed(x, h, Close(h, HungUp).0, d);
    }
  }

  /** A close after data has been handed over. */
  lemma {:induction false} ThenClosed(x: Sock, h: Sock, x': Sock, d: Bytes)
    requires Moves(x, h, HandedMsgs(x, d)) && h.peer == x.peer && h.status == x.status && h.cut == x.cut && SockInv(x)
    requires x'.got == h.got && x'.peer == None && Dead(x') && x'.cut
    ensures Moves(x, x', HandedMsgs(x, d) + (if x.peer.Some? then [Clse] else []))
  {
    var (m, more) := (HandedMsgs(x, d), if x.peer.Some? then [Clse] else []);
    ReadPayload(d);
    PayloadAppend(m, more);
    hide Payload, CloseIsLast;
    assert m + [] == m && [] + more == more;
  }

  lemma CloseKeepsInv(x: Sock)
    requires SockInv(x) && !x.status.Freed?
    ensures SockInv(Close(x, HungUp).0) && Close(x, HungUp).0.got == x.got && Close(x, HungUp).0.peer == None && Close(x, HungUp).0.cut
    ensures Close(x, HungUp).1 == if x.peer.Some? then [Clse] else []
  {
  }

  lemma NothingMoves(x: Sock)
    requires SockInv(x)
    ensures Moves(x, x, [])
  {
    assert x.got + [] == x.got;
  }

  /** The write half, which leaves the socket where it was and at most says OKAY, then the read half. */
  lemma {:induction false} MovesTwice(x: Sock, x1: Sock, x2: Sock, m1: seq<Msg>, m2: seq<Msg>)
    requires Moves(x1, x2, m2) && x1.peer == x.peer && x1.status == x.status && x1.got == x.got && x1.cut == x.cut
    requires m1 == [] || (m1 == [Okay] && x.peer.Some?)
    ensures Moves(x, x2, m1 + m2)
  {
    PayloadAppend(m1, m2);
    assert Payload([Okay]) == Payload([]) == [] && [] + Payload(m2) == Payload(m2);
    assert [] + m2 == m2;
    if m1 == [Okay] {
      assert CloseIsLast([Okay]);
      SendKeepsShape(m1, m2);
      assert Clse in m1 + m2 <==> Clse in m2;
    }
  }

  lemma EventMoves(x: Sock, ev: Event, w: Writes, r: Reads, maxPayload: nat)
    requires SockInv(x) && Enabled(x, ev)
    ensures var (x', more) := OnEvent(x, ev, w, r, maxPayload);
            && Moves(x, x', more) && SockInv(x')
            && x'.put + Flat(x'.queue) == x.put + Flat(x.queue)
            && (x.peer == None ==> more == [] && x'.peer == None)
            && (!Dead(x) && Dead(x') ==> x'.cut)
  {
    hide Drain, Read, SockInv, Payload, Flat, CloseIsLast;
    EventKeepsSockInv(x, ev, w, r, maxPayload);
    EventKeepsSockInv(x, Event(ev.write, false), w, r, maxPayload);
    NothingMoves(x);
    var (x1, m1, goOn) := if ev.write then Drain(x, w) else (x, [], true);
    if ev.write {
      DrainMoves(x, w);
    }
    if goOn && ev.read {
      ReadMoves(x1, r, maxPayload);
      var (x2, m2) := Read(x1, r, maxPayload);
      MovesTwice(x, x1, x2, m1, m2);
    }
  }

  lemma {:induction false} Regroup(a: Bytes, b: Bytes, c: Bytes)
    ensures a + (b + c) == a + b + c
  {
  }

  /** The sender's half of the stream after x has sent `more`. */
  lemma {:induction false} HalfSends(yid: nat, x: Sock, x': Sock, y: Sock, xy: seq<Msg>, yx: seq<Msg>, more: seq<Msg>)
    requires Half(yid, x, y, xy, yx) && Moves(x, x', more) && SockInv(x') && x'.put + Flat(x'.queue) == x.put + Flat(x.queue)
    requires x.peer == None ==> more == [] && x'.peer == None
    ensures Half(yid, x', y, xy + more, yx)
  {
    PayloadAppend(xy, more);
    SendKeepsShape(xy, more);
    assert Flat([]) == [] && Payload([]) == [];
    hide Flat, Payload, CloseIsLast, Intact;
    Regroup(y.put + Flat(y.queue), Payload(xy), Payload(more));
    StaysIntact(x, x', y, xy, more);
    if x.peer == None {
      assert xy + more == xy && x.got + [] == x.got && x'.put + [] == x'.put;
    } else {
      assert Clse in xy + more <==> Clse in xy || Clse in more;
    }
  }

  lemma {:induction false} StaysIntact(x: Sock, x': Sock, y: Sock, xy: seq<Msg>, more: seq<Msg>)
    requires Intact(x, y, xy) && SockInv(x) && x'.got == x.got + Payload(more) && (Dead(x) ==> Dead(x'))
    requires (x.peer == None ==> more == []) && Payload(xy + more) == Payload(xy) + Payload(more)
    ensures Intact(x', y, xy + more)
  {
    assert more == [] ==> xy + more == xy && x.got + [] == x.got;
    hide Flat;
    Regroup(y.put + Flat(y.queue), Payload(xy), Payload(more));
  }

  /** The receiver's half of the other direction. */
  lemma {:induction false} HalfReceives(xid: nat, x: Sock, x': Sock, y: Sock, xy: seq<Msg>, yx: seq<Msg>, more: seq<Msg>)
    requires Half(xid, y, x, yx, xy) && Moves(x, x', more) && x'.put + Flat(x'.queue) == x.put + Flat(x.queue)
    requires (x.peer == None ==> more == []) && (!Dead(x) && Dead(x') ==> x'.cut)
    ensures Waiting(y) && xy != [] ==> (xy + more)[0] == xy[0]
    ensures Half(xid, y, x', yx, xy + more)
  {
    hide Flat, Payload, CloseIsLast;
    assert more == [] ==> xy + more == xy;
    assert Okay in xy ==> Okay in xy + more;
    assert x.put + Flat(x.queue) <= x.put + Flat(x.queue) + Payload(yx);
  }

  /** An fd event on x keeps the pair. */
  lemma {:induction false} PairEvent(xid: nat, yid: nat, x: Sock, y: Sock, xy: seq<Msg>, yx: seq<Msg>,
                                     ev: Event, w: Writes, r: Reads, maxPayload: nat)
    requires PairInv(xid, yid, x, y, xy, yx) && Enabled(x, ev)
    ensures var (x', more) := OnEvent(x, ev, w, r, maxPayload);
            PairInv(xid, yid, x', y, xy + more, yx)
  {
    hide OnEvent, Flat, Payload, CloseIsLast, Intact;
    var (x', more) := OnEvent(x, ev, w, r, maxPayload);
    EventMoves(x, ev, w, r, maxPayload);
    HalfSends(yid, x, x', y, xy, yx, more);
    HalfReceives(xid, x, x', y, xy, yx, more);
  }

  lemma {:induction false} EnqueueMoves(x: Sock, d: Bytes, w: Writes)
    requires SockInv(x) && Connected(x)
    ensures var (x', more, ready) := Enqueue(x, d, w);
            && SockInv(x') && x'.got == x.got
            && (Dead(x') ==> !ready && more == [Clse] && x'.cut && x'.peer == None)
            && (!Dead(x') ==> more == [] && x'.peer == x.peer)
            && (!Dead(x') ==> x'.put + Flat(x'.queue) == x.put + Flat(x.queue) + d)
            && (Dead(x') ==> x'.put + Flat(x'.queue) <= x.put + Flat(x.queue) + d)
  {
    if x.queue != [] {
      FlatAppend(x.queue, d);
    } else {
      var n := Min(w.n, |d|);
      assert d[..n] + d[n..] == d;
      assert x.put + d == (x.put + d[..n]) + d[n..];
      assert [d[n..]][1..] == [];
      assert Flat([d[n..]]) == d[n..];
    }
  }

  /** A packet leaves the channel. */
  lemma {:induction false} FirstGoes(m: Msg, rest: seq<Msg>)
    ensures var yx := [m] + rest;
            && yx[0] == m && yx[1..] == rest && (CloseIsLast(yx) ==> CloseIsLast(rest))
            && Payload(yx) == (if m.Wrte? then m.data else []) + Payload(rest)
            && (Clse in yx <==> m == Clse || Clse in rest) && (Okay in yx <==> m == Okay || Okay in rest)
  {
    var yx := [m] + rest;
    assert yx[1..] == rest;
    assert forall k :: 0 <= k < |rest| ==> rest[k] == yx[k + 1];
  }

  lemma {:induction false} OneClse(xy: seq<Msg>)
    ensures Payload(xy + [Clse]) == Payload(xy) && (CloseIsLast(xy) ==> CloseIsLast(xy + [Clse]))
  {
    PayloadAppend(xy, [Clse]);
    assert Payload([Clse]) == [];
    if CloseIsLast(xy) {
      SendKeepsShape(xy, [Clse]);
    }
  }

  lemma {:induction false} LateOkay(xid: nat, yid: nat, x: Sock, y: Sock, xy: seq<Msg>, rest: seq<Msg>)
    requires PairInv(xid, yid, x, y, xy, [Okay] + rest) && Dead(x)
    ensures PairInv(xid, yid, x, y, xy + [Clse], rest)
  {
    FirstGoes(Okay, rest);
    OneClse(xy);
    hide Flat, Payload, CloseIsLast;
    assert Clse in xy + [Clse] && (Okay in xy ==> Okay in xy + [Clse]);
    assert xy != [] ==> (xy + [Clse])[0] == xy[0];
  }

  lemma {:induction false} TimelyOkay(xid: nat, yid: nat, x: Sock, y: Sock, xy: seq<Msg>, rest: seq<Msg>)
    requires PairInv(xid, yid, x, y, xy, [Okay] + rest) && !Dead(x)
    ensures PairInv(xid, yid, x.(peer := Some(yid), reading := true), y, xy, rest)
  {
    FirstGoes(Okay, rest);
    hide Flat, Payload, CloseIsLast;
    assert !Waiting(y);
  }

  /** An OKAY that arrives at x: first contact, a go-ahead, or a late one that x answers with CLSE. */
  lemma {:induction false} DeliverOkay(xid: nat, yid: nat, x: Sock, y: Sock, xy: seq<Msg>, rest: seq<Msg>, w: Writes)
    requires PairInv(xid, yid, x, y, xy, [Okay] + rest) && yid != 0
    ensures var (x', more) := OnMsg(x, yid, Okay, w);
            PairInv(xid, yid, x', y, xy + more, rest)
  {
    var (x', more) := OnMsg(x, yid, Okay, w);
    if Dead(x) {
      hide Half;
      LateOkay(xid, yid, x, y, xy, rest);
    } else {
      assert xy + more == xy && x' == x.(peer := Some(yid), reading := true);
      hide Half;
      TimelyOkay(xid, yid, x, y, xy, rest);
    }
  }

  /** A WRTE that arrives at x: written, queued, the end of x if its fd fails, or dropped. */
  lemma {:induction false} DeliverWrte(xid: nat, yid: nat, x: Sock, y: Sock, xy: seq<Msg>, d: Bytes, rest: seq<Msg>, w: Writes)
    requires PairInv(xid, yid, x, y, xy, [Wrte(d)] + rest) && yid != 0
    ensures var (x', more) := OnMsg(x, yid, Wrte(d), w);
            PairInv(xid, yid, x', y, xy + more, rest)
  {
    FirstGoes(Wrte(d), rest);
    assert !Waiting(x);
    if Connected(x) {
      TakenWrte(xid, yid, x, y, xy, d, rest, w);
    } else {
      var (x', more) := OnMsg(x, yid, Wrte(d), w);
      hide Flat, Payload, CloseIsLast;
      assert xy + more == xy && x' == x;
      assert Half(yid, x', y, xy + more, rest);
      assert Half(xid, y, x', rest, xy + more);
    }
  }

  /** What the socket that takes a WRTE may answer. */
  lemma {:induction false} TakenAnswers(x: Sock, yid: nat, d: Bytes, w: Writes, xy: seq<Msg>)
    requires SockInv(x) && Connected(x) && x.peer == Some(yid)
    ensures var (x', more) := OnMsg(x, yid, Wrte(d), w);
            && (more == [] || more == [Okay] || more == [Clse]) && Payload(xy + more) == Payload(xy)
            && (CloseIsLast(xy) && Clse !in xy ==> CloseIsLast(xy + more))
  {
    EnqueueMoves(x, d, w);
    var more := OnMsg(x, yid, Wrte(d), w).1;
    hide Enqueue, SockInv;
    PayloadAppend(xy, more);
    assert Payload([Clse]) == Payload([Okay]) == [];
    if CloseIsLast(xy) && Clse !in xy {
      SendKeepsShape(xy, more);
    }
  }

  lemma {:induction false} TakenSends(xid: nat, yid: nat, x: Sock, y: Sock, xy: seq<Msg>, d: Bytes, rest: seq<Msg>, w: Writes)
    requires PairInv(xid, yid, x, y, xy, [Wrte(d)] + rest) && yid != 0 && Connected(x)
    ensures var (x', more) := OnMsg(x, yid, Wrte(d), w);
            Half(yid, x', y, xy + more, rest)
  {
    var more := OnMsg(x, yid, Wrte(d), w).1;
    FirstGoes(Wrte(d), rest);
    EnqueueMoves(x, d, w);
    TakenAnswers(x, yid, d, w, xy);
    hide Flat, Payload, CloseIsLast, Enqueue;
    assert more == [] ==> xy + more == xy;
  }

  lemma {:induction false} TakenGets(xid: nat, yid: nat, x: Sock, y: Sock, xy: seq<Msg>, d: Bytes, rest: seq<Msg>, w: Writes)
    requires PairInv(xid, yid, x, y, xy, [Wrte(d)] + rest) && yid != 0 && Connected(x)
    ensures var (x', more) := OnMsg(x, yid, Wrte(d), w);
            Half(xid, y, x', rest, xy + more)
  {
    var (x', more) := OnMsg(x, yid, Wrte(d), w);
    FirstGoes(Wrte(d), rest);
    EnqueueMoves(x, d, w);
    WrteBytes(x, x', y, d, rest);
    hide Flat, Payload, CloseIsLast, Enqueue;
    assert more == [] ==> xy + more == xy;
  }

  lemma {:induction false} TakenWrte(xid: nat, yid: nat, x: Sock, y: Sock, xy: seq<Msg>, d: Bytes, rest: seq<Msg>, w: Writes)
    requires PairInv(xid, yid, x, y, xy, [Wrte(d)] + rest) && yid != 0 && Connected(x)
    ensures var (x', more) := OnMsg(x, yid, Wrte(d), w);
            PairInv(xid, yid, x', y, xy + more, rest)
  {
    hide Half, OnMsg;
    TakenSends(xid, yid, x, y, xy, d, rest, w);
    TakenGets(xid, yid, x, y, xy, d, rest, w);
  }

  lemma {:induction false} WrteBytes(x: Sock, x': Sock, y: Sock, d: Bytes, rest: seq<Msg>)
    requires !Dead(x) && x.put + Flat(x.queue) + (d + Payload(rest)) == y.got
    requires !Dead(x') ==> x'.put + Flat(x'.queue) == x.put + Flat(x.queue) + d
    requires Dead(x') ==> x'.cut && x'.put + Flat(x'.queue) <= x.put + Flat(x.queue) + d
    ensures Intact(y, x', rest)
  {
    assert x.put + Flat(x.queue) + (d + Payload(rest)) == x.put + Flat(x.queue) + d + Payload(rest);
  }

  /** A CLSE that arrives at x: nothing but CLSEs follow it, so x already holds every byte y gave. */
  lemma {:induction false} DeliverClse(xid: nat, yid: nat, x: Sock, y: Sock, xy: seq<Msg>, rest: seq<Msg>, w: Writes)
    requires PairInv(xid, yid, x, y, xy, [Clse] + rest) && yid != 0
    ensures var (x', more) := OnMsg(x, yid, Clse, w);
            PairInv(xid, yid, x', y, xy + more, rest)
  {
    var yx := [Clse] + rest;
    var (x', more) := OnMsg(x, yid, Clse, w);
    assert yx[1..] == rest && Clse in yx;
    forall k | 0 <= k < |rest| ensures rest[k] == Clse {
      assert yx[0] == Clse && yx[k + 1] == rest[k];
    }
    NoPayload(yx);
    NoPayload(rest);
    MsgKeepsSockInv(x, yid, Clse, w);
    PayloadAppend(xy, more);
    assert Payload([Clse]) == [];
    assert !Waiting(x);
    SendKeepsShape(xy, more);
    assert Half(yid, x', y, xy + more, rest);
    assert Half(xid, y, x', rest, xy + more);
  }

  /** A packet in flight to x that arrives keeps the pair. */
  lemma {:induction false} PairDeliver(xid: nat, yid: nat, x: Sock, y: Sock, xy: seq<Msg>, yx: seq<Msg>, w: Writes)
    requires PairInv(xid, yid, x, y, xy, yx) && yx != [] && yid != 0
    ensures var (x', more) := OnMsg(x, yid, yx[0], w);
            PairInv(xid, yid, x', y, xy + more, yx[1..])
  {
    assert yx == [yx[0]] + yx[1..];
    match yx[0]
    case Okay => DeliverOkay(xid, yid, x, y, xy, yx[1..], w);
    case Wrte(d) => DeliverWrte(xid, yid, x, y, xy, d, yx[1..], w);
    case Clse => DeliverClse(xid, yid, x, y, xy, yx[1..], w);
  }

  lemma {:induction false} PairSwap(xid: nat, yid: nat, x: Sock, y: Sock, xy: seq<Msg>, yx: seq<Msg>)
    ensures PairInv(xid, yid, x, y, xy, yx) <==> PairInv(yid, xid, y, x, yx, xy)
  {
  }
}
