/** Flow control of one stream: at most one WRTE is ever unanswered in each direction. */
module StreamCredit {
  import opened AdbBase
  import opened StreamSocket
  import opened StreamPair

  function One(b: bool): nat { if b then 1 else 0 }

  /**
   * The go-ahead of the direction from x to y is in exactly one place: x reads its fd, or its WRTE is
   * in flight, or it is y's backlog, or it is an OKAY on its way back.
   */
  ghost predicate Credit(x: Sock, y: Sock, xy: seq<Msg>, yx: seq<Msg>) {
    && One(x.reading) + Wrtes(xy) + One(y.queue != []) + Okays(yx) == 1
    && |y.queue| <= 1
  }

  /** Both directions, for as long as neither end has closed or handed over data without a go-ahead. */
  ghost predicate CreditInv(x: Sock, y: Sock, xy: seq<Msg>, yx: seq<Msg>) {
    !Dead(x) && !Dead(y) && x.calm && y.calm ==> Credit(x, y, xy, yx) && Credit(y, x, yx, xy)
  }

  lemma CreditBorn(xid: nat, x: Sock)
    requires SockInv(x) && x.peer == None
    ensures CreditInv(x, Fresh(Some(xid), Some(xid)), [], [Okay])
  {
    assert Okays([Okay]) == 1 + Okays([]);
    assert Wrtes([Okay]) == Wrtes([]);
  }

  lemma {:induction false} Counts(ms: seq<Msg>)
    requires ms != []
    ensures Okays(ms) == One(ms[0].Okay?) + Okays(ms[1..])
    ensures Wrtes(ms) == One(ms[0].Wrte?) + Wrtes(ms[1..])
  {
  }

  /** Draining trades a backlog for an OKAY. */
  lemma DrainTrades(x: Sock, w: Writes)
    requires SockInv(x) && x.writing && !Dead(Drain(x, w).0)
    ensures var (x', more, goOn) := Drain(x, w);
            && One(x'.queue != []) + Okays(more) == One(x.queue != []) && Wrtes(more) == 0
            && x'.reading == x.reading && |x'.queue| <= |x.queue| && !Dead(x)
  {
    DropBytesFlat(x.queue, Min(w.n, |Flat(x.queue)|));
    Counts([Okay]);
  }

  /** Reading trades FDE_READ interest for a WRTE, or sends one for which there is no go-ahead. */
  lemma ReadTrades(x: Sock, r: Reads, maxPayload: nat)
    requires SockInv(x) && !Dead(x) && !Dead(Read(x, r, maxPayload).0)
    ensures var (x', more) := Read(x, r, maxPayload);
            var unasked := !x.reading && x.peer.Some? && r.data != [] && maxPayload > 0;
            && One(x'.reading) + Wrtes(more) == One(x.reading) + One(unasked)
            && Okays(more) == 0 && x'.queue == x.queue && x'.calm == (x.calm && !unasked)
  {
    Counts([Wrte(r.data[..Min(|r.data|, maxPayload)])]);
  }

  /**
   * fdevent reports FDE_READ although it is off, because of a hang-up or an error; the handler comes to
   * its read half and finds data, which it hands to the peer without a go-ahead.
   */
  predicate Unasked(x: Sock, ev: Event, w: Writes, r: Reads, maxPayload: nat) {
    ev.read && !x.reading && x.peer.Some? && r.data != [] && maxPayload > 0 && (ev.write ==> Drain(x, w).2)
  }

  lemma DrainStays(x: Sock, w: Writes)
    requires SockInv(x) && x.writing && !Dead(Drain(x, w).0)
    ensures var x' := Drain(x, w).0; SockInv(x') && x'.peer == x.peer && x'.calm == x.calm && x'.reading == x.reading && !Dead(x)
  {
    DropBytesFlat(x.queue, Min(w.n, |Flat(x.queue)|));
  }

  lemma EventStays(x: Sock, ev: Event, w: Writes, r: Reads, maxPayload: nat)
    requires SockInv(x) && Enabled(x, ev) && !Dead(OnEvent(x, ev, w, r, maxPayload).0)
    ensures !Dead(x) && (ev.write ==> !Dead(Drain(x, w).0))
  {
  }

  /** What an event does to the counts of an end that stays open. */
  lemma EventTrades(x: Sock, ev: Event, w: Writes, r: Reads, maxPayload: nat)
    requires SockInv(x) && Enabled(x, ev) && !Dead(OnEvent(x, ev, w, r, maxPayload).0)
    ensures !Dead(x)
    ensures var (x', more) := OnEvent(x, ev, w, r, maxPayload);
            var unasked := Unasked(x, ev, w, r, maxPayload);
            && One(x'.reading) + Wrtes(more) == One(x.reading) + One(unasked)
            && One(x'.queue != []) + Okays(more) == One(x.queue != []) && |x'.queue| <= |x.queue|
            && x'.calm == (x.calm && !unasked)
  {
    EventStays(x, ev, w, r, maxPayload);
    hide SockInv, Drain, Read;
    var (x1, m1, goOn) := if ev.write then Drain(x, w) else (x, [], true);
    if ev.write {
      DrainTrades(x, w);
      DrainStays(x, w);
    }
    if goOn && ev.read {
      ReadTrades(x1, r, maxPayload);
      PayloadAppend(m1, Read(x1, r, maxPayload).1);
    }
  }

  /**
   * An fd event at an end that stays open keeps the credit of its stream in both directions if and only
   * if it does not hand over data without a go-ahead.
   */
  lemma {:induction false} EventKeepsCreditIff(x: Sock, y: Sock, xy: seq<Msg>, yx: seq<Msg>,
                                               ev: Event, w: Writes, r: Reads, maxPayload: nat)
    requires SockInv(x) && Enabled(x, ev) && !Dead(OnEvent(x, ev, w, r, maxPayload).0)
    requires Credit(x, y, xy, yx) && Credit(y, x, yx, xy)
    ensures var (x', more) := OnEvent(x, ev, w, r, maxPayload);
            Credit(x', y, xy + more, yx) && Credit(y, x', yx, xy + more) <==> !Unasked(x, ev, w, r, maxPayload)
  {
    hide SockInv, OnEvent, Unasked;
    EventTrades(x, ev, w, r, maxPayload);
    PayloadAppend(xy, OnEvent(x, ev, w, r, maxPayload).1);
  }

  lemma {:induction false} CreditEvent(x: Sock, y: Sock, xy: seq<Msg>, yx: seq<Msg>, ev: Event, w: Writes, r: Reads, maxPayload: nat)
    requires SockInv(x) && CreditInv(x, y, xy, yx) && Enabled(x, ev)
    ensures var (x', more) := OnEvent(x, ev, w, r, maxPayload);
            CreditInv(x', y, xy + more, yx)
  {
    hide SockInv, OnEvent, Unasked, Credit;
    var x' := OnEvent(x, ev, w, r, maxPayload).0;
    if !Dead(x') && !Dead(y) && x'.calm && y.calm {
      EventTrades(x, ev, w, r, maxPayload);
      EventKeepsCreditIff(x, y, xy, yx, ev, w, r, maxPayload);
    }
  }

  /** What one packet does to the counts while both ends stay open. */
  lemma {:induction false} DeliveryTrades(xid: nat, yid: nat, x: Sock, y: Sock, xy: seq<Msg>, yx: seq<Msg>, w: Writes)
    requires PairInv(xid, yid, x, y, xy, yx) && yx != [] && yid != 0 && Credit(y, x, yx, xy) && Credit(x, y, xy, yx)
    requires var x' := OnMsg(x, yid, yx[0], w).0; !Dead(x')
    ensures var (x', more) := OnMsg(x, yid, yx[0], w);
            && One(x'.queue != []) + Okays(more) == One(x.queue != []) + One(yx[0].Wrte?) && Wrtes(more) == 0
            && One(x'.reading) == One(x.reading) + One(yx[0].Okay?) && |x'.queue| <= 1 && x'.calm == x.calm && !Dead(x)
  {
    Counts(yx);
    Counts([Okay]);
  }

  lemma StaysOpen(x: Sock, from: nat, m: Msg, w: Writes)
    ensures var x' := OnMsg(x, from, m, w).0; (Dead(x) ==> Dead(x')) && x'.calm == x.calm
  {
  }

  lemma {:induction false} CreditDeliver(xid: nat, yid: nat, x: Sock, y: Sock, xy: seq<Msg>, yx: seq<Msg>, w: Writes)
    requires PairInv(xid, yid, x, y, xy, yx) && CreditInv(x, y, xy, yx) && yx != [] && yid != 0
    ensures var (x', more) := OnMsg(x, yid, yx[0], w);
            CreditInv(x', y, xy + more, yx[1..])
  {
    hide PairInv, OnMsg, Okays, Wrtes;
    var (x', more) := OnMsg(x, yid, yx[0], w);
    StaysOpen(x, yid, yx[0], w);
    if !Dead(x') && !Dead(y) && x'.calm && y.calm {
      DeliveryTrades(xid, yid, x, y, xy, yx, w);
      PayloadAppend(xy, more);
      Counts(yx);
    }
  }

  /** All that holds of a stream from its birth on. */
  ghost predicate StreamInv(xid: nat, yid: nat, x: Sock, y: Sock, xy: seq<Msg>, yx: seq<Msg>) {
    PairInv(xid, yid, x, y, xy, yx) && CreditInv(x, y, xy, yx)
  }
}
