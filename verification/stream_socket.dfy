/** One local socket of the stream layer as a value, and what each entry point of sockets.cpp does to it. */
module StreamSocket {
  import opened AdbBase

  /** Live: on the main list. Closing: on the closing list, draining its backlog. Freed: destroyed. */
  datatype Status = Live | Closing | Freed

  /**
   * `got`, `put` and `spilt` record the life of the fd: the bytes read from it and handed to the peer, the
   * packet bytes it accepted, and the bytes read and thrown away because there was no peer. `cut` records
   * that the socket closed for a reason of its own (end of file, hang-up, write error) and not because the
   * far side closed. `calm` records that no data was handed to the peer without its go-ahead, `openedBy`
   * the far id named by the OPEN that created the socket, if one did.
   */
  datatype Sock = Sock(
    status: Status, peer: Option<nat>, reading: bool, writing: bool, queue: seq<Bytes>,
    got: Bytes, put: Bytes, spilt: Bytes, cut: bool, calm: bool, openedBy: Option<nat>)

  /** A packet between two given sockets. */
  datatype Msg = Okay | Wrte(data: Bytes) | Clse

  /** A run of adb_write calls: `n` bytes accepted, then EAGAIN, or an error if `failed`. */
  datatype Writes = Writes(n: nat, failed: bool)

  /** A run of adb_read calls: `data` read, then EAGAIN, or end of file or an error if `eof`. */
  datatype Reads = Reads(data: Bytes, eof: bool)

  /** What fdevent reports. A hang-up or an error shows as `read` whatever the interest. */
  datatype Event = Event(write: bool, read: bool)

  datatype Cause = ByPeer | Drained | HungUp | WriteError

  function Fresh(peer: Option<nat>, openedBy: Option<nat>): Sock {
    Sock(Live, peer, peer.Some?, false, [], [], [], [], false, true, openedBy)
  }

  predicate Waiting(s: Sock) { s.status.Live? && s.peer.None? }
  predicate Connected(s: Sock) { s.status.Live? && s.peer.Some? }
  predicate Dead(s: Sock) { !s.status.Live? }

  /** The queue once the fd has taken the first n bytes: a packet leaves when its last byte does. */
  function DropBytes(queue: seq<Bytes>, n: nat): seq<Bytes> {
    if queue == [] then []
    else if n >= |queue[0]| then DropBytes(queue[1..], n - |queue[0]|)
    else [queue[0][n..]] + queue[1..]
  }

  /** local_socket_close. */
  function Close(s: Sock, why: Cause): (Sock, seq<Msg>) {
    var msgs := if s.peer.Some? then [Clse] else [];
    var s' := s.(peer := None, reading := false, cut := s.cut || why.HungUp? || why.WriteError?);
    if s.status.Closing? || why.WriteError? || s.queue == [] then
      (s'.(status := Freed, writing := false), msgs)
    else
      (s'.(status := Closing), msgs)
  }

  /** local_socket_enqueue: new state, packets sent, and whether the far side may send more. */
  function Enqueue(s: Sock, d: Bytes, w: Writes): (Sock, seq<Msg>, bool) {
    if s.queue != [] then (s.(queue := s.queue + [d], writing := true), [], false)
    else
      var n := Min(w.n, |d|);
      var s' := s.(put := s.put + d[..n]);
      if n == |d| then (s', [], true)
      else if w.failed then
        var (c, msgs) := Close(s', WriteError);
        (c, msgs, false)
      else (s'.(queue := [d[n..]], writing := true), [], false)
  }

  /** The FDE_WRITE half of local_socket_event_func; the last result says whether the handler goes on. */
  function Drain(s: Sock, w: Writes): (Sock, seq<Msg>, bool) {
    var total := |Flat(s.queue)|;
    var n := Min(w.n, total);
    var s' := s.(put := s.put + Flat(s.queue)[..n], queue := DropBytes(s.queue, n));
    if n < total then
      if w.failed then
        var (c, msgs) := Close(s', WriteError);
        (c, msgs, false)
      else (s', [], false)
    else
      var s'' := s'.(queue := []);
      if s.status.Closing? then
        var (c, msgs) := Close(s'', Drained);
        (c, msgs, false)
      else (s''.(writing := false), [Okay], true)
  }

  /** The socket once d has been read: handed to the peer, which must say that it wants more, or thrown away. */
  function Handed(s: Sock, d: Bytes): Sock {
    if d == [] then s
    else if s.peer.Some? then s.(got := s.got + d, calm := s.calm && s.reading, reading := false)
    else s.(spilt := s.spilt + d)
  }

  /** The FDE_READ half. A full buffer ends the read loop before an end of file is seen. */
  function Read(s: Sock, r: Reads, maxPayload: nat): (Sock, seq<Msg>) {
    var d := r.data[..Min(|r.data|, maxPayload)];
    var sends := d != [] && s.peer.Some?;
    var s' := Handed(s, d);
    var msgs := if sends then [Wrte(d)] else [];
    if r.eof && |d| < maxPayload then
      var (c, more) := Close(s', HungUp);
      (c, msgs + more)
    else (s', msgs)
  }

  /** local_socket_event_func. */
  function OnEvent(s: Sock, ev: Event, w: Writes, r: Reads, maxPayload: nat): (Sock, seq<Msg>) {
    var (s1, m1, goOn) := if ev.write then Drain(s, w) else (s, [], true);
    if goOn && ev.read then
      var (s2, m2) := Read(s1, r, maxPayload);
      (s2, m1 + m2)
    else (s1, m1)
  }

  /** handle_packet for OKAY, WRTE and CLSE sent by far socket `from` (0 in the CLSE of a refused OPEN). */
  function OnMsg(s: Sock, from: nat, m: Msg, w: Writes): (Sock, seq<Msg>) {
    match m
    case Okay =>
      if Dead(s) then (s, [Clse])
      else if s.peer == None then (s.(peer := Some(from), reading := true), [])
      else if s.peer == Some(from) then (s.(reading := true), [])
      else (s, [])
    case Wrte(d) =>
      if s.status.Live? && s.peer == Some(from) then
        var (s', msgs, ready) := Enqueue(s, d, w);
        (s', if ready then [Okay] else msgs)
      else (s, [])
    case Clse =>
      if s.status.Live? && (from == 0 || s.peer == Some(from)) then Close(s, ByPeer) else (s, [])
  }

  /** What every local socket satisfies between calls. */
  predicate SockInv(s: Sock) {
    match s.status
    case Live =>
      && (s.writing <==> s.queue != [])
      && (s.queue != [] ==> s.peer.Some?)
      && (s.reading ==> s.peer.Some?)
      && !s.cut
    case Closing => s.peer.None? && s.queue != [] && s.writing && !s.reading
    case Freed => s.peer.None? && !s.writing && !s.reading && (s.queue != [] ==> s.cut)
  }

  /** fdevent reports FDE_WRITE only where it is wanted, and nothing for a destroyed socket. */
  predicate Enabled(s: Sock, ev: Event) {
    !s.status.Freed? && (ev.write ==> s.writing)
  }

  lemma {:induction false} DropBytesFlat(queue: seq<Bytes>, n: nat)
    requires n <= |Flat(queue)|
    ensures Flat(DropBytes(queue, n)) == Flat(queue)[n..]
    ensures n < |Flat(queue)| ==> DropBytes(queue, n) != []
    ensures |DropBytes(queue, n)| <= |queue|
  {
    if queue == [] {
    } else if n >= |queue[0]| {
      DropBytesFlat(queue[1..], n - |queue[0]|);
      assert Flat(queue)[n..] == Flat(queue[1..])[n - |queue[0]|..];
    } else {
      var q := [queue[0][n..]] + queue[1..];
      assert q[1..] == queue[1..];
      assert Flat(queue)[n..] == queue[0][n..] + Flat(queue[1..]);
    }
  }

  /** Every event keeps the socket invariant; the one dereference of a peer in the handler is safe. */
  lemma EventKeepsSockInv(s: Sock, ev: Event, w: Writes, r: Reads, maxPayload: nat)
    requires SockInv(s) && Enabled(s, ev)
    ensures SockInv(OnEvent(s, ev, w, r, maxPayload).0)
    ensures ev.write && s.status.Live? && Drain(s, w).2 ==> s.peer.Some?
  {
    if ev.write {
      DropBytesFlat(s.queue, Min(w.n, |Flat(s.queue)|));
    }
  }

  lemma MsgKeepsSockInv(s: Sock, from: nat, m: Msg, w: Writes)
    requires SockInv(s)
    ensures SockInv(OnMsg(s, from, m, w).0)
  {
  }

  /** A socket dies of an event exactly if the fd refused a write or its data has ended. */
  lemma EventDies(s: Sock, ev: Event, w: Writes, r: Reads, maxPayload: nat)
    requires !s.status.Freed?
    requires if ev.write then w.failed ==> w.n < |Flat(s.queue)| else !w.failed
    requires r.eof ==> ev.read && (ev.write ==> Drain(s, w).2) && |r.data| < maxPayload
    ensures Dead(OnEvent(s, ev, w, r, maxPayload).0) <==> Dead(s) || w.failed || r.eof
  {
    if ev.write {
      DropBytesFlat(s.queue, Min(w.n, |Flat(s.queue)|));
    }
  }
}
