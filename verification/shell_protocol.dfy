/**
 * The shell protocol: ShellProtocol of shell_service_protocol.cpp and its consumer read_and_dump of
 * commandline.cpp. A packet is an id, a 32-bit length and that many bytes; a reader whose buffer is
 * smaller gets it in pieces.
 */
module ShellProtocols {
  import opened AdbBase
  import opened AdbIo

  const ID_STDIN: byte := 0
  const ID_STDOUT: byte := 1
  const ID_STDERR: byte := 2
  const ID_EXIT: byte := 3
  const ID_CLOSE_STDIN: byte := 4
  const ID_INVALID: byte := 255

  const HEADER_SIZE: nat := 5

  datatype Frame = Frame(id: byte, data: Bytes)

  /** A piece of a packet as Read delivers it. */
  datatype Piece = Piece(id: byte, data: Bytes)

  /** What Read keeps between calls. */
  datatype Reader = Reader(id: byte, bytesLeft: nat)

  datatype Got = Got(st: Reader, data: Bytes, rest: Bytes) | Ended

  predicate Sendable(f: Frame) { |f.data| < TWO_32 }

  function FrameBytes(f: Frame): Bytes
    requires Sendable(f)
  {
    [f.id] + Le32(|f.data|) + f.data
  }

  function Wire(fs: seq<Frame>): Bytes
    requires forall f :: f in fs ==> Sendable(f)
  {
    if fs == [] then [] else FrameBytes(fs[0]) + Wire(fs[1..])
  }

  /** The second half of Read: up to cap bytes of a packet of which `left` remain. */
  function Take(id: byte, left: nat, input: Bytes, cap: nat): Got {
    var n := Min(left, cap);
    if |input| < n then Ended else Got(Reader(id, left - n), input[..n], input[n..])
  }

  /** One call of Read. */
  function ReadOne(st: Reader, input: Bytes, cap: nat): Got {
    if st.bytesLeft > 0 then Take(st.id, st.bytesLeft, input, cap)
    else if |input| < HEADER_SIZE then Ended
    else Take(input[0], FromLe32(input[1..HEADER_SIZE]), input[HEADER_SIZE..], cap)
  }

  /** Read until it fails. */
  function ReadAll(st: Reader, input: Bytes, cap: nat): seq<Piece>
    requires cap > 0
    decreases |input|
  {
    match ReadOne(st, input, cap)
    case Got(st', data, rest) => [Piece(st'.id, data)] + ReadAll(st', rest, cap)
    case Ended => []
  }

  // ----- pieces -----

  /** How a packet's payload is cut up: pieces of cap bytes and what is left over, one if it is empty. */
  function Pieces(id: byte, data: Bytes, cap: nat): seq<Piece>
    requires cap > 0
  {
    if |data| <= cap then [Piece(id, data)] else [Piece(id, data[..cap])] + Pieces(id, data[cap..], cap)
  }

  lemma DivStep(n: int, cap: nat)
    requires cap > 0
    ensures (n + cap) / cap == n / cap + 1
  {
    assert n + cap == (n / cap + 1) * cap + n % cap;
    DivUnique(n + cap, cap, n / cap + 1, n % cap);
  }

  lemma DivUnique(n: int, cap: nat, q: int, r: int)
    requires cap > 0 && n == q * cap + r && 0 <= r < cap
    ensures n / cap == q
  {
    assert n == (n / cap) * cap + n % cap;
    MulSteps(n / cap - q, cap);
  }

  lemma MulSteps(d: int, cap: int)
    requires cap > 0
    ensures d >= 1 ==> d * cap >= cap
    ensures d <= -1 ==> d * cap <= -cap
  {
  }

  /** A packet of n bytes arrives as max(1, ceil(n / cap)) pieces of at most cap bytes. */
  lemma {:induction false} PieceCount(id: byte, data: Bytes, cap: nat)
    requires cap > 0
    ensures |Pieces(id, data, cap)| == if data == [] then 1 else (|data| + cap - 1) / cap
    ensures forall k :: 0 <= k < |Pieces(id, data, cap)| ==> |Pieces(id, data, cap)[k].data| <= cap && Pieces(id, data, cap)[k].id == id
    decreases |data|
  {
    if |data| > cap {
      PieceCount(id, data[cap..], cap);
      DivStep(|data| - 1, cap);
      DivStep(|data| - cap - 1, cap);
    } else if data != [] {
      DivUnique(|data| + cap - 1, cap, 1, |data| - 1);
    }
  }

  /** The bytes that come with an id, in order. */
  function StreamOf(ps: seq<Piece>, id: byte): Bytes {
    if ps == [] then [] else (if ps[0].id == id then ps[0].data else []) + StreamOf(ps[1..], id)
  }

  function SentOn(fs: seq<Frame>, id: byte): Bytes {
    if fs == [] then [] else (if fs[0].id == id then fs[0].data else []) + SentOn(fs[1..], id)
  }

  lemma {:induction false} StreamAppend(a: seq<Piece>, b: seq<Piece>, id: byte)
    ensures StreamOf(a + b, id) == StreamOf(a, id) + StreamOf(b, id)
  {
    if a == [] {
      assert a + b == b;
    } else {
      assert (a + b)[1..] == a[1..] + b;
      StreamAppend(a[1..], b, id);
    }
  }

  lemma {:induction false} PiecesJoin(id: byte, data: Bytes, cap: nat, id': byte)
    requires cap > 0
    ensures StreamOf(Pieces(id, data, cap), id') == if id == id' then data else []
    decreases |data|
  {
    if |data| > cap {
      PiecesJoin(id, data[cap..], cap, id');
      assert Pieces(id, data, cap)[1..] == Pieces(id, data[cap..], cap);
      assert data == data[..cap] + data[cap..];
    } else {
      assert StreamOf([Piece(id, data)][1..], id') == [];
    }
  }

  // ----- one packet, then many -----

  /** The payload of a packet whose header has been read; the reader ends up at the next header. */
  lemma {:induction false} BodyArrives(id: byte, data: Bytes, rest: Bytes, cap: nat)
    requires cap > 0 && data != []
    ensures ReadAll(Reader(id, |data|), data + rest, cap) == Pieces(id, data, cap) + ReadAll(Reader(id, 0), rest, cap)
    decreases |data|
  {
    var n := Min(|data|, cap);
    assert (data + rest)[..n] == data[..n] && (data + rest)[n..] == data[n..] + rest;
    if |data| > cap {
      BodyArrives(id, data[cap..], rest, cap);
    } else {
      assert data[n..] + rest == rest;
    }
  }

  lemma {:induction false} PacketArrives(f: Frame, rest: Bytes, cap: nat, st: Reader)
    requires Sendable(f) && cap > 0 && st.bytesLeft == 0
    ensures ReadAll(st, FrameBytes(f) + rest, cap) == Pieces(f.id, f.data, cap) + ReadAll(Reader(f.id, 0), rest, cap)
  {
    var input := FrameBytes(f) + rest;
    assert input[1..HEADER_SIZE] == Le32(|f.data|) && input[HEADER_SIZE..] == f.data + rest;
    if f.data == [] {
      assert f.data + rest == rest;
      assert ReadOne(st, input, cap) == Got(Reader(f.id, 0), [], rest);
    } else {
      BodyArrives(f.id, f.data, rest, cap);
      assert ReadOne(st, input, cap) == ReadOne(Reader(f.id, |f.data|), f.data + rest, cap);
    }
  }

  /** Every stream of a sequence of packets comes out whole and in order, whatever the reader's buffer. */
  lemma {:induction false} StreamsSurvive(fs: seq<Frame>, cap: nat, st: Reader, id: byte)
    requires (forall f :: f in fs ==> Sendable(f)) && cap > 0 && st.bytesLeft == 0
    ensures StreamOf(ReadAll(st, Wire(fs), cap), id) == SentOn(fs, id)
    decreases |fs|
  {
    if fs == [] {
      assert ReadOne(st, [], cap) == Ended;
    } else {
      var f := fs[0];
      PacketArrives(f, Wire(fs[1..]), cap, st);
      StreamAppend(Pieces(f.id, f.data, cap), ReadAll(Reader(f.id, 0), Wire(fs[1..]), cap), id);
      PiecesJoin(f.id, f.data, cap, id);
      StreamsSurvive(fs[1..], cap, Reader(f.id, 0), id);
    }
  }

  /** The exit code left by the pieces: the byte at the front of the buffer when an exit packet comes. */
  function ExitOf(ps: seq<Piece>, front: byte, code: byte): byte {
    if ps == [] then code
    else
      var front' := if ps[0].data == [] then front else ps[0].data[0];
      ExitOf(ps[1..], front', if ps[0].id == ID_EXIT then front' else code)
  }

  lemma {:induction false} ExitLast(ps: seq<Piece>, c: byte, front: byte, code: byte)
    ensures ExitOf(ps + [Piece(ID_EXIT, [c])], front, code) == c
  {
    if ps == [] {
      assert ps + [Piece(ID_EXIT, [c])] == [Piece(ID_EXIT, [c])];
    } else {
      assert (ps + [Piece(ID_EXIT, [c])])[1..] == ps[1..] + [Piece(ID_EXIT, [c])];
      var front' := if ps[0].data == [] then front else ps[0].data[0];
      ExitLast(ps[1..], c, front', if ps[0].id == ID_EXIT then front' else code);
    }
  }

  lemma {:induction false} ExitPieces(fs: seq<Frame>, c: byte, cap: nat, st: Reader)
    requires (forall f :: f in fs ==> Sendable(f)) && cap > 0 && st.bytesLeft == 0
    ensures forall f :: f in fs + [Frame(ID_EXIT, [c])] ==> Sendable(f)
    ensures exists ps :: ReadAll(st, Wire(fs + [Frame(ID_EXIT, [c])]), cap) == ps + [Piece(ID_EXIT, [c])]
    decreases |fs|
  {
    var last := Frame(ID_EXIT, [c]);
    var all := fs + [last];
    if fs == [] {
      assert all == [last] && Wire(all[1..]) == [];
      PacketArrives(last, [], cap, st);
      assert ReadOne(Reader(ID_EXIT, 0), [], cap) == Ended;
      assert FrameBytes(last) + [] == Wire(all);
      assert ReadAll(st, Wire(all), cap) == [] + [Piece(ID_EXIT, [c])];
    } else {
      assert all[1..] == fs[1..] + [last] && all[0] == fs[0];
      PacketArrives(fs[0], Wire(all[1..]), cap, st);
      ExitPieces(fs[1..], c, cap, Reader(fs[0].id, 0));
      var ps :| ReadAll(Reader(fs[0].id, 0), Wire(all[1..]), cap) == ps + [Piece(ID_EXIT, [c])];
      assert ReadAll(st, Wire(all), cap) == (Pieces(fs[0].id, fs[0].data, cap) + ps) + [Piece(ID_EXIT, [c])];
    }
  }

  /** The exit code sent after all output is the one reported. */
  lemma {:induction false} ExitArrives(fs: seq<Frame>, c: byte, cap: nat, front: byte, st: Reader)
    requires (forall f :: f in fs ==> Sendable(f)) && cap > 0 && st.bytesLeft == 0
    ensures forall f :: f in fs + [Frame(ID_EXIT, [c])] ==> Sendable(f)
    ensures ExitOf(ReadAll(st, Wire(fs + [Frame(ID_EXIT, [c])]), cap), front, 0) == c
  {
    ExitPieces(fs, c, cap, st);
    var ps :| ReadAll(st, Wire(fs + [Frame(ID_EXIT, [c])]), cap) == ps + [Piece(ID_EXIT, [c])];
    ExitLast(ps, c, front, 0);
  }

  // ----- the code -----

  class ShellProtocol {
    const fd: Fd
    /** data_capacity(). */
    const cap: nat
    /** buffer_[0], bytes_left_, the data_length_ bytes at data(), and the byte at the very front of data(). */
    var id: byte
    var bytesLeft: nat
    var data: Bytes
    var front: byte

    constructor (fd: Fd, cap: nat, front: byte)
      ensures this.fd == fd && this.cap == cap && id == ID_INVALID && bytesLeft == 0 && data == [] && this.front == front
    {
      this.fd, this.cap, this.front := fd, cap, front;
      id, bytesLeft, data := ID_INVALID, 0, [];
    }

    function St(): Reader
      reads this
    {
      Reader(id, bytesLeft)
    }

    /** ShellProtocol::Read. */
    method Read() returns (ok: bool)
      modifies this, fd`input, fd`readFailed
      ensures old(fd.readFailed) ==> fd.readFailed
      ensures ok ==> ReadOne(old(St()), old(fd.input), cap) == Got(St(), data, fd.input) && fd.readFailed == old(fd.readFailed)
      ensures ok ==> front == if data == [] then old(front) else data[0]
      ensures |fd.input| <= |old(fd.input)|
      ensures !ok && !fd.readFailed ==> ReadOne(old(St()), old(fd.input), cap) == Ended
    {
      ghost var start := fd.input;
      if bytesLeft == 0 {
        var got, header := ReadFdExactly(fd, HEADER_SIZE);
        if !got {
          return false;
        }
        assert start[1..HEADER_SIZE] == header[1..HEADER_SIZE] && start[HEADER_SIZE..] == fd.input;
        id, bytesLeft, data := header[0], FromLe32(header[1..HEADER_SIZE]), [];
      }
      ghost var left, body := bytesLeft, fd.input;
      assert ReadOne(old(St()), start, cap) == Take(id, left, body, cap);
      var n := Min(bytesLeft, cap);
      var got, chunk := true, [];
      if n > 0 {
        got, chunk := ReadFdExactly(fd, n);
        if !got {
          return false;
        }
      }
      assert body[..n] == chunk && body[n..] == fd.input;
      bytesLeft, data := bytesLeft - n, chunk;
      if chunk != [] {
        front := chunk[0];
      }
      return true;
    }

    /** ShellProtocol::Write of the `payload` that lies in the buffer. */
    method Write(id: byte, payload: Bytes) returns (ok: bool)
      requires |payload| <= cap < TWO_32
      modifies fd`output, fd`patience, fd`writeFailed
      ensures old(fd.writeFailed) ==> fd.writeFailed
      ensures ok ==> fd.output == old(fd.output) + FrameBytes(Frame(id, payload)) && fd.writeFailed == old(fd.writeFailed)
      ensures !ok ==> fd.writeFailed
    {
      ok := WriteFdExactly(fd, [id] + Le32(|payload|) + payload);
    }
  }

  /** What is still to come makes the output and exit code so far into those of all the pieces. */
  ghost predicate SoFar(ps: seq<Piece>, front0: byte, out: Bytes, err: Bytes, code: byte, front: byte, more: seq<Piece>) {
    && StreamOf(ps, ID_STDOUT) == out + StreamOf(more, ID_STDOUT)
    && StreamOf(ps, ID_STDERR) == err + StreamOf(more, ID_STDERR)
    && ExitOf(ps, front0, 0) == ExitOf(more, front, code)
  }

  lemma {:induction false} OneMore(ps: seq<Piece>, front0: byte, out: Bytes, err: Bytes, code: byte, front: byte, p: Piece, more: seq<Piece>)
    requires SoFar(ps, front0, out, err, code, front, [p] + more)
    ensures var front' := if p.data == [] then front else p.data[0];
            SoFar(ps, front0, if p.id == ID_STDOUT then out + p.data else out, if p.id == ID_STDERR then err + p.data else err,
                  if p.id == ID_EXIT then front' else code, front', more)
  {
    assert ([p] + more)[1..] == more;
  }

  /** read_and_dump with the shell protocol: what reaches the two callbacks, and the exit code. */
  method ReadAndDump(fd: Fd, cap: nat, front: byte) returns (out: Bytes, err: Bytes, code: byte)
    requires cap > 0 && !fd.readFailed
    modifies fd`input, fd`readFailed
    ensures !fd.readFailed ==>
              var ps := ReadAll(Reader(ID_INVALID, 0), old(fd.input), cap);
              out == StreamOf(ps, ID_STDOUT) && err == StreamOf(ps, ID_STDERR) && code == ExitOf(ps, front, 0)
  {
    hide SoFar;
    out, err, code := [], [], 0;
    var protocol := new ShellProtocol(fd, cap, front);
    ghost var ps := ReadAll(Reader(ID_INVALID, 0), fd.input, cap);
    StartSoFar(ps, front);
    while true
      invariant !fd.readFailed && fresh(protocol) && protocol.fd == fd && protocol.cap == cap
      invariant SoFar(ps, front, out, err, code, protocol.front, ReadAll(protocol.St(), fd.input, cap))
      decreases |fd.input|
    {
      ghost var st, input, front0 := protocol.St(), fd.input, protocol.front;
      var ok := protocol.Read();
      if !ok {
        if !fd.readFailed {
          EndSoFar(ps, front, out, err, code, front0, ReadAll(st, input, cap));
        }
        break;
      }
      ReadShrinks(st, input, cap);
      OneMore(ps, front, out, err, code, front0, Piece(protocol.id, protocol.data), ReadAll(protocol.St(), fd.input, cap));
      match protocol.id
      case 1 => out := out + protocol.data;
      case 2 => err := err + protocol.data;
      case 3 => code := protocol.front;
      case _ =>
    }
  }

  lemma {:induction false} StartSoFar(ps: seq<Piece>, front: byte)
    ensures SoFar(ps, front, [], [], 0, front, ps)
  {
  }

  lemma {:induction false} EndSoFar(ps: seq<Piece>, front0: byte, out: Bytes, err: Bytes, code: byte, front: byte, more: seq<Piece>)
    requires SoFar(ps, front0, out, err, code, front, more) && more == []
    ensures out == StreamOf(ps, ID_STDOUT) && err == StreamOf(ps, ID_STDERR) && code == ExitOf(ps, front0, 0)
  {
  }

  lemma {:induction false} ReadShrinks(st: Reader, input: Bytes, cap: nat)
    requires cap > 0 && ReadOne(st, input, cap).Got?
    ensures var g := ReadOne(st, input, cap); |g.rest| < |input| && |g.rest| + |g.data| <= |input|
  {
  }
}
