/**
 * The data pump of a shell service (shell_service.cpp): Subprocess::PassOutput multiplexes stdout and
 * stderr onto the protocol descriptor, PassInput feeds stdin from it, and SelectLoop decides which.
 */
module ShellService {
  import opened AdbBase
  import opened AdbIo
  import opened ShellProtocols

  datatype Dead = Nothing | Protocol | Stdinout | Stderr

  lemma {:induction false} SentAppend(fs: seq<Frame>, f: Frame, id: byte)
    ensures SentOn(fs + [f], id) == SentOn(fs, id) + (if f.id == id then f.data else [])
  {
    if fs == [] {
      assert fs + [f] == [f];
      assert SentOn([f][1..], id) == [];
    } else {
      var head, last := if fs[0].id == id then fs[0].data else [], if f.id == id then f.data else [];
      assert (fs + [f])[1..] == fs[1..] + [f];
      SentAppend(fs[1..], f, id);
      assert SentOn(fs + [f], id) == head + SentOn(fs[1..] + [f], id);
      hide SentOn;
      assert head + (SentOn(fs[1..], id) + last) == head + SentOn(fs[1..], id) + last;
    }
  }

  lemma {:induction false} WireAppend(fs: seq<Frame>, f: Frame)
    requires (forall x :: x in fs ==> Sendable(x)) && Sendable(f)
    ensures (forall x :: x in fs + [f] ==> Sendable(x)) && Wire(fs + [f]) == Wire(fs) + FrameBytes(f)
  {
    if fs == [] {
      assert fs + [f] == [f];
      assert Wire([f][1..]) == [];
    } else {
      assert (fs + [f])[1..] == fs[1..] + [f];
      WireAppend(fs[1..], f);
    }
  }

  /** The pump has sent fs: they are on the wire, and each output's bytes so far are in them, in order. */
  ghost predicate OutputOk(fs: seq<Frame>, wire: Bytes, out0: Bytes, outLeft: Bytes, err0: Bytes, errLeft: Bytes) {
    && (forall f :: f in fs ==> Sendable(f)) && wire == Wire(fs)
    && SentOn(fs, ID_STDOUT) + outLeft == out0 && SentOn(fs, ID_STDERR) + errLeft == err0
  }

  /** A packet with the next bytes of its stream moves just them from what is left to what was sent. */
  lemma {:induction false} SentGrows(fs: seq<Frame>, f: Frame, id: byte, all: Bytes, left: Bytes)
    requires SentOn(fs, id) + left == all
    ensures f.id == id && f.data <= left ==> SentOn(fs + [f], id) + left[|f.data|..] == all
    ensures f.id != id ==> SentOn(fs + [f], id) + left == all
  {
    SentAppend(fs, f, id);
    hide SentOn;
    if f.id == id && f.data <= left {
      assert left == f.data + left[|f.data|..];
      assert SentOn(fs, id) + (f.data + left[|f.data|..]) == SentOn(fs, id) + f.data + left[|f.data|..];
    }
  }

  lemma {:induction false} OutputGrows(fs: seq<Frame>, wire: Bytes, out0: Bytes, outLeft: Bytes, err0: Bytes, errLeft: Bytes, f: Frame)
    requires OutputOk(fs, wire, out0, outLeft, err0, errLeft) && Sendable(f)
    ensures f.id == ID_STDOUT && f.data <= outLeft ==>
              OutputOk(fs + [f], wire + FrameBytes(f), out0, outLeft[|f.data|..], err0, errLeft)
    ensures f.id == ID_STDERR && f.data <= errLeft ==>
              OutputOk(fs + [f], wire + FrameBytes(f), out0, outLeft, err0, errLeft[|f.data|..])
  {
    hide FrameBytes, Wire, SentOn;
    WireAppend(fs, f);
    SentGrows(fs, f, ID_STDOUT, out0, outLeft);
    SentGrows(fs, f, ID_STDERR, err0, errLeft);
  }

  /** What has been read of the input, and what of it went to stdin: `pending` is still to be written. */
  ghost predicate InputOk(wire0: Bytes, cap: nat, ps: seq<Piece>, st: Reader, left: Bytes, written: Bytes, pending: Bytes) {
    && cap > 0 && ReadAll(Reader(ID_INVALID, 0), wire0, cap) == ps + ReadAll(st, left, cap)
    && written + pending == StreamOf(ps, ID_STDIN)
  }

  lemma StreamOne(p: Piece, id: byte)
    ensures StreamOf([p], id) == if p.id == id then p.data else []
  {
    assert StreamOf([p][1..], id) == [];
  }

  lemma {:induction false} ReadAllOne(st: Reader, left: Bytes, cap: nat, st': Reader, p: Piece, left': Bytes)
    requires cap > 0 && ReadOne(st, left, cap) == Got(st', p.data, left') && p.id == st'.id
    ensures ReadAll(st, left, cap) == [p] + ReadAll(st', left', cap)
  {
    hide ReadOne;
  }

  lemma {:induction false} InputGrows(wire0: Bytes, cap: nat, ps: seq<Piece>, st: Reader, left: Bytes, written: Bytes, st': Reader, p: Piece, left': Bytes)
    requires InputOk(wire0, cap, ps, st, left, written, []) && ReadOne(st, left, cap) == Got(st', p.data, left') && p.id == st'.id
    ensures InputOk(wire0, cap, ps + [p], st', left', written, if p.id == ID_STDIN then p.data else [])
  {
    hide StreamOf;
    ReadAllOne(st, left, cap, st', p, left');
    StreamAppend(ps, [p], ID_STDIN);
    StreamOne(p, ID_STDIN);
    hide ReadAll, ReadOne;
    assert ps + ([p] + ReadAll(st', left', cap)) == ps + [p] + ReadAll(st', left', cap);
  }

  lemma {:induction false} StartOk(wire0: Bytes, cap: nat, out0: Bytes, err0: Bytes)
    requires cap > 0
    ensures OutputOk([], [], out0, out0, err0, err0) && InputOk(wire0, cap, [], Reader(ID_INVALID, 0), wire0, [], [])
    ensures [] <= StreamOf(ReadAll(Reader(ID_INVALID, 0), wire0, cap), ID_STDIN)
  {
  }

  /** The last `left` bytes of a packet. */
  function Rest(data: Bytes, left: nat): Bytes
    requires left <= |data|
  {
    data[|data| - left..]
  }

  lemma {:induction false} Ends(data: Bytes)
    ensures Rest(data, |data|) == data && Rest(data, 0) == []
  {
  }

  lemma {:induction false} InputMoves(wire0: Bytes, cap: nat, ps: seq<Piece>, st: Reader, left: Bytes, written: Bytes, pending: Bytes, n: nat)
    requires InputOk(wire0, cap, ps, st, left, written, pending) && n <= |pending|
    ensures InputOk(wire0, cap, ps, st, left, written + pending[..n], pending[n..])
    ensures written + pending[..n] <= StreamOf(ReadAll(Reader(ID_INVALID, 0), wire0, cap), ID_STDIN)
  {
    assert written + pending == written + pending[..n] + pending[n..];
    StreamAppend(ps, ReadAll(st, left, cap), ID_STDIN);
  }

  /** At all times stdin has been given a prefix of the payloads sent for it. */
  lemma {:induction false} StdinIsPrefix(fs: seq<Frame>, cap: nat, ps: seq<Piece>, st: Reader, left: Bytes, written: Bytes, pending: Bytes)
    requires (forall f :: f in fs ==> Sendable(f)) && InputOk(Wire(fs), cap, ps, st, left, written, pending)
    ensures written <= written + pending <= SentOn(fs, ID_STDIN)
  {
    StreamsSurvive(fs, cap, Reader(ID_INVALID, 0), ID_STDIN);
    StreamAppend(ps, ReadAll(st, left, cap), ID_STDIN);
  }

  /** What the peer's read_and_dump makes of the pump's output: the bytes the child wrote, stream by stream. */
  lemma {:induction false} OutputArrives(fs: seq<Frame>, wire: Bytes, out0: Bytes, outLeft: Bytes, err0: Bytes, errLeft: Bytes, cap: nat)
    requires OutputOk(fs, wire, out0, outLeft, err0, errLeft) && cap > 0
    ensures var ps := ReadAll(Reader(ID_INVALID, 0), wire, cap);
            StreamOf(ps, ID_STDOUT) + outLeft == out0 && StreamOf(ps, ID_STDERR) + errLeft == err0
  {
    StreamsSurvive(fs, cap, Reader(ID_INVALID, 0), ID_STDOUT);
    StreamsSurvive(fs, cap, Reader(ID_INVALID, 0), ID_STDERR);
  }

  class Subprocess {
    const protocol: Fd
    const stdinout: Fd
    const stderr: Fd
    const input: ShellProtocol
    const output: ShellProtocol
    const raw: bool
    /** Which descriptors are still open. */
    var protocolOpen: bool
    var stdinoutOpen: bool
    var stderrOpen: bool
    var inputBytesLeft: nat
    /** The master sets of select. */
    var readProtocol: bool
    var readStdinout: bool
    var readStderr: bool
    var writeStdin: bool
    /** The packets sent, the pieces received, and what the three descriptors held at the start. */
    ghost var sent: seq<Frame>
    ghost var pieces: seq<Piece>
    ghost const wire0: Bytes
    ghost const out0: Bytes
    ghost const err0: Bytes
    /** Reading the protocol descriptor or writing to stdin has come to an end; select has failed. */
    ghost var inputDone: bool
    ghost var selectFailed: bool

    ghost predicate Apart()
      reads this
    {
      && protocol != stdinout && protocol != stderr && stdinout != stderr && input != output
      && input.fd == protocol && output.fd == protocol && 0 < input.cap < TWO_32 && 0 < output.cap < TWO_32
    }

    ghost predicate Valid()
      reads this, protocol, stdinout, stderr, input
    {
      && Apart() && inputBytesLeft <= |input.data|
      && (!protocol.writeFailed ==> OutputOk(sent, protocol.output, out0, stdinout.input, err0, stderr.input))
      && (stdinoutOpen && !inputDone ==>
            InputOk(wire0, input.cap, pieces, input.St(), protocol.input, stdinout.output, Pending()))
      && stdinout.output <= StreamOf(ReadAll(Reader(ID_INVALID, 0), wire0, input.cap), ID_STDIN)
    }

    /** The part of the last stdin packet that stdin has not taken yet. */
    ghost function Pending(): Bytes
      reads this, input
      requires inputBytesLeft <= |input.data|
    {
      Rest(input.data, inputBytesLeft)
    }

    /** While both are open: a packet is half written to stdin, or the protocol descriptor is read, not both. */
    ghost predicate SetsOk()
      reads this
    {
      protocolOpen && stdinoutOpen ==>
        (inputBytesLeft > 0 <==> !readProtocol) && (inputBytesLeft > 0 <==> writeStdin)
    }

    /** The pump has no more to do. */
    predicate Over()
      reads this
    {
      !protocolOpen || (!stdinoutOpen && !stderrOpen)
    }

    /** What is left to move: bytes still to be read or written, and times a descriptor may still not be ready. */
    ghost function Work(): nat
      reads this`inputBytesLeft, protocol, stdinout, stderr
    {
      |stdinout.input| + stdinout.patience + |stderr.input| + stderr.patience + |protocol.input| + inputBytesLeft
    }

    ghost predicate OutEnded()
      reads this, stdinout
    {
      stdinout.input == [] || stdinout.readFailed || inputDone
    }

    ghost predicate ErrEnded()
      reads stderr
    {
      stderr.input == [] || stderr.readFailed
    }

    /** A descriptor is closed only at its end, or because the protocol descriptor or select failed. */
    ghost predicate Drained()
      reads this, stdinout, stderr
    {
      protocolOpen && !selectFailed ==> (stdinoutOpen || OutEnded()) && (stderrOpen || ErrEnded())
    }

    constructor (protocol: Fd, stdinout: Fd, stderr: Fd, readCap: nat, writeCap: nat, raw: bool)
      requires protocol != stdinout && protocol != stderr && stdinout != stderr
      requires protocol.output == [] && stdinout.output == [] && !protocol.writeFailed
      requires 0 < readCap < TWO_32 && 0 < writeCap < TWO_32
      ensures Valid() && SetsOk() && this.protocol == protocol && this.stdinout == stdinout && this.stderr == stderr
      ensures wire0 == protocol.input && out0 == stdinout.input && err0 == stderr.input
      ensures protocolOpen && stdinoutOpen && stderrOpen && inputBytesLeft == 0 && !inputDone
      ensures fresh(input) && fresh(output) && Drained()
    {
      this.protocol, this.stdinout, this.stderr, this.raw := protocol, stdinout, stderr, raw;
      input := new ShellProtocol(protocol, readCap, 0);
      output := new ShellProtocol(protocol, writeCap, 0);
      protocolOpen, stdinoutOpen, stderrOpen, inputBytesLeft := true, true, true, 0;
      readProtocol, readStdinout, readStderr, writeStdin := true, true, true, false;
      sent, pieces, inputDone, selectFailed := [], [], false, false;
      wire0, out0, err0 := protocol.input, stdinout.input, stderr.input;
      new;
      hide OutputOk, InputOk, ReadAll, StreamOf, ReadOne, Rest;
      StartOk(wire0, readCap, out0, err0);
      Ends(input.data);
    }

    /** Subprocess::PassOutput on stdout (id 1) or stderr (id 2). */
    method PassOutput(fromStderr: bool) returns (dead: Dead, ghost chunk: Bytes)
      requires Valid() && !protocol.writeFailed
      modifies this`sent, protocol`output, protocol`patience, protocol`writeFailed
      modifies stdinout`input, stdinout`patience, stdinout`readFailed, stderr`input, stderr`patience, stderr`readFailed
      ensures Valid() && (protocol.writeFailed ==> dead == Protocol)
      ensures dead == Nothing || dead == Protocol || dead == (if fromStderr then Stderr else Stdinout)
      ensures old((if fromStderr then stderr else stdinout).input) == chunk + (if fromStderr then stderr else stdinout).input
      ensures dead == Nothing ==>
                sent == old(sent) + (if chunk == [] then [] else [Frame(if fromStderr then ID_STDERR else ID_STDOUT, chunk)])
      ensures dead == Nothing && chunk == [] ==>
                (if fromStderr then stderr else stdinout).patience < old((if fromStderr then stderr else stdinout).patience)
      ensures dead == Stderr || dead == Stdinout ==> chunk == [] && sent == old(sent)
      ensures fromStderr ==> stdinout.input == old(stdinout.input) && stdinout.patience == old(stdinout.patience)
      ensures !fromStderr ==> stderr.input == old(stderr.input) && stderr.patience == old(stderr.patience)
      ensures dead == Stderr || dead == Stdinout ==>
                && (if fromStderr then stderr else stdinout).patience == old((if fromStderr then stderr else stdinout).patience)
                && ((if fromStderr then stderr else stdinout).input == [] || (if fromStderr then stderr else stdinout).readFailed)
      ensures Work() <= old(Work()) && (dead == Nothing ==> Work() < old(Work()))
      ensures (old(stdinout.readFailed) ==> stdinout.readFailed) && (old(stderr.readFailed) ==> stderr.readFailed)
      ensures (if fromStderr then stderr else stdinout).readFailed && !old((if fromStderr then stderr else stdinout).readFailed) ==>
                dead == Stderr || dead == Stdinout
    {
      hide OutputOk, InputOk, FrameBytes;
      var sfd := if fromStderr then stderr else stdinout;
      ghost var before := sfd.input;
      var r, again, got := sfd.TryRead(output.cap);
      chunk := got;
      assert got == [] ==> sfd.input == before;
      if r == 0 || (r < 0 && !again) {
        assert chunk == [] && sfd.input == before;
        dead := if fromStderr then Stderr else Stdinout;
        return;
      }
      if r > 0 {
        var id := if fromStderr then ID_STDERR else ID_STDOUT;
        ghost var f := Frame(id, got);
        assert before[|got|..] == sfd.input && got <= before;
        OutputGrows(sent, protocol.output, out0, old(stdinout.input), err0, old(stderr.input), f);
        var ok := output.Write(id, got);
        if !ok {
          dead := Protocol;
          return;
        }
        sent := sent + [f];
      }
      dead := Nothing;
    }

    /** The first half of PassInput: a new packet, of which the stdin payload is kept to be written. */
    method TakePacket() returns (done: bool, dead: Dead)
      requires Valid() && protocolOpen && inputBytesLeft == 0 && (stdinoutOpen ==> !inputDone)
      modifies this`inputBytesLeft, this`pieces, this`inputDone, input, protocol`input, protocol`readFailed
      ensures Valid() && (dead == Protocol ==> inputDone) && (dead != Nothing ==> done)
      ensures (stdinoutOpen && inputDone ==> dead != Nothing) && (old(inputDone) ==> inputDone)
      ensures dead == Nothing || dead == Protocol || (dead == Stdinout && stdinoutOpen)
      ensures dead == Protocol ==> protocol.readFailed || ReadOne(old(input.St()), old(protocol.input), input.cap) == Ended
      ensures dead != Protocol ==>
                ReadOne(old(input.St()), old(protocol.input), input.cap) == Got(input.St(), input.data, protocol.input)
      ensures done <==> dead == Protocol || (stdinoutOpen && raw && input.id == ID_CLOSE_STDIN)
      ensures dead == Stdinout ==> inputDone && raw && input.id == ID_CLOSE_STDIN
      ensures |protocol.input| + inputBytesLeft <= old(|protocol.input|)
      ensures (done ==> inputBytesLeft == 0) && (inputBytesLeft > 0 ==> stdinoutOpen)
      ensures stdinoutOpen && dead != Protocol ==>
                && pieces == old(pieces) + [Piece(input.id, input.data)]
                && inputBytesLeft == if input.id == ID_STDIN then |input.data| else 0
      ensures dead != Protocol ==> |protocol.input| < |old(protocol.input)|
    {
      hide OutputOk, InputOk, ReadAll, StreamOf, ReadOne, Rest;
      ghost var st, left := input.St(), protocol.input;
      Ends(input.data);
      var ok := input.Read();
      Ends(input.data);
      if !ok {
        inputDone := true;
        return true, Protocol;
      }
      ReadShrinks(st, left, input.cap);
      done, dead := false, Nothing;
      if stdinoutOpen {
        ghost var p := Piece(input.id, input.data);
        assert old(Pending()) == [];
        InputGrows(wire0, input.cap, pieces, st, left, stdinout.output, input.St(), p, protocol.input);
        pieces := pieces + [p];
        if input.id == ID_STDIN {
          inputBytesLeft := |input.data|;
        } else if input.id == ID_CLOSE_STDIN && raw {
          var shut: bool := *;
          done, dead, inputDone := true, if shut then Nothing else Stdinout, !shut;
        }
        assert Pending() == if p.id == ID_STDIN then p.data else [];
      }
    }

    /** The second half of PassInput: as much of the packet as stdin takes. */
    method PushInput() returns (dead: Dead)
      requires Valid() && stdinoutOpen && inputBytesLeft > 0 && !inputDone
      modifies this`inputBytesLeft, this`inputDone, stdinout`output, stdinout`patience, stdinout`writeFailed
      ensures Valid() && (dead == Nothing || dead == Stdinout)
      ensures dead == Stdinout ==> stdinout.writeFailed && stdinout.patience == old(stdinout.patience)
      ensures stdinout.writeFailed && !old(stdinout.writeFailed) ==> dead == Stdinout
      ensures (dead == Stdinout <==> inputDone) && (inputDone ==> inputBytesLeft == 0) && inputBytesLeft <= old(inputBytesLeft)
      ensures Work() <= old(Work()) && (dead == Nothing ==> Work() < old(Work()))
      ensures dead == Nothing ==>
                && stdinout.output == old(stdinout.output) + old(Pending())[..old(inputBytesLeft) - inputBytesLeft]
                && (inputBytesLeft < old(inputBytesLeft) || stdinout.patience < old(stdinout.patience))
    {
      hide OutputOk, ReadAll, StreamOf;
      ghost var written := stdinout.output;
      var rest := input.data[|input.data| - inputBytesLeft..];
      assert rest == Pending();
      var r, again := stdinout.AdbWrite(rest);
      if r < 0 && !again {
        inputBytesLeft, inputDone := 0, true;
        return Stdinout;
      }
      if r > 0 {
        InputMoves(wire0, input.cap, pieces, input.St(), protocol.input, written, rest, r);
        hide InputOk;
        inputBytesLeft := inputBytesLeft - r;
        assert Pending() == rest[r..];
      }
      return Nothing;
    }

    /** PassInput took a packet, or got some of one written unless stdin would not have it now, or came to an end. */
    ghost predicate Progress(left: nat, arriving: nat, patience: nat, dead: Dead)
      reads this`inputBytesLeft, protocol, stdinout
    {
      || dead != Nothing
      || (left == 0 && |protocol.input| < arriving)
      || (left > 0 && (inputBytesLeft < left || stdinout.patience < patience))
    }

    /** Subprocess::PassInput. */
    method PassInput() returns (dead: Dead)
      requires Valid() && protocolOpen && (inputBytesLeft > 0 ==> stdinoutOpen) && (stdinoutOpen ==> !inputDone)
      modifies this`inputBytesLeft, this`pieces, this`inputDone, input, protocol`input, protocol`readFailed
      modifies stdinout`output, stdinout`patience, stdinout`writeFailed
      ensures Valid() && (stdinoutOpen && inputDone ==> dead == Protocol || (dead == Stdinout && inputBytesLeft == 0))
      ensures inputBytesLeft > 0 ==> stdinoutOpen
      ensures dead == Nothing || dead == Protocol || (dead == Stdinout && stdinoutOpen)
      ensures old(inputBytesLeft) == 0 && dead != Nothing ==> inputBytesLeft == 0
      ensures Progress(old(inputBytesLeft), old(|protocol.input|), old(stdinout.patience), dead)
      ensures Work() <= old(Work()) && (dead == Nothing ==> Work() < old(Work())) && (dead == Stdinout ==> inputDone)
      ensures old(inputDone) ==> inputDone
    {
      var done := false;
      dead := Nothing;
      if inputBytesLeft == 0 {
        done, dead := TakePacket();
      }
      if !done && inputBytesLeft > 0 {
        dead := PushInput();
      }
    }

    /** No descriptor has died, and a half-written packet keeps the protocol descriptor unread. */
    ghost predicate Calm()
      reads this, protocol
    {
      !protocol.writeFailed && (stdinoutOpen ==> !inputDone) && Tidy()
    }

    ghost predicate Tidy()
      reads this
    {
      (inputBytesLeft > 0 ==> !readProtocol) && (!stdinoutOpen ==> !writeStdin)
    }

    /** One round of select: which descriptors are ready, of those that are open and asked for. */
    method SelectRound(protocolReady: bool, stdoutReady: bool, stderrReady: bool, stdinReady: bool) returns (dead: Dead)
      requires Valid() && SetsOk() && protocolOpen && Calm()
      modifies this`inputBytesLeft, this`pieces, this`inputDone, this`readProtocol, this`writeStdin, this`sent
      modifies input, protocol, stdinout, stderr
      ensures Valid() && SetsOk() && Tidy() && (dead == Nothing ==> Calm())
      ensures stdinoutOpen && inputDone ==> dead == Protocol || dead == Stdinout
      ensures protocol.writeFailed ==> dead == Protocol
      ensures Work() <= old(Work())
      ensures old(Asked(protocolReady, stdoutReady, stderrReady, stdinReady)) && dead == Nothing ==> Work() < old(Work())
      ensures (dead == Stdinout ==> stdinoutOpen && OutEnded()) && (dead == Stderr ==> stderrOpen && ErrEnded())
      ensures (!stdinoutOpen && old(OutEnded()) ==> OutEnded()) && (!stderrOpen && old(ErrEnded()) ==> ErrEnded())
    {
      assert Apart();
      hide OutputOk, InputOk, ReadAll, StreamOf, Valid;
      dead := SelectOutput(stdoutReady, stderrReady);
      if dead == Nothing {
        dead := SelectInput(protocolReady && readProtocol, stdinReady && writeStdin);
      }
    }

    /** Select has something to report. */
    predicate Asked(protocolReady: bool, stdoutReady: bool, stderrReady: bool, stdinReady: bool)
      reads this
    {
      || (protocolReady && readProtocol)
      || (stdinoutOpen && ((stdoutReady && readStdinout) || (stdinReady && writeStdin)))
      || (stderrOpen && stderrReady && readStderr)
    }

    /** The output half of a round. */
    method SelectOutput(stdoutReady: bool, stderrReady: bool) returns (dead: Dead)
      requires Valid() && !protocol.writeFailed
      modifies this`sent, protocol`output, protocol`patience, protocol`writeFailed
      modifies stdinout`input, stdinout`patience, stdinout`readFailed, stderr`input, stderr`patience, stderr`readFailed
      ensures Valid() && (protocol.writeFailed ==> dead == Protocol)
      ensures (dead == Stdinout ==> stdinoutOpen) && (dead == Stderr ==> stderrOpen)
      ensures stdinoutOpen && readStdinout && stdoutReady ==>
                dead != Nothing || |stdinout.input| < |old(stdinout.input)| || stdinout.patience < old(stdinout.patience)
      ensures stderrOpen && readStderr && stderrReady ==>
                dead != Nothing || |stderr.input| < |old(stderr.input)| || stderr.patience < old(stderr.patience)
      ensures Work() <= old(Work())
      ensures old(Asked(false, stdoutReady, stderrReady, false)) && dead == Nothing ==> Work() < old(Work())
      ensures (dead == Stdinout ==> OutEnded()) && (dead == Stderr ==> ErrEnded())
      ensures (!stdinoutOpen && old(OutEnded()) ==> OutEnded()) && (!stderrOpen && old(ErrEnded()) ==> ErrEnded())
    {
      hide Valid;
      dead := Nothing;
      ghost var chunk;
      if stdinoutOpen && readStdinout && stdoutReady {
        dead, chunk := PassOutput(false);
      }
      if dead == Nothing && stderrOpen && readStderr && stderrReady {
        dead, chunk := PassOutput(true);
      }
    }

    /** The input half of a round: a new packet, or more of the one stdin would not take whole. */
    method SelectInput(protocolReady: bool, stdinReady: bool) returns (dead: Dead)
      requires Valid() && SetsOk() && protocolOpen && Calm()
      requires (protocolReady ==> readProtocol) && (stdinReady ==> writeStdin)
      modifies this`inputBytesLeft, this`pieces, this`inputDone, this`readProtocol, this`writeStdin
      modifies input, protocol`input, protocol`readFailed, stdinout`output, stdinout`patience, stdinout`writeFailed
      ensures Valid() && SetsOk() && Tidy() && (dead == Nothing ==> Calm())
      ensures dead == Stdinout ==> stdinoutOpen
      ensures stdinoutOpen && inputDone ==> dead == Protocol || dead == Stdinout
      ensures protocolReady || (stdinReady && stdinoutOpen) ==>
                Progress(old(inputBytesLeft), old(|protocol.input|), old(stdinout.patience), dead)
      ensures Work() <= old(Work()) && (dead == Stdinout ==> inputDone)
      ensures (protocolReady || (stdinReady && stdinoutOpen)) && dead == Nothing ==> Work() < old(Work())
      ensures dead != Stderr && (old(inputDone) ==> inputDone)
    {
      hide OutputOk, InputOk, ReadAll, StreamOf;
      dead := Nothing;
      if protocolReady {
        dead := PassInput();
        if inputBytesLeft > 0 {
          readProtocol, writeStdin := false, true;
        }
      }
      if dead == Nothing && stdinoutOpen && stdinReady {
        dead := PassInput();
        if inputBytesLeft == 0 {
          readProtocol, writeStdin := true, false;
        }
      }
    }

    /**
     * SelectLoop for at most `rounds` calls of select: the descriptor that died, if one did. As long as no call
     * is interrupted each does some of the work, so one dies before there are more calls than work.
     */
    method SelectLoop(rounds: nat) returns (dead: Dead, ghost served: nat, ghost interrupts: nat)
      requires Valid() && SetsOk() && protocolOpen && Calm() && Drained()
      modifies this`inputBytesLeft, this`pieces, this`inputDone, this`readProtocol, this`writeStdin, this`sent
      modifies this`stdinoutOpen, this`stderrOpen, this`selectFailed
      modifies input, protocol, stdinout, stderr
      ensures Valid() && protocolOpen && (stdinoutOpen ==> old(stdinoutOpen)) && (stderrOpen ==> old(stderrOpen))
      ensures SetsOk() && (Tidy() || dead == Nothing) && (dead == Nothing ==> Calm() || Over())
      ensures inputDone && stdinoutOpen ==> dead == Protocol || dead == Stdinout
      ensures protocol.writeFailed ==> dead == Protocol
      ensures Drained() && (dead == Stdinout ==> stdinoutOpen && OutEnded()) && (dead == Stderr ==> stderrOpen && ErrEnded())
      ensures dead == Nothing ==> served + interrupts == rounds || (selectFailed && Over())
      ensures Work() + served <= old(Work()) + (if dead == Nothing then 0 else 1) && (dead != Nothing ==> served > 0)
      ensures interrupts == 0 && rounds > old(Work()) ==> dead != Nothing || Over()
    {
      hide OutputOk, InputOk, ReadAll, StreamOf;
      dead, served, interrupts := Nothing, 0, 0;
      for i := 0 to rounds
        invariant Valid() && SetsOk() && protocolOpen && dead == Nothing && Calm() && Drained()
        invariant stdinoutOpen == old(stdinoutOpen) && stderrOpen == old(stderrOpen)
        invariant served + interrupts == i && Work() + served <= old(Work())
      {
        var failed: bool := *;
        var protocolReady: bool, stdoutReady: bool, stderrReady: bool, stdinReady: bool := *, *, *, *;
        if failed {
          stdinoutOpen, stderrOpen, selectFailed := false, false, true;
          return;
        }
        if Asked(protocolReady, stdoutReady, stderrReady, stdinReady) {
          dead := SelectRound(protocolReady, stdoutReady, stderrReady, stdinReady);
          served := served + 1;
          if dead != Nothing {
            return;
          }
        } else {
          interrupts := interrupts + 1;
        }
      }
    }

    /**
     * PassDataStreams, with a bound on how often select is called: if no call is interrupted the pump comes to
     * its end, and unless something failed all that the child wrote has been sent.
     */
    method PassDataStreams(rounds: nat) returns (ghost interrupts: nat)
      requires Valid() && SetsOk() && (protocolOpen ==> Calm()) && Drained()
      modifies this`inputBytesLeft, this`pieces, this`inputDone, this`readProtocol, this`writeStdin, this`sent
      modifies this`protocolOpen, this`stdinoutOpen, this`stderrOpen, this`readStdinout, this`readStderr, this`selectFailed
      modifies input, protocol, stdinout, stderr
      ensures Valid() && SetsOk() && (protocolOpen ==> Calm() || Over()) && Drained()
      ensures protocolOpen ==> !protocol.writeFailed
      ensures interrupts == 0 && rounds >= 3 && rounds > old(Work()) ==> Over()
    {
      hide OutputOk, InputOk, ReadAll, StreamOf;
      interrupts := 0;
      for i := 0 to rounds
        invariant Valid() && SetsOk() && (protocolOpen ==> Calm() || Over()) && Drained()
        invariant Work() <= old(Work()) && (protocolOpen ==> !protocol.writeFailed)
        invariant interrupts == 0 && rounds > old(Work()) ==> Over() || Open() + i <= 3
      {
        if !protocolOpen || (!stdinoutOpen && !stderrOpen) {
          return;
        }
        var dead;
        ghost var served, more;
        dead, served, more := SelectLoop(rounds);
        interrupts := interrupts + more;
        Bury(dead);
      }
    }

    /** How many of the descriptors are open. */
    ghost function Open(): nat
      reads this
    {
      (if protocolOpen then 1 else 0) + (if stdinoutOpen then 1 else 0) + (if stderrOpen then 1 else 0)
    }

    /** What PassDataStreams does once a descriptor has died. */
    method Bury(dead: Dead)
      requires Valid() && SetsOk() && protocolOpen && Drained()
      requires dead == Nothing ==> Calm() || Over()
      requires stdinoutOpen && inputDone ==> dead == Protocol || dead == Stdinout
      requires protocol.writeFailed ==> dead == Protocol
      requires dead != Nothing ==> Tidy()
      requires (dead == Stdinout ==> OutEnded()) && (dead == Stderr ==> ErrEnded())
      modifies this`readProtocol, this`writeStdin, this`protocolOpen, this`stdinoutOpen, this`stderrOpen, this`readStdinout, this`readStderr
      ensures Valid() && SetsOk() && (protocolOpen ==> Calm() || Over()) && Drained()
      ensures protocolOpen == (dead != Protocol) && (protocolOpen ==> !protocol.writeFailed)
      ensures stdinoutOpen == (old(stdinoutOpen) && dead != Protocol && dead != Stdinout)
      ensures stderrOpen == (old(stderrOpen) && dead != Protocol && dead != Stderr)
    {
      hide OutputOk, InputOk, ReadAll, StreamOf;
      match dead
      case Nothing =>
      case Protocol =>
        readProtocol, protocolOpen := false, false;
        stdinoutOpen, stderrOpen := false, false;
      case Stdinout => readStdinout, writeStdin, stdinoutOpen := false, false, false;
      case Stderr => readStderr, stderrOpen := false, false;
    }
  }
}
