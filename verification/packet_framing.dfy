/**
 * Packets on a byte stream: send_packet and the two checks of transport.cpp, the checksum of adb.cpp,
 * remote_write and remote_read of transport_local.cpp.
 */
module PacketFraming {
  import opened AdbBase
  import opened AdbIo

  /** An apacket as the layers above see it; the other header fields are computed. */
  datatype Packet = Packet(command: nat, arg0: nat, arg1: nat, data: Bytes)

  const HEADER_SIZE: nat := 24

  predicate Legal(p: Packet) {
    p.command < TWO_32 && p.arg0 < TWO_32 && p.arg1 < TWO_32 && |p.data| <= MAX_PAYLOAD
  }

  /** An exclusive or with all ones turns a word into its complement. */
  function Magic(command: nat): nat
    requires command < TWO_32
  {
    TWO_32 - 1 - command
  }

  function Power(k: nat): nat { if k == 0 then 1 else 2 * Power(k - 1) }

  /** Bit k of a word. */
  function Bit(n: nat, k: nat): nat
    decreases k
  {
    if k == 0 then n % 2 else Bit(n / 2, k - 1)
  }

  lemma {:induction false} ComplementBits(n: nat, width: nat, k: nat)
    requires n < Power(width) && k < width
    ensures Bit(Power(width) - 1 - n, k) != Bit(n, k)
  {
    var m := Power(width) - 1 - n;
    if k > 0 {
      assert Power(width) == 2 * Power(width - 1);
      assert m / 2 == Power(width - 1) - 1 - n / 2;
      ComplementBits(n / 2, width - 1, k - 1);
    }
  }

  /** The magic differs from the command in each of its 32 bits. */
  lemma MagicFlips(command: nat, k: nat)
    requires command < TWO_32 && k < 32
    ensures Magic(command) < TWO_32 && Bit(Magic(command), k) != Bit(command, k)
  {
    assert Power(32) == TWO_32 by {
      Eightfold(0);
      Eightfold(8);
      Eightfold(16);
      Eightfold(24);
    }
    ComplementBits(command, 32, k);
  }

  lemma Eightfold(k: nat)
    ensures Power(k + 8) == 0x100 * Power(k)
  {
    assert Power(k + 2) == 4 * Power(k);
    assert Power(k + 4) == 16 * Power(k);
    assert Power(k + 6) == 64 * Power(k);
  }

  /** The true sum of the payload bytes. */
  function Sum(data: Bytes): nat {
    if data == [] then 0 else Sum(data[..|data| - 1]) + data[|data| - 1] as nat
  }

  /** The sum of any payload fits in the 32-bit checksum. */
  lemma {:induction false} SumBound(data: Bytes)
    ensures Sum(data) <= 255 * |data|
    ensures |data| <= MAX_PAYLOAD ==> Sum(data) < TWO_32
  {
    if data != [] {
      SumBound(data[..|data| - 1]);
    }
  }

  lemma {:induction false} SumStep(data: Bytes, i: nat)
    requires i < |data|
    ensures Sum(data[..i + 1]) == Sum(data[..i]) + data[i] as nat
    ensures Sum(data[..i + 1]) % TWO_32 == (Sum(data[..i]) % TWO_32 + data[i] as nat) % TWO_32
  {
    assert data[..i + 1][..i] == data[..i];
  }

  function Header(command: nat, arg0: nat, arg1: nat, length: nat, check: nat, magic: nat): Bytes
    requires command < TWO_32 && arg0 < TWO_32 && arg1 < TWO_32 && length < TWO_32 && check < TWO_32 && magic < TWO_32
  {
    Le32(command) + Le32(arg0) + Le32(arg1) + Le32(length) + Le32(check) + Le32(magic)
  }

  /** What a packet looks like on the wire. */
  function Encode(p: Packet): Bytes
    requires Legal(p)
  {
    SumBound(p.data);
    Header(p.command, p.arg0, p.arg1, |p.data|, Sum(p.data), Magic(p.command)) + p.data
  }

  datatype Reading = Got(p: Packet, rest: Bytes) | Short | Refused

  function Word(b: Bytes, k: nat): (n: nat)
    requires 4 * k + 4 <= |b|
    ensures n < TWO_32
  {
    FromLe32(b[4 * k..4 * k + 4])
  }

  /** check_header. */
  predicate HeaderOk(h: Bytes, maxPayload: nat)
    requires |h| == HEADER_SIZE
  {
    Word(h, 5) == Magic(Word(h, 0)) && Word(h, 3) <= maxPayload
  }

  /** What a receiver makes of a stream. */
  function Decode(wire: Bytes, maxPayload: nat): Reading {
    if |wire| < HEADER_SIZE then Short
    else
      var h := wire[..HEADER_SIZE];
      if !HeaderOk(h, maxPayload) then Refused
      else if |wire| < HEADER_SIZE + Word(h, 3) then Short
      else
        var data := wire[HEADER_SIZE..HEADER_SIZE + Word(h, 3)];
        if Sum(data) % TWO_32 != Word(h, 4) then Refused
        else Got(Packet(Word(h, 0), Word(h, 1), Word(h, 2), data), wire[HEADER_SIZE + Word(h, 3)..])
  }

  lemma HeaderWords(command: nat, arg0: nat, arg1: nat, length: nat, check: nat, magic: nat)
    requires command < TWO_32 && arg0 < TWO_32 && arg1 < TWO_32 && length < TWO_32 && check < TWO_32 && magic < TWO_32
    ensures var h := Header(command, arg0, arg1, length, check, magic);
            && |h| == HEADER_SIZE && Word(h, 0) == command && Word(h, 1) == arg0 && Word(h, 2) == arg1
            && Word(h, 3) == length && Word(h, 4) == check && Word(h, 5) == magic
  {
    var h := Header(command, arg0, arg1, length, check, magic);
    hide Le32;
    assert h[0..4] == Le32(command) && h[4..8] == Le32(arg0) && h[8..12] == Le32(arg1);
    assert h[12..16] == Le32(length) && h[16..20] == Le32(check) && h[20..24] == Le32(magic);
  }

  /** A header is its six words. */
  lemma {:induction false} HeaderOfWords(h: Bytes)
    requires |h| == HEADER_SIZE
    ensures h == Header(Word(h, 0), Word(h, 1), Word(h, 2), Word(h, 3), Word(h, 4), Word(h, 5))
  {
    forall k | 0 <= k < 6 ensures Le32(Word(h, k)) == h[4 * k..4 * k + 4] {
      FromLe32Inverse(h[4 * k..4 * k + 4]);
    }
    hide Le32, Word;
    assert h == h[0..4] + h[4..8] + h[8..12] + h[12..16] + h[16..20] + h[20..24];
  }

  lemma {:induction false} Slices(h: Bytes, data: Bytes, rest: Bytes)
    ensures var wire := h + data + rest;
            && wire[..|h|] == h && wire[|h|..|h| + |data|] == data && wire[|h| + |data|..] == rest
  {
  }

  /** Magic and checksum are always accepted; the packet is refused exactly if it exceeds the receiver's limit. */
  lemma {:induction false} DecodeEncode(p: Packet, rest: Bytes, maxPayload: nat)
    requires Legal(p)
    ensures Decode(Encode(p) + rest, maxPayload) == if |p.data| <= maxPayload then Got(p, rest) else Refused
  {
    hide Header, Word, Sum;
    SumBound(p.data);
    var h := Header(p.command, p.arg0, p.arg1, |p.data|, Sum(p.data), Magic(p.command));
    HeaderWords(p.command, p.arg0, p.arg1, |p.data|, Sum(p.data), Magic(p.command));
    Slices(h, p.data, rest);
  }

  /** Conversely what a receiver accepts is what some sender would have written. */
  lemma {:induction false} EncodeDecode(wire: Bytes, maxPayload: nat)
    requires maxPayload <= MAX_PAYLOAD && Decode(wire, maxPayload).Got?
    ensures var r := Decode(wire, maxPayload); Legal(r.p) && wire == Encode(r.p) + r.rest
  {
    hide Header, Word, Sum;
    var h := wire[..HEADER_SIZE];
    var r := Decode(wire, maxPayload);
    HeaderOfWords(h);
    SumBound(r.p.data);
    assert |r.p.data| == Word(h, 3) && Sum(r.p.data) == Word(h, 4);
    assert Encode(r.p) == h + r.p.data;
    assert wire == h + r.p.data + r.rest;
  }

  function EncodeAll(ps: seq<Packet>): Bytes
    requires forall p :: p in ps ==> Legal(p)
  {
    if ps == [] then [] else Encode(ps[0]) + EncodeAll(ps[1..])
  }

  /** The packets a receiver gets before the stream ends or one is refused. */
  function DecodeAll(wire: Bytes, maxPayload: nat): seq<Packet>
    decreases |wire|
  {
    match Decode(wire, maxPayload)
    case Got(p, rest) => [p] + DecodeAll(rest, maxPayload)
    case _ => []
  }

  /** Any sequence of packets within the receiver's limit arrives as sent. */
  lemma {:induction false} AllArrive(ps: seq<Packet>, maxPayload: nat)
    requires forall p :: p in ps ==> Legal(p) && |p.data| <= maxPayload
    ensures DecodeAll(EncodeAll(ps), maxPayload) == ps
  {
    if ps != [] {
      DecodeEncode(ps[0], EncodeAll(ps[1..]), maxPayload);
      AllArrive(ps[1..], maxPayload);
    }
  }

  // ----- the code -----

  /** calculate_apacket_checksum, in 32-bit arithmetic. */
  method CalculateApacketChecksum(data: Bytes) returns (sum: nat)
    ensures sum == Sum(data) % TWO_32
    ensures |data| <= MAX_PAYLOAD ==> sum == Sum(data)
  {
    hide Sum;
    SumBound(data);
    SumBound([]);
    sum := 0;
    for i := 0 to |data|
      invariant sum == Sum(data[..i]) % TWO_32
    {
      SumStep(data, i);
      sum := (sum + data[i] as nat) % TWO_32;
    }
    assert data[..|data|] == data;
  }

  /** send_packet fills in magic and checksum, remote_write puts header and payload on the stream. */
  method RemoteWrite(fd: Fd, p: Packet) returns (ok: bool)
    requires Legal(p)
    modifies fd`output, fd`patience, fd`writeFailed
    ensures ok ==> fd.output == old(fd.output) + Encode(p)
    ensures !ok ==> fd.writeFailed
  {
    var check := CalculateApacketChecksum(p.data);
    SumBound(p.data);
    ok := WriteFdExactly(fd, Header(p.command, p.arg0, p.arg1, |p.data|, check, Magic(p.command)) + p.data);
  }

  /** remote_read with check_header and check_data. */
  method RemoteRead(fd: Fd, maxPayload: nat) returns (r: Option<Packet>)
    requires maxPayload <= MAX_PAYLOAD && !fd.readFailed
    modifies fd`input, fd`readFailed
    ensures r.Some? ==> Decode(old(fd.input), maxPayload) == Got(r.value, fd.input) && !fd.readFailed
    ensures r == None && !fd.readFailed ==> !Decode(old(fd.input), maxPayload).Got?
  {
    ghost var wire := fd.input;
    var ok, h := ReadFdExactly(fd, HEADER_SIZE);
    if !ok {
      return None;
    }
    assert wire[..HEADER_SIZE] == h;
    if !HeaderOk(h, maxPayload) {
      return None;
    }
    ghost var middle := fd.input;
    var more, data := ReadFdExactly(fd, Word(h, 3));
    if !more {
      return None;
    }
    assert wire == h + (data + fd.input);
    assert wire[HEADER_SIZE..HEADER_SIZE + Word(h, 3)] == data && wire[HEADER_SIZE + Word(h, 3)..] == fd.input;
    var check := CalculateApacketChecksum(data);
    if check != Word(h, 4) {
      return None;
    }
    return Some(Packet(Word(h, 0), Word(h, 1), Word(h, 2), data));
  }
}
