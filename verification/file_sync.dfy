/**
 * File transfer (file_sync_client.cpp, file_sync_service.cpp): requests, DATA messages and DONE. What
 * the printing side sends for a file, the parsing side stores.
 */
module FileSync {
  import opened AdbBase
  import opened AdbIo
  import opened SyncSpec

  const ID_SEND: nat := 0x444e4553
  const ID_RECV: nat := 0x56434552
  const ID_DATA: nat := 0x41544144
  const ID_DONE: nat := 0x454e4f44
  const ID_OKAY: nat := 0x59414b4f
  const ID_FAIL: nat := 0x4c494146
  const ID_QUIT: nat := 0x54495551
  const ID_LSTAT_V1: nat := 0x54415453
  const ID_STAT_V2: nat := 0x32415453
  const ID_LSTAT_V2: nat := 0x3254534c
  const ID_LIST: nat := 0x5453494c

  const SYNC_DATA_MAX: nat := 64 * 1024
  const PATH_MAX: nat := 1024

  // ----- messages -----

  function Msg(id: nat, size: nat): Bytes
    requires id < TWO_32 && size < TWO_32
  {
    Le32(id) + Le32(size)
  }

  function MsgId(b: Bytes): nat
    requires |b| >= 8
  {
    FromLe32(b[..4])
  }

  function MsgSize(b: Bytes): (n: nat)
    requires |b| >= 8
    ensures n < TWO_32
  {
    FromLe32(b[4..8])
  }

  /** The ids are four letters on the wire. */
  lemma IdsSpell()
    ensures Le32(ID_SEND) == ['S' as byte, 'E' as byte, 'N' as byte, 'D' as byte]
    ensures Le32(ID_RECV) == ['R' as byte, 'E' as byte, 'C' as byte, 'V' as byte]
    ensures Le32(ID_DATA) == ['D' as byte, 'A' as byte, 'T' as byte, 'A' as byte]
    ensures Le32(ID_DONE) == ['D' as byte, 'O' as byte, 'N' as byte, 'E' as byte]
    ensures Le32(ID_OKAY) == ['O' as byte, 'K' as byte, 'A' as byte, 'Y' as byte]
    ensures Le32(ID_FAIL) == ['F' as byte, 'A' as byte, 'I' as byte, 'L' as byte]
    ensures Le32(ID_QUIT) == ['Q' as byte, 'U' as byte, 'I' as byte, 'T' as byte]
    ensures Le32(ID_LIST) == ['L' as byte, 'I' as byte, 'S' as byte, 'T' as byte]
    ensures Le32(ID_LSTAT_V1) == ['S' as byte, 'T' as byte, 'A' as byte, 'T' as byte]
    ensures Le32(ID_STAT_V2) == ['S' as byte, 'T' as byte, 'A' as byte, '2' as byte]
    ensures Le32(ID_LSTAT_V2) == ['L' as byte, 'S' as byte, 'T' as byte, '2' as byte]
  {
    Le32Bytes(ID_SEND);
    Le32Bytes(ID_RECV);
    Le32Bytes(ID_DATA);
    Le32Bytes(ID_DONE);
    Le32Bytes(ID_OKAY);
    Le32Bytes(ID_FAIL);
    Le32Bytes(ID_QUIT);
    Le32Bytes(ID_LIST);
    Le32Bytes(ID_LSTAT_V1);
    Le32Bytes(ID_STAT_V2);
    Le32Bytes(ID_LSTAT_V2);
  }

  lemma {:induction false} MsgRead(id: nat, size: nat, rest: Bytes)
    requires id < TWO_32 && size < TWO_32
    ensures var b := Msg(id, size) + rest;
            |b| == 8 + |rest| && MsgId(b) == id && MsgSize(b) == size && b[8..] == rest
  {
    var b := Msg(id, size) + rest;
    hide Le32;
    assert b[..4] == Le32(id) && b[4..8] == Le32(size);
  }

  function DataMsg(chunk: Bytes): Bytes
    requires |chunk| < TWO_32
  {
    Msg(ID_DATA, |chunk|) + chunk
  }

  predicate Chunked(chunks: seq<Bytes>) { forall k :: 0 <= k < |chunks| ==> |chunks[k]| <= SYNC_DATA_MAX }

  function DataMsgs(chunks: seq<Bytes>): Bytes
    requires Chunked(chunks)
  {
    if chunks == [] then [] else DataMsg(chunks[0]) + DataMsgs(chunks[1..])
  }

  /** A request with its path argument. */
  function Request(id: nat, arg: Bytes): Bytes
    requires id < TWO_32 && |arg| < TWO_32
  {
    Msg(id, |arg|) + arg
  }

  // ----- receiving a file -----

  /** What the loop of handle_send_file, and that of sync_recv, comes to. */
  datatype Stored = Stored(content: Bytes, time: nat, rest: Bytes) | Unexpected | Oversize | Cut

  function Store(wire: Bytes, content: Bytes): Stored
    decreases |wire|
  {
    if |wire| < 8 then Cut
    else if MsgId(wire) == ID_DONE then Stored(content, MsgSize(wire), wire[8..])
    else if MsgId(wire) != ID_DATA then Unexpected
    else if MsgSize(wire) > SYNC_DATA_MAX then Oversize
    else if |wire| < 8 + MsgSize(wire) then Cut
    else Store(wire[8 + MsgSize(wire)..], content + wire[8..8 + MsgSize(wire)])
  }

  lemma {:induction false} StoreOne(chunk: Bytes, rest: Bytes, content: Bytes)
    requires |chunk| <= SYNC_DATA_MAX
    ensures Store(DataMsg(chunk) + rest, content) == Store(rest, content + chunk)
  {
    var wire := DataMsg(chunk) + rest;
    assert wire == Msg(ID_DATA, |chunk|) + (chunk + rest);
    MsgRead(ID_DATA, |chunk|, chunk + rest);
    assert wire[8..][..|chunk|] == chunk && wire[8..][|chunk|..] == rest;
    assert wire[8..8 + |chunk|] == chunk && wire[8 + |chunk|..] == rest;
  }

  /** However a file is cut into chunks of at most SYNC_DATA_MAX, exactly its content and time are stored. */
  lemma {:induction false} StoreRoundTrip(chunks: seq<Bytes>, time: nat, rest: Bytes, content: Bytes)
    requires Chunked(chunks) && time < TWO_32
    ensures Store(DataMsgs(chunks) + (Msg(ID_DONE, time) + rest), content) == Stored(content + Flat(chunks), time, rest)
    decreases |chunks|
  {
    var tail := Msg(ID_DONE, time) + rest;
    if chunks == [] {
      assert DataMsgs(chunks) + tail == tail;
      MsgRead(ID_DONE, time, rest);
      assert content + [] == content;
    } else {
      hide Store, Msg, DataMsg;
      Assoc(DataMsg(chunks[0]), DataMsgs(chunks[1..]), tail);
      StoreOne(chunks[0], DataMsgs(chunks[1..]) + tail, content);
      StoreRoundTrip(chunks[1..], time, rest, content + chunks[0]);
      Assoc(content, chunks[0], Flat(chunks[1..]));
    }
  }

  /** A small file goes in one chunk; it is stored exactly if it fits the server's buffer. */
  lemma {:induction false} SmallFileStored(data: Bytes, time: nat, rest: Bytes)
    requires |data| < TWO_32 && time < TWO_32
    ensures Store(DataMsg(data) + (Msg(ID_DONE, time) + rest), [])
         == if |data| <= SYNC_DATA_MAX then Stored(data, time, rest) else Oversize
  {
    var tail := Msg(ID_DONE, time) + rest;
    if |data| <= SYNC_DATA_MAX {
      StoreOne(data, tail, []);
      MsgRead(ID_DONE, time, rest);
      assert [] + data == data;
    } else {
      assert DataMsg(data) + tail == Msg(ID_DATA, |data|) + (data + tail);
      MsgRead(ID_DATA, |data|, data + tail);
    }
  }

  /** A file that stat called small and that had grown by one byte too many when it was read. */
  lemma GrownFileRefused(time: nat, rest: Bytes)
    requires time < TWO_32
    ensures Store(DataMsg(seq(SYNC_DATA_MAX + 1, _ => 0)) + (Msg(ID_DONE, time) + rest), []) == Oversize
  {
    SmallFileStored(seq(SYNC_DATA_MAX + 1, _ => 0), time, rest);
  }

  // ----- commands -----

  /** handle_sync_command's view of the next request; a path ends at its first NUL. */
  datatype Command = Command(id: nat, arg: Bytes, rest: Bytes) | PathTooLong | ReadFailure

  function ReadCommand(wire: Bytes): Command {
    if |wire| < 8 then ReadFailure
    else if MsgSize(wire) > PATH_MAX then PathTooLong
    else if |wire| < 8 + MsgSize(wire) then ReadFailure
    else Command(MsgId(wire), CString(wire[8..8 + MsgSize(wire)]), wire[8 + MsgSize(wire)..])
  }

  lemma {:induction false} RequestRoundTrip(id: nat, arg: Bytes, rest: Bytes)
    requires id < TWO_32 && |arg| <= PATH_MAX && 0 !in arg
    ensures ReadCommand(Request(id, arg) + rest) == Command(id, arg, rest)
  {
    var wire := Request(id, arg) + rest;
    assert wire == Msg(id, |arg|) + (arg + rest);
    MsgRead(id, |arg|, arg + rest);
    assert wire[8..][..|arg|] == arg && wire[8..][|arg|..] == rest;
    assert wire[8..8 + |arg|] == arg && wire[8 + |arg|..] == rest;
    WholeCString(arg);
  }

  /** A whole push as it goes over the connection. */
  function Push(path: Bytes, mode: nat, chunks: seq<Bytes>, time: nat): Bytes
    requires mode < TWO_32 && time < TWO_32 && Chunked(chunks) && |PathAndMode(path, mode)| < TWO_32
  {
    Request(ID_SEND, PathAndMode(path, mode)) + DataMsgs(chunks) + Msg(ID_DONE, time)
  }

  /**
   * Push, end to end: the server takes path and mode out of the request, stores the file's exact
   * content and time, and is left at the next request.
   */
  lemma {:induction false} PushRoundTrip(path: Bytes, mode: nat, chunks: seq<Bytes>, time: nat, rest: Bytes)
    requires mode < TWO_32 && time < TWO_32 && Chunked(chunks) && 0 !in path && |PathAndMode(path, mode)| <= PATH_MAX
    ensures var c := ReadCommand(Push(path, mode, chunks, time) + rest);
            && c.Command? && c.id == ID_SEND && SplitSpec(c.arg) == Spec(path, mode)
            && Store(c.rest, []) == Stored(Flat(chunks), time, rest)
  {
    var tail := DataMsgs(chunks) + (Msg(ID_DONE, time) + rest);
    assert Push(path, mode, chunks, time) + rest == Request(ID_SEND, PathAndMode(path, mode)) + tail;
    SpecHasNoNul(path, mode);
    RequestRoundTrip(ID_SEND, PathAndMode(path, mode), tail);
    SpecRoundTrip(path, mode);
    StoreRoundTrip(chunks, time, rest, []);
    assert [] + Flat(chunks) == Flat(chunks);
  }

  lemma {:induction false} DataAppend(chunks: seq<Bytes>, chunk: Bytes)
    requires Chunked(chunks) && |chunk| <= SYNC_DATA_MAX
    ensures Chunked(chunks + [chunk]) && DataMsgs(chunks + [chunk]) == DataMsgs(chunks) + DataMsg(chunk)
  {
    if chunks == [] {
      assert chunks + [chunk] == [chunk];
      assert DataMsgs([chunk][1..]) == [];
    } else {
      assert (chunks + [chunk])[1..] == chunks[1..] + [chunk];
      DataAppend(chunks[1..], chunk);
      assert DataMsgs(chunks + [chunk]) == DataMsg(chunks[0]) + (DataMsgs(chunks[1..]) + DataMsg(chunk));
    }
  }

  // ----- the client -----

  /** SyncConnection::SendRequest. */
  method SendRequest(fd: Fd, id: nat, arg: Bytes) returns (ok: bool)
    requires id < TWO_32
    modifies fd`output, fd`patience, fd`writeFailed
    ensures |arg| > PATH_MAX ==> !ok && fd.output == old(fd.output)
    ensures ok ==> fd.output == old(fd.output) + Request(id, arg) && fd.writeFailed == old(fd.writeFailed)
    ensures !ok && |arg| <= PATH_MAX ==> fd.writeFailed
  {
    if |arg| > PATH_MAX {
      return false;
    }
    ok := WriteFdExactly(fd, Request(id, arg));
  }

  /** SendSmallFile: header, payload and footer in one write. */
  method SendSmallFile(fd: Fd, arg: Bytes, time: nat, data: Bytes) returns (ok: bool)
    requires time < TWO_32 && |data| < TWO_32
    modifies fd`output, fd`patience, fd`writeFailed
    ensures |arg| > PATH_MAX ==> !ok && fd.output == old(fd.output)
    ensures ok ==> fd.output == old(fd.output) + Request(ID_SEND, arg) + DataMsg(data) + Msg(ID_DONE, time)
    ensures !ok && |arg| <= PATH_MAX ==> fd.writeFailed
  {
    if |arg| > PATH_MAX {
      return false;
    }
    var buf := Request(ID_SEND, arg) + DataMsg(data) + Msg(ID_DONE, time);
    ghost var before := fd.output;
    ok := WriteFdExactly(fd, buf);
    assert before + buf == before + Request(ID_SEND, arg) + DataMsg(data) + Msg(ID_DONE, time);
  }

  /** SendLargeFile: the file goes out as it is read, unless the server answers early. */
  method SendLargeFile(fd: Fd, lfd: Fd, arg: Bytes, time: nat) returns (ok: bool, early: bool, ghost chunks: seq<Bytes>)
    requires time < TWO_32 && fd != lfd && !lfd.readFailed && !fd.writeFailed
    modifies fd`output, fd`patience, fd`writeFailed, lfd`input, lfd`readFailed
    ensures Chunked(chunks)
    ensures ok ==> |arg| <= PATH_MAX && fd.output == old(fd.output) + (Request(ID_SEND, arg) + DataMsgs(chunks) + Msg(ID_DONE, time))
    ensures ok && !early ==> Flat(chunks) == old(lfd.input)
    ensures ok ==> Flat(chunks) <= old(lfd.input)
    ensures !ok ==> |arg| > PATH_MAX || fd.writeFailed || lfd.readFailed
  {
    hide Request, DataMsg;
    chunks, early := [], false;
    ok := SendRequest(fd, ID_SEND, arg);
    if !ok {
      return;
    }
    ghost var start := fd.output;
    assert start + [] == start;
    while true
      invariant Chunked(chunks) && fd.output == start + DataMsgs(chunks) && !fd.writeFailed && !lfd.readFailed
      invariant Flat(chunks) + lfd.input == old(lfd.input)
      decreases |lfd.input|
    {
      var r, data := lfd.AdbRead(SYNC_DATA_MAX);
      if r < 0 {
        return false, early, chunks;
      }
      if r == 0 {
        break;
      }
      ok := WriteFdExactly(fd, DataMsg(data));
      if !ok {
        return;
      }
      DataAppend(chunks, data);
      FlatAppend(chunks, data);
      Assoc(start, DataMsgs(chunks), DataMsg(data));
      Assoc(Flat(chunks), data, lfd.input);
      chunks := chunks + [data];
      early := *;
      if early {
        break;
      }
    }
    ok := WriteFdExactly(fd, Msg(ID_DONE, time));
    Assoc(old(fd.output), Request(ID_SEND, arg), DataMsgs(chunks));
    Assoc(old(fd.output), Request(ID_SEND, arg) + DataMsgs(chunks), Msg(ID_DONE, time));
    assert Flat(chunks) + [] == Flat(chunks);
  }

  datatype Outcome = Copied | Premature | Failed(reason: Option<Bytes>) | Broken

  /** CopyDone; `Premature` and `Copied` both count as success. */
  method CopyDone(fd: Fd, expectDone: bool) returns (r: Outcome)
    requires !fd.readFailed
    modifies fd`input, fd`readFailed
    ensures !fd.readFailed && |old(fd.input)| >= 8 && MsgId(old(fd.input)) == ID_OKAY ==>
              r == (if expectDone then Copied else Premature) && fd.input == old(fd.input)[8..]
    ensures r == Copied || r == Premature ==> |old(fd.input)| >= 8 && MsgId(old(fd.input)) == ID_OKAY
    ensures !fd.readFailed ==> (r == Broken <==> |old(fd.input)| < 8)
    ensures r.Failed? && r.reason.Some? ==>
              && |old(fd.input)| >= 8 && MsgId(old(fd.input)) == ID_FAIL
              && var n := MsgSize(old(fd.input));
                 |old(fd.input)| >= 8 + n && r.reason.value == old(fd.input)[8..8 + n]
    ensures !fd.readFailed && |old(fd.input)| >= 8 && MsgId(old(fd.input)) == ID_FAIL ==>
              var n := MsgSize(old(fd.input));
              r == Failed(if |old(fd.input)| >= 8 + n then Some(old(fd.input)[8..8 + n]) else None)
    ensures !fd.readFailed && |old(fd.input)| >= 8 && MsgId(old(fd.input)) != ID_FAIL && MsgId(old(fd.input)) != ID_OKAY ==>
              r == Failed(None)
  {
    ghost var wire := fd.input;
    var ok, m := ReadFdExactly(fd, 8);
    if !ok {
      return Broken;
    }
    assert wire[..4] == m[..4] && wire[4..8] == m[4..8] && wire[8..] == fd.input;
    if MsgId(m) == ID_OKAY {
      return if expectDone then Copied else Premature;
    }
    if MsgId(m) != ID_FAIL {
      return Failed(None);
    }
    var got, reason := ReadFdExactly(fd, MsgSize(m));
    if !got {
      return Failed(None);
    }
    assert wire[8..][..MsgSize(m)] == reason;
    return Failed(Some(reason));
  }

  /** One message header and, for DATA that fits the buffer, its payload. */
  datatype Step = Data(chunk: Bytes) | Done(time: nat) | NotData | TooBig | NoHeader | NoPayload

  function StepOf(wire: Bytes): (Step, Bytes) {
    if |wire| < 8 then (NoHeader, [])
    else if MsgId(wire) == ID_DONE then (Done(MsgSize(wire)), wire[8..])
    else if MsgId(wire) != ID_DATA then (NotData, wire[8..])
    else if MsgSize(wire) > SYNC_DATA_MAX then (TooBig, wire[8..])
    else if |wire| < 8 + MsgSize(wire) then (NoPayload, [])
    else (Data(wire[8..8 + MsgSize(wire)]), wire[8 + MsgSize(wire)..])
  }

  function AfterStep(step: Step, rest: Bytes, content: Bytes): Stored {
    match step
    case Data(chunk) => Store(rest, content + chunk)
    case Done(time) => Stored(content, time, rest)
    case NotData => Unexpected
    case TooBig => Oversize
    case _ => Cut
  }

  lemma {:induction false} StoreStep(wire: Bytes, content: Bytes)
    ensures Store(wire, content) == AfterStep(StepOf(wire).0, StepOf(wire).1, content)
    ensures StepOf(wire).0.Data? ==> |StepOf(wire).1| < |wire|
  {
  }

  /** The reads of one turn of the loops of handle_send_file and sync_recv. */
  method ReadStep(fd: Fd) returns (step: Step)
    requires !fd.readFailed
    modifies fd`input, fd`readFailed
    ensures !fd.readFailed ==> step == StepOf(old(fd.input)).0 && fd.input == StepOf(old(fd.input)).1
    ensures fd.readFailed ==> step == NoHeader || step == NoPayload
    ensures step.Data? ==> |step.chunk| <= SYNC_DATA_MAX
    ensures step.Done? ==> step.time < TWO_32
  {
    ghost var wire := fd.input;
    var got, m := ReadFdExactly(fd, 8);
    if !got {
      return NoHeader;
    }
    assert wire[..4] == m[..4] && wire[4..8] == m[4..8] && wire[8..] == fd.input;
    if MsgId(m) == ID_DONE {
      return Done(MsgSize(m));
    }
    if MsgId(m) != ID_DATA {
      return NotData;
    }
    if MsgSize(m) > SYNC_DATA_MAX {
      return TooBig;
    }
    var more, data := ReadFdExactly(fd, MsgSize(m));
    if !more {
      return NoPayload;
    }
    assert wire[8..][..MsgSize(m)] == data && wire[8..8 + MsgSize(m)] == data && wire[8 + MsgSize(m)..] == fd.input;
    return Data(data);
  }

  /** sync_recv, once the local file is open: what arrives goes into lfd. */
  method SyncRecv(fd: Fd, lfd: Fd, arg: Bytes) returns (ok: bool)
    requires fd != lfd && !fd.readFailed && !lfd.writeFailed && !fd.writeFailed
    modifies fd, lfd`output, lfd`patience, lfd`writeFailed
    ensures |arg| > PATH_MAX ==> !ok
    ensures ok ==>
              var r := Store(old(fd.input), []);
              r.Stored? && lfd.output == old(lfd.output) + r.content && fd.input == r.rest
              && fd.output == old(fd.output) + Request(ID_RECV, arg)
    ensures |arg| <= PATH_MAX && !fd.readFailed && !lfd.writeFailed && !fd.writeFailed ==> (ok <==> Store(old(fd.input), []).Stored?)
  {
    hide StepOf, Store, Request;
    ok := SendRequest(fd, ID_RECV, arg);
    if !ok {
      return;
    }
    ghost var content: Bytes := [];
    while true
      invariant !fd.readFailed && !lfd.writeFailed && !fd.writeFailed
      invariant Store(fd.input, content) == Store(old(fd.input), []) && lfd.output == old(lfd.output) + content
      invariant fd.output == old(fd.output) + Request(ID_RECV, arg)
      decreases |fd.input|
    {
      StoreStep(fd.input, content);
      var step := ReadStep(fd);
      match step
      case Done(_) => return true;
      case Data(chunk) =>
        var wrote := WriteFdExactly(lfd, chunk);
        if !wrote {
          return false;
        }
        content := content + chunk;
      case _ => return false;
    }
  }

  // ----- the server -----

  function Status(id: nat, text: Bytes): Bytes
    requires id < TWO_32 && |text| < TWO_32
  {
    Msg(id, |text|) + text
  }

  method SendSyncFail(s: Fd, reason: Bytes)
    requires |reason| < TWO_32
    modifies s`output, s`patience, s`writeFailed
    ensures old(s.writeFailed) ==> s.writeFailed
    ensures !s.writeFailed ==> s.output == old(s.output) + Status(ID_FAIL, reason)
  {
    var ok := WriteFdExactly(s, Msg(ID_FAIL, |reason|));
    if ok {
      ok := WriteFdExactly(s, reason);
    }
  }

  /** How handle_send_file went; after Bad the session ends. `Stuck` re-reads a dead descriptor for ever. */
  datatype Sent = Good(time: nat) | Bad | Stuck

  /** handle_send_file has stored what the stream holds, and stands at the next request. */
  predicate StoredAll(wire: Bytes, rest: Bytes, before: Bytes, after: Bytes, time: nat) {
    var st := Store(wire, []);
    st.Stored? && st.time == time && st.rest == rest && after == before + st.content
  }

  /**
   * handle_send_file. `created` says whether the file could be created, `finish` whether the capabilities
   * could be set; `reason` is the text sent for a system error.
   */
  method HandleSendFile(s: Fd, file: Fd, created: bool, finish: bool, reason: Bytes) returns (r: Sent)
    requires s != file && !s.readFailed && !s.writeFailed && !file.writeFailed && |reason| < TWO_32
    modifies s, file
    ensures r.Good? ==> StoredAll(old(s.input), s.input, old(file.output), file.output, r.time)
    ensures r.Good? && !s.writeFailed ==> s.output == old(s.output) + Status(ID_OKAY, [])
    ensures created && finish && !s.readFailed && !s.writeFailed && !file.writeFailed ==>
              (r.Good? <==> Store(old(s.input), []).Stored?)
    ensures !r.Good? && !s.writeFailed && (!created || file.writeFailed) ==> s.output == old(s.output) + Status(ID_FAIL, reason)
    ensures !r.Good? && !s.writeFailed && !s.readFailed && created && !file.writeFailed ==>
              s.output == old(s.output) + (if Store(old(s.input), []).Cut? then [] else Status(ID_FAIL, reason))
  {
    hide StepOf, Store, Status;
    if !created {
      r := GiveUp(s, reason);
      return;
    }
    ghost var content: Bytes := [];
    var step := NotData;
    while true
      invariant !s.readFailed && !s.writeFailed && !file.writeFailed && s.output == old(s.output)
      invariant Store(s.input, content) == Store(old(s.input), []) && file.output == old(file.output) + content
      decreases |s.input|
    {
      StoreStep(s.input, content);
      step := ReadStep(s);
      if !step.Data? {
        break;
      }
      var wrote := WriteFdExactly(file, step.chunk);
      if !wrote {
        r := GiveUp(s, reason);
        return;
      }
      content := content + step.chunk;
    }
    if step.NoHeader? {
      return Stuck;
    }
    if step.NoPayload? {
      return Bad;
    }
    if !step.Done? {
      SendSyncFail(s, reason);
      return Bad;
    }
    if !finish {
      r := GiveUp(s, reason);
      return;
    }
    var ok := WriteFdExactly(s, Status(ID_OKAY, []));
    return if ok then Good(step.time) else Bad;
  }

  /** A system error: FAIL is sent, then DATA is swallowed. */
  method GiveUp(s: Fd, reason: Bytes) returns (r: Sent)
    requires !s.readFailed && |reason| < TWO_32
    modifies s
    ensures !r.Good? && (old(s.writeFailed) ==> s.writeFailed)
    ensures !s.writeFailed ==> s.output == old(s.output) + Status(ID_FAIL, reason)
    ensures !s.readFailed ==> s.input == Swallowed(old(s.input)).0
  {
    SendSyncFail(s, reason);
    r := SwallowData(s);
  }

  /** What is left of the stream once DATA has been swallowed, and whether the reader is stuck at its end. */
  function Swallowed(wire: Bytes): (Bytes, bool)
    decreases |wire|
  {
    var (step, rest) := StepOf(wire);
    if step.Data? && |rest| < |wire| then Swallowed(rest) else (rest, step.NoHeader?)
  }

  /** The loop at `fail`: DATA is read and thrown away until the client sends something else. */
  method SwallowData(s: Fd) returns (r: Sent)
    requires !s.readFailed
    modifies s`input, s`readFailed
    ensures r == Bad || r == Stuck
    ensures !s.readFailed ==> s.input == Swallowed(old(s.input)).0 && (r == Stuck <==> Swallowed(old(s.input)).1)
  {
    hide StepOf;
    while true
      invariant !s.readFailed && Swallowed(s.input) == Swallowed(old(s.input))
      decreases |s.input|
    {
      StoreStep(s.input, []);
      var step := ReadStep(s);
      if step.NoHeader? {
        return Stuck;
      }
      if !step.Data? {
        return Bad;
      }
    }
  }

  /** do_recv: the file goes out as it is read, in DATA messages of at most a buffer, then DONE. */
  method DoRecv(s: Fd, file: Fd, created: bool, reason: Bytes) returns (ok: bool, ghost chunks: seq<Bytes>)
    requires s != file && !s.writeFailed && !file.readFailed && |reason| < TWO_32
    modifies s`output, s`patience, s`writeFailed, file`input, file`readFailed
    ensures Chunked(chunks)
    ensures ok ==> s.output == old(s.output) + (DataMsgs(chunks) + Msg(ID_DONE, 0)) && Flat(chunks) == old(file.input)
    ensures created && !s.writeFailed && !file.readFailed ==> ok
    ensures !created ==> !ok && chunks == []
    ensures !ok && !s.writeFailed ==>
              s.output == old(s.output) + DataMsgs(chunks) + Status(ID_FAIL, reason) && Flat(chunks) <= old(file.input)
  {
    hide Status, DataMsg;
    chunks := [];
    if !created {
      SendSyncFail(s, reason);
      return false, chunks;
    }
    ghost var start := s.output;
    assert start + [] == start && [] + file.input == file.input;
    while true
      invariant Chunked(chunks) && s.output == start + DataMsgs(chunks) && !s.writeFailed && !file.readFailed
      invariant Flat(chunks) + file.input == old(file.input)
      decreases |file.input|
    {
      var r, data := file.AdbRead(SYNC_DATA_MAX);
      if r < 0 {
        SendSyncFail(s, reason);
        return false, chunks;
      }
      if r == 0 {
        break;
      }
      ghost var before := s.output;
      ok := WriteFdExactly(s, DataMsg(data));
      if !ok {
        return;
      }
      DataAppend(chunks, data);
      FlatAppend(chunks, data);
      Assoc(start, DataMsgs(chunks), DataMsg(data));
      Assoc(Flat(chunks), data, file.input);
      chunks := chunks + [data];
    }
    ok := WriteFdExactly(s, Msg(ID_DONE, 0));
    Assoc(start, DataMsgs(chunks), Msg(ID_DONE, 0));
    assert Flat(chunks) + [] == Flat(chunks);
  }

  lemma {:induction false} Assoc(a: Bytes, b: Bytes, c: Bytes)
    ensures a + (b + c) == a + b + c
  {
  }

  /** Pull, end to end: what do_recv sends for a file, sync_recv stores, and both stand at what follows. */
  lemma {:induction false} PullRoundTrip(chunks: seq<Bytes>, rest: Bytes)
    requires Chunked(chunks)
    ensures Store(DataMsgs(chunks) + Msg(ID_DONE, 0) + rest, []) == Stored(Flat(chunks), 0, rest)
  {
    StoreRoundTrip(chunks, 0, rest, []);
    Assoc(DataMsgs(chunks), Msg(ID_DONE, 0), rest);
    assert [] + Flat(chunks) == Flat(chunks);
  }

  // ----- one command -----

  /** S_ISLNK. */
  predicate IsLink(mode: nat) { mode / 0x1000 % 0x10 == 0xa }

  /** Requests that are neither transfers nor the end: stat in its three forms, and list. */
  predicate Asks(id: nat) { id == ID_LSTAT_V1 || id == ID_STAT_V2 || id == ID_LSTAT_V2 || id == ID_LIST }

  /** What a command came to. Links, listings and stat requests are handled elsewhere. */
  datatype Handled =
    | SentFile(path: Bytes, mode: nat, time: nat)
    | ReceivedFile(path: Bytes)
    | Elsewhere(id: nat, arg: Bytes)
    | Quit
    | Refused

  /**
   * What the client is told after a push: OKAY once the file is stored, FAIL if it could not be, nothing if
   * the stream was cut off. `took` says that the file was opened and took all that was written to it.
   */
  ghost predicate PushAnswered(spec: Bytes, wire: Bytes, took: bool, reason: Bytes, r: Handled, before: Bytes, after: Bytes) {
    match r
    case SentFile(_, _, _) => after == before + Status(ID_OKAY, [])
    case Elsewhere(_, _) => after == before
    case _ =>
      && |reason| < TWO_32
      && after == before + (if SplitSpec(spec).Spec? && took && Store(wire, []).Cut? then [] else Status(ID_FAIL, reason))
  }

  /** do_send. */
  method DoSend(s: Fd, spec: Bytes, file: Fd, created: bool, finish: bool, reason: Bytes) returns (r: Handled)
    requires s != file && !s.readFailed && !s.writeFailed && !file.writeFailed && |reason| < TWO_32
    modifies s, file
    ensures r.SentFile? ==>
              && SplitSpec(spec) == Spec(r.path, r.mode) && !IsLink(r.mode)
              && StoredAll(old(s.input), s.input, old(file.output), file.output, r.time)
    ensures SplitSpec(spec).Spec? && !IsLink(SplitSpec(spec).mode) && created && finish
            && !s.readFailed && !s.writeFailed && !file.writeFailed ==>
              (r.SentFile? <==> Store(old(s.input), []).Stored?)
    ensures r.Elsewhere? <==> SplitSpec(spec).Spec? && IsLink(SplitSpec(spec).mode)
    ensures r.Elsewhere? ==> r == Elsewhere(ID_SEND, spec) && s.input == old(s.input)
    ensures r.Elsewhere? ==> s.output == old(s.output) && file.output == old(file.output)
    ensures r.SentFile? || r.Elsewhere? || r.Refused?
    ensures !s.readFailed && !s.writeFailed ==>
              PushAnswered(spec, old(s.input), created && !file.writeFailed, reason, r, old(s.output), s.output)
  {
    hide Store, StoredAll, SplitSpec, Status;
    var sp := SplitSpec(spec);
    if !sp.Spec? {
      SendSyncFail(s, reason);
      return Refused;
    }
    if IsLink(sp.mode) {
      return Elsewhere(ID_SEND, spec);
    }
    var sent := HandleSendFile(s, file, created, finish, reason);
    return if sent.Good? then SentFile(sp.path, sp.mode, sent.time) else Refused;
  }

  /** The reads of handle_sync_command. */
  method TakeCommand(s: Fd) returns (c: Command)
    requires !s.readFailed
    modifies s`input, s`readFailed
    ensures c.Command? ==> c == ReadCommand(old(s.input)) && s.input == c.rest && !s.readFailed
    ensures !s.readFailed ==> c == ReadCommand(old(s.input))
  {
    ghost var wire := s.input;
    var ok, m := ReadFdExactly(s, 8);
    if !ok {
      return ReadFailure;
    }
    assert wire[..4] == m[..4] && wire[4..8] == m[4..8] && wire[8..] == s.input;
    if MsgSize(m) > PATH_MAX {
      return PathTooLong;
    }
    var got, name := ReadFdExactly(s, MsgSize(m));
    if !got {
      return ReadFailure;
    }
    assert wire[8..][..MsgSize(m)] == name && wire[8..8 + MsgSize(m)] == name && wire[8 + MsgSize(m)..] == s.input;
    return Command(MsgId(m), CString(name), s.input);
  }

  /**
   * What handle_sync_command comes to on `wire`, leaving `left` of it: `healthy` if no system call failed,
   * `before` and `after` being what the file that the path opens held and holds.
   */
  ghost predicate CommandDone(wire: Bytes, left: Bytes, before: Bytes, after: Bytes, healthy: bool, r: Handled) {
    var c := ReadCommand(wire);
    && (r.SentFile? ==>
          && c.Command? && c.id == ID_SEND && SplitSpec(c.arg) == Spec(r.path, r.mode)
          && StoredAll(c.rest, left, before, after, r.time))
    && (r.ReceivedFile? ==> c.Command? && c.id == ID_RECV && c.arg == r.path && left == c.rest)
    && (r.Quit? ==> c.Command? && c.id == ID_QUIT)
    && (r.Elsewhere? ==> c.Command? && r == Elsewhere(c.id, c.arg) && left == c.rest && after == before)
    && (healthy && c.Command? ==>
          && (c.id == ID_RECV ==> r.ReceivedFile?)
          && (c.id == ID_QUIT ==> r.Quit?)
          && (Asks(c.id) ==> r.Elsewhere?)
          && (c.id == ID_SEND && SplitSpec(c.arg).Spec? ==>
                if IsLink(SplitSpec(c.arg).mode) then r.Elsewhere? else (r.SentFile? <==> Store(c.rest, []).Stored?)))
  }

  /** The modes of a regular file and of a symbolic link, with any permissions. */
  predicate Regular(mode: nat) { 0x8000 <= mode < 0x9000 }

  predicate Symlink(mode: nat) { 0xa000 <= mode < 0xb000 }

  lemma ModeKinds(mode: nat)
    ensures Regular(mode) ==> !IsLink(mode)
    ensures Symlink(mode) ==> IsLink(mode)
  {
  }

  /**
   * A push, command and all: with no system error a regular file grows by just the content sent, and the
   * server is left at the next request; a link is handed on with nothing of it read.
   */
  lemma {:induction false} PushServed(path: Bytes, mode: nat, chunks: seq<Bytes>, time: nat, rest: Bytes,
                                      left: Bytes, before: Bytes, after: Bytes, r: Handled)
    requires mode < TWO_32 && time < TWO_32 && Chunked(chunks) && 0 !in path && |PathAndMode(path, mode)| <= PATH_MAX
    requires CommandDone(Push(path, mode, chunks, time) + rest, left, before, after, true, r)
    ensures Regular(mode) ==> r == SentFile(path, mode, time) && after == before + Flat(chunks) && left == rest
    ensures Symlink(mode) ==>
              && r == Elsewhere(ID_SEND, PathAndMode(path, mode)) && after == before
              && left == DataMsgs(chunks) + (Msg(ID_DONE, time) + rest)
  {
    hide Store, Push, ReadCommand, DataMsgs, Msg, PathAndMode, SplitSpec, IsLink, Flat;
    PushRoundTrip(path, mode, chunks, time, rest);
    PushRequest(path, mode, chunks, time, rest);
    ModeKinds(mode);
  }

  lemma {:induction false} PushRequest(path: Bytes, mode: nat, chunks: seq<Bytes>, time: nat, rest: Bytes)
    requires mode < TWO_32 && time < TWO_32 && Chunked(chunks) && 0 !in path && |PathAndMode(path, mode)| <= PATH_MAX
    ensures ReadCommand(Push(path, mode, chunks, time) + rest)
         == Command(ID_SEND, PathAndMode(path, mode), DataMsgs(chunks) + (Msg(ID_DONE, time) + rest))
  {
    var tail := DataMsgs(chunks) + (Msg(ID_DONE, time) + rest);
    assert Push(path, mode, chunks, time) + rest == Request(ID_SEND, PathAndMode(path, mode)) + tail;
    SpecHasNoNul(path, mode);
    RequestRoundTrip(ID_SEND, PathAndMode(path, mode), tail);
  }

  /** handle_sync_command, `file` being what the path opens. */
  method HandleSyncCommand(s: Fd, file: Fd, created: bool, finish: bool, reason: Bytes) returns (r: Handled)
    requires s != file && !s.readFailed && !s.writeFailed && !file.readFailed && !file.writeFailed && |reason| < TWO_32
    modifies s, file
    ensures var healthy := created && finish && !s.readFailed && !s.writeFailed && !file.readFailed && !file.writeFailed;
            CommandDone(old(s.input), s.input, old(file.output), file.output, healthy, r)
    ensures r.ReceivedFile? ==>
              exists chunks :: Chunked(chunks) && Flat(chunks) == old(file.input)
                               && s.output == old(s.output) + (DataMsgs(chunks) + Msg(ID_DONE, 0))
    ensures var c := ReadCommand(old(s.input));
            !s.readFailed && !s.writeFailed && (!c.Command? || !(c.id in {ID_SEND, ID_RECV, ID_QUIT} || Asks(c.id))) ==>
              r.Refused? && s.output == old(s.output) + Status(ID_FAIL, reason)
    ensures var c := ReadCommand(old(s.input));
            !s.readFailed && !s.writeFailed && c.Command? && c.id == ID_SEND ==>
              PushAnswered(c.arg, c.rest, created && !file.writeFailed, reason, r, old(s.output), s.output)
    ensures var c := ReadCommand(old(s.input));
            !s.readFailed && !s.writeFailed && c.Command? && c.id == ID_RECV && !r.ReceivedFile? ==>
              exists chunks :: Chunked(chunks) && Flat(chunks) <= old(file.input)
                               && s.output == old(s.output) + DataMsgs(chunks) + Status(ID_FAIL, reason)
    ensures r.Quit? || r.Elsewhere? ==> s.output == old(s.output)
  {
    hide Store, StoredAll, SplitSpec, ReadCommand, DataMsgs, Status;
    var c := TakeCommand(s);
    if !c.Command? {
      SendSyncFail(s, reason);
      return Refused;
    }
    if Asks(c.id) {
      return Elsewhere(c.id, c.arg);
    }
    if c.id == ID_SEND {
      r := DoSend(s, c.arg, file, created, finish, reason);
    } else if c.id == ID_RECV {
      var ok;
      ghost var chunks;
      ok, chunks := DoRecv(s, file, created, reason);
      return if ok then ReceivedFile(c.arg) else Refused;
    } else if c.id == ID_QUIT {
      return Quit;
    } else {
      SendSyncFail(s, reason);
      return Refused;
    }
  }
}
