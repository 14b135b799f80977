/** The exact-length reads and writes of adb_io.cpp over a file descriptor that does as it pleases. */
module AdbIo {
  import opened AdbBase

  /** A 32-bit word as it lies in memory, low byte first. */
  function Le32(n: nat): (b: Bytes)
    requires n < TWO_32
    ensures |b| == 4 && FromLe32(b) == n
  {
    var n1 := n / 0x100;
    var n2 := n1 / 0x100;
    var n3 := n2 / 0x100;
    [(n % 0x100) as byte, (n1 % 0x100) as byte, (n2 % 0x100) as byte, n3 as byte]
  }

  function FromLe32(b: Bytes): (n: nat)
    requires |b| == 4
    ensures n < TWO_32
  {
    b[0] as nat + 0x100 * (b[1] as nat + 0x100 * (b[2] as nat + 0x100 * b[3] as nat))
  }

  /** Byte k of the word in memory is what its bits 8k to 8k + 7 say. */
  lemma {:induction false} Le32Bytes(n: nat)
    requires n < TWO_32
    ensures var b := Le32(n);
            && b[0] as nat == n % 0x100 && b[1] as nat == n / 0x100 % 0x100
            && b[2] as nat == n / 0x1_0000 % 0x100 && b[3] as nat == n / 0x100_0000
  {
    assert n / 0x100 / 0x100 == n / 0x1_0000;
    assert n / 0x1_0000 / 0x100 == n / 0x100_0000;
  }

  lemma Parts(low: nat, high: nat)
    requires low < 0x100
    ensures (low + 0x100 * high) / 0x100 == high && (low + 0x100 * high) % 0x100 == low
  {
  }

  lemma {:induction false} FromLe32Inverse(b: Bytes)
    requires |b| == 4
    ensures Le32(FromLe32(b)) == b
  {
    var n3 := b[3] as nat;
    var n2 := b[2] as nat + 0x100 * n3;
    var n1 := b[1] as nat + 0x100 * n2;
    Parts(b[2] as nat, n3);
    Parts(b[1] as nat, n2);
    Parts(b[0] as nat, n1);
  }

  /**
   * A descriptor: all the bytes that will ever arrive, those written so far, and how often a call may
   * still be put off with EAGAIN. `readFailed` and `writeFailed` record an error return.
   */
  class Fd {
    var input: Bytes
    var output: Bytes
    var patience: nat
    ghost var readFailed: bool
    ghost var writeFailed: bool

    constructor (arriving: Bytes, putOffs: nat)
      ensures input == arriving && output == [] && !readFailed && !writeFailed
    {
      input, output, patience := arriving, [], putOffs;
      readFailed, writeFailed := false, false;
    }

    /** adb_read: a count, 0 at the end of the stream, or -1. */
    method AdbRead(len: nat) returns (r: int, data: Bytes)
      requires len > 0
      modifies this`input, this`readFailed
      ensures old(readFailed) ==> readFailed
      ensures r > 0 ==> r <= len && old(input) == data + input && |data| == r && readFailed == old(readFailed)
      ensures r <= 0 ==> input == old(input) && data == []
      ensures r == 0 ==> input == [] && readFailed == old(readFailed)
      ensures r < 0 ==> r == -1 && readFailed
    {
      var fail: bool := *;
      if fail {
        readFailed := true;
        return -1, [];
      }
      if input == [] {
        return 0, [];
      }
      var n: nat :| 1 <= n <= len && n <= |input|;
      r, data := n, input[..n];
      input := input[n..];
    }

    /** adb_read on a descriptor that does not block: -1 may also mean that nothing has come yet. */
    method TryRead(len: nat) returns (r: int, again: bool, data: Bytes)
      requires len > 0
      modifies this`input, this`patience, this`readFailed
      ensures r == -1 || 0 <= r <= len
      ensures old(input) == data + input && |data| == (if r > 0 then r else 0)
      ensures r == 0 ==> input == []
      ensures r == -1 && again <==> patience < old(patience)
      ensures patience <= old(patience) && (readFailed <==> old(readFailed) || (r == -1 && !again))
    {
      var fail: bool := *;
      var wait: bool := *;
      if fail {
        readFailed := true;
        return -1, false, [];
      }
      if wait && patience > 0 {
        patience := patience - 1;
        return -1, true, [];
      }
      if input == [] {
        return 0, false, [];
      }
      var n: nat :| 1 <= n <= len && n <= |input|;
      r, again, data := n, false, input[..n];
      input := input[n..];
    }

    /** adb_write: a count, or -1, which `again` tells apart from a lasting error. */
    method AdbWrite(data: Bytes) returns (r: int, again: bool)
      requires |data| > 0
      modifies this`output, this`patience, this`writeFailed
      ensures old(writeFailed) ==> writeFailed
      ensures r == -1 || 0 < r <= |data|
      ensures r > 0 ==> output == old(output) + data[..r] && writeFailed == old(writeFailed) && patience == old(patience)
      ensures r == -1 ==> output == old(output)
      ensures r == -1 && again ==> patience < old(patience) && writeFailed == old(writeFailed)
      ensures r == -1 && !again ==> writeFailed && patience == old(patience)
    {
      var fail: bool := *;
      var wait: bool := *;
      if fail {
        writeFailed := true;
        return -1, false;
      }
      if wait && patience > 0 {
        patience := patience - 1;
        return -1, true;
      }
      var n: nat :| 1 <= n <= |data|;
      output := output + data[..n];
      return n, false;
    }
  }

  /** Reads len bytes or fails; without an error it fails only where the stream is too short. */
  method ReadFdExactly(fd: Fd, len: nat) returns (ok: bool, data: Bytes)
    modifies fd`input, fd`readFailed
    ensures old(fd.readFailed) ==> fd.readFailed
    ensures ok ==> |data| == len && old(fd.input) == data + fd.input && fd.readFailed == old(fd.readFailed)
    ensures !ok && !fd.readFailed ==> |old(fd.input)| < len && fd.input == []
    ensures |fd.input| <= |old(fd.input)|
  {
    data := [];
    while |data| < len
      invariant |data| <= len && old(fd.input) == data + fd.input && fd.readFailed == old(fd.readFailed)
      decreases len - |data|
    {
      var r, got := fd.AdbRead(len - |data|);
      if r > 0 {
        data := data + got;
      } else {
        return false, data;
      }
    }
    return true, data;
  }

  /** Writes all of buf or fails, leaving a proper prefix of it written. */
  method WriteFdExactly(fd: Fd, buf: Bytes) returns (ok: bool)
    modifies fd`output, fd`patience, fd`writeFailed
    ensures old(fd.writeFailed) ==> fd.writeFailed
    ensures ok ==> fd.output == old(fd.output) + buf && fd.writeFailed == old(fd.writeFailed)
    ensures !ok ==> fd.writeFailed && exists n :: 0 <= n < |buf| && fd.output == old(fd.output) + buf[..n]
  {
    var n := 0;
    while n < |buf|
      invariant n <= |buf| && fd.output == old(fd.output) + buf[..n] && fd.writeFailed == old(fd.writeFailed)
      decreases |buf| - n, fd.patience
    {
      var r, again := fd.AdbWrite(buf[n..]);
      if r == -1 {
        if again {
          continue;
        }
        return false;
      }
      assert buf[..n + r] == buf[..n] + buf[n..][..r];
      n := n + r;
    }
    assert buf[..n] == buf;
    return true;
  }
}
