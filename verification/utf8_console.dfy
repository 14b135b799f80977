/**
 * Streaming UTF-8 to the Windows console (sysdeps_win32.cpp): only complete sequences are written, the
 * rest is held for the next call. Valid UTF-8 is that of section 4 of RFC 3629.
 */
module Utf8Console {
  import opened AdbBase

  type U8 = bv8
  type Text = seq<U8>

  // ----- characters -----

  predicate Tail(b: U8) { 0x80 <= b <= 0xbf }

  /** One character: UTF8-1 to UTF8-4 of the grammar. */
  predicate IsChar(c: Text) {
    match |c|
    case 1 => c[0] <= 0x7f
    case 2 => 0xc2 <= c[0] <= 0xdf && Tail(c[1])
    case 3 =>
      && Tail(c[1]) && Tail(c[2])
      && ((c[0] == 0xe0 && 0xa0 <= c[1]) || 0xe1 <= c[0] <= 0xec || (c[0] == 0xed && c[1] <= 0x9f) || 0xee <= c[0] <= 0xef)
    case 4 =>
      && Tail(c[1]) && Tail(c[2]) && Tail(c[3])
      && ((c[0] == 0xf0 && 0x90 <= c[1]) || 0xf1 <= c[0] <= 0xf3 || (c[0] == 0xf4 && c[1] <= 0x8f))
    case _ => false
  }

  predicate Chars(cs: seq<Text>) { forall k :: 0 <= k < |cs| ==> IsChar(cs[k]) }

  function Join(cs: seq<Text>): Text { if cs == [] then [] else cs[0] + Join(cs[1..]) }

  /** utf8_codepoint_len as it is written, on the byte widened to a word. */
  function CodepointLen(ch: U8): bv32 {
    ((0xe500_0000 as bv32 >> (((ch as bv32) >> 3) & 0x1e)) & 3) + 1
  }

  /** The same as a table by lead byte. */
  function LeadLength(ch: U8): nat {
    if ch < 0xc0 then 1 else if ch < 0xe0 then 2 else if ch < 0xf0 then 3 else 4
  }

  lemma LengthBits(ch: U8)
    ensures ch < 0xc0 ==> CodepointLen(ch) == 1
    ensures 0xc0 <= ch < 0xe0 ==> CodepointLen(ch) == 2
    ensures 0xe0 <= ch < 0xf0 ==> CodepointLen(ch) == 3
    ensures 0xf0 <= ch ==> CodepointLen(ch) == 4
  {
  }

  /** The shift-table trick agrees with the lead-byte table on every byte. */
  lemma LengthIsTable(ch: U8)
    ensures CodepointLen(ch) as nat == LeadLength(ch)
  {
    LengthBits(ch);
    hide CodepointLen;
    assert (1 as bv32) as nat == 1 && (2 as bv32) as nat == 2 && (3 as bv32) as nat == 3 && (4 as bv32) as nat == 4;
  }

  /** On a valid character the table gives its length. */
  lemma CharShape(c: Text)
    requires IsChar(c)
    ensures 1 <= |c| <= 4 && LeadLength(c[0]) == |c|
    ensures |c| == 1 <==> c[0] < 0x80
    ensures |c| > 1 ==> c[0] >= 0xc0
    ensures forall i :: 0 < i < |c| ==> Tail(c[i])
  {
  }

  // ----- where to cut -----

  predicate IsLead(b: U8) { b >= 0xc0 }

  lemma ByteBits(ch: U8)
    ensures ch & 0x80 == 0 <==> ch < 0x80
    ensures ch & 0xc0 == 0xc0 <==> IsLead(ch)
  {
  }

  /** What the backward walk from `after` finds: how many bytes of b are complete. */
  function ScanBack(b: Text, after: nat): (n: nat)
    requires after <= |b|
    ensures n <= |b|
  {
    if after == 0 then |b|
    else
      var ch := b[after - 1];
      if ch < 0x80 then |b|
      else if IsLead(ch) then (if |b| - (after - 1) < LeadLength(ch) then after - 1 else |b|)
      else ScanBack(b, after - 1)
  }

  function Complete(b: Text): nat { ScanBack(b, |b|) }

  lemma {:induction false} HeldShort(b: Text, after: nat)
    requires after <= |b|
    ensures |b| - ScanBack(b, after) <= 3
  {
    if after > 0 && Tail(b[after - 1]) {
      HeldShort(b, after - 1);
    }
  }

  /** The walk passes over trailing bytes to the lead byte before them. */
  lemma {:induction false} WalkToLead(b: Text, lead: nat, after: nat)
    requires lead < after <= |b| && !Tail(b[lead]) && forall i :: lead < i < after ==> Tail(b[i])
    ensures ScanBack(b, after) == ScanBack(b, lead + 1)
    decreases after
  {
    if after > lead + 1 {
      WalkToLead(b, lead, after - 1);
    }
  }

  /** b ends with a whole character: all of it is complete. */
  lemma EndsWhole(a: Text, c: Text)
    requires IsChar(c)
    ensures Complete(a + c) == |a + c|
  {
    CharShape(c);
    var b := a + c;
    assert b[|a|] == c[0] && forall i :: |a| < i < |b| ==> b[i] == c[i - |a|];
    WalkToLead(b, |a|, |b|);
  }

  /** b ends with part of a character: all before it is complete. */
  lemma EndsInside(a: Text, part: Text, c: Text)
    requires IsChar(c) && part <= c && 0 < |part| < |c|
    ensures Complete(a + part) == |a|
  {
    CharShape(c);
    var b := a + part;
    assert b[|a|] == c[0] && forall i :: |a| < i < |b| ==> b[i] == c[i - |a|];
    WalkToLead(b, |a|, |b|);
  }

  lemma {:induction false} JoinAppend(a: seq<Text>, b: seq<Text>)
    ensures Join(a + b) == Join(a) + Join(b)
  {
    if a == [] {
      assert a + b == b;
    } else {
      assert (a + b)[1..] == a[1..] + b;
      JoinAppend(a[1..], b);
    }
  }

  /** A prefix of a text is some whole characters and part of the next. */
  lemma {:induction false} PrefixShape(b: Text, cs: seq<Text>) returns (k: nat)
    requires Chars(cs) && b <= Join(cs)
    ensures k <= |cs| && Join(cs[..k]) <= b
    ensures b == Join(cs[..k]) || (k < |cs| && b[|Join(cs[..k])|..] <= cs[k] && |b| < |Join(cs[..k])| + |cs[k]|)
    decreases |cs|
  {
    if cs == [] || |b| < |cs[0]| {
      k := 0;
      assert cs[..0] == [];
      if cs != [] {
        assert b == Join(cs)[..|b|] && Join(cs)[..|b|] == cs[0][..|b|];
      }
    } else {
      FirstOff(b, cs);
      var rest := b[|cs[0]|..];
      var j := PrefixShape(rest, cs[1..]);
      k := j + 1;
      FirstBack(b, cs, j);
    }
  }

  lemma {:induction false} FirstOff(b: Text, cs: seq<Text>)
    requires cs != [] && b <= Join(cs) && |b| >= |cs[0]|
    ensures b[..|cs[0]|] == cs[0] && b[|cs[0]|..] <= Join(cs[1..])
  {
    assert b == Join(cs)[..|b|];
  }

  lemma {:induction false} FirstBack(b: Text, cs: seq<Text>, j: nat)
    requires cs != [] && j < |cs| && |b| >= |cs[0]| && b[..|cs[0]|] == cs[0]
    requires Join(cs[1..][..j]) <= b[|cs[0]|..]
    ensures Join(cs[..j + 1]) == cs[0] + Join(cs[1..][..j]) && Join(cs[..j + 1]) <= b
    ensures b[|Join(cs[..j + 1])|..] == b[|cs[0]|..][|Join(cs[1..][..j])|..]
    ensures b == cs[0] + b[|cs[0]|..] && (j + 1 < |cs| ==> cs[j + 1] == cs[1..][j])
  {
    assert cs[..j + 1][1..] == cs[1..][..j] && cs[..j + 1][0] == cs[0];
  }

  /** On a prefix of valid UTF-8 the cut falls exactly behind the last whole character. */
  lemma {:induction false} CutOnBoundary(b: Text, cs: seq<Text>) returns (k: nat)
    requires Chars(cs) && b <= Join(cs)
    ensures k <= |cs| && b[..Complete(b)] == Join(cs[..k])
  {
    k := PrefixShape(b, cs);
    var a := Join(cs[..k]);
    var part := b[|a|..];
    assert b == a + part;
    if part != [] {
      EndsInside(a, part, cs[k]);
    } else if k > 0 {
      assert cs[..k] == cs[..k - 1] + [cs[k - 1]];
      JoinAppend(cs[..k - 1], [cs[k - 1]]);
      assert Join([cs[k - 1]][1..]) == [] && Join([cs[k - 1]]) == cs[k - 1];
      EndsWhole(Join(cs[..k - 1]), cs[k - 1]);
      assert b == a;
    } else {
      assert b == [] && Complete(b) == 0;
    }
  }

  // ----- a whole stream -----

  /** After some writes: what has gone to the console, and what is held. */
  datatype Console = Console(flushed: Text, held: Text)

  function Write(c: Console, buf: Text): Console {
    var b := c.held + buf;
    var n := Complete(b);
    Console(c.flushed + b[..n], b[n..])
  }

  function WriteAll(bufs: seq<Text>): Console {
    if bufs == [] then Console([], []) else Write(WriteAll(bufs[..|bufs| - 1]), bufs[|bufs| - 1])
  }

  lemma {:induction false} JoinLast(bufs: seq<Text>)
    requires bufs != []
    ensures Join(bufs) == Join(bufs[..|bufs| - 1]) + bufs[|bufs| - 1]
  {
    var buf := bufs[|bufs| - 1];
    assert bufs == bufs[..|bufs| - 1] + [buf];
    JoinAppend(bufs[..|bufs| - 1], [buf]);
    assert Join([buf][1..]) == [] && Join([buf]) == buf;
  }

  lemma WriteKeeps(c: Console, buf: Text)
    ensures Write(c, buf).flushed + Write(c, buf).held == c.flushed + c.held + buf
    ensures |Write(c, buf).held| <= 3
  {
    var b := c.held + buf;
    HeldShort(b, |b|);
    hide ScanBack;
    assert b[..Complete(b)] + b[Complete(b)..] == b;
  }

  /** Nothing is lost or reordered, and at most three bytes are held. */
  lemma {:induction false} NothingLost(bufs: seq<Text>)
    ensures WriteAll(bufs).flushed + WriteAll(bufs).held == Join(bufs)
    ensures |WriteAll(bufs).held| <= 3
  {
    if bufs != [] {
      hide Write, Join;
      NothingLost(bufs[..|bufs| - 1]);
      JoinLast(bufs);
      WriteKeeps(WriteAll(bufs[..|bufs| - 1]), bufs[|bufs| - 1]);
    }
  }

  /** One write, flushed so far up to a boundary, flushes up to a boundary. */
  lemma {:induction false} WriteOnBoundary(c: Console, buf: Text, cs: seq<Text>, j: nat) returns (k: nat)
    requires Chars(cs) && j <= |cs| && c.flushed == Join(cs[..j]) && c.flushed + (c.held + buf) <= Join(cs)
    ensures k <= |cs| && Write(c, buf).flushed == Join(cs[..k])
  {
    TextFrom(cs, j, c.held + buf);
    var i := CutOnBoundary(c.held + buf, cs[j..]);
    k := j + i;
    assert cs[..k] == cs[..j] + cs[j..][..i];
    JoinAppend(cs[..j], cs[j..][..i]);
  }

  lemma PrefixRegroup(f: Text, h: Text, buf: Text, all: Text)
    requires f + h + buf <= all
    ensures f + (h + buf) <= all && f + h <= all
  {
    assert f + h + buf == f + (h + buf);
    assert f + h == (f + h + buf)[..|f + h|];
  }

  /** If what has been written is a prefix of valid UTF-8, every flush ends on a character boundary. */
  lemma {:induction false} FlushesOnBoundaries(bufs: seq<Text>, cs: seq<Text>) returns (k: nat)
    requires Chars(cs) && Join(bufs) <= Join(cs)
    ensures k <= |cs| && WriteAll(bufs).flushed == Join(cs[..k])
    decreases |bufs|
  {
    if bufs == [] {
      k := 0;
      assert cs[..0] == [];
    } else {
      hide Join, Write;
      var before := bufs[..|bufs| - 1];
      JoinLast(bufs);
      NothingLost(before);
      var c := WriteAll(before);
      PrefixRegroup(c.flushed, c.held, bufs[|bufs| - 1], Join(cs));
      var j := FlushesOnBoundaries(before, cs);
      k := WriteOnBoundary(c, bufs[|bufs| - 1], cs, j);
    }
  }

  lemma {:induction false} TextFrom(cs: seq<Text>, j: nat, b: Text)
    requires j <= |cs| && Join(cs[..j]) + b <= Join(cs)
    ensures b <= Join(cs[j..])
  {
    assert cs == cs[..j] + cs[j..];
    JoinAppend(cs[..j], cs[j..]);
    assert (Join(cs[..j]) + b)[|Join(cs[..j])|..] == b;
    assert Join(cs)[|Join(cs[..j])|..] == Join(cs[j..]);
  }

  // ----- the code -----

  /** ParseCompleteUTF8: the number of bytes to write, the rest being appended to `remaining`. */
  method ParseCompleteUtf8(b: Text, remaining: Text) returns (n: nat, held: Text)
    ensures n == Complete(b) && held == remaining + b[n..]
  {
    var after := |b|;
    while after != 0
      invariant 0 <= after <= |b| && ScanBack(b, after) == Complete(b)
      decreases after
    {
      var ch := b[after - 1];
      ByteBits(ch);
      if ch & 0x80 == 0 {
        break;
      } else if ch & 0xc0 == 0xc0 {
        LengthIsTable(ch);
        if |b| - (after - 1) < CodepointLen(ch) as nat {
          return after - 1, remaining + b[after - 1..];
        }
        break;
      }
      after := after - 1;
    }
    assert b[|b|..] == [];
    return |b|, remaining;
  }

  class ConsoleBuffer {
    /** console_output_buffer */
    var buffer: Text
    ghost var flushed: Text

    constructor ()
      ensures buffer == [] && flushed == []
    {
      buffer := [];
      flushed := [];
    }

    /** The buffering of _console_write_utf8: the bytes to convert and write now. */
    method WriteUtf8(buf: Text) returns (utf8: Text)
      modifies this
      ensures Console(flushed, buffer) == Write(Console(old(flushed), old(buffer)), buf)
      ensures flushed == old(flushed) + utf8
    {
      var n, held;
      if buffer == [] {
        assert buffer + buf == buf;
        n, held := ParseCompleteUtf8(buf, buffer);
        utf8 := buf[..n];
      } else {
        var combined := buffer + buf;
        n, held := ParseCompleteUtf8(combined, []);
        utf8 := combined[..n];
      }
      buffer := held;
      flushed := flushed + utf8;
    }
  }
}
