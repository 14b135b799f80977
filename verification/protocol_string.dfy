/** Length-prefixed strings: SendProtocolString and ReadProtocolString of adb_io.cpp. */
module ProtocolStrings {
  import opened AdbBase
  import opened AdbIo
  import opened SyncSpec

  function HexDigit(d: nat): byte
    requires d < 16
  {
    if d < 10 then 48 + d as byte else 87 + d as byte
  }

  function HexDigits(n: nat): Bytes {
    if n < 16 then [HexDigit(n)] else HexDigits(n / 16) + [HexDigit(n % 16)]
  }

  function Zeros(n: nat): Bytes { if n == 0 then [] else [ZERO] + Zeros(n - 1) }

  /** "%04x": at least four digits, more from 0x10000 on. */
  function Hex4(n: nat): Bytes {
    var d := HexDigits(n);
    if |d| < 4 then Zeros(4 - |d|) + d else d
  }

  /** "%04x%.*s"; the second stops at a NUL. */
  function Printed(s: Bytes): Bytes { Hex4(|s|) + CString(s) }

  /** strtoul with base 16 on four characters. */
  function StrToUl16(s: Bytes): nat {
    if s == [] then 0
    else if IsSpace(s[0]) then StrToUl16(s[1..])
    else
      var t := if s[0] == MINUS || s[0] == PLUS then s[1..] else s;
      var u := if |t| >= 3 && t[0] == ZERO && (t[1] == 120 || t[1] == 88) && DigitValue(t[2]) < 16 then t[2..] else t;
      var n := ParseDigits(u, 16, 0);
      if s[0] == MINUS && 0 < n < TWO_64 then TWO_64 - n else n
  }

  datatype Reading = Got(s: Bytes, rest: Bytes) | Short

  function Parse(wire: Bytes): Reading {
    if |wire| < 4 then Short
    else
      var n := StrToUl16(wire[..4]);
      if |wire| < 4 + n then Short else Got(wire[4..4 + n], wire[4 + n..])
  }

  // ----- the digits -----

  lemma {:induction false} HexParse(n: nat)
    ensures ParseDigits(HexDigits(n), 16, 0) == n
    ensures forall k :: 0 <= k < |HexDigits(n)| ==> DigitValue(HexDigits(n)[k]) < 16 && HexDigits(n)[k] != 120 && HexDigits(n)[k] != 88
                                                    && 48 <= HexDigits(n)[k]
    ensures HexDigits(n) != []
  {
    if n < 16 {
      assert ParseDigits(HexDigits(n)[1..], 16, n) == n;
    } else {
      HexParse(n / 16);
      HexAppend(HexDigits(n / 16), HexDigit(n % 16), 0);
    }
  }

  /** A hex digit is read in either case, and nothing else is one. */
  lemma EitherCase(b: byte)
    ensures DigitValue(b) < 16 <==> exists d :: 0 <= d < 16 && (b == HexDigit(d) || (d >= 10 && b == HexDigit(d) - 32))
    ensures forall d :: 0 <= d < 16 && (b == HexDigit(d) || (d >= 10 && b == HexDigit(d) - 32)) ==> DigitValue(b) == d
  {
    if DigitValue(b) < 16 {
      var d := DigitValue(b);
      assert b == HexDigit(d) || (d >= 10 && b == HexDigit(d) - 32);
    }
  }

  lemma {:induction false} HexAppend(s: Bytes, d: byte, n: nat)
    requires (forall k :: 0 <= k < |s| ==> DigitValue(s[k]) < 16) && DigitValue(d) < 16
    ensures ParseDigits(s + [d], 16, n) == 16 * ParseDigits(s, 16, n) + DigitValue(d)
    decreases |s|
  {
    if s == [] {
      assert s + [d] == [d];
      assert ParseDigits([d][1..], 16, n * 16 + DigitValue(d)) == n * 16 + DigitValue(d);
    } else {
      assert (s + [d])[1..] == s[1..] + [d];
      HexAppend(s[1..], d, n * 16 + DigitValue(s[0]));
    }
  }

  lemma {:induction false} ZerosParse(k: nat, s: Bytes)
    ensures ParseDigits(Zeros(k) + s, 16, 0) == ParseDigits(s, 16, 0)
    ensures |Zeros(k)| == k && forall i :: 0 <= i < k ==> Zeros(k)[i] == ZERO
  {
    if k == 0 {
      assert Zeros(k) + s == s;
    } else {
      assert (Zeros(k) + s)[1..] == Zeros(k - 1) + s;
      ZerosParse(k - 1, s);
    }
  }

  lemma HexLength(n: nat)
    ensures |HexDigits(n)| <= 4 <==> n <= 0xffff
    ensures 0x10000 <= n < 0x100000 ==> |HexDigits(n)| == 5
  {
    assert n / 16 / 16 == n / 0x100 && n / 0x100 / 16 == n / 0x1000 && n / 0x1000 / 16 == n / 0x10000;
    HexLengthSteps(n, n / 16, n / 0x100, n / 0x1000, n / 0x10000);
  }

  lemma HexLengthSteps(n: nat, n1: nat, n2: nat, n3: nat, n4: nat)
    requires n1 == n / 16 && n2 == n1 / 16 && n3 == n2 / 16 && n4 == n3 / 16
    ensures |HexDigits(n)| <= 4 <==> n4 == 0
    ensures 0 < n4 < 16 ==> |HexDigits(n)| == 5
  {
    var d4, d3, d2, d1 := HexDigits(n4), HexDigits(n3), HexDigits(n2), HexDigits(n1);
    HexParse(n4);
    assert |d3| == if n3 < 16 then 1 else |d4| + 1;
    assert |d2| == if n2 < 16 then 1 else |d3| + 1;
    assert |d1| == if n1 < 16 then 1 else |d2| + 1;
  }

  /** Four plain hex digits parse to their value. */
  lemma {:induction false} PlainHex(s: Bytes)
    requires |s| == 4 && forall k :: 0 <= k < 4 ==> DigitValue(s[k]) < 16 && s[k] != 120 && s[k] != 88 && 48 <= s[k]
    ensures StrToUl16(s) == ParseDigits(s, 16, 0)
  {
  }

  lemma FourDigits(n: nat)
    requires n <= 0xffff
    ensures |Hex4(n)| == 4 && ParseDigits(Hex4(n), 16, 0) == n && StrToUl16(Hex4(n)) == n
    ensures forall k :: 0 <= k < 4 ==> DigitValue(Hex4(n)[k]) < 16
  {
    HexParse(n);
    HexLength(n);
    var d := HexDigits(n);
    if |d| < 4 {
      ZerosParse(4 - |d|, d);
    }
    PlainHex(Hex4(n));
  }

  // ----- the round trip -----

  lemma {:induction false} StringArrives(s: Bytes, rest: Bytes)
    requires |s| <= 0xffff && 0 !in s
    ensures Parse(Printed(s) + rest) == Got(s, rest)
  {
    FourDigits(|s|);
    WholeCString(s);
    var wire := Printed(s) + rest;
    hide Hex4, CString, StrToUl16;
    assert wire == Hex4(|s|) + (s + rest);
    assert wire[..4] == Hex4(|s|) && wire[4..] == s + rest;
    assert wire[4..4 + |s|] == s && wire[4 + |s|..] == rest;
  }

  /** With five digits the reader takes the first four for the length. */
  lemma {:induction false} LongMisread(s: Bytes)
    requires 0x10000 <= |s| < 0x100000
    ensures Parse(Printed(s)) != Got(s, [])
  {
    var n := |s|;
    HexLength(n);
    HexParse(n);
    HexParse(n / 16);
    assert HexDigits(n) == HexDigits(n / 16) + [HexDigit(n % 16)];
    assert Printed(s)[..4] == HexDigits(n / 16);
    PlainHex(HexDigits(n / 16));
  }

  /** A string survives the round trip, whatever follows it, exactly if it has at most 0xffff bytes and no NUL. */
  lemma {:induction false} RoundTripIff(s: Bytes)
    requires |s| <= MAX_PAYLOAD - 4
    ensures (forall rest :: Parse(Printed(s) + rest) == Got(s, rest)) <==> |s| <= 0xffff && 0 !in s
  {
    if |s| <= 0xffff && 0 !in s {
      forall rest ensures Parse(Printed(s) + rest) == Got(s, rest) {
        StringArrives(s, rest);
      }
    } else {
      assert Printed(s) + [] == Printed(s);
      if |s| > 0xffff {
        LongMisread(s);
      } else {
        WholeCString(s);
        FourDigits(|s|);
        hide Hex4, CString, StrToUl16;
        assert Printed(s)[..4] == Hex4(|s|);
      }
      assert Parse(Printed(s) + []) != Got(s, []);
    }
  }

  /** The shortest string that is too long. */
  lemma FiveDigitsLost()
    ensures var s := seq(0x1_0000, _ => 0x61);
            exists rest :: Parse(Printed(s) + rest) != Got(s, rest)
  {
    RoundTripIff(seq(0x1_0000, _ => 0x61));
  }

  /** A string cut short at its NUL. */
  lemma NulLost()
    ensures exists rest :: Parse(Printed([0x61, 0]) + rest) != Got([0x61, 0], rest)
  {
    RoundTripIff([0x61, 0]);
  }

  // ----- the code -----

  /** SendProtocolString. */
  method SendProtocolString(fd: Fd, s: Bytes) returns (ok: bool)
    modifies fd`output, fd`patience, fd`writeFailed
    ensures |s| > MAX_PAYLOAD - 4 ==> !ok && fd.output == old(fd.output)
    ensures ok ==> fd.output == old(fd.output) + Printed(s)
    ensures !ok && |s| <= MAX_PAYLOAD - 4 ==> fd.writeFailed
  {
    if |s| > MAX_PAYLOAD - 4 {
      return false;
    }
    ok := WriteFdExactly(fd, Hex4(|s|) + CString(s));
  }

  /** ReadProtocolString. */
  method ReadProtocolString(fd: Fd) returns (r: Option<Bytes>)
    requires !fd.readFailed
    modifies fd`input, fd`readFailed
    ensures r.Some? ==> Parse(old(fd.input)) == Got(r.value, fd.input)
    ensures !fd.readFailed ==> (r.Some? <==> Parse(old(fd.input)).Got?)
  {
    ghost var wire := fd.input;
    var ok, buf := ReadFdExactly(fd, 4);
    if !ok {
      return None;
    }
    assert wire[..4] == buf && wire[4..] == fd.input;
    var n := StrToUl16(buf);
    var got, s := ReadFdExactly(fd, n);
    if !got {
      return None;
    }
    assert wire[4..][..n] == s && wire[4..4 + n] == s && wire[4 + n..] == fd.input;
    return Some(s);
  }
}
