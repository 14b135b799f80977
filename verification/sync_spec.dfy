/**
 * The "path,mode" string of a file push: what file_sync_client.cpp prints and file_sync_service.cpp
 * takes apart again with find_last_of and strtoul.
 */
module SyncSpec {
  import opened AdbBase

  const COMMA: byte := 44
  const MINUS: byte := 45
  const PLUS: byte := 43
  const ZERO: byte := 48
  const TWO_64: nat := 0x1_0000_0000_0000_0000

  /** Decimal digits, without leading zeros. */
  function Decimal(n: nat): Bytes {
    if n < 10 then [ZERO + n as byte] else Decimal(n / 10) + [ZERO + (n % 10) as byte]
  }

  /** "%d" of a 32-bit mode: the upper half prints as negative. */
  function PrintMode(mode: nat): Bytes
    requires mode < TWO_32
  {
    if mode < TWO_32 / 2 then Decimal(mode) else [MINUS] + Decimal(TWO_32 - mode)
  }

  function PathAndMode(path: Bytes, mode: nat): Bytes
    requires mode < TWO_32
  {
    path + [COMMA] + PrintMode(mode)
  }

  // ----- strtoul with base 0 -----

  function DigitValue(b: byte): nat {
    if 48 <= b <= 57 then (b - 48) as nat
    else if 97 <= b <= 122 then (b - 97) as nat + 10
    else if 65 <= b <= 90 then (b - 65) as nat + 10
    else 255
  }

  /** Digits up to the first character that is none. */
  function ParseDigits(s: Bytes, base: nat, n: nat): nat {
    if s == [] || DigitValue(s[0]) >= base then n else ParseDigits(s[1..], base, n * base + DigitValue(s[0]))
  }

  predicate IsSpace(b: byte) { b == 32 || 9 <= b <= 13 }

  function ParseUnsigned(s: Bytes): nat {
    if |s| >= 3 && s[0] == ZERO && (s[1] == 120 || s[1] == 88) && DigitValue(s[2]) < 16 then ParseDigits(s[2..], 16, 0)
    else if s != [] && s[0] == ZERO then ParseDigits(s, 8, 0)
    else ParseDigits(s, 10, 0)
  }

  /** strtoul; None if the value is out of range. */
  function StrToUl(s: Bytes): Option<nat> {
    if s == [] then Some(0)
    else if IsSpace(s[0]) then StrToUl(s[1..])
    else
      var n := ParseUnsigned(if s[0] == MINUS || s[0] == PLUS then s[1..] else s);
      if n >= TWO_64 then None
      else if s[0] == MINUS then Some((TWO_64 - n) % TWO_64)
      else Some(n)
  }

  /** find_last_of(','). */
  function LastComma(s: Bytes): Option<nat> {
    if s == [] then None
    else if s[|s| - 1] == COMMA then Some(|s| - 1)
    else LastComma(s[..|s| - 1])
  }

  datatype Spec = Spec(path: Bytes, mode: nat) | NoComma | BadMode

  /** How do_send takes its argument apart. */
  function SplitSpec(s: Bytes): Spec {
    match LastComma(s)
    case None => NoComma
    case Some(i) =>
      if i >= |s| then NoComma
      else
        match StrToUl(s[i + 1..])
        case None => BadMode
        case Some(v) => Spec(s[..i], v % TWO_32)
  }

  // ----- the round trip -----

  lemma {:induction false} DecimalShape(n: nat)
    ensures Decimal(n) != [] && (n != 0 ==> Decimal(n)[0] != ZERO) && (n == 0 ==> Decimal(n) == [ZERO])
    ensures forall k :: 0 <= k < |Decimal(n)| ==> 48 <= Decimal(n)[k] <= 57
  {
    if n >= 10 {
      DecimalShape(n / 10);
    }
  }

  lemma {:induction false} ParseAppend(s: Bytes, d: byte, n: nat)
    requires forall k :: 0 <= k < |s| ==> 48 <= s[k] <= 57
    requires 48 <= d <= 57
    ensures ParseDigits(s + [d], 10, n) == 10 * ParseDigits(s, 10, n) + DigitValue(d)
    decreases |s|
  {
    if s == [] {
      assert s + [d] == [d];
      assert ParseDigits([d][1..], 10, n * 10 + DigitValue(d)) == n * 10 + DigitValue(d);
    } else {
      assert (s + [d])[1..] == s[1..] + [d];
      ParseAppend(s[1..], d, n * 10 + DigitValue(s[0]));
    }
  }

  lemma {:induction false} DecimalParses(n: nat)
    ensures ParseDigits(Decimal(n), 10, 0) == n
  {
    DecimalShape(n);
    if n < 10 {
      assert Decimal(n)[1..] == [];
    } else {
      DecimalShape(n / 10);
      DecimalParses(n / 10);
      ParseAppend(Decimal(n / 10), ZERO + (n % 10) as byte, 0);
    }
  }

  lemma UnsignedParses(n: nat)
    ensures ParseUnsigned(Decimal(n)) == n
  {
    DecimalShape(n);
    DecimalParses(n);
    if n == 0 {
      assert ParseDigits([ZERO][1..], 8, 0) == 0;
    }
  }

  lemma ModeParses(mode: nat)
    requires mode < TWO_32
    ensures StrToUl(PrintMode(mode)).Some? && StrToUl(PrintMode(mode)).value % TWO_32 == mode
  {
    if mode < TWO_32 / 2 {
      DecimalShape(mode);
      UnsignedParses(mode);
      assert PrintMode(mode)[0] >= 48;
    } else {
      UnsignedParses(TWO_32 - mode);
      assert PrintMode(mode)[1..] == Decimal(TWO_32 - mode);
    }
  }

  lemma {:induction false} LastCommaFound(s: Bytes, t: Bytes)
    requires COMMA !in t
    ensures LastComma(s + [COMMA] + t) == Some(|s|)
    decreases |t|
  {
    var u := s + [COMMA] + t;
    if t == [] {
      assert u[|u| - 1] == COMMA;
    } else {
      assert u[..|u| - 1] == s + [COMMA] + t[..|t| - 1];
      assert u[|u| - 1] == t[|t| - 1];
      LastCommaFound(s, t[..|t| - 1]);
    }
  }

  /** Whatever commas the path holds, the server gets back the path and the mode. */
  lemma {:induction false} SpecRoundTrip(path: Bytes, mode: nat)
    requires mode < TWO_32
    ensures SplitSpec(PathAndMode(path, mode)) == Spec(path, mode)
  {
    var t := PrintMode(mode);
    DecimalShape(mode);
    DecimalShape(TWO_32 - mode);
    assert COMMA !in t;
    LastCommaFound(path, t);
    ModeParses(mode);
    var s := PathAndMode(path, mode);
    assert s[..|path|] == path && s[|path| + 1..] == t;
  }

  lemma {:induction false} LastCommaIs(s: Bytes)
    ensures LastComma(s) == None <==> COMMA !in s
    ensures LastComma(s).Some? ==> var i := LastComma(s).value; i < |s| && s[i] == COMMA && COMMA !in s[i + 1..]
  {
    if s != [] && s[|s| - 1] != COMMA {
      var t := s[..|s| - 1];
      LastCommaIs(t);
      assert s == t + [s[|s| - 1]];
      if LastComma(t).Some? {
        assert s[LastComma(t).value + 1..] == t[LastComma(t).value + 1..] + [s[|s| - 1]];
      }
    }
  }

  /** Any argument is split at its last comma; without one, or with a mode that is out of range, it is refused. */
  lemma {:induction false} SplitIs(s: Bytes, path: Bytes, tail: Bytes)
    ensures SplitSpec(s).NoComma? <==> COMMA !in s
    ensures s == path + [COMMA] + tail && COMMA !in tail ==>
              SplitSpec(s) == match StrToUl(tail) { case None => BadMode case Some(v) => Spec(path, v % TWO_32) }
  {
    LastCommaIs(s);
    if s == path + [COMMA] + tail && COMMA !in tail {
      LastCommaFound(path, tail);
      assert s[..|path|] == path && s[|path| + 1..] == tail;
    }
  }

  lemma {:induction false} OneDigit(s: Bytes, base: nat, n: nat)
    requires s != [] && DigitValue(s[0]) < base
    ensures ParseDigits(s, base, n) == ParseDigits(s[1..], base, n * base + DigitValue(s[0]))
    ensures ParseDigits([], base, n * base + DigitValue(s[0])) == n * base + DigitValue(s[0])
  {
  }

  lemma {:induction false} ThreeDigits(a: byte, b: byte, c: byte, base: nat)
    requires DigitValue(a) < base && DigitValue(b) < base && DigitValue(c) < base
    ensures ParseDigits([a, b, c], base, 0) == (DigitValue(a) * base + DigitValue(b)) * base + DigitValue(c)
  {
    OneDigit([a, b, c], base, 0);
    OneDigit([b, c], base, DigitValue(a));
    OneDigit([c], base, DigitValue(a) * base + DigitValue(b));
    hide ParseDigits, DigitValue;
    assert [a, b, c][1..] == [b, c] && [b, c][1..] == [c] && [c][1..] == [];
  }

  /** A mode may be octal, hexadecimal or decimal: 0644, 0x1A4 and 420 are the same. */
  lemma BasesRead()
    ensures StrToUl([ZERO, 54, 52, 52]) == Some(420) && StrToUl([ZERO, 120, 49, 65, 52]) == Some(420)
    ensures StrToUl([52, 50, 48]) == Some(420) && StrToUl([32, PLUS, 52, 50, 48]) == Some(420)
  {
    ThreeDigits(54, 52, 52, 8);
    ThreeDigits(49, 65, 52, 16);
    ThreeDigits(52, 50, 48, 10);
    var octal, hex, spaced := [ZERO, 54, 52, 52], [ZERO, 120, 49, 65, 52], [32, PLUS, 52, 50, 48];
    assert octal[1..] == [54, 52, 52] && hex[2..] == [49, 65, 52] && spaced[1..][1..] == [52, 50, 48];
    assert ParseDigits(octal, 8, 0) == ParseDigits([54, 52, 52], 8, 0);
    assert StrToUl(spaced) == StrToUl(spaced[1..]);
  }

  /** Mode and path are printed without a NUL, so the C string is the whole of them. */
  lemma {:induction false} SpecHasNoNul(path: Bytes, mode: nat)
    requires mode < TWO_32 && 0 !in path
    ensures 0 !in PathAndMode(path, mode)
  {
    DecimalShape(mode);
    DecimalShape(TWO_32 - mode);
  }
}
