/**
 * How the smart socket of sockets.cpp puts a request together from packets: unhex and the first half
 * of smart_socket_enqueue. What a complete request leads to is an oracle.
 */
module SmartSocket {
  import opened AdbBase
  import opened SyncSpec
  import opened ProtocolStrings

  const BAD: nat := 0xffff_ffff

  /** The value of some hex digits, if that is what they are. */
  function HexValue(s: Bytes): Option<nat> {
    if s == [] then Some(0)
    else
      var d := DigitValue(s[|s| - 1]);
      match HexValue(s[..|s| - 1])
      case Some(n) => if d < 16 then Some(n * 16 + d) else None
      case None => None
  }

  /** unhex: the value in 32 bits, or all ones at the first character that is no digit. */
  method Unhex(s: Bytes) returns (n: nat)
    ensures n == match HexValue(s) { case Some(v) => v % TWO_32 case None => BAD }
  {
    n := 0;
    for i := 0 to |s|
      invariant HexValue(s[..i]).Some? && n == HexValue(s[..i]).value % TWO_32
    {
      assert s[..i + 1][..i] == s[..i];
      var c := DigitValue(s[i]);
      if c >= 16 {
        NoDigit(s, i);
        return BAD;
      }
      Shifted(HexValue(s[..i]).value, c);
      n := (n * 16 + c) % TWO_32;
    }
    assert s[..|s|] == s;
  }

  lemma Shifted(v: nat, c: nat)
    ensures (v % TWO_32 * 16 + c) % TWO_32 == (v * 16 + c) % TWO_32
  {
    var q := v / TWO_32;
    assert v * 16 + c == (v % TWO_32 * 16 + c) + 16 * q * TWO_32;
  }

  lemma {:induction false} NoDigit(s: Bytes, i: nat)
    requires i < |s| && DigitValue(s[i]) >= 16
    ensures HexValue(s) == None
    decreases |s|
  {
    if i < |s| - 1 {
      NoDigit(s[..|s| - 1], i);
    }
  }

  lemma {:induction false} FourBound(s: Bytes)
    requires |s| == 4
    ensures HexValue(s).Some? ==> HexValue(s).value <= 0xffff
  {
    assert s[..3][..2] == s[..2] && s[..2][..1] == s[..1] && s[..1][..0] == [];
    assert HexValue(s[..1]).Some? ==> HexValue(s[..1]).value <= 0xf;
    assert HexValue(s[..2]).Some? ==> HexValue(s[..2]).value <= 0xff;
    assert HexValue(s[..3]).Some? ==> HexValue(s[..3]).value <= 0xfff;
  }

  // ----- decisions -----

  /** Wait for more, fail, or act on a service name; `extra` is what was sent along behind it. */
  datatype Decision = Wait | Fail | Dispatch(service: Bytes, extra: Bytes)

  function Length(head: Bytes): nat
    requires |head| >= 4
  {
    match HexValue(head[..4]) { case Some(n) => n case None => BAD }
  }

  function Decide(content: Bytes): Decision {
    if |content| < 4 then Wait
    else
      var len := Length(content);
      if len < 1 || len > MAX_PAYLOAD then Fail
      else if len + 4 > |content| then Wait
      else Dispatch(content[4..4 + len], content[4 + len..])
  }

  /** What the four bytes in front of a request are read as. */
  function Announced(content: Bytes): nat
    requires |content| >= 4
  {
    ParseDigits(content[..4], 16, 0)
  }

  /**
   * A request fails as soon as its length can be read and is no number or 0, and only then; it waits
   * for as many bytes as the number says, and not longer.
   */
  lemma {:induction false} DecideIs(content: Bytes)
    ensures |content| < 4 ==> Decide(content) == Wait
    ensures |content| >= 4 && (exists k :: 0 <= k < 4 && DigitValue(content[k]) >= 16) ==> Decide(content) == Fail
    ensures |content| >= 4 && (forall k :: 0 <= k < 4 ==> DigitValue(content[k]) < 16) ==>
              var n := Announced(content);
              && n <= 0xffff
              && Decide(content) == if n == 0 then Fail else if |content| < 4 + n then Wait
                                    else Dispatch(content[4..4 + n], content[4 + n..])
  {
    if |content| >= 4 {
      var head := content[..4];
      if k :| 0 <= k < 4 && DigitValue(content[k]) >= 16 {
        assert head[k] == content[k];
        NoDigit(head, k);
      } else {
        assert forall k :: 0 <= k < 4 ==> head[k] == content[k];
        HexAgrees(head);
        FourBound(head);
      }
    }
  }

  /** pkt_first: None before the first packet. */
  type Held = Option<Bytes>

  /** One call of smart_socket_enqueue up to its decision. */
  function Take(held: Held, p: Bytes, maxPayload: nat): (Held, Decision) {
    match held
    case None => (Some(p), Decide(p))
    case Some(b) => if |b| + |p| > maxPayload then (held, Fail) else (Some(b + p), Decide(b + p))
  }

  /** Packets are taken until the request is decided. */
  function Feed(held: Held, ps: seq<Bytes>, maxPayload: nat): Decision
    decreases |ps|
  {
    if ps == [] then Wait
    else
      var (held', d) := Take(held, ps[0], maxPayload);
      if d.Wait? then Feed(held', ps[1..], maxPayload) else d
  }

  /** What of a decision matters: whether it waits or fails, or the service. */
  datatype Verdict = StillWaiting | Failed | Service(name: Bytes)

  function VerdictOf(d: Decision): Verdict {
    match d
    case Wait => StillWaiting
    case Fail => Failed
    case Dispatch(service, _) => Service(service)
  }

  function HeldBytes(held: Held): Bytes { if held.Some? then held.value else [] }

  /** Once decided, more bytes do not change the verdict. */
  lemma {:induction false} DecideSticks(x: Bytes, y: Bytes)
    requires !Decide(x).Wait?
    ensures VerdictOf(Decide(x + y)) == VerdictOf(Decide(x))
  {
    assert (x + y)[..4] == x[..4];
    if Decide(x).Dispatch? {
      assert (x + y)[4..4 + Length(x)] == x[4..4 + Length(x)];
    }
  }

  /** However a request is cut into packets, the verdict is that of the bytes put together. */
  lemma {:induction false} FeedIsDecide(held: Held, ps: seq<Bytes>, maxPayload: nat)
    requires |HeldBytes(held) + Flat(ps)| <= maxPayload && Decide(HeldBytes(held)).Wait?
    ensures VerdictOf(Feed(held, ps, maxPayload)) == VerdictOf(Decide(HeldBytes(held) + Flat(ps)))
    decreases |ps|
  {
    var b := HeldBytes(held);
    if ps == [] {
      assert b + [] == b;
    } else {
      assert b + Flat(ps) == (b + ps[0]) + Flat(ps[1..]);
      assert held == None ==> b + ps[0] == ps[0];
      if Decide(b + ps[0]).Wait? {
        FeedIsDecide(Some(b + ps[0]), ps[1..], maxPayload);
      } else {
        DecideSticks(b + ps[0], Flat(ps[1..]));
      }
    }
  }

  /** So two ways of cutting the same bytes lead to the same verdict. */
  lemma {:induction false} CutDoesNotMatter(ps: seq<Bytes>, qs: seq<Bytes>, maxPayload: nat)
    requires Flat(ps) == Flat(qs) && |Flat(ps)| <= maxPayload
    ensures VerdictOf(Feed(None, ps, maxPayload)) == VerdictOf(Feed(None, qs, maxPayload))
  {
    assert [] + Flat(ps) == Flat(ps);
    FeedIsDecide(None, ps, maxPayload);
    FeedIsDecide(None, qs, maxPayload);
  }

  /** The smart socket reads what SendProtocolString writes, for every length it accepts. */
  lemma {:induction false} RequestParses(s: Bytes, extra: Bytes)
    requires |s| <= 0xffff && 0 !in s
    ensures Decide(Printed(s) + extra) == if s == [] then Fail else Dispatch(s, extra)
  {
    FourDigits(|s|);
    WholeCString(s);
    HexAgrees(Hex4(|s|));
    var wire := Printed(s) + extra;
    hide Hex4, CString, HexValue;
    assert wire == Hex4(|s|) + (s + extra);
    assert wire[..4] == Hex4(|s|) && wire[4..] == s + extra;
    assert wire[4..4 + |s|] == s && wire[4 + |s|..] == extra;
  }

  lemma {:induction false} HexAgrees(s: Bytes)
    requires forall k :: 0 <= k < |s| ==> DigitValue(s[k]) < 16
    ensures HexValue(s) == Some(ParseDigits(s, 16, 0))
    decreases |s|
  {
    if s != [] {
      var t := s[..|s| - 1];
      HexAgrees(t);
      HexAppend(t, s[|s| - 1], 0);
      assert s == t + [s[|s| - 1]];
    }
  }
}
