/** Packets on a serial line: building them, and receiving them byte by byte. */
module UartFrame {
  import opened BitOps

  type byte = n: int | 0 <= n < 256 witness 0

  const HEAD0: byte := 0x40
  const HEAD1: byte := 0x3e

  /** The two head bytes, the length, the checksum, the sequence number and the command. */
  const HDR_LEN := 6

  /** The position of the checksum. */
  const CHECK := 3

  /** The largest payload whose packet length fits its byte. */
  const MAX_PAYLOAD := 249

  /** Exclusive or on the lowest `n` bits. */
  function XorBits(a: nat, b: nat, n: nat): (r: nat)
    ensures r < Pow2(n)
    decreases n
  {
    if n == 0 then 0 else 2 * XorBits(a / 2, b / 2, n - 1) + (a + b) % 2
  }

  lemma XorHalves(a: nat, b: nat, n: nat)
    requires n > 0
    ensures XorBits(a, b, n) / 2 == XorBits(a / 2, b / 2, n - 1) && XorBits(a, b, n) % 2 == (a + b) % 2
  {
  }

  lemma {:induction false} XorAssociates(a: nat, b: nat, c: nat, n: nat)
    ensures XorBits(XorBits(a, b, n), c, n) == XorBits(a, XorBits(b, c, n), n)
    decreases n
  {
    if n > 0 {
      XorAssociates(a / 2, b / 2, c / 2, n - 1);
      XorStep(a, b, c, n);
    }
  }

  lemma XorStep(a: nat, b: nat, c: nat, n: nat)
    requires n > 0
    requires XorBits(XorBits(a / 2, b / 2, n - 1), c / 2, n - 1) == XorBits(a / 2, XorBits(b / 2, c / 2, n - 1), n - 1)
    ensures XorBits(XorBits(a, b, n), c, n) == XorBits(a, XorBits(b, c, n), n)
  {
    hide XorBits;
    var x, y := XorBits(a, b, n), XorBits(b, c, n);
    XorHalves(a, b, n);
    XorHalves(b, c, n);
    XorHalves(x, c, n);
    XorHalves(a, y, n);
    XorParity(a, b, c, x, y);
    var l, r := XorBits(x, c, n), XorBits(a, y, n);
    assert l == l / 2 * 2 + l % 2 && r == r / 2 * 2 + r % 2;
  }

  lemma XorParity(a: nat, b: nat, c: nat, x: nat, y: nat)
    requires x % 2 == (a + b) % 2 && y % 2 == (b + c) % 2
    ensures (x + c) % 2 == (a + y) % 2
  {
  }

  lemma {:induction false} XorCommutes(a: nat, b: nat, n: nat)
    ensures XorBits(a, b, n) == XorBits(b, a, n)
    decreases n
  {
    if n > 0 {
      XorCommutes(a / 2, b / 2, n - 1);
    }
  }

  lemma {:induction false} XorCancels(a: nat, n: nat)
    ensures XorBits(a, a, n) == 0
    decreases n
  {
    if n > 0 {
      XorCancels(a / 2, n - 1);
    }
  }

  lemma {:induction false} XorZero(a: nat, n: nat)
    requires a < Pow2(n)
    ensures XorBits(a, 0, n) == a
    decreases n
  {
    if n > 0 {
      XorZero(a / 2, n - 1);
    }
  }

  function Xor2(a: byte, b: byte): byte {
    assert Pow2(8) == 256;
    XorBits(a, b, 8)
  }

  /** Exclusive or makes the bytes a group in which every element is its own inverse. */
  lemma XorLaws(a: byte, b: byte, c: byte)
    ensures Xor2(Xor2(a, b), c) == Xor2(a, Xor2(b, c)) && Xor2(a, b) == Xor2(b, a) && Xor2(a, a) == 0 && Xor2(a, 0) == a
  {
    hide XorBits;
    assert Pow2(8) == 256;
    XorAssociates(a, b, c, 8);
    XorCommutes(a, b, 8);
    XorCancels(a, 8);
    XorZero(a, 8);
  }

  /** All bytes, combined by exclusive or. */
  function Xor(s: seq<byte>): byte {
    if |s| == 0 then 0 else Xor2(Xor(s[..|s| - 1]), s[|s| - 1])
  }

  // ---------- building ----------

  /** The packet before its checksum is stored; `junk` is what the memory held there. */
  function Unsigned(cmd: byte, sn: byte, data: seq<byte>, junk: byte): (r: seq<byte>)
    ensures |r| == HDR_LEN + |data|
  {
    [HEAD0, HEAD1, (HDR_LEN + |data|) % 256, junk, sn, cmd] + data
  }

  /** `_ser_calc_checksum`: over as many bytes as the length byte says, without the
      checksum itself. */
  function Checksum(pkt: seq<byte>): byte
    requires |pkt| >= HDR_LEN && pkt[2] <= |pkt|
  {
    Xor2(Xor(pkt[..pkt[2]]), pkt[CHECK])
  }

  /** The bytes that `_build_pkt` leaves in memory. */
  function Packet(cmd: byte, sn: byte, data: seq<byte>, junk: byte): (r: seq<byte>)
    ensures |r| == HDR_LEN + |data|
  {
    var raw := Unsigned(cmd, sn, data, junk);
    raw[CHECK := Checksum(raw)]
  }

  method CalcChecksum(pkt: array<byte>) returns (sum: byte)
    requires pkt.Length >= HDR_LEN && pkt[2] <= pkt.Length
    ensures sum == Checksum(pkt[..])
  {
    var len := pkt[2];
    sum := 0;
    for i := 0 to len
      invariant sum == Xor(pkt[..i])
    {
      assert pkt[..i + 1][..i] == pkt[..i];
      sum := Xor2(sum, pkt[i]);
    }
    assert pkt[..][..len] == pkt[..len];
    sum := Xor2(sum, pkt[CHECK]);
  }

  /** `_build_pkt` into memory of the right size. */
  method BuildPacket(cmd: byte, sn: byte, data: seq<byte>, pkt: array<byte>)
    requires pkt.Length == HDR_LEN + |data|
    modifies pkt
    ensures pkt[..] == Packet(cmd, sn, data, old(pkt[CHECK]))
  {
    hide Checksum;
    ghost var junk := pkt[CHECK];
    pkt[0], pkt[1] := HEAD0, HEAD1;
    pkt[2] := (HDR_LEN + |data|) % 256;
    pkt[4], pkt[5] := sn, cmd;
    for k := 0 to |data|
      invariant pkt[..HDR_LEN] == [HEAD0, HEAD1, (HDR_LEN + |data|) % 256, junk, sn, cmd]
      invariant pkt[HDR_LEN..HDR_LEN + k] == data[..k]
    {
      pkt[HDR_LEN + k] := data[k];
    }
    assert pkt[..][..HDR_LEN] == pkt[..HDR_LEN] && pkt[..][HDR_LEN..] == pkt[HDR_LEN..HDR_LEN + |data|];
    assert data[..|data|] == data;
    assert pkt[..] == pkt[..][..HDR_LEN] + pkt[..][HDR_LEN..];
    assert pkt[..] == Unsigned(cmd, sn, data, junk);
    var sum := CalcChecksum(pkt);
    pkt[CHECK] := sum;
  }

  // ---------- receiving ----------

  /** `_mac_parse` on a packet as long as its length byte says. */
  predicate Parses(pkt: seq<byte>)
    requires |pkt| >= HDR_LEN && pkt[2] <= |pkt|
  {
    pkt[0] == HEAD0 && pkt[1] == HEAD1 && Checksum(pkt) == pkt[CHECK]
  }

  /** The bytes of a packet that have been received so far. */
  predicate Partial(got: seq<byte>) {
    (|got| > 0 ==> got[0] == HEAD0) && (|got| > 1 ==> got[1] == HEAD1)
    && (|got| > 2 ==> HDR_LEN <= got[2] && |got| < got[2])
  }

  /** One byte: the bytes received then, and the packet it completed. A byte that
      mismatches at the second position is not tried as the first one. */
  function Feed(got: seq<byte>, ch: byte): (r: (seq<byte>, seq<seq<byte>>))
    requires Partial(got)
    ensures Partial(r.0)
  {
    if |got| == 0 then (if ch == HEAD0 then [ch] else [], [])
    else if |got| == 1 then (if ch == HEAD1 then got + [ch] else [], [])
    else if |got| == 2 then (if ch >= HDR_LEN then got + [ch] else [], [])
    else
      var pkt := got + [ch];
      if |pkt| < pkt[2] then (pkt, [])
      else ([], if Parses(pkt) then [pkt] else [])
  }

  function Feeds(got: seq<byte>, input: seq<byte>): (r: (seq<byte>, seq<seq<byte>>))
    requires Partial(got)
    ensures Partial(r.0)
    decreases |input|
  {
    if |input| == 0 then (got, [])
    else
      var (next, packets) := Feed(got, input[0]);
      var (last, more) := Feeds(next, input[1..]);
      (last, packets + more)
  }

  lemma FeedsStep(got: seq<byte>, input: seq<byte>, k: nat)
    requires Partial(got) && k < |input|
    ensures var (next, packets) := Feed(got, input[k]);
            Feeds(got, input[k..]) == (Feeds(next, input[k + 1..]).0, packets + Feeds(next, input[k + 1..]).1)
  {
    hide Feed;
    assert input[k..][0] == input[k] && input[k..][1..] == input[k + 1..];
  }

  lemma FeedsEnd(got: seq<byte>, input: seq<byte>)
    requires Partial(got)
    ensures Feeds(got, input[|input|..]) == (got, [])
  {
  }

  /** The receiver with its static variables. */
  class Receiver {
    const head: array<byte>
    var buf: array<byte>
    var pktLen: byte
    var i: nat

    ghost predicate Valid()
      reads this, head, buf
    {
      head.Length == 4 && head != buf && Partial(Received())
      && (i > 2 ==> i < pktLen == buf.Length && pktLen == buf[2])
    }

    /** What has been received: in the head, or in the buffer. */
    ghost function Received(): seq<byte>
      reads this, head, buf
    {
      if i <= 2 && i <= head.Length then head[..i]
      else if i <= buf.Length then buf[..i]
      else []
    }

    constructor ()
      ensures Valid() && Received() == [] && fresh(head) && fresh(buf)
    {
      head := new byte[4];
      buf := new byte[0];
      pktLen, i := 0, 0;
    }

    /** One of the three bytes in front: the heads, and the length that sizes the buffer. */
    method ReceiveHead(ch: byte)
      requires Valid() && i <= 2
      modifies this, head
      ensures Valid() && Received() == Feed(old(Received()), ch).0 && Feed(old(Received()), ch).1 == []
      ensures buf == old(buf) || fresh(buf)
    {
      ghost var got := Received();
      head[i] := ch;
      if (i == 0 && ch != HEAD0) || (i == 1 && ch != HEAD1) {
        i := 0;
        return;
      }
      assert head[..i + 1] == got + [ch];
      if i == 2 {
        pktLen := ch;
        if pktLen < HDR_LEN {
          i := 0;
          return;
        }
        buf := new byte[pktLen];
        buf[0], buf[1], buf[2] := head[0], head[1], head[2];
        assert buf[..3] == got + [ch];
      }
      i := i + 1;
    }

    /** A byte behind the length; the last one completes the packet. */
    method ReceiveRest(ch: byte) returns (packet: seq<seq<byte>>)
      requires Valid() && i > 2
      modifies this, buf
      ensures Valid() && Received() == Feed(old(Received()), ch).0 && packet == Feed(old(Received()), ch).1
      ensures buf == old(buf)
    {
      hide Xor2, Checksum;
      ghost var got := Received();
      packet := [];
      buf[i] := ch;
      assert buf[..i + 1] == got + [ch];
      if i == pktLen - 1 {
        assert buf[..] == got + [ch];
        var sum := CalcChecksum(buf);
        if buf[0] == HEAD0 && buf[1] == HEAD1 && sum == buf[CHECK] {
          packet := [buf[..]];
        }
        i := 0;
        return;
      }
      i := i + 1;
    }

    /** One turn of the loop in `ser_cmd_rcv`. Every index stays inside its buffer. */
    method Receive(ch: byte) returns (packet: seq<seq<byte>>)
      requires Valid()
      modifies this, head, buf
      ensures Valid() && Received() == Feed(old(Received()), ch).0 && packet == Feed(old(Received()), ch).1
      ensures buf == old(buf) || fresh(buf)
    {
      hide Feed;
      if i <= 2 {
        packet := [];
        ReceiveHead(ch);
      } else {
        packet := ReceiveRest(ch);
      }
    }

    /** `ser_cmd_rcv` on all bytes that can be read. */
    method ReceiveAll(input: seq<byte>) returns (packets: seq<seq<byte>>)
      requires Valid()
      modifies this, head, buf
      ensures Valid() && Received() == Feeds(old(Received()), input).0 && packets == Feeds(old(Received()), input).1
    {
      hide Feed, Feeds;
      packets := [];
      ghost var start := Received();
      assert input[0..] == input;
      for k := 0 to |input|
        invariant Valid() && (buf == old(buf) || fresh(buf))
        invariant k == 0 ==> Received() == start
        invariant Feeds(start, input).0 == Feeds(Received(), input[k..]).0
        invariant Feeds(start, input).1 == packets + Feeds(Received(), input[k..]).1
      {
        FeedsStep(Received(), input, k);
        var packet := Receive(input[k]);
        ghost var rest := Feeds(Received(), input[k + 1..]);
        assert packets + (packet + rest.1) == (packets + packet) + rest.1;
        packets := packets + packet;
      }
      FeedsEnd(Received(), input);
      assert packets + [] == packets;
    }
  }
}
