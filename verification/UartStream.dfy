/** Whole streams of packets and noise. */
module UartStream {
  import opened UartFrame

  // ---------- checksums ----------

  /** Changing one byte changes the sum by the old byte and the new one. */
  lemma {:induction false} XorUpdate(s: seq<byte>, k: nat, v: byte)
    requires k < |s|
    ensures Xor(s[k := v]) == Xor2(Xor2(Xor(s), s[k]), v)
    decreases |s|
  {
    hide Xor2;
    var n := |s| - 1;
    var front := s[..n];
    if k == n {
      assert s[k := v][..n] == front;
      var x := Xor(front);
      XorLaws(x, s[n], s[n]);
      XorLaws(s[n], s[n], s[n]);
      XorLaws(x, x, x);
    } else {
      assert s[k := v][..n] == front[k := v];
      XorUpdate(front, k, v);
      XorSwap(Xor(front), s[n], s[k], v);
    }
  }

  lemma XorSwap(x: byte, last: byte, a: byte, b: byte)
    ensures Xor2(Xor2(Xor2(x, a), b), last) == Xor2(Xor2(Xor2(x, last), a), b)
  {
    hide Xor2;
    XorLaws(Xor2(x, a), b, last);
    XorLaws(b, last, a);
    XorLaws(Xor2(x, a), last, b);
    XorLaws(x, a, last);
    XorLaws(a, last, x);
    XorLaws(x, last, a);
  }

  lemma XorSame(a: byte, b: byte)
    requires Xor2(a, b) == 0
    ensures a == b
  {
    hide Xor2;
    XorLaws(a, b, b);
    XorLaws(b, b, b);
    XorLaws(a, a, a);
    XorLaws(0, b, b);
  }

  /** A packet that is as long as its length byte says. */
  predicate Framed(p: seq<byte>) {
    HDR_LEN <= |p| < 256 && p[0] == HEAD0 && p[1] == HEAD1 && p[2] == |p|
  }

  /** A packet is accepted when all its bytes combine to zero. */
  lemma ParsesZero(p: seq<byte>)
    requires Framed(p)
    ensures Parses(p) <==> Xor(p) == 0
  {
    hide Xor2;
    assert p[..p[2]] == p;
    var x, c := Xor(p), p[CHECK];
    XorLaws(x, c, c);
    XorLaws(c, c, c);
    XorLaws(x, x, x);
    XorLaws(0, c, c);
  }

  /** What is built with a payload that fits is accepted, whatever was in memory before. */
  lemma BuiltParses(cmd: byte, sn: byte, data: seq<byte>, junk: byte)
    requires |data| <= MAX_PAYLOAD
    ensures var p := Packet(cmd, sn, data, junk); Framed(p) && Parses(p) && p[HDR_LEN..] == data && p[4] == sn && p[5] == cmd
  {
    hide Xor2, Xor;
    var raw := Unsigned(cmd, sn, data, junk);
    var p := Packet(cmd, sn, data, junk);
    assert raw[..raw[2]] == raw;
    var sum := Checksum(raw);
    XorUpdate(raw, CHECK, sum);
    XorLaws(sum, sum, sum);
    ParsesZero(p);
    assert p[HDR_LEN..] == data;
  }

  // ---------- feeding ----------

  lemma {:induction false} FeedsConcat(got: seq<byte>, a: seq<byte>, b: seq<byte>)
    requires Partial(got)
    ensures var mid := Feeds(got, a);
            Feeds(got, a + b).0 == Feeds(mid.0, b).0 && Feeds(got, a + b).1 == mid.1 + Feeds(mid.0, b).1
    decreases |a|
  {
    hide Feed;
    if |a| == 0 {
      assert a + b == b && [] + Feeds(got, b).1 == Feeds(got, b).1;
    } else {
      assert (a + b)[0] == a[0] && (a + b)[1..] == a[1..] + b;
      var step := Feed(got, a[0]);
      FeedsConcat(step.0, a[1..], b);
      var mid := Feeds(step.0, a[1..]);
      assert step.1 + (mid.1 + Feeds(mid.0, b).1) == (step.1 + mid.1) + Feeds(mid.0, b).1;
    }
  }

  lemma FeedsOne(got: seq<byte>, ch: byte)
    requires Partial(got)
    ensures Feeds(got, [ch]).0 == Feed(got, ch).0 && Feeds(got, [ch]).1 == Feed(got, ch).1
  {
    hide Feed;
    assert [ch][1..] == [];
    assert Feed(got, ch).1 + [] == Feed(got, ch).1;
  }

  /** A framed packet is collected byte by byte. */
  lemma {:induction false} Collects(p: seq<byte>, k: nat)
    requires Framed(p) && k < |p|
    ensures Partial(p[..k]) && Feeds([], p[..k]).0 == p[..k] && Feeds([], p[..k]).1 == []
    decreases k
  {
    if k > 0 {
      Collects(p, k - 1);
      var front := p[..k - 1];
      assert p[..k] == front + [p[k - 1]];
      FeedsConcat([], front, [p[k - 1]]);
      FeedsOne(front, p[k - 1]);
    }
  }

  /** A framed packet is delivered if it parses and dropped if not; the receiver is
      ready for the next one either way. */
  lemma PacketFeeds(p: seq<byte>)
    requires Framed(p)
    ensures Feeds([], p).0 == [] && Feeds([], p).1 == if Parses(p) then [p] else []
  {
    hide Parses;
    var n := |p| - 1;
    Collects(p, n);
    assert p == p[..n] + [p[n]];
    FeedsConcat([], p[..n], [p[n]]);
    FeedsOne(p[..n], p[n]);
  }

  // ---------- noise ----------

  /** No head of a packet inside. */
  predicate Headless(noise: seq<byte>) {
    forall k | 0 < k < |noise| :: noise[k] == HEAD1 ==> noise[k - 1] != HEAD0
  }

  /** The run of first head bytes at the end. */
  function Trailing(noise: seq<byte>): nat {
    if |noise| == 0 || noise[|noise| - 1] != HEAD0 then 0 else 1 + Trailing(noise[..|noise| - 1])
  }

  /** Noise leaves the receiver waiting for the second head byte exactly when an odd
      number of first head bytes ends it. */
  lemma {:induction false} NoiseFeeds(noise: seq<byte>)
    requires Headless(noise)
    ensures Feeds([], noise).0 == (if Trailing(noise) % 2 == 0 then [] else [HEAD0]) && Feeds([], noise).1 == []
    decreases |noise|
  {
    hide Feeds, Trailing;
    if |noise| == 0 {
      NoNoise(noise);
    } else {
      var n := |noise| - 1;
      var front := noise[..n];
      NoiseFeeds(front);
      assert noise == front + [noise[n]];
      FeedsConcat([], front, [noise[n]]);
      FeedsOne(Feeds([], front).0, noise[n]);
      TrailingStep(noise);
    }
  }

  lemma NoNoise(noise: seq<byte>)
    requires |noise| == 0
    ensures Feeds([], noise) == ([], []) && Trailing(noise) == 0
  {
  }

  lemma TrailingStep(noise: seq<byte>)
    requires |noise| > 0
    ensures var n := |noise| - 1;
            Trailing(noise) == (if noise[n] == HEAD0 then 1 + Trailing(noise[..n]) else 0)
            && (Trailing(noise[..n]) > 0 ==> n > 0 && noise[n - 1] == HEAD0)
  {
  }

  /** No packet is longer than the bytes it is made of, nor than its length byte can say. */
  lemma {:induction false} DeliveredShort(got: seq<byte>, input: seq<byte>)
    requires Partial(got)
    ensures forall q | q in Feeds(got, input).1 :: |q| <= |got| + |input| && HDR_LEN <= |q| < 256
    decreases |input|
  {
    hide Parses;
    if |input| > 0 {
      DeliveredShort(Feed(got, input[0]).0, input[1..]);
    }
  }

  /** A receiver that waits for the second head byte misses the packet. */
  lemma PacketMissed(p: seq<byte>)
    requires Framed(p)
    ensures Feeds([HEAD0], p).1 != [p]
  {
    hide Feeds;
    assert p == [p[0]] + p[1..];
    FeedsConcat([HEAD0], [p[0]], p[1..]);
    FeedsOne([HEAD0], p[0]);
    DeliveredShort([], p[1..]);
    var more := Feeds([], p[1..]).1;
    assert Feeds([HEAD0], p).1 == [] + more;
    OneInside(more, p);
  }

  lemma OneInside(packets: seq<seq<byte>>, p: seq<byte>)
    ensures packets == [p] ==> p in packets
  {
  }

  /** Behind bytes that deliver nothing, what arrives depends on where they leave the receiver. */
  lemma FeedsBehind(noise: seq<byte>, p: seq<byte>)
    requires Feeds([], noise).1 == []
    ensures Feeds([], noise + p) == Feeds(Feeds([], noise).0, p)
  {
    hide Feeds;
    FeedsConcat([], noise, p);
    assert [] + Feeds(Feeds([], noise).0, p).1 == Feeds(Feeds([], noise).0, p).1;
  }

  /** A packet behind noise without a head arrives if and only if the number of first
      head bytes just before it is even: a byte that mismatches as the second head byte
      is not tried as the first. */
  lemma PacketAfterNoise(noise: seq<byte>, p: seq<byte>)
    requires Headless(noise) && Framed(p) && Parses(p)
    ensures Feeds([], noise + p).1 == [p] <==> Trailing(noise) % 2 == 0
    ensures Trailing(noise) % 2 == 0 ==> Feeds([], noise + p).0 == []
  {
    hide Parses, Feeds, Trailing, Headless, Framed;
    NoiseFeeds(noise);
    FeedsBehind(noise, p);
    if Trailing(noise) % 2 == 0 {
      PacketFeeds(p);
    } else {
      PacketMissed(p);
    }
  }

  // ---------- streams ----------

  /** Packets, each with the noise before it. */
  datatype Item = Item(noise: seq<byte>, packet: seq<byte>)

  predicate Quiet(noise: seq<byte>) {
    Headless(noise) && Trailing(noise) % 2 == 0
  }

  function Stream(items: seq<Item>): seq<byte> {
    if |items| == 0 then [] else (items[0].noise + items[0].packet) + Stream(items[1..])
  }

  function Sent(items: seq<Item>): seq<seq<byte>> {
    if |items| == 0 then [] else [items[0].packet] + Sent(items[1..])
  }

  /** Every packet of a stream arrives, once, in order and unchanged. */
  lemma {:induction false} StreamDelivered(items: seq<Item>, end: seq<byte>)
    requires forall k | 0 <= k < |items| :: Quiet(items[k].noise) && Framed(items[k].packet) && Parses(items[k].packet)
    requires Quiet(end)
    ensures Feeds([], Stream(items) + end).0 == [] && Feeds([], Stream(items) + end).1 == Sent(items)
    decreases items
  {
    hide Feeds, Parses, Headless, Trailing;
    if |items| == 0 {
      NoiseFeeds(end);
      assert Stream(items) + end == end;
    } else {
      var first := items[0].noise + items[0].packet;
      PacketAfterNoise(items[0].noise, items[0].packet);
      StreamDelivered(items[1..], end);
      assert Stream(items) + end == first + (Stream(items[1..]) + end);
      FeedsConcat([], first, Stream(items[1..]) + end);
    }
  }

  /** A packet with one byte changed behind its length is dropped, and whatever follows
      is received as if it had not been there. */
  lemma CorruptedDropped(p: seq<byte>, k: nat, v: byte, rest: seq<byte>)
    requires Framed(p) && Parses(p) && 3 <= k < |p| && v != p[k]
    ensures Feeds([], p[k := v] + rest).0 == Feeds([], rest).0 && Feeds([], p[k := v] + rest).1 == Feeds([], rest).1
  {
    hide Feeds, Parses, Xor, Xor2;
    var q := p[k := v];
    ParsesZero(p);
    ParsesZero(q);
    XorUpdate(p, k, v);
    XorLaws(0, p[k], v);
    XorLaws(p[k], p[k], p[k]);
    if Xor2(p[k], v) == 0 {
      XorSame(p[k], v);
    }
    PacketFeeds(q);
    FeedsConcat([], q, rest);
    assert [] + Feeds([], rest).1 == Feeds([], rest).1;
  }

  /** A built packet arrives exactly when its payload is at most 249 bytes long: above
      that, the length no longer fits its byte, and no packet the receiver delivers is
      that long. */
  lemma PayloadLimit(cmd: byte, sn: byte, data: seq<byte>, junk: byte)
    ensures var p := Packet(cmd, sn, data, junk); p in Feeds([], p).1 <==> |data| <= MAX_PAYLOAD
  {
    hide Parses, Packet;
    var p := Packet(cmd, sn, data, junk);
    if |data| <= MAX_PAYLOAD {
      BuiltParses(cmd, sn, data, junk);
      PacketFeeds(p);
    } else {
      DeliveredShort([], p);
    }
  }
}
