/** UDP over IPv4 over Ethernet as stage2/net/udp.c and stage2/net/ipv4.c build and take apart frames
    (RFC 768, section 3.1 of RFC 791), and the queue that a bound port delivers to. */
module UdpDatagrams {
  import opened Bytes
  import opened InternetChecksum

  const UDP: Byte := 17
  const UDP_HEADER := 8
  const IP_HEADER := 20
  const ETH_HEADER := 14
  const MIN_FRAME := 60
  const MAX_FRAME := 1514
  const MAX_DGRAM := 1472

  type Ip = s: seq<Byte> | |s| == 4 witness [0, 0, 0, 0]
  type Mac = s: seq<Byte> | |s| == 6 witness [0, 0, 0, 0, 0, 0]

  // ------------------------------------------------------------------------------------------
  // Building
  // ------------------------------------------------------------------------------------------

  function UdpHeader(src: Word, dst: Word, len: Word, ck: Word): (h: seq<Byte>)
    ensures |h| == UDP_HEADER
    ensures WordAt(h, 0) == src && WordAt(h, 2) == dst && WordAt(h, 4) == len && WordAt(h, 6) == ck
  {
    Pack(src) + Pack(dst) + Pack(len) + Pack(ck)
  }

  /** The sum over the pseudo-header and the segment. */
  function SegmentSum(src: Ip, dst: Ip, seg: seq<Byte>): nat {
    WordAt(src, 0) + WordAt(src, 2) + WordAt(dst, 0) + WordAt(dst, 2) + UDP as int + |seg| + WordSum(seg)
  }

  function Segment(src: Ip, dst: Ip, sp: Word, dp: Word, payload: seq<Byte>): (seg: seq<Byte>)
    requires |payload| <= MAX_DGRAM
    ensures |seg| == UDP_HEADER + |payload|
  {
    var len := UDP_HEADER + |payload|;
    UdpHeader(sp, dp, len, OnWire(SegmentSum(src, dst, UdpHeader(sp, dp, len, 0) + payload))) + payload
  }

  function IpHeader(total: Word, id: Word, src: Ip, dst: Ip, ck: Word): (h: seq<Byte>)
    ensures |h| == IP_HEADER
    ensures h[0] == 0x45 && WordAt(h, 2) == total && WordAt(h, 6) == 0x4000 && h[9] == UDP && WordAt(h, 10) == ck
    ensures h[12..16] == src && h[16..20] == dst
    ensures h[10 := 0][11 := 0] == Pack(0x4500) + Pack(total) + Pack(id) + Pack(0x4000) + [64, UDP] + [0, 0] + src + dst
  {
    Pack(0x4500) + Pack(total) + Pack(id) + Pack(0x4000) + [64, UDP] + Pack(ck) + src + dst
  }

  function Packet(src: Ip, dst: Ip, id: Word, seg: seq<Byte>): seq<Byte>
    requires |seg| <= UDP_HEADER + MAX_DGRAM
  {
    var total := IP_HEADER + |seg|;
    IpHeader(total, id, src, dst, Complement(Fold(WordSum(IpHeader(total, id, src, dst, 0))))) + seg
  }

  /** A frame is padded with zeros to the Ethernet minimum. */
  function Frame(to: Mac, from: Mac, packet: seq<Byte>): seq<Byte> {
    var f := to + from + Pack(0x0800) + packet;
    f + Zeros(if |f| < MIN_FRAME then MIN_FRAME - |f| else 0)
  }

  // ------------------------------------------------------------------------------------------
  // Taking apart
  // ------------------------------------------------------------------------------------------

  /** The receiving host: its address, once it has one. */
  datatype Host = Host(configured: bool, ip: Ip)

  datatype Outcome = Dropped | Delivered(port: Word, src: Ip, srcPort: Word, payload: seq<Byte>)

  predicate UdpValid(src: Ip, dst: Ip, seg: seq<Byte>) { Complement(Fold(SegmentSum(src, dst, seg))) == 0 }

  /** `udp_process_packet`, up to the choice of the server. */
  function ProcessUdp(src: Ip, dst: Ip, u: seq<Byte>): Outcome {
    if |u| < UDP_HEADER then Dropped
    else if WordAt(u, 4) < UDP_HEADER || WordAt(u, 4) > |u| then Dropped
    else if WordAt(u, 6) != 0 && !UdpValid(src, dst, u[..WordAt(u, 4)]) then Dropped
    else Delivered(WordAt(u, 2), src, WordAt(u, 0), u[UDP_HEADER..WordAt(u, 4)])
  }

  predicate Malformed(d: seq<Byte>) {
    |d| < IP_HEADER || d[0] / 16 != 4 || d[0] % 16 * 4 < IP_HEADER || |d| < d[0] % 16 * 4
    || WordAt(d, 2) < d[0] % 16 * 4 || WordAt(d, 2) > |d|
  }

  predicate Addressed(host: Host, dst: Ip) { !host.configured || dst == host.ip || dst == [255, 255, 255, 255] }

  /** `ipv4_process_packet` for UDP packets; the others are not followed. */
  function ProcessIp(host: Host, d: seq<Byte>): Outcome {
    if Malformed(d) then Dropped
    else
      var ihl := d[0] % 16 * 4;
      if WordAt(d, 10) != Complement(Fold(WordSum(d[..ihl][10 := 0][11 := 0]))) then Dropped
      else if WordAt(d, 6) % 0x4000 != 0 then Dropped
      else if !Addressed(host, d[16..20]) then Dropped
      else if d[9] != UDP then Dropped
      else ProcessUdp(d[12..16], d[16..20], d[ihl..WordAt(d, 2)])
  }

  /** `eth_process_packet`. */
  function ProcessFrame(host: Host, f: seq<Byte>): Outcome {
    if |f| < ETH_HEADER || WordAt(f, 12) != 0x0800 then Dropped else ProcessIp(host, f[ETH_HEADER..])
  }

  // ------------------------------------------------------------------------------------------
  // Round trip
  // ------------------------------------------------------------------------------------------

  lemma {:induction false} HeaderSum(src: Word, dst: Word, len: Word, ck: Word)
    ensures WordSum(UdpHeader(src, dst, len, ck)) == src + dst + len + ck
  {
    var h := UdpHeader(src, dst, len, ck);
    assert h[2..][0..] == h[2..] && WordAt(h[2..], 0) == WordAt(h, 2);
    assert h[2..][2..] == h[4..] && WordAt(h[4..], 0) == WordAt(h, 4);
    assert h[4..][2..] == h[6..] && WordAt(h[6..], 0) == WordAt(h, 6);
    assert h[6..][2..] == [];
    assert WordSum(h[6..]) == ck && WordSum(h[4..]) == len + ck && WordSum(h[2..]) == dst + len + ck;
  }

  /** The checksum in the header completes the sum that was computed without it. */
  lemma SegmentValid(src: Ip, dst: Ip, sp: Word, dp: Word, payload: seq<Byte>)
    requires |payload| <= MAX_DGRAM
    ensures UdpValid(src, dst, Segment(src, dst, sp, dp, payload))
    ensures WordAt(Segment(src, dst, sp, dp, payload), 6) != 0
  {
    var len := UDP_HEADER + |payload|;
    var zero := UdpHeader(sp, dp, len, 0);
    var sum := SegmentSum(src, dst, zero + payload);
    var seg := Segment(src, dst, sp, dp, payload);
    var head := UdpHeader(sp, dp, len, OnWire(sum));
    assert seg == head + payload;
    SumAppend(zero, payload);
    SumAppend(head, payload);
    HeaderSum(sp, dp, len, 0);
    HeaderSum(sp, dp, len, OnWire(sum));
    assert SegmentSum(src, dst, seg) == sum + OnWire(sum);
    CompletedValid(sum);
    assert WordAt(seg, 6) == WordAt(head, 6);
  }

  lemma UdpRoundTrip(src: Ip, dst: Ip, sp: Word, dp: Word, payload: seq<Byte>)
    requires |payload| <= MAX_DGRAM
    ensures ProcessUdp(src, dst, Segment(src, dst, sp, dp, payload)) == Delivered(dp, src, sp, payload)
  {
    var seg := Segment(src, dst, sp, dp, payload);
    SegmentValid(src, dst, sp, dp, payload);
    HeaderOf(src, dst, sp, dp, payload);
    assert seg[..|seg|] == seg;
  }

  lemma HeaderOf(src: Ip, dst: Ip, sp: Word, dp: Word, payload: seq<Byte>)
    requires |payload| <= MAX_DGRAM
    ensures var seg := Segment(src, dst, sp, dp, payload);
      WordAt(seg, 0) == sp && WordAt(seg, 2) == dp && WordAt(seg, 4) == |seg| && seg[UDP_HEADER..] == payload
  {
  }

  /** The receive path strips the padding and the headers and finds the segment unchanged. */
  lemma IpTransparent(host: Host, src: Ip, dst: Ip, id: Word, seg: seq<Byte>, pad: seq<Byte>)
    requires |seg| <= UDP_HEADER + MAX_DGRAM && Addressed(host, dst)
    ensures ProcessIp(host, Packet(src, dst, id, seg) + pad) == ProcessUdp(src, dst, seg)
  {
    var total := IP_HEADER + |seg|;
    var ck := Complement(Fold(WordSum(IpHeader(total, id, src, dst, 0))));
    var h := IpHeader(total, id, src, dst, ck);
    var d := Packet(src, dst, id, seg) + pad;
    assert d == h + seg + pad;
    assert d[..IP_HEADER] == h && d[12..16] == h[12..16] && d[16..20] == h[16..20];
    assert WordAt(d, 2) == WordAt(h, 2) && WordAt(d, 6) == WordAt(h, 6) && WordAt(d, 10) == WordAt(h, 10);
    assert h[10 := 0][11 := 0] == IpHeader(total, id, src, dst, 0);
    assert d[IP_HEADER..total] == seg;
  }

  /** Every payload up to 1472 bytes arrives at the addressed host exactly as it was sent. */
  lemma RoundTrip(host: Host, to: Mac, from: Mac, src: Ip, dst: Ip, id: Word, sp: Word, dp: Word, payload: seq<Byte>)
    requires |payload| <= MAX_DGRAM && Addressed(host, dst)
    ensures ProcessFrame(host, Frame(to, from, Packet(src, dst, id, Segment(src, dst, sp, dp, payload))))
      == Delivered(dp, src, sp, payload)
  {
    var seg := Segment(src, dst, sp, dp, payload);
    FrameTransparent(host, to, from, src, dst, id, seg);
    UdpRoundTrip(src, dst, sp, dp, payload);
  }

  lemma FrameTransparent(host: Host, to: Mac, from: Mac, src: Ip, dst: Ip, id: Word, seg: seq<Byte>)
    requires |seg| <= UDP_HEADER + MAX_DGRAM && Addressed(host, dst)
    ensures ProcessFrame(host, Frame(to, from, Packet(src, dst, id, seg))) == ProcessUdp(src, dst, seg)
    ensures |Frame(to, from, Packet(src, dst, id, seg))| >= MIN_FRAME
  {
    hide ProcessIp, Packet;
    var p := Packet(src, dst, id, seg);
    var f := to + from + Pack(0x0800) + p;
    var pad := Zeros(if |f| < MIN_FRAME then MIN_FRAME - |f| else 0);
    assert (f + pad)[ETH_HEADER..] == p + pad;
    IpTransparent(host, src, dst, id, seg, pad);
  }

  // ------------------------------------------------------------------------------------------
  // Corruption
  // ------------------------------------------------------------------------------------------

  /** The `k`th word as the checksum sees it. */
  function WordOf(bs: seq<Byte>, k: nat): Word
    requires 2 * k < |bs|
  {
    if 2 * k + 1 < |bs| then WordAt(bs, 2 * k) else bs[2 * k] as int * 256
  }

  /** `q` is `p` with another value for its `k`th word. */
  predicate WordReplaced(p: seq<Byte>, q: seq<Byte>, k: nat) {
    && |p| == |q| && 2 * k < |p| && WordOf(p, k) != WordOf(q, k)
    && (forall i :: 0 <= i < |p| && i != 2 * k && i != 2 * k + 1 ==> p[i] == q[i])
  }

  lemma SumSplit(bs: seq<Byte>, k: nat)
    requires 2 * k < |bs|
    ensures WordSum(bs) == WordSum(bs[..2 * k]) + WordOf(bs, k)
      + WordSum(if 2 * k + 2 <= |bs| then bs[2 * k + 2..] else [])
  {
    assert bs == bs[..2 * k] + bs[2 * k..];
    SumAppend(bs[..2 * k], bs[2 * k..]);
    var t := bs[2 * k..];
    if |t| >= 2 { assert t[2..] == bs[2 * k + 2..]; }
  }

  lemma SumReplaced(p: seq<Byte>, q: seq<Byte>, k: nat)
    requires WordReplaced(p, q, k)
    ensures WordSum(q) - WordOf(q, k) == WordSum(p) - WordOf(p, k) >= 0
  {
    SumSplit(p, k);
    SumSplit(q, k);
    assert p[..2 * k] == q[..2 * k];
    if 2 * k + 2 <= |p| { assert p[2 * k + 2..] == q[2 * k + 2..]; }
  }

  /** A segment whose payload has one word replaced is accepted exactly if 0x0000 and 0xFFFF were exchanged. */
  lemma SegmentChanged(src: Ip, dst: Ip, sp: Word, dp: Word, p: seq<Byte>, q: seq<Byte>, k: nat)
    requires |p| <= MAX_DGRAM && WordReplaced(p, q, k)
    ensures ProcessUdp(src, dst, Segment(src, dst, sp, dp, p)[..UDP_HEADER] + q) ==
      if Exchange(WordOf(p, k), WordOf(q, k)) then Delivered(dp, src, sp, q) else Dropped
  {
    hide UdpHeader, WordSum, Fold;
    var seg := Segment(src, dst, sp, dp, p);
    var head := seg[..UDP_HEADER];
    var bad := head + q;
    SegmentValid(src, dst, sp, dp, p);
    HeaderOf(src, dst, sp, dp, p);
    SumReplaced(p, q, k);
    assert seg == head + p;
    SumAppend(head, p);
    SumAppend(head, q);
    var rest := SegmentSum(src, dst, seg) - WordOf(p, k);
    assert SegmentSum(src, dst, bad) == rest + WordOf(q, k);
    WordChange(rest, WordOf(p, k), WordOf(q, k));
    assert WordAt(bad, 0) == WordAt(seg, 0) && WordAt(bad, 2) == WordAt(seg, 2) && WordAt(bad, 4) == WordAt(seg, 4);
    assert WordAt(bad, 6) == WordAt(seg, 6) && bad[..|bad|] == bad && bad[UDP_HEADER..|bad|] == q;
  }

  /** The frame with payload `p`, with `q` in its place when it arrives. */
  function Damaged(to: Mac, from: Mac, src: Ip, dst: Ip, id: Word, sp: Word, dp: Word,
                   p: seq<Byte>, q: seq<Byte>): seq<Byte>
    requires |p| == |q| <= MAX_DGRAM
  {
    Frame(to, from, Packet(src, dst, id, Segment(src, dst, sp, dp, p)[..UDP_HEADER] + q))
  }

  /** Changing one aligned word of the payload on the way makes the receiver drop the frame, unless
      0x0000 and 0xFFFF are exchanged. */
  lemma CorruptionRejected(host: Host, to: Mac, from: Mac, src: Ip, dst: Ip, id: Word, sp: Word, dp: Word,
                           p: seq<Byte>, q: seq<Byte>, k: nat)
    requires |p| <= MAX_DGRAM && Addressed(host, dst) && WordReplaced(p, q, k)
    ensures ProcessFrame(host, Damaged(to, from, src, dst, id, sp, dp, p, q)) == Dropped
      <==> !Exchange(WordOf(p, k), WordOf(q, k))
  {
    FrameTransparent(host, to, from, src, dst, id, Segment(src, dst, sp, dp, p)[..UDP_HEADER] + q);
    SegmentChanged(src, dst, sp, dp, p, q, k);
  }

  /** Wherever it happens in whatever payload, that exchange goes unnoticed: the wrong payload is delivered. */
  lemma ExchangeUnnoticed(host: Host, to: Mac, from: Mac, src: Ip, dst: Ip, id: Word, sp: Word, dp: Word,
                          p: seq<Byte>, q: seq<Byte>, k: nat)
    requires |p| <= MAX_DGRAM && Addressed(host, dst) && WordReplaced(p, q, k)
    requires Exchange(WordOf(p, k), WordOf(q, k))
    ensures ProcessFrame(host, Damaged(to, from, src, dst, id, sp, dp, p, q)) == Delivered(dp, src, sp, q)
  {
    FrameTransparent(host, to, from, src, dst, id, Segment(src, dst, sp, dp, p)[..UDP_HEADER] + q);
    SegmentChanged(src, dst, sp, dp, p, q, k);
  }

  // ------------------------------------------------------------------------------------------
  // Formats and addresses
  // ------------------------------------------------------------------------------------------

  /** A segment on the wire, byte by byte (RFC 768). */
  lemma SegmentBytes(src: Ip, dst: Ip, sp: Word, dp: Word, payload: seq<Byte>)
    requires |payload| <= MAX_DGRAM
    ensures var seg := Segment(src, dst, sp, dp, payload);
      && seg[0] == sp / 256 && seg[1] == sp % 256 && seg[2] == dp / 256 && seg[3] == dp % 256
      && seg[4] == (|payload| + 8) / 256 && seg[5] == (|payload| + 8) % 256 && seg[8..] == payload
  {
  }

  /** A packet on the wire (section 3.1 of RFC 791): no options, not to be fragmented, protocol 17. */
  lemma PacketBytes(src: Ip, dst: Ip, id: Word, seg: seq<Byte>)
    requires |seg| <= UDP_HEADER + MAX_DGRAM
    ensures var p := Packet(src, dst, id, seg);
      && |p| == 20 + |seg| && p[0] == 0x45 && p[1] == 0 && p[2] == |p| / 256 && p[3] == |p| % 256
      && p[4] == id / 256 && p[5] == id % 256 && p[6] == 0x40 && p[7] == 0 && p[8] == 64 && p[9] == 17
      && p[12..16] == src && p[16..20] == dst && p[20..] == seg
  {
  }

  /** A frame on the wire: addresses, the type 0x0800, the packet, and zeros up to 60 bytes. */
  lemma FrameBytes(to: Mac, from: Mac, packet: seq<Byte>)
    ensures var f := Frame(to, from, packet);
      && |f| == (if 14 + |packet| < 60 then 60 else 14 + |packet|)
      && f[..6] == to && f[6..12] == from && f[12] == 0x08 && f[13] == 0x00 && f[14..14 + |packet|] == packet
      && forall k :: 14 + |packet| <= k < |f| ==> f[k] == 0
  {
  }

  /** The sum is that of the segment behind the pseudo-header of RFC 768: both addresses, a zero byte, the
      protocol number and the length. */
  lemma PseudoHeader(src: Ip, dst: Ip, seg: seq<Byte>)
    requires |seg| < 65536
    ensures SegmentSum(src, dst, seg) ==
      WordSum(src + dst + [0, 17] + [(|seg| / 256) as Byte, (|seg| % 256) as Byte] + seg)
  {
    var tail: seq<Byte> := [0, 17] + [(|seg| / 256) as Byte, (|seg| % 256) as Byte];
    SumAppend(src + dst + tail, seg);
    SumAppend(src + dst, tail);
    SumAppend(src, dst);
    FourBytes(src);
    FourBytes(dst);
    FourBytes(tail);
    assert src + dst + [0, 17] + [(|seg| / 256) as Byte, (|seg| % 256) as Byte] == src + dst + tail;
  }

  lemma FourBytes(bs: seq<Byte>)
    requires |bs| == 4
    ensures WordSum(bs) == WordAt(bs, 0) + WordAt(bs, 2)
  {
    var cs := bs[2..];
    assert |cs| == 2 && cs[2..] == [] && cs[0] == bs[2] && cs[1] == bs[3];
    assert WordSum(cs) == WordAt(cs, 0) + WordSum(cs[2..]);
    assert WordSum(bs) == WordAt(bs, 0) + WordSum(cs);
  }

  /** What the addresses contribute to the sum. */
  function AddressSum(src: Ip, dst: Ip): nat {
    (src[0] as int + src[2] + dst[0] + dst[2]) * 256 + (src[1] as int + src[3] + dst[1] + dst[3])
  }

  /** A segment that is valid between two addresses is valid between two others if and only if their sums
      differ by a multiple of 65535. */
  lemma OtherAddresses(src: Ip, dst: Ip, src': Ip, dst': Ip, seg: seq<Byte>)
    requires UdpValid(src, dst, seg)
    ensures UdpValid(src', dst', seg) <==> AddressSum(src, dst) % 65535 == AddressSum(src', dst') % 65535
  {
    var x, y := SegmentSum(src, dst, seg), SegmentSum(src', dst', seg);
    var a, b := AddressSum(src, dst), AddressSum(src', dst');
    ValidIff(x);
    ValidIff(y);
    assert y - b == x - a && x >= a && y > 0;
    SameResidue(x, a, y, b);
  }

  lemma SameResidue(x: nat, a: nat, y: nat, b: nat)
    requires x >= a && y >= b && x - a == y - b && x % 65535 == 0
    ensures y % 65535 == 0 <==> a % 65535 == b % 65535
  {
    var k, l := x / 65535, y / 65535;
    assert x == 65535 * k && y == 65535 * l + y % 65535;
    if y % 65535 == 0 {
      assert b - a == 65535 * (l - k);
      Steps(a, b, l - k);
    }
    if a % 65535 == b % 65535 {
      var q := b / 65535 - a / 65535;
      assert b - a == 65535 * q;
      assert y == 65535 * (k + q);
    }
  }

  lemma Steps(a: nat, b: nat, q: int)
    requires b - a == 65535 * q
    ensures a % 65535 == b % 65535
  {
    if q >= 0 { Shifted(b, q); } else { Shifted(a, -q); }
  }

  /** A segment that arrives under a header with other addresses, whose own checksum is right, is dropped
      unless the two pairs of addresses cannot be told apart by a one's-complement sum. */
  lemma Misdelivered(host: Host, src: Ip, dst: Ip, src': Ip, dst': Ip, id: Word, sp: Word, dp: Word, payload: seq<Byte>,
                     pad: seq<Byte>)
    requires |payload| <= MAX_DGRAM && Addressed(host, dst')
    ensures ProcessIp(host, Packet(src', dst', id, Segment(src, dst, sp, dp, payload)) + pad) ==
      if AddressSum(src, dst) % 65535 != AddressSum(src', dst') % 65535 then Dropped
      else Delivered(dp, src', sp, payload)
  {
    hide SegmentSum, UdpHeader, Packet, ProcessIp;
    var seg := Segment(src, dst, sp, dp, payload);
    IpTransparent(host, src', dst', id, seg, pad);
    SegmentValid(src, dst, sp, dp, payload);
    HeaderOf(src, dst, sp, dp, payload);
    OtherAddresses(src, dst, src', dst', seg);
    assert seg[..|seg|] == seg && seg[UDP_HEADER..|seg|] == payload;
  }

  /** Whatever is delivered came in a packet of version 4 with a whole header of five words or more, a
      correct header checksum, no fragment of a larger one, for this host, and with protocol 17. */
  lemma DeliveredMeans(host: Host, d: seq<Byte>)
    requires ProcessIp(host, d).Delivered?
    ensures |d| >= 20 && d[0] / 16 == 4 && 5 <= d[0] % 16 && d[0] % 16 * 4 <= d[2] as int * 256 + d[3] <= |d|
    ensures WordSum(d[..d[0] % 16 * 4]) % 65535 == 0
    ensures d[6] % 64 == 0 && d[7] == 0
    ensures host.configured ==> d[16..20] == host.ip || d[16..20] == [255, 255, 255, 255]
    ensures d[9] == 17 && ProcessIp(host, d).src == d[12..16]
  {
    hide Fold, WordSum, ProcessUdp;
    var ihl := d[0] % 16 * 4;
    var h := d[..ihl];
    assert WordAt(d, 10) == Complement(Fold(WordSum(h[10 := 0][11 := 0]))) && WordAt(h, 10) == WordAt(d, 10);
    ClearedSum(h);
    FoldMod(WordSum(h[10 := 0][11 := 0]));
    var sum, w := WordSum(h[10 := 0][11 := 0]), WordAt(h, 10);
    SumMod(sum, Fold(sum), w);
    assert (Fold(sum) + w) % 65535 == 0;
    assert WordAt(d, 6) == d[6] as int * 256 + d[7];
    UdpSource(d[12..16], d[16..20], d[ihl..WordAt(d, 2)]);
  }

  lemma UdpSource(src: Ip, dst: Ip, u: seq<Byte>)
    ensures ProcessUdp(src, dst, u).Delivered? ==> ProcessUdp(src, dst, u).src == src
  {
  }

  /** Clearing the checksum field takes its value out of the sum. */
  lemma ClearedSum(h: seq<Byte>)
    requires |h| >= 20
    ensures WordSum(h) == WordSum(h[10 := 0][11 := 0]) + WordAt(h, 10)
  {
    var z := h[10 := 0][11 := 0];
    SumSplit(h, 5);
    SumSplit(z, 5);
    assert h[..10] == z[..10] && h[12..] == z[12..] && WordOf(z, 5) == 0;
  }

  /** So a fragment is dropped, and so is a packet for another host. */
  lemma FragmentDropped(host: Host, d: seq<Byte>)
    requires |d| >= 20 && (d[6] % 64 != 0 || d[7] != 0)
    ensures ProcessIp(host, d) == Dropped
  {
    if ProcessIp(host, d).Delivered? { DeliveredMeans(host, d); }
  }

  lemma ForeignDropped(host: Host, d: seq<Byte>)
    requires |d| >= 20 && host.configured && d[16..20] != host.ip && d[16..20] != [255, 255, 255, 255]
    ensures ProcessIp(host, d) == Dropped
  {
    if ProcessIp(host, d).Delivered? { DeliveredMeans(host, d); }
  }

  // ------------------------------------------------------------------------------------------
  // The code
  // ------------------------------------------------------------------------------------------

  /** `udp_checksum`. */
  method UdpChecksum(src: Ip, dst: Ip, seg: seq<Byte>) returns (c: Word)
    requires |seg| < 65536
    ensures c == Complement(Fold(SegmentSum(src, dst, seg)))
  {
    var sum := WordAt(src, 0) as int + WordAt(src, 2) + WordAt(dst, 0) + WordAt(dst, 2);
    sum := sum + UDP as int + |seg|;
    sum := AddWords(sum, seg);
    var f := FoldCarries(sum);
    c := 65535 - f;
  }

  /** A 16-bit field written in network byte order. */
  function Put16(bs: seq<Byte>, i: nat, w: Word): (r: seq<Byte>)
    requires i + 1 < |bs|
    ensures |r| == |bs| && WordAt(r, i) == w
    ensures forall k :: 0 <= k < |bs| && k != i && k != i + 1 ==> r[k] == bs[k]
  {
    bs[i := Hi(w)][i + 1 := Lo(w)]
  }

  /** The segment that `udp_send` fills in. */
  method BuildSegment(src: Ip, dst: Ip, sp: Word, dp: Word, payload: seq<Byte>) returns (seg: seq<Byte>)
    requires |payload| <= MAX_DGRAM
    ensures seg == Segment(src, dst, sp, dp, payload)
  {
    seg := Zeros(UDP_HEADER) + payload;
    seg := Put16(seg, 0, sp);
    seg := Put16(seg, 2, dp);
    seg := Put16(seg, 4, UDP_HEADER + |payload|);
    assert seg == UdpHeader(sp, dp, UDP_HEADER + |payload|, 0) + payload;
    var c := UdpChecksum(src, dst, seg);
    seg := Put16(seg, 6, if c == 0 then 0xFFFF else c);
  }

  /** The frame that `ipv4_send_packet` fills in. */
  method BuildFrame(to: Mac, from: Mac, src: Ip, dst: Ip, id: Word, seg: seq<Byte>) returns (f: seq<Byte>)
    requires |seg| <= UDP_HEADER + MAX_DGRAM
    ensures f == Frame(to, from, Packet(src, dst, id, seg))
  {
    var total := IP_HEADER + |seg|;
    var h := [0x45, 0] + Zeros(6) + [64, UDP, 0, 0] + src + dst;
    h := Put16(h, 2, total);
    h := Put16(h, 4, id);
    h := Put16(h, 6, 0x4000);
    assert h == IpHeader(total, id, src, dst, 0);
    var c := Ipv4Checksum(h);
    h := Put16(h, 10, c);
    assert h == IpHeader(total, id, src, dst, c);
    var n := ETH_HEADER + total;
    f := to + from + Pack(0x0800) + (h + seg);
    if n < MIN_FRAME { f := f + Zeros(MIN_FRAME - n); } else { assert f == f + Zeros(0); }
  }

  /** `ipv4_process_packet` and `udp_process_packet`; the checksum fields are cleared and restored
      while the sums are computed. */
  method ReceivePacket(host: Host, d: seq<Byte>) returns (r: Outcome)
    requires |d| < 65536
    ensures r == ProcessIp(host, d)
  {
    if Malformed(d) { return Dropped; }
    var ihl := d[0] % 16 * 4;
    var received := WordAt(d, 10);
    var cleared := d[..ihl][10 := 0][11 := 0];
    var computed := Ipv4Checksum(cleared);
    if received != computed { return Dropped; }
    if WordAt(d, 6) % 0x4000 != 0 { return Dropped; }
    if !Addressed(host, d[16..20]) { return Dropped; }
    if d[9] != UDP { return Dropped; }
    r := ReceiveUdp(d[12..16], d[16..20], d[ihl..WordAt(d, 2)]);
  }

  method ReceiveUdp(src: Ip, dst: Ip, u: seq<Byte>) returns (r: Outcome)
    requires |u| < 65536
    ensures r == ProcessUdp(src, dst, u)
  {
    if |u| < UDP_HEADER { return Dropped; }
    var len := WordAt(u, 4);
    if len < UDP_HEADER || len > |u| { return Dropped; }
    if WordAt(u, 6) != 0 {
      var c := UdpChecksum(src, dst, u[..len]);
      if c != 0 { return Dropped; }
    }
    return Delivered(WordAt(u, 2), src, WordAt(u, 0), u[UDP_HEADER..len]);
  }

  // ------------------------------------------------------------------------------------------
  // The queue of a bound port
  // ------------------------------------------------------------------------------------------

  const MAX_QUEUE := 16

  /** What a slot of the queue has room for. */
  type Payload = s: seq<Byte> | |s| <= MAX_DGRAM

  datatype Datagram = Datagram(src: Ip, srcPort: Word, payload: Payload)

  /** `udp_user_server_t`: a ring of sixteen datagrams. */
  class Server {
    const port: Word
    var queue: array<Datagram>
    var head: nat
    var count: nat

    ghost predicate Valid()
      reads this
    {
      queue.Length == MAX_QUEUE && head < MAX_QUEUE && count <= MAX_QUEUE
    }

    /** The slot that lies `k` places after the head. */
    function At(k: nat): (i: nat)
      requires head < MAX_QUEUE && k <= MAX_QUEUE
      reads this
      ensures i == (head + k) % MAX_QUEUE
    {
      if head + k < MAX_QUEUE then head + k else head + k - MAX_QUEUE
    }

    ghost function Contents(): (c: seq<Datagram>)
      requires Valid()
      reads this, queue
      ensures |c| == count && forall k :: 0 <= k < count ==> c[k] == queue[At(k)]
    {
      seq(count, k requires 0 <= k < count && Valid() reads this, queue => queue[At(k)])
    }

    /** `udp_server_bind`: an empty queue. */
    constructor (port: Word)
      ensures Valid() && Contents() == [] && this.port == port && fresh(queue)
    {
      this.port, head, count := port, 0, 0;
      queue := new Datagram[MAX_QUEUE](_ => Datagram([0, 0, 0, 0], 0, []));
    }

    /** `udp_server_enqueue`: with sixteen waiting, what arrives is lost. */
    method Enqueue(d: Datagram)
      requires Valid()
      modifies this`count, queue
      ensures Valid()
      ensures Contents() == if old(count) < MAX_QUEUE then old(Contents()) + [d] else old(Contents())
    {
      if count >= MAX_QUEUE { return; }
      ghost var c := Contents();
      var slot := (head + count) % MAX_QUEUE;
      assert slot == At(count);
      queue[slot] := d;
      count := count + 1;
      assert Contents() == c + [d];
    }

    /** `udp_server_recv`: the oldest datagram, cut to the caller's buffer. */
    method Recv(max: nat) returns (ok: bool, d: Datagram)
      requires Valid()
      modifies this`head, this`count
      ensures Valid() && ok == (old(count) > 0)
      ensures !ok ==> Contents() == old(Contents())
      ensures ok ==> Contents() == old(Contents())[1..]
      ensures ok ==> d == old(Contents())[0].(payload := Take(old(Contents())[0].payload, max))
    {
      d := Datagram([0, 0, 0, 0], 0, []);
      if count == 0 { return false, d; }
      ghost var c := Contents();
      assert At(0) == head;
      d := queue[head];
      d := d.(payload := Take(d.payload, max));
      head := (head + 1) % MAX_QUEUE;
      count := count - 1;
      assert Contents() == c[1..];
      return true, d;
    }
  }

  /** `eth_process_packet` on a host where `server` is bound. A payload that came in an Ethernet frame
      fits its slot. */
  method ReceiveFrame(host: Host, f: seq<Byte>, server: Server) returns (r: Outcome)
    requires |f| <= MAX_FRAME && server.Valid()
    modifies server`count, server.queue
    ensures r == ProcessFrame(host, f) && server.Valid() && (r.Delivered? ==> |r.payload| <= MAX_DGRAM)
    ensures server.Contents() ==
      if r.Delivered? && r.port == server.port && |old(server.Contents())| < MAX_QUEUE
      then old(server.Contents()) + [Datagram(r.src, r.srcPort, r.payload)] else old(server.Contents())
  {
    if |f| < ETH_HEADER || WordAt(f, 12) != 0x0800 { return Dropped; }
    r := ReceivePacket(host, f[ETH_HEADER..]);
    if r.Delivered? && r.port == server.port {
      server.Enqueue(Datagram(r.src, r.srcPort, r.payload));
    }
  }

  /** A datagram sent to a bound port with room in its queue is queued there with its source. */
  method SendAndReceive(host: Host, to: Mac, from: Mac, src: Ip, dst: Ip, id: Word, sp: Word, payload: seq<Byte>,
                        server: Server)
    requires |payload| <= MAX_DGRAM && Addressed(host, dst) && server.Valid() && server.count < MAX_QUEUE
    modifies server`count, server.queue
    ensures server.Valid() && server.Contents() == old(server.Contents()) + [Datagram(src, sp, payload)]
  {
    var seg := BuildSegment(src, dst, sp, server.port, payload);
    var f := BuildFrame(to, from, src, dst, id, seg);
    RoundTrip(host, to, from, src, dst, id, sp, server.port, payload);
    FrameSize(to, from, src, dst, id, seg);
    var r := ReceiveFrame(host, f, server);
  }

  lemma FrameSize(to: Mac, from: Mac, src: Ip, dst: Ip, id: Word, seg: seq<Byte>)
    requires |seg| <= UDP_HEADER + MAX_DGRAM
    ensures MIN_FRAME <= |Frame(to, from, Packet(src, dst, id, seg))| <= MAX_FRAME
  {
  }
}
