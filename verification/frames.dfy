/**
  The frame builders and the TCP parser of inc/pkthlp.h.

  A builder writes an Ethernet frame into a caller's buffer: link header, IP header and
  transport segment, each checksum computed over the bytes already in the buffer. The
  receiver that the frames must satisfy (`Accepts`) is defined from the frame's bytes alone.
 */
module Frames {
  import opened Bytes
  import opened Checksum

  datatype Family = Ipv4 | Ipv6

  const ETHERNET_LENGTH := 14
  const UDP_LENGTH := 8
  const TCP_LENGTH := 20
  const TCP_MAX_OPTIONS := 40
  const PROTO_ICMP: byte := 1
  const PROTO_TCP: byte := 6
  const PROTO_UDP: byte := 17
  const PROTO_ICMPV6: byte := 58
  const TYPE_IPV4: u16 := 0x0800
  const TYPE_IPV6: u16 := 0x86DD

  function IpLength(f: Family): nat {
    if f == Ipv4 then 20 else 40
  }

  function AddressLength(f: Family): nat {
    if f == Ipv4 then 4 else 16
  }

  /** The addresses every builder takes. */
  datatype Route = Route(ethDst: seq<byte>, ethSrc: seq<byte>, family: Family, ipDst: seq<byte>, ipSrc: seq<byte>) {
    predicate Valid() {
      && |ethDst| == |ethSrc| == 6
      && |ipDst| == |ipSrc| == AddressLength(family)
    }

    /** Offset of the transport segment. */
    function Start(): nat {
      ETHERNET_LENGTH + IpLength(family)
    }
  }

  // ---------------------------------------------------------------- layout

  function Ethernet(r: Route): (s: seq<byte>)
    requires r.Valid()
    ensures |s| == ETHERNET_LENGTH
  {
    r.ethDst + r.ethSrc + Be16(if r.family == Ipv4 then TYPE_IPV4 else TYPE_IPV6)
  }

  /** The ten bytes before the IPv4 checksum field; the length field is stored modulo 2^16. */
  function Ip4Front(length: nat, proto: byte): (s: seq<byte>)
    ensures |s| == 10
  {
    [0x45, 0] + Be16((20 + length) % 0x1_0000) + [0, 0, 0, 0, 1, proto]
  }

  function Ip4Header(length: nat, proto: byte, src: seq<byte>, dst: seq<byte>): (s: seq<byte>)
    requires |src| == |dst| == 4
    ensures |s| == 20
  {
    Ip4Front(length, proto) + Le16(Seal(Ip4Front(length, proto), 0, src + dst)) + (src + dst)
  }

  function Ip6Header(length: nat, proto: byte, src: seq<byte>, dst: seq<byte>): (s: seq<byte>)
    requires |src| == |dst| == 16
    ensures |s| == 40
  {
    [0x60, 0, 0, 0] + Be16(length % 0x1_0000) + [proto, 1] + (src + dst)
  }

  function IpHeader(r: Route, length: nat, proto: byte): (s: seq<byte>)
    requires r.Valid()
    ensures |s| == IpLength(r.family)
  {
    if r.family == Ipv4 then Ip4Header(length, proto, r.ipSrc, r.ipDst)
    else Ip6Header(length, proto, r.ipSrc, r.ipDst)
  }

  /** The pseudo-header of RFC 768 and section 3.1 of RFC 9293 (IPv4) or section 8.1 of RFC 8200 (IPv6). */
  function PseudoHeader(f: Family, addresses: seq<byte>, length: u16, proto: byte): (s: seq<byte>)
    ensures |s| == |addresses| + if f == Ipv4 then 4 else 8
  {
    addresses + PseudoTail(f, length, proto)
  }

  function PseudoTail(f: Family, length: u16, proto: byte): (s: seq<byte>)
    ensures |s| == if f == Ipv4 then 4 else 8
  {
    if f == Ipv4 then [0, proto] + Be16(length) else [0, 0] + Be16(length) + [0, 0, 0, proto]
  }

  function PseudoWords(f: Family): nat {
    if f == Ipv4 then 6 else 20
  }

  function Pseudo(r: Route, length: u16, proto: byte): (s: seq<byte>)
    requires r.Valid()
    ensures |s| == 2 * PseudoWords(r.family)
  {
    PseudoHeader(r.family, r.ipSrc + r.ipDst, length, proto)
  }

  // ---------------------------------------------------------------- the receiver

  /** Receiver for an IPv4 frame: header sum, length field, transport sum (ICMP has no pseudo-header). */
  predicate Accepts4(frame: seq<byte>) {
    && |frame| >= 34
    && Verifies(frame[14..34])
    && 20 <= ReadBe16(frame, 16) && 14 + ReadBe16(frame, 16) <= |frame|
    && (var total := ReadBe16(frame, 16);
        var body := frame[34..14 + total];
        if frame[23] == PROTO_ICMP then Verifies(body)
        else Verifies(PseudoHeader(Ipv4, frame[26..34], total - 20, frame[23]) + body))
  }

  /** Receiver for an IPv6 frame; a UDP checksum field of zero is refused. */
  predicate Accepts6(frame: seq<byte>) {
    && |frame| >= 54
    && 54 + ReadBe16(frame, 18) <= |frame|
    && (var body := frame[54..54 + ReadBe16(frame, 18)];
        && Verifies(PseudoHeader(Ipv6, frame[22..54], |body|, frame[20]) + body)
        && (frame[20] == PROTO_UDP ==> |body| >= 8 && body[6..8] != [0, 0]))
  }

  predicate Accepts(frame: seq<byte>) {
    && |frame| >= ETHERNET_LENGTH
    && (ReadBe16(frame, 12) == TYPE_IPV4 ==> Accepts4(frame))
    && (ReadBe16(frame, 12) == TYPE_IPV6 ==> Accepts6(frame))
    && ReadBe16(frame, 12) in {TYPE_IPV4, TYPE_IPV6}
  }

  // ---------------------------------------------------------------- IP level lemmas

  function IpFrame(r: Route, proto: byte, length: nat, segment: seq<byte>): (s: seq<byte>)
    requires r.Valid()
    ensures |s| == r.Start() + |segment|
  {
    Ethernet(r) + IpHeader(r, length, proto) + segment
  }

  /** What can be read off a frame that carries `segment` behind the IP header for `r`. */
  predicate Carries(f: seq<byte>, r: Route, proto: byte, length: nat, segment: seq<byte>)
    requires r.Valid()
  {
    && |f| == r.Start() + |segment| && f[r.Start()..] == segment
    && ReadBe16(f, 12) == (if r.family == Ipv4 then TYPE_IPV4 else TYPE_IPV6)
    && (r.family == Ipv4 ==>
          && ReadBe16(f, 16) == (20 + length) % 0x1_0000
          && f[23] == proto
          && f[26..34] == r.ipSrc + r.ipDst
          && Verifies(f[14..34]))
    && (r.family == Ipv6 ==>
          && ReadBe16(f, 18) == length % 0x1_0000
          && f[20] == proto
          && f[22..54] == r.ipSrc + r.ipDst)
  }

  lemma Ip4HeaderVerifies(length: nat, proto: byte, src: seq<byte>, dst: seq<byte>)
    requires |src| == |dst| == 4
    ensures Verifies(Ip4Header(length, proto, src, dst))
  {
    var front, back := Ip4Front(length, proto), src + dst;
    SealVerifies([], front, 0, back, Seal(front, 0, back), 0, 5);
    assert [] + Ip4Header(length, proto, src, dst) == Ip4Header(length, proto, src, dst);
  }

  lemma IpFrameCarries(r: Route, proto: byte, length: nat, segment: seq<byte>)
    requires r.Valid()
    ensures Carries(IpFrame(r, proto, length, segment), r, proto, length, segment)
  {
    var f := IpFrame(r, proto, length, segment);
    var ip := IpHeader(r, length, proto);
    assert f[12..14] == Be16(if r.family == Ipv4 then TYPE_IPV4 else TYPE_IPV6);
    assert f[12] == f[12..14][0] && f[13] == f[12..14][1];
    assert f[14..r.Start()] == ip;
    if r.family == Ipv4 {
      assert f[16] == ip[2] && f[17] == ip[3] && f[23] == ip[9];
      assert f[26..34] == ip[12..20];
      Ip4HeaderVerifies(length, proto, r.ipSrc, r.ipDst);
    } else {
      assert f[18] == ip[4] && f[19] == ip[5] && f[20] == ip[6];
      assert f[22..54] == ip[8..40];
    }
  }

  lemma FrameCarries(f: seq<byte>, r: Route, proto: byte, length: nat, segment: seq<byte>)
    requires r.Valid() && f == IpFrame(r, proto, length, segment)
    ensures Carries(f, r, proto, length, segment)
  {
    IpFrameCarries(r, proto, length, segment);
  }

  /** Whether the 16-bit length field of the IP header can hold the segment's length. */
  predicate Fits(f: Family, length: nat) {
    length <= (if f == Ipv4 then MAX_U16 - 20 else MAX_U16)
  }

  lemma Truncated(n: nat)
    ensures n % 0x1_0000 == n <==> n <= MAX_U16
  {}

  lemma CutTwice(n: nat, length: u16)
    requires length == n % 0x1_0000
    ensures (20 + length) % 0x1_0000 == 20 + n <==> Fits(Ipv4, n)
    ensures length % 0x1_0000 == n <==> Fits(Ipv6, n)
  {
  }

  /** The builders' overflow guard. Its operands are promoted to `int`. */
  predicate GuardFires(length: u16) {
    length + 20 < length
  }

  /** The length field of the IP header describes a segment of this length. */
  predicate Describes(r: Route, f: seq<byte>, length: nat)
    requires r.Valid() && |f| >= r.Start()
  {
    if r.family == Ipv4 then ReadBe16(f, 16) == 20 + length else ReadBe16(f, 18) == length
  }

  /** With the segment's length cut to 16 bits, the header's length field describes the segment exactly when
      nothing was cut. */
  lemma LengthFieldIsRight(r: Route, proto: byte, length: u16, segment: seq<byte>)
    requires r.Valid() && length == |segment| % 0x1_0000
    ensures Describes(r, IpFrame(r, proto, length, segment), |segment|) <==> Fits(r.family, |segment|)
    ensures !GuardFires(length)
  {
    CutTwice(|segment|, length);
    IpFrameCarries(r, proto, length, segment);
  }

  /** What a receiver needs of a segment for the whole frame to be accepted. */
  predicate SegmentSound(r: Route, proto: byte, segment: seq<byte>)
    requires r.Valid()
  {
    && Fits(r.family, |segment|)
    && (if r.family == Ipv4 && proto == PROTO_ICMP then Verifies(segment)
        else Verifies(Pseudo(r, |segment|, proto) + segment))
    && (r.family == Ipv6 && proto == PROTO_UDP ==> |segment| >= 8 && segment[6..8] != [0, 0])
  }

  lemma SoundSegmentAccepted(f: seq<byte>, r: Route, proto: byte, segment: seq<byte>)
    requires r.Valid() && SegmentSound(r, proto, segment)
    requires Carries(f, r, proto, |segment|, segment)
    ensures Accepts(f)
  {
    Truncated(20 + |segment|);
    Truncated(|segment|);
    if r.family == Ipv4 {
      assert f[34..14 + ReadBe16(f, 16)] == segment;
    } else {
      assert f[54..54 + ReadBe16(f, 18)] == segment;
    }
  }

  lemma IpFrameAccepted(r: Route, proto: byte, length: nat, segment: seq<byte>)
    requires r.Valid() && SegmentSound(r, proto, segment) && length == |segment|
    ensures Accepts(IpFrame(r, proto, length, segment))
  {
    IpFrameCarries(r, proto, length, segment);
    SoundSegmentAccepted(IpFrame(r, proto, length, segment), r, proto, segment);
  }

  lemma SoundFrameAccepted(f: seq<byte>, r: Route, proto: byte, length: nat, segment: seq<byte>)
    requires r.Valid() && SegmentSound(r, proto, segment) && length == |segment| && f == IpFrame(r, proto, length, segment)
    ensures Accepts(f)
  {
    IpFrameAccepted(r, proto, length, segment);
  }

  // ---------------------------------------------------------------- transport segments

  /** A segment as the UDP and TCP builders leave it: the stored sum is taken over the first
      `length` bytes while the field holds the pseudo-header sum. */
  function StoredSum(r: Route, proto: byte, front: seq<byte>, back: seq<byte>): u16
    requires r.Valid()
  {
    var length := (|front| + 2 + |back|) % 0x1_0000;
    var sum := 0xFFFF - OnesSum((front + Le16(OnesSum(Pseudo(r, length, proto))) + back)[..length]);
    if sum == 0 && proto == PROTO_UDP && r.family == Ipv6 then 0xFFFF else sum
  }

  function SegmentWith(front: seq<byte>, sum: u16, back: seq<byte>): (s: seq<byte>)
    ensures |s| == |front| + 2 + |back|
  {
    front + Le16(sum) + back
  }

  function Segment(r: Route, proto: byte, front: seq<byte>, back: seq<byte>): (s: seq<byte>)
    requires r.Valid()
    ensures |s| == |front| + 2 + |back|
  {
    SegmentWith(front, StoredSum(r, proto, front, back), back)
  }

  /** While the length fits, the sum is taken over the whole segment. */
  lemma StoredIsSeal(r: Route, proto: byte, front: seq<byte>, back: seq<byte>, length: nat)
    requires r.Valid() && length == |front| + 2 + |back| <= MAX_U16
    ensures var seal := Seal(front, OnesSum(Pseudo(r, length, proto)), back);
      StoredSum(r, proto, front, back) == if seal == 0 && proto == PROTO_UDP && r.family == Ipv6 then 0xFFFF else seal
  {
    var whole := front + Le16(OnesSum(Pseudo(r, length, proto))) + back;
    assert whole[..length] == whole;
  }

  lemma StoredField(front: seq<byte>, sum: u16, back: seq<byte>)
    requires |front| == 6 && sum != 0
    ensures SegmentWith(front, sum, back)[6..8] != [0, 0]
  {
    var s := SegmentWith(front, sum, back);
    assert s[6..8] == Le16(sum);
    assert sum == sum % 256 + 256 * (sum / 256);
    assert s[6..8][0] == sum % 256 && s[6..8][1] == sum / 256;
  }

  lemma SegmentIsSound(r: Route, proto: byte, front: seq<byte>, back: seq<byte>)
    requires r.Valid() && Fits(r.family, |front| + 2 + |back|)
    requires (proto == PROTO_TCP && |front| == 16) || (proto == PROTO_UDP && |front| == 6)
    ensures SegmentSound(r, proto, Segment(r, proto, front, back))
  {
    var length := |front| + 2 + |back|;
    var pseudo := Pseudo(r, length, proto);
    var stored := StoredSum(r, proto, front, back);
    StoredIsSeal(r, proto, front, back, length);
    SealVerifies(pseudo, front, OnesSum(pseudo), back, stored, PseudoWords(r.family), if proto == PROTO_TCP then 8 else 3);
    if proto == PROTO_UDP && r.family == Ipv6 {
      StoredField(front, stored, back);
    }
  }

  lemma TransportAccepted(r: Route, proto: byte, front: seq<byte>, back: seq<byte>, length: nat)
    requires r.Valid() && length == |front| + 2 + |back| && Fits(r.family, length)
    requires (proto == PROTO_TCP && |front| == 16) || (proto == PROTO_UDP && |front| == 6)
    ensures Accepts(IpFrame(r, proto, length % 0x1_0000, Segment(r, proto, front, back)))
  {
    SegmentIsSound(r, proto, front, back);
    Truncated(length);
    IpFrameAccepted(r, proto, length, Segment(r, proto, front, back));
  }

  // ---------------------------------------------------------------- UDP

  function UdpFront(portDst: u16, portSrc: u16, length: nat): (s: seq<byte>)
    ensures |s| == 6
  {
    Le16(portSrc) + Le16(portDst) + Be16((UDP_LENGTH + length) % 0x1_0000)
  }

  function UdpFrame(r: Route, portDst: u16, portSrc: u16, payload: seq<byte>): (s: seq<byte>)
    requires r.Valid()
    ensures |s| == r.Start() + UDP_LENGTH + |payload|
  {
    IpFrame(r, PROTO_UDP, (UDP_LENGTH + |payload|) % 0x1_0000,
            Segment(r, PROTO_UDP, UdpFront(portDst, portSrc, |payload|), payload))
  }

  /** The length guard of the UDP builder never fires, so its IP length field is right exactly when the
      datagram fits. */
  lemma UdpLengthIsRightIff(r: Route, portDst: u16, portSrc: u16, payload: seq<byte>)
    requires r.Valid()
    ensures Describes(r, UdpFrame(r, portDst, portSrc, payload), UDP_LENGTH + |payload|) <==> Fits(r.family, UDP_LENGTH + |payload|)
    ensures !GuardFires((UDP_LENGTH + |payload|) % 0x1_0000)
  {
    LengthFieldIsRight(r, PROTO_UDP, (UDP_LENGTH + |payload|) % 0x1_0000,
                       Segment(r, PROTO_UDP, UdpFront(portDst, portSrc, |payload|), payload));
  }

  /** The longest payload that the builder takes: its length field is wrong in both families. */
  lemma LengthFieldWraps(r: Route)
    requires r.Valid()
    ensures !Describes(r, UdpFrame(r, 0, 0, Zeros(MAX_U16)), UDP_LENGTH + MAX_U16)
  {
    UdpLengthIsRightIff(r, 0, 0, Zeros(MAX_U16));
  }

  /** Every UDP frame whose length fits passes the receiver; over IPv6 its checksum is not zero. */
  lemma UdpFrameAccepted(r: Route, portDst: u16, portSrc: u16, payload: seq<byte>)
    requires r.Valid() && Fits(r.family, UDP_LENGTH + |payload|)
    ensures Accepts(UdpFrame(r, portDst, portSrc, payload))
  {
    TransportAccepted(r, PROTO_UDP, UdpFront(portDst, portSrc, |payload|), payload, UDP_LENGTH + |payload|);
  }

  /** Over IPv4 the all-ones substitution of RFC 768 is not made: the field is zero, which a
      receiver reads as "no checksum", exactly when the data sums to all ones. */
  lemma Udp4ZeroChecksum(r: Route, portDst: u16, portSrc: u16, payload: seq<byte>)
    requires r.Valid() && r.family == Ipv4 && Fits(Ipv4, UDP_LENGTH + |payload|)
    ensures var front := UdpFront(portDst, portSrc, |payload|);
            StoredSum(r, PROTO_UDP, front, payload) == 0 <==>
            Verifies(Pseudo(r, UDP_LENGTH + |payload|, PROTO_UDP) + (front + Le16(0) + payload))
  {
    var front := UdpFront(portDst, portSrc, |payload|);
    StoredIsSeal(r, PROTO_UDP, front, payload, UDP_LENGTH + |payload|);
    ZeroSealIff(Pseudo(r, UDP_LENGTH + |payload|, PROTO_UDP), front, payload, PseudoWords(Ipv4), 3);
  }

  lemma ZeroSealIff(pseudo: seq<byte>, front: seq<byte>, back: seq<byte>, j: nat, k: nat)
    requires |pseudo| == 2 * j && |front| == 2 * k
    ensures Seal(front, OnesSum(pseudo), back) == 0 <==> Verifies(pseudo + (front + Le16(0) + back))
  {
    var placeholder, n := OnesSum(pseudo), WordSum(front) + WordSum(back);
    SealIsComplement(front, placeholder, back, k);
    SealValue(pseudo, n, placeholder);
    PacketWordSum(pseudo, front, 0, back, j, k);
    OnesSumIsRep(pseudo + (front + Le16(0) + back));
  }

  /** Such data exists: an empty datagram between zero addresses, to port 0, from a chosen port. */
  lemma Udp4ZeroChecksumExample(r: Route)
    requires r.Valid() && r.family == Ipv4 && r.ipSrc == r.ipDst == [0, 0, 0, 0]
    ensures StoredSum(r, PROTO_UDP, UdpFront(0, 0xDEFF, 0), []) == 0
  {
    var front := UdpFront(0, 0xDEFF, 0);
    var pseudo := Pseudo(r, 8, PROTO_UDP);
    assert front == [0xFF, 0xDE, 0, 0, 0, 8];
    assert pseudo == [0, 0, 0, 0, 0, 0, 0, 0, 0, 17, 0, 8];
    assert WordsFrom(pseudo, 10) == 0x800;
    assert WordsFrom(pseudo, 8) == 0x1900;
    assert WordsFrom(pseudo, 6) == WordsFrom(pseudo, 4) == WordsFrom(pseudo, 2) == WordSum(pseudo) == 0x1900;
    assert WordsFrom(front, 4) == WordsFrom(front, 2) == 0x800;
    assert WordSum(front) == 0xE6FF;
    PacketWordSum(pseudo, front, 0, [], PseudoWords(Ipv4), 3);
    OnesSumIsRep(pseudo + (front + Le16(0) + []));
    Udp4ZeroChecksum(r, 0, 0xDEFF, []);
  }

  lemma SealValue(pseudo: seq<byte>, n: nat, placeholder: u16)
    requires placeholder == OnesSum(pseudo)
    ensures Rep(placeholder + n) == Rep(WordSum(pseudo) + n)
  {
    OnesSumIsRep(pseudo);
    RepAdd(WordSum(pseudo), n);
  }

  // ---------------------------------------------------------------- TCP

  datatype TcpFields = TcpFields(portDst: u16, portSrc: u16, sequence: u32, ack: u32, flags: byte, window: u16)

  /** The sixteen bytes before the TCP checksum field. */
  function TcpFront(t: TcpFields, optionsLength: nat): (s: seq<byte>)
    requires optionsLength <= TCP_MAX_OPTIONS
    ensures |s| == 16
    ensures s[12] == (TCP_LENGTH + optionsLength) / 4 * 16
  {
    Le16(t.portSrc) + Le16(t.portDst) + Be32(t.sequence) + Be32(t.ack)
    + [(TCP_LENGTH + optionsLength) / 4 * 16, t.flags] + Be16(t.window)
  }

  function TcpFrame(r: Route, t: TcpFields, options: seq<byte>, payload: seq<byte>): (s: seq<byte>)
    requires r.Valid() && |options| <= TCP_MAX_OPTIONS
    ensures |s| == r.Start() + TCP_LENGTH + |options| + |payload|
  {
    IpFrame(r, PROTO_TCP, (TCP_LENGTH + |options| + |payload|) % 0x1_0000,
            Segment(r, PROTO_TCP, TcpFront(t, |options|), [0, 0] + options + payload))
  }

  /** The same of the TCP builder. */
  lemma TcpLengthIsRightIff(r: Route, t: TcpFields, options: seq<byte>, payload: seq<byte>)
    requires r.Valid() && |options| <= TCP_MAX_OPTIONS
    ensures var length := TCP_LENGTH + |options| + |payload|;
      && (Describes(r, TcpFrame(r, t, options, payload), length) <==> Fits(r.family, length))
      && !GuardFires(length % 0x1_0000)
  {
    LengthFieldIsRight(r, PROTO_TCP, (TCP_LENGTH + |options| + |payload|) % 0x1_0000,
                       Segment(r, PROTO_TCP, TcpFront(t, |options|), [0, 0] + options + payload));
  }

  lemma TcpFrameCarries(r: Route, t: TcpFields, options: seq<byte>, payload: seq<byte>)
    requires r.Valid() && |options| <= TCP_MAX_OPTIONS
    requires Fits(r.family, TCP_LENGTH + |options| + |payload|)
    ensures var segment := Segment(r, PROTO_TCP, TcpFront(t, |options|), [0, 0] + options + payload);
            Carries(TcpFrame(r, t, options, payload), r, PROTO_TCP, |segment|, segment)
  {
    var segment := Segment(r, PROTO_TCP, TcpFront(t, |options|), [0, 0] + options + payload);
    Truncated(|segment|);
    FrameCarries(TcpFrame(r, t, options, payload), r, PROTO_TCP, |segment|, segment);
  }

  lemma TcpFrameAccepted(r: Route, t: TcpFields, options: seq<byte>, payload: seq<byte>)
    requires r.Valid() && |options| <= TCP_MAX_OPTIONS
    requires Fits(r.family, TCP_LENGTH + |options| + |payload|)
    ensures Accepts(TcpFrame(r, t, options, payload))
  {
    var length := TCP_LENGTH + |options| + |payload|;
    var front, back := TcpFront(t, |options|), [0, 0] + options + payload;
    TransportAccepted(r, PROTO_TCP, front, back, length);
    assert TcpFrame(r, t, options, payload) == IpFrame(r, PROTO_TCP, length % 0x1_0000, Segment(r, PROTO_TCP, front, back));
  }

  // ---------------------------------------------------------------- ICMP

  /** Type, code, zeroed rest of a header of `header` bytes, payload; the checksum field sits after the code. */
  function IcmpBack(header: nat, payload: seq<byte>): (s: seq<byte>)
    requires 4 <= header
    ensures |s| == header - 4 + |payload|
  {
    Zeros(header - 4) + payload
  }

  const ICMP4_FRONT: seq<byte> := [0, 0]
  const ICMP6_FRONT: seq<byte> := [129, 0]

  function Icmp4Segment(header: nat, payload: seq<byte>): (s: seq<byte>)
    requires 4 <= header
    ensures |s| == header + |payload|
  {
    var back := IcmpBack(header, payload);
    var covered := (ICMP4_FRONT + Le16(0) + back)[..(header + |payload|) % 0x1_0000];
    ICMP4_FRONT + Le16(0xFFFF - OnesSum(covered)) + back
  }

  function Icmp4Frame(r: Route, header: nat, payload: seq<byte>): (s: seq<byte>)
    requires r.Valid() && r.family == Ipv4 && 4 <= header
    ensures |s| == r.Start() + header + |payload|
  {
    IpFrame(r, PROTO_ICMP, header + |payload|, Icmp4Segment(header, payload))
  }

  lemma Icmp4FrameAccepted(r: Route, header: nat, payload: seq<byte>)
    requires r.Valid() && r.family == Ipv4 && 4 <= header
    requires Fits(Ipv4, header + |payload|)
    ensures Accepts(Icmp4Frame(r, header, payload))
  {
    var back := IcmpBack(header, payload);
    var blank := ICMP4_FRONT + Le16(0) + back;
    var segment := Icmp4Segment(header, payload);
    Truncated(header + |payload|);
    assert blank[..header + |payload|] == blank;
    SealVerifies([], ICMP4_FRONT, 0, back, Seal(ICMP4_FRONT, 0, back), 0, 1);
    assert [] + segment == segment;
    IpFrameAccepted(r, PROTO_ICMP, header + |payload|, segment);
  }

  /** The ICMPv6 builder adds up six pieces and folds once at the end. */
  function Icmp6Pieces(r: Route, header: nat, payload: seq<byte>): (n: nat)
    requires r.Valid() && 4 <= header
  {
    OnesSum(r.ipSrc) + OnesSum(r.ipDst) + OnesSum(Be16((header + |payload|) % 0x1_0000)) + PROTO_ICMPV6 * 256
    + OnesSum(ICMP6_FRONT + Le16(0) + Zeros(header - 4)) + OnesSum(payload)
  }

  function Icmp6Segment(r: Route, header: nat, payload: seq<byte>): (s: seq<byte>)
    requires r.Valid() && 4 <= header
    ensures |s| == header + |payload|
  {
    ICMP6_FRONT + Le16(0xFFFF - Rep(Icmp6Pieces(r, header, payload))) + IcmpBack(header, payload)
  }

  function Icmp6Frame(r: Route, header: nat, payload: seq<byte>): (s: seq<byte>)
    requires r.Valid() && r.family == Ipv6 && 4 <= header
    ensures |s| == r.Start() + header + |payload|
  {
    IpFrame(r, PROTO_ICMPV6, header + |payload|, Icmp6Segment(r, header, payload))
  }

  lemma RepPieces(a: nat, b: nat, c: nat, d: nat, e: nat, f: nat)
    ensures Rep(Rep(a) + Rep(b) + Rep(c) + d + Rep(e) + Rep(f)) == Rep(a + b + c + d + e + f)
  {
    RepAdd(a, Rep(b) + Rep(c) + d + Rep(e) + Rep(f));
    RepAdd(b, a + Rep(c) + d + Rep(e) + Rep(f));
    RepAdd(c, a + b + d + Rep(e) + Rep(f));
    RepAdd(e, a + b + c + d + Rep(f));
    RepAdd(f, a + b + c + d + e);
  }

  lemma PseudoTailWordSum(f: Family, length: u16, proto: byte)
    ensures WordSum(PseudoTail(f, length, proto)) == WordSum(Be16(length)) + proto * 256
  {
    var tail := PseudoTail(f, length, proto);
    assert WordSum(Be16(length)) == Word(length / 256, length % 256) + WordsFrom(Be16(length), 2);
    assert WordSum(tail) == Word(tail[0], tail[1]) + WordsFrom(tail, 2);
    assert WordsFrom(tail, 2) == Word(tail[2], tail[3]) + WordsFrom(tail, 4);
    if f == Ipv6 {
      assert WordsFrom(tail, 4) == Word(tail[4], tail[5]) + WordsFrom(tail, 6);
      assert WordsFrom(tail, 6) == Word(tail[6], tail[7]) + WordsFrom(tail, 8);
    }
  }

  lemma PseudoWordSum(f: Family, src: seq<byte>, dst: seq<byte>, length: u16, proto: byte)
    requires |src| == |dst| == AddressLength(f)
    ensures WordSum(PseudoHeader(f, src + dst, length, proto))
            == WordSum(src) + WordSum(dst) + WordSum(Be16(length)) + proto * 256
  {
    WordSumConcat(src, dst, AddressLength(f) / 2);
    PseudoTailWordSum(f, length, proto);
    WordSumConcat(src + dst, PseudoTail(f, length, proto), AddressLength(f));
  }

  /** A sum taken in pieces and folded once is the sum of the concatenation. */
  lemma PiecewiseSum(src: seq<byte>, dst: seq<byte>, length: seq<byte>, d: nat, head: seq<byte>, payload: seq<byte>, pseudo: seq<byte>, j: nat, k: nat)
    requires |pseudo| == 2 * j && |head| == 2 * k
    requires WordSum(pseudo) == WordSum(src) + WordSum(dst) + WordSum(length) + d
    ensures Rep(OnesSum(src) + OnesSum(dst) + OnesSum(length) + d + OnesSum(head) + OnesSum(payload))
            == OnesSum(pseudo + (head + payload))
  {
    RepPieces(WordSum(src), WordSum(dst), WordSum(length), d, WordSum(head), WordSum(payload));
    WordSumConcat(head, payload, k);
    WordSumConcat(pseudo, head + payload, j);
    OnesSumIsRep(pseudo + (head + payload));
    OnesSumIsRep(src);
    OnesSumIsRep(dst);
    OnesSumIsRep(length);
    OnesSumIsRep(head);
    OnesSumIsRep(payload);
  }

  /** The piecewise ICMPv6 sum is the sum over the contiguous pseudo-header and message
      (section 2.3 of RFC 4443). */
  lemma Icmp6PiecesAreContiguous(r: Route, header: nat, payload: seq<byte>)
    requires r.Valid() && r.family == Ipv6 && 4 <= header && header % 2 == 0
    requires Fits(Ipv6, header + |payload|)
    ensures Rep(Icmp6Pieces(r, header, payload))
            == OnesSum(Pseudo(r, header + |payload|, PROTO_ICMPV6)
                       + (ICMP6_FRONT + Le16(0) + IcmpBack(header, payload)))
  {
    var length := header + |payload|;
    var head := ICMP6_FRONT + Le16(0) + Zeros(header - 4);
    Truncated(length);
    assert ICMP6_FRONT + Le16(0) + IcmpBack(header, payload) == head + payload;
    PseudoWordSum(Ipv6, r.ipSrc, r.ipDst, length, PROTO_ICMPV6);
    PiecewiseSum(r.ipSrc, r.ipDst, Be16(length), PROTO_ICMPV6 * 256, head, payload,
                 Pseudo(r, length, PROTO_ICMPV6), PseudoWords(Ipv6), header / 2);
  }

  lemma Icmp6SegmentSound(r: Route, header: nat, payload: seq<byte>)
    requires r.Valid() && r.family == Ipv6 && 4 <= header && header % 2 == 0
    requires Fits(Ipv6, header + |payload|)
    ensures SegmentSound(r, PROTO_ICMPV6, Icmp6Segment(r, header, payload))
  {
    var pseudo := Pseudo(r, header + |payload|, PROTO_ICMPV6);
    var back := IcmpBack(header, payload);
    var n := WordSum(pseudo) + (WordSum(ICMP6_FRONT) + WordSum(back));
    Icmp6PiecesAreContiguous(r, header, payload);
    PacketWordSum(pseudo, ICMP6_FRONT, 0, back, PseudoWords(Ipv6), 1);
    OnesSumIsRep(pseudo + (ICMP6_FRONT + Le16(0) + back));
    CompletedVerifies(pseudo, ICMP6_FRONT, 0xFFFF - Rep(n), back, PseudoWords(Ipv6), 1);
  }

  lemma Icmp6FrameAccepted(r: Route, header: nat, payload: seq<byte>)
    requires r.Valid() && r.family == Ipv6 && 4 <= header && header % 2 == 0
    requires Fits(Ipv6, header + |payload|)
    ensures Accepts(Icmp6Frame(r, header, payload))
  {
    Icmp6SegmentSound(r, header, payload);
    SoundFrameAccepted(Icmp6Frame(r, header, payload), r, PROTO_ICMPV6, header + |payload|, Icmp6Segment(r, header, payload));
  }

  // ---------------------------------------------------------------- the TCP parser

  /** What `PktParseTcpFrame` returns: positions in the frame, and the 32-bit payload length. */
  datatype Parsed = Parsed(header: nat, payload: nat, payloadLength: u32)

  /** The IP layer of the parser: the offset of the transport header, the protocol, and the
      16-bit payload length (the IPv4 subtraction wraps). */
  function ParseIp(frame: seq<byte>): (r: Option<(nat, byte, u16)>)
    ensures r.Some? ==> r.value.0 <= |frame|
  {
    if |frame| < ETHERNET_LENGTH then None
    else if ReadBe16(frame, 12) == TYPE_IPV4 then
      if |frame| < ETHERNET_LENGTH + 20 then None
      else Some((34, frame[23], (ReadBe16(frame, 16) - 20) % 0x1_0000))
    else if ReadBe16(frame, 12) == TYPE_IPV6 then
      if |frame| < ETHERNET_LENGTH + 40 then None
      else Some((54, frame[20], ReadBe16(frame, 18)))
    else None
  }

  function TcpHeaderLength(frame: seq<byte>, at: nat): nat
    requires at + TCP_LENGTH <= |frame|
  {
    frame[at + 12] / 16 * 4
  }

  function ParseTcp(frame: seq<byte>): (r: Option<Parsed>) {
    match ParseIp(frame)
    case None => None
    case Some((at, proto, ipPayload)) =>
      if proto != PROTO_TCP || |frame| < at + TCP_LENGTH || |frame| < at + ipPayload then None
      else
        var headerLength := TcpHeaderLength(frame, at);
        Some(Parsed(at, at + headerLength, (ipPayload - headerLength) % 0x1_0000_0000))
  }

  /** On any frame at all, a successful parse has the fixed TCP header inside the frame; the
      payload it reports lies inside the frame exactly when the data offset field does not
      exceed the IP payload, which the parser does not check. */
  lemma ParsedPayloadInFrame(frame: seq<byte>)
    requires |frame| <= MAX_U32 && ParseTcp(frame).Some?
    ensures var p := ParseTcp(frame).value;
            && p.header + TCP_LENGTH <= |frame|
            && (p.payload + p.payloadLength <= |frame| <==>
                TcpHeaderLength(frame, p.header) <= ParseIp(frame).value.2)
  {
    var (at, proto, ipPayload) := ParseIp(frame).value;
    Wrapped(ipPayload, TcpHeaderLength(frame, at));
  }

  /** 32-bit subtraction of small values. */
  lemma Wrapped(a: u16, b: nat)
    requires b <= 60
    ensures (a - b) % 0x1_0000_0000 == if b <= a then a - b else a - b + 0x1_0000_0000
  {}

  /** Parsing a frame whose segment starts with a TCP header of `words` 32-bit words. */
  lemma ParseSegment(f: seq<byte>, r: Route, length: u16, segment: seq<byte>, words: nat)
    requires r.Valid() && Fits(r.family, length)
    requires TCP_LENGTH <= |segment| && length <= |segment| && segment[12] == words * 16
    requires Carries(f, r, PROTO_TCP, length, segment)
    ensures ParseTcp(f) == Some(Parsed(r.Start(), r.Start() + words * 4, (length - words * 4) % 0x1_0000_0000))
  {
    Truncated(length);
    Truncated(20 + length);
    assert f[r.Start()..][12] == segment[12];
    assert TcpHeaderLength(f, r.Start()) == words * 4;
  }

  /** A frame whose IP length field leaves nothing for the segment, such as
      `IpFrame(r, PROTO_TCP, 0, segment)`: the reported payload is almost 4 GB long. */
  lemma ParsedPayloadEscapes(f: seq<byte>, r: Route, segment: seq<byte>)
    requires r.Valid() && |segment| == TCP_LENGTH && segment[12] == 0x50
    requires Carries(f, r, PROTO_TCP, 0, segment)
    ensures ParseTcp(f) == Some(Parsed(r.Start(), r.Start() + TCP_LENGTH, 0x1_0000_0000 - TCP_LENGTH))
  {
    ParseSegment(f, r, 0, segment, 5);
    Wrapped(0, TCP_LENGTH);
  }

  /** The parse succeeds, finds the header at `start`, reports a range inside the frame, and
      that range holds `payload` exactly when `aligned`. */
  predicate Recovers(f: seq<byte>, start: nat, payload: seq<byte>, aligned: bool) {
    match ParseTcp(f)
    case None => false
    case Some(p) =>
      && p.header == start
      && p.payload + p.payloadLength <= |f|
      && (aligned <==> f[p.payload..p.payload + p.payloadLength] == payload)
  }

  lemma SegmentRecovered(f: seq<byte>, r: Route, segment: seq<byte>, words: nat, payload: seq<byte>, aligned: bool)
    requires r.Valid() && Fits(r.family, |segment|)
    requires TCP_LENGTH <= |segment| && words * 4 <= |segment| && segment[12] == words * 16
    requires aligned <==> segment[words * 4..] == payload
    requires Carries(f, r, PROTO_TCP, |segment|, segment)
    ensures Recovers(f, r.Start(), payload, aligned)
  {
    ParseSegment(f, r, |segment|, segment, words);
    Wrapped(|segment|, words * 4);
    var from := r.Start() + words * 4;
    assert f[from..r.Start() + |segment|] == f[r.Start()..][words * 4..];
  }

  lemma SegmentShape(t: TcpFields, options: seq<byte>, payload: seq<byte>, sum: u16, words: nat)
    requires |options| <= TCP_MAX_OPTIONS && words == (TCP_LENGTH + |options|) / 4
    ensures var segment := SegmentWith(TcpFront(t, |options|), sum, [0, 0] + options + payload);
            && segment[12] == words * 16
            && (|options| % 4 == 0 <==> segment[words * 4..] == payload)
  {
    var segment := SegmentWith(TcpFront(t, |options|), sum, [0, 0] + options + payload);
    assert segment[12] == TcpFront(t, |options|)[12];
    if |options| % 4 == 0 {
      assert segment[words * 4..] == payload;
    } else {
      assert |segment[words * 4..]| > |payload|;
    }
  }

  lemma ParseCarried(f: seq<byte>, r: Route, t: TcpFields, options: seq<byte>, payload: seq<byte>, sum: u16)
    requires r.Valid() && |options| <= TCP_MAX_OPTIONS
    requires Fits(r.family, TCP_LENGTH + |options| + |payload|)
    requires var segment := SegmentWith(TcpFront(t, |options|), sum, [0, 0] + options + payload);
             Carries(f, r, PROTO_TCP, |segment|, segment)
    ensures Recovers(f, r.Start(), payload, |options| % 4 == 0)
  {
    var segment := SegmentWith(TcpFront(t, |options|), sum, [0, 0] + options + payload);
    var words := (TCP_LENGTH + |options|) / 4;
    SegmentShape(t, options, payload, sum, words);
    SegmentRecovered(f, r, segment, words, payload, |options| % 4 == 0);
  }

  /** The parser undoes the builder: for both families, any payload and any options, it finds
      the header that was built, and it recovers exactly the payload if and only if the
      options are a whole number of 32-bit words. */
  lemma ParseUndoesBuild(r: Route, t: TcpFields, options: seq<byte>, payload: seq<byte>)
    requires r.Valid() && |options| <= TCP_MAX_OPTIONS
    requires Fits(r.family, TCP_LENGTH + |options| + |payload|)
    ensures Recovers(TcpFrame(r, t, options, payload), r.Start(), payload, |options| % 4 == 0)
  {
    TcpFrameCarries(r, t, options, payload);
    ParseCarried(TcpFrame(r, t, options, payload), r, t, options, payload,
                 StoredSum(r, PROTO_TCP, TcpFront(t, |options|), [0, 0] + options + payload));
  }

  /** One byte of options: the parser finds the header, but not the empty payload. */
  lemma UnalignedOptionsLost(r: Route, t: TcpFields)
    requires r.Valid()
    ensures var f := TcpFrame(r, t, [0], []);
      ParseTcp(f).Some? && !(ParseTcp(f).value.payload == |f| && ParseTcp(f).value.payloadLength == 0)
  {
    ParseUndoesBuild(r, t, [0], []);
  }
}
