/** A receiver that reads the frames of the builders back, field by field at its place in the frame. */
module Receiver {
  import opened Bytes
  import opened Checksum
  import opened Frames

  /** The 32-bit value stored at `s[i..i+4]` in network order: `ntohl` of the field. */
  function ReadBe32(s: seq<byte>, i: nat): nat
    requires i + 4 <= |s|
  {
    0x1_0000 * ReadBe16(s, i) + ReadBe16(s, i + 2)
  }

  lemma HighHalf(x: nat, q: nat, r: nat)
    requires x == 0x1_0000 * q + r && r < 0x1_0000
    ensures x / 0x100_0000 == q / 256 && x / 0x1_0000 == q
  {
  }

  lemma LowHalf(x: nat, q: nat, r: nat)
    requires x == 0x1_0000 * q + r && r < 0x1_0000
    ensures x / 256 % 256 == r / 256 && x % 256 == r % 256
  {
    assert x / 256 == 256 * q + r / 256;
  }

  lemma Be32Read(x: u32)
    ensures ReadBe32(Be32(x), 0) == x
  {
    HighHalf(x, x / 0x1_0000, x % 0x1_0000);
    LowHalf(x, x / 0x1_0000, x % 0x1_0000);
  }

  // ---- Link and IP headers --------------------------------------------------------------------

  /** The stations, the hosts and the protocol, if the header is an IPv4 header of five words, or an IPv6
      header, that is not fragmented or marked in any way and has one hop to live. */
  function ReadRoute(f: seq<byte>): Option<(Route, byte)> {
    if |f| >= 34 && f[12..14] == [0x08, 0x00] && f[14] == 0x45 && f[15] == 0 && f[18..23] == [0, 0, 0, 0, 1] then
      Some((Route(f[0..6], f[6..12], Ipv4, f[30..34], f[26..30]), f[23]))
    else if |f| >= 54 && f[12..14] == [0x86, 0xDD] && f[14..18] == [0x60, 0, 0, 0] && f[21] == 1 then
      Some((Route(f[0..6], f[6..12], Ipv6, f[38..54], f[22..38]), f[20]))
    else None
  }

  lemma LinkRead(f: seq<byte>, r: Route, rest: seq<byte>)
    requires r.Valid() && f == Ethernet(r) + rest
    ensures f[0..6] == r.ethDst && f[6..12] == r.ethSrc
    ensures f[12..14] == if r.family == Ipv4 then [0x08, 0x00] else [0x86, 0xDD]
  {
  }

  lemma Ip4Read(f: seq<byte>, ip: seq<byte>, length: nat, proto: byte, src: seq<byte>, dst: seq<byte>)
    requires |src| == |dst| == 4 && ip == Ip4Header(length, proto, src, dst) && |f| >= 34 && f[14..34] == ip
    ensures f[14] == 0x45 && f[15] == 0 && f[18..23] == [0, 0, 0, 0, 1] && f[23] == proto
    ensures f[26..30] == src && f[30..34] == dst
  {
    assert forall i :: 0 <= i < 20 ==> f[14 + i] == f[14..34][i];
    assert f[18..23] == ip[4..9];
    assert f[26..30] == ip[12..16] && f[30..34] == ip[16..20];
  }

  lemma Ip6Read(f: seq<byte>, ip: seq<byte>, length: nat, proto: byte, src: seq<byte>, dst: seq<byte>)
    requires |src| == |dst| == 16 && ip == Ip6Header(length, proto, src, dst) && |f| >= 54 && f[14..54] == ip
    ensures f[14..18] == [0x60, 0, 0, 0] && f[20] == proto && f[21] == 1
    ensures f[22..38] == src && f[38..54] == dst
  {
    assert forall i :: 0 <= i < 40 ==> f[14 + i] == f[14..54][i];
    assert f[14..18] == ip[0..4];
    assert f[22..38] == ip[8..24] && f[38..54] == ip[24..40];
  }

  /** Every frame names its stations, its hosts and its protocol, and carries its segment behind them. */
  lemma RouteRead(f: seq<byte>, r: Route, proto: byte, length: nat, segment: seq<byte>)
    requires r.Valid() && f == IpFrame(r, proto, length, segment)
    ensures ReadRoute(f) == Some((r, proto)) && |f| == r.Start() + |segment| && f[r.Start()..] == segment
  {
    var ip := IpHeader(r, length, proto);
    assert f == Ethernet(r) + (ip + segment);
    assert f[14..r.Start()] == ip;
    LinkRead(f, r, ip + segment);
    if r.family == Ipv4 {
      Ip4Read(f, ip, length, proto, r.ipSrc, r.ipDst);
    } else {
      Ip6Read(f, ip, length, proto, r.ipSrc, r.ipDst);
    }
  }

  // ---- UDP ------------------------------------------------------------------------------------

  /** A port as the caller of a builder has it, in network order. */
  function ReadPort(s: seq<byte>, i: nat): u16
    requires i + 2 <= |s|
  {
    Word(s[i], s[i + 1])
  }

  datatype Datagram = Datagram(portDst: u16, portSrc: u16, length: u16, payload: seq<byte>)

  function ReadUdp(s: seq<byte>): Option<Datagram> {
    if |s| < UDP_LENGTH then None else Some(Datagram(ReadPort(s, 2), ReadPort(s, 0), ReadBe16(s, 4), s[8..]))
  }

  lemma UdpSegmentRead(portDst: u16, portSrc: u16, payload: seq<byte>, sum: u16)
    ensures ReadUdp(SegmentWith(UdpFront(portDst, portSrc, |payload|), sum, payload))
         == Some(Datagram(portDst, portSrc, (UDP_LENGTH + |payload|) % 0x1_0000, payload))
  {
    var front := UdpFront(portDst, portSrc, |payload|);
    var s := SegmentWith(front, sum, payload);
    assert forall i :: 0 <= i < 6 ==> s[i] == front[i];
    assert s[8..] == payload;
  }

  /** A receiver of a UDP frame reads back what the builder was given. */
  lemma UdpFrameRead(r: Route, portDst: u16, portSrc: u16, payload: seq<byte>)
    requires r.Valid()
    ensures var f := UdpFrame(r, portDst, portSrc, payload);
      && ReadRoute(f) == Some((r, 17))
      && ReadUdp(f[r.Start()..]) == Some(Datagram(portDst, portSrc, (UDP_LENGTH + |payload|) % 0x1_0000, payload))
  {
    var front := UdpFront(portDst, portSrc, |payload|);
    RouteRead(UdpFrame(r, portDst, portSrc, payload), r, PROTO_UDP, (UDP_LENGTH + |payload|) % 0x1_0000,
              Segment(r, PROTO_UDP, front, payload));
    UdpSegmentRead(portDst, portSrc, payload, StoredSum(r, PROTO_UDP, front, payload));
  }

  // ---- TCP ------------------------------------------------------------------------------------

  /** A TCP segment: its fields, its data offset in 32-bit words, and what follows the fixed header. */
  datatype TcpRead = TcpRead(fields: TcpFields, words: nat, rest: seq<byte>)

  function ReadFields(s: seq<byte>): TcpFields
    requires |s| >= 16
  {
    TcpFields(ReadPort(s, 2), ReadPort(s, 0), ReadBe32(s, 4), ReadBe32(s, 8), s[13], ReadBe16(s, 14))
  }

  /** Nothing urgent and no reserved bit set. */
  function ReadTcp(s: seq<byte>): Option<TcpRead> {
    if |s| < TCP_LENGTH || s[18..20] != [0, 0] || s[12] % 16 != 0 then None
    else Some(TcpRead(ReadFields(s), s[12] / 16, s[20..]))
  }

  lemma TcpFrontRead(t: TcpFields, optionsLength: nat)
    requires optionsLength <= TCP_MAX_OPTIONS
    ensures ReadFields(TcpFront(t, optionsLength)) == t
  {
    var s := TcpFront(t, optionsLength);
    Be32Read(t.sequence);
    Be32Read(t.ack);
    assert s[4..8] == Be32(t.sequence) && s[8..12] == Be32(t.ack);
    assert forall i :: 0 <= i < 4 ==> s[4 + i] == s[4..8][i] && s[8 + i] == s[8..12][i];
    assert s[14..16] == Be16(t.window);
    assert s[14] == s[14..16][0] && s[15] == s[14..16][1];
  }

  lemma TcpSegmentRead(t: TcpFields, options: seq<byte>, payload: seq<byte>, sum: u16)
    requires |options| <= TCP_MAX_OPTIONS
    ensures ReadTcp(SegmentWith(TcpFront(t, |options|), sum, [0, 0] + options + payload))
         == Some(TcpRead(t, (TCP_LENGTH + |options|) / 4, options + payload))
  {
    TcpFrontRead(t, |options|);
    HeaderRead(TcpFront(t, |options|), sum, [0, 0], options + payload, (TCP_LENGTH + |options|) / 4);
    assert [0, 0] + options + payload == [0, 0] + (options + payload);
  }

  lemma HeaderRead(front: seq<byte>, sum: u16, urgent: seq<byte>, rest: seq<byte>, words: nat)
    requires |front| == 16 && urgent == [0, 0] && front[12] == words * 16
    ensures ReadTcp(SegmentWith(front, sum, urgent + rest)) == Some(TcpRead(ReadFields(front), words, rest))
  {
    var s := SegmentWith(front, sum, urgent + rest);
    assert forall i :: 0 <= i < 16 ==> s[i] == front[i];
    SameFields(s, front);
    assert s[18..20] == urgent && s[20..] == rest;
  }

  lemma SameFields(s: seq<byte>, front: seq<byte>)
    requires |front| == 16 && |s| >= 16 && forall i :: 0 <= i < 16 ==> s[i] == front[i]
    ensures ReadFields(s) == ReadFields(front)
  {
  }

  /** A receiver of a TCP frame reads back what the builder was given. */
  lemma TcpFrameRead(r: Route, t: TcpFields, options: seq<byte>, payload: seq<byte>)
    requires r.Valid() && |options| <= TCP_MAX_OPTIONS
    ensures var f := TcpFrame(r, t, options, payload);
      ReadRoute(f) == Some((r, 6)) && ReadTcp(f[r.Start()..]) == Some(TcpRead(t, (TCP_LENGTH + |options|) / 4, options + payload))
  {
    var front, back := TcpFront(t, |options|), [0, 0] + options + payload;
    RouteRead(TcpFrame(r, t, options, payload), r, PROTO_TCP, (TCP_LENGTH + |options| + |payload|) % 0x1_0000,
              Segment(r, PROTO_TCP, front, back));
    TcpSegmentRead(t, options, payload, StoredSum(r, PROTO_TCP, front, back));
  }

  // ---- ICMP -----------------------------------------------------------------------------------

  /** Type and payload of a message with code zero whose header of this length is otherwise zero. */
  function ReadEcho(s: seq<byte>, header: nat): Option<(byte, seq<byte>)>
    requires 4 <= header
  {
    if |s| < header || s[1] != 0 || s[4..header] != Zeros(header - 4) then None else Some((s[0], s[header..]))
  }

  lemma EchoRead(s: seq<byte>, kind: byte, sum: u16, header: nat, payload: seq<byte>)
    requires 4 <= header && s == [kind, 0] + Le16(sum) + IcmpBack(header, payload)
    ensures ReadEcho(s, header) == Some((kind, payload))
  {
    assert s[4..] == Zeros(header - 4) + payload;
    assert s[4..header] == s[4..][..header - 4] && s[header..] == s[4..][header - 4..];
  }

  /** The route, protocol, type and payload of an ICMP frame. */
  function ReadEchoFrame(f: seq<byte>, header: nat): Option<(Route, byte, byte, seq<byte>)>
    requires 4 <= header
  {
    match ReadRoute(f)
    case None => None
    case Some((r, proto)) =>
      match ReadEcho(if r.family == Ipv4 then f[34..] else f[54..], header)
      case None => None
      case Some((kind, payload)) => Some((r, proto, kind, payload))
  }

  lemma EchoFrameRead(f: seq<byte>, r: Route, proto: byte, length: nat, segment: seq<byte>, header: nat, kind: byte, payload: seq<byte>)
    requires r.Valid() && 4 <= header && f == IpFrame(r, proto, length, segment) && ReadEcho(segment, header) == Some((kind, payload))
    ensures ReadEchoFrame(f, header) == Some((r, proto, kind, payload))
  {
    RouteRead(f, r, proto, length, segment);
  }

  lemma Icmp4SegmentRead(header: nat, payload: seq<byte>)
    requires 4 <= header
    ensures ReadEcho(Icmp4Segment(header, payload), header) == Some((0, payload))
  {
    var covered := (ICMP4_FRONT + Le16(0) + IcmpBack(header, payload))[..(header + |payload|) % 0x1_0000];
    EchoRead(Icmp4Segment(header, payload), 0, 0xFFFF - OnesSum(covered), header, payload);
  }

  /** A receiver of an ICMP frame reads an echo reply with the builder's payload. */
  lemma Icmp4FrameRead(r: Route, header: nat, payload: seq<byte>)
    requires r.Valid() && r.family == Ipv4 && 4 <= header
    ensures ReadEchoFrame(Icmp4Frame(r, header, payload), header) == Some((r, 1, 0, payload))
  {
    Icmp4SegmentRead(header, payload);
    EchoFrameRead(Icmp4Frame(r, header, payload), r, PROTO_ICMP, header + |payload|, Icmp4Segment(header, payload), header, 0, payload);
  }

  lemma Icmp6SegmentRead(r: Route, header: nat, payload: seq<byte>)
    requires r.Valid() && 4 <= header
    ensures ReadEcho(Icmp6Segment(r, header, payload), header) == Some((129, payload))
  {
    EchoRead(Icmp6Segment(r, header, payload), 129, 0xFFFF - Rep(Icmp6Pieces(r, header, payload)), header, payload);
  }

  lemma Icmp6FrameRead(r: Route, header: nat, payload: seq<byte>)
    requires r.Valid() && r.family == Ipv6 && 4 <= header
    ensures ReadEchoFrame(Icmp6Frame(r, header, payload), header) == Some((r, 58, 129, payload))
  {
    var f, segment := Icmp6Frame(r, header, payload), Icmp6Segment(r, header, payload);
    var length: nat := header + |payload|;
    assert f == IpFrame(r, PROTO_ICMPV6, length, segment);
    assert ReadEcho(segment, header) == Some((129, payload)) by { Icmp6SegmentRead(r, header, payload); }
    EchoFrameRead(f, r, PROTO_ICMPV6, length, segment, header, 129, payload);
  }
}
