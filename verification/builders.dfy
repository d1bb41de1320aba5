/** The frame builders of inc/pkthlp.h as they run: in place, in a caller's buffer. */
module Builders {
  import opened Bytes
  import opened Checksum
  import opened Frames

  /** `PktPseudoHeaderChecksum`: four partial sums, folded once, are the sum of the pseudo-header. */
  method PseudoHeaderChecksum(f: Family, src: seq<byte>, dst: seq<byte>, length: u16, proto: byte) returns (r: u16)
    requires |src| == |dst| == AddressLength(f)
    ensures r == OnesSum(PseudoHeader(f, src + dst, length, proto))
  {
    var s := PartialChecksum(src);
    var d := PartialChecksum(dst);
    var l := PartialChecksum(Be16(length));
    r := Fold(s + d + l + proto as int * 256);
    FoldIsRep(s + d + l + proto as int * 256);
    PseudoPieces(f, src, dst, length, proto);
  }

  lemma PseudoPieces(f: Family, src: seq<byte>, dst: seq<byte>, length: u16, proto: byte)
    requires |src| == |dst| == AddressLength(f)
    ensures Rep(OnesSum(src) + OnesSum(dst) + OnesSum(Be16(length)) + proto * 256)
            == OnesSum(PseudoHeader(f, src + dst, length, proto))
  {
    OnesSumIsRep(src);
    OnesSumIsRep(dst);
    OnesSumIsRep(Be16(length));
    RepPieces(WordSum(src), WordSum(dst), WordSum(Be16(length)), proto * 256, 0, 0);
    PseudoWordSum(f, src, dst, length, proto);
    OnesSumIsRep(PseudoHeader(f, src + dst, length, proto));
  }

  /** The link and IP headers; the IPv4 checksum is computed over the header in the buffer. */
  method WriteHeaders(buf: array<byte>, r: Route, length: nat, proto: byte)
    requires r.Valid() && r.Start() <= buf.Length
    modifies buf
    ensures buf[..r.Start()] == Ethernet(r) + IpHeader(r, length, proto)
    ensures buf[r.Start()..] == old(buf[r.Start()..])
  {
    Copy(buf, 0, Ethernet(r));
    if r.family == Ipv4 {
      WriteIp4(buf, length, proto, r.ipSrc, r.ipDst);
    } else {
      Copy(buf, ETHERNET_LENGTH, Ip6Header(length, proto, r.ipSrc, r.ipDst));
    }
    assert buf[..r.Start()] == buf[..ETHERNET_LENGTH] + buf[ETHERNET_LENGTH..r.Start()];
    assert buf[..ETHERNET_LENGTH] == Ethernet(r);
  }

  method WriteIp4(buf: array<byte>, length: nat, proto: byte, src: seq<byte>, dst: seq<byte>)
    requires |src| == |dst| == 4 && 34 <= buf.Length
    modifies buf
    ensures buf[..14] == old(buf[..14])
    ensures buf[14..34] == Ip4Header(length, proto, src, dst)
    ensures buf[34..] == old(buf[34..])
  {
    var front, back := Ip4Front(length, proto), src + dst;
    Copy(buf, 14, front + Le16(0) + back);
    var sum := FullChecksum(0, buf[14..34]);
    StoreField(buf, 14, 34, front, 0, back, sum);
  }

  /** Overwrite a 16-bit field between known bytes. */
  method StoreField(buf: array<byte>, at: nat, ghost end: nat, front: seq<byte>, ghost was: u16, ghost back: seq<byte>, field: u16)
    requires at + |front| + 2 + |back| == end <= buf.Length
    requires buf[at..end] == SegmentWith(front, was, back)
    modifies buf
    ensures buf[..at] == old(buf[..at])
    ensures buf[at..end] == SegmentWith(front, field, back)
    ensures buf[end..] == old(buf[end..])
  {
    ghost var before := buf[..];
    Copy(buf, at + |front|, Le16(field));
    FieldStored(before, buf[..], at, end, front, was, back, field);
  }

  lemma FieldStored(before: seq<byte>, after: seq<byte>, at: nat, end: nat, front: seq<byte>, was: u16, back: seq<byte>, field: u16)
    requires at + |front| + 2 + |back| == end <= |before| == |after|
    requires before[at..end] == SegmentWith(front, was, back)
    requires after[..at + |front|] == before[..at + |front|]
    requires after[at + |front|..at + |front| + 2] == Le16(field)
    requires after[at + |front| + 2..] == before[at + |front| + 2..]
    ensures after[..at] == before[..at] && after[end..] == before[end..]
    ensures after[at..end] == SegmentWith(front, field, back)
  {
    var i := at + |front|;
    assert after[..at] == after[..i][..at] && before[..at] == before[..i][..at];
    KeptTail(before, after, i + 2, i + 2, end);
    assert after[at..i] == after[..i][at..] == before[..i][at..] == before[at..end][..|front|] == front;
    assert before[i + 2..end] == before[at..end][|front| + 2..] == back;
    assert after[at..end] == after[at..i] + after[i..i + 2] + after[i + 2..end];
  }

  /** The transport part shared by the UDP and TCP builders: the segment is in the buffer with
      the pseudo-header sum in its checksum field; replace that by the final sum. */
  method SealSegment(buf: array<byte>, r: Route, proto: byte, length: u16, front: seq<byte>, ghost back: seq<byte>,
                     ghost end: nat, ghost placeholder: u16)
    requires r.Valid() && length == (|front| + 2 + |back|) % 0x1_0000
    requires r.Start() + |front| + 2 + |back| == end <= buf.Length
    requires placeholder == OnesSum(Pseudo(r, length, proto))
    requires buf[r.Start()..end] == SegmentWith(front, placeholder, back)
    modifies buf
    ensures buf[..r.Start()] == old(buf[..r.Start()])
    ensures buf[r.Start()..end] == Segment(r, proto, front, back)
    ensures buf[end..] == old(buf[end..])
  {
    var start := r.Start();
    assert buf[start..start + length] == SegmentWith(front, placeholder, back)[..length];
    var sum := FullChecksum(0, buf[start..start + length]);
    if sum == 0 && proto == PROTO_UDP && r.family == Ipv6 {
      sum := 0xFFFF;
    }
    StoreField(buf, start, end, front, placeholder, back, sum);
  }

  /** A buffer whose parts are the headers and a segment holds an IP frame. */
  lemma Assembled(buf: seq<byte>, r: Route, proto: byte, length: nat, segment: seq<byte>)
    requires r.Valid() && r.Start() + |segment| <= |buf|
    requires buf[..r.Start()] == Ethernet(r) + IpHeader(r, length, proto)
    requires buf[r.Start()..r.Start() + |segment|] == segment
    ensures buf[..r.Start() + |segment|] == IpFrame(r, proto, length, segment)
  {
    assert buf[..r.Start() + |segment|] == buf[..r.Start()] + buf[r.Start()..r.Start() + |segment|];
  }

  /** The common course of the UDP and TCP builders, once the size checks have passed. */
  method EmitTransport(buf: array<byte>, r: Route, proto: byte, front: seq<byte>, back: seq<byte>, ghost end: nat)
    requires r.Valid() && r.Start() + |front| + 2 + |back| == end <= buf.Length
    modifies buf
    ensures buf[..end] == IpFrame(r, proto, (|front| + 2 + |back|) % 0x1_0000, Segment(r, proto, front, back))
    ensures buf[end..] == old(buf[end..])
  {
    var length: u16 := (|front| + 2 + |back|) % 0x1_0000;
    WriteHeaders(buf, r, length, proto);
    KeptTail(old(buf[..]), buf[..], r.Start(), end, end);
    var placeholder := PseudoHeaderChecksum(r.family, r.ipSrc, r.ipDst, length, proto);
    WriteSegment(buf, r.Start(), front + Le16(placeholder), back);
    SealSegment(buf, r, proto, length, front, back, end, placeholder);
    Assembled(buf[..], r, proto, length, Segment(r, proto, front, back));
  }

  /** `PktBuildUdpFrame`. */
  method BuildUdp(buf: array<byte>, bufferSize: u32, r: Route, portDst: u16, portSrc: u16, payload: seq<byte>)
    returns (ok: bool, newSize: u32)
    requires r.Valid() && |payload| <= MAX_U16 && bufferSize <= buf.Length
    modifies buf
    ensures ok <==> r.Start() + UDP_LENGTH + |payload| <= bufferSize
    ensures !ok ==> buf[..] == old(buf[..]) && newSize == bufferSize
    ensures ok ==> newSize == r.Start() + UDP_LENGTH + |payload|
                   && buf[..newSize] == UdpFrame(r, portDst, portSrc, payload)
                   && buf[newSize..] == old(buf[newSize..])
  {
    var start := r.Start();
    var total := start + UDP_LENGTH + |payload|;
    if bufferSize < total {
      return false, bufferSize;
    }
    EmitTransport(buf, r, PROTO_UDP, UdpFront(portDst, portSrc, |payload|), payload, total);
    return true, total;
  }

  /** Two adjacent copies. */
  method WriteSegment(buf: array<byte>, at: nat, head: seq<byte>, data: seq<byte>)
    requires at + |head| + |data| <= buf.Length
    modifies buf
    ensures buf[..at] == old(buf[..at])
    ensures buf[at..at + |head| + |data|] == head + data
    ensures buf[at + |head| + |data|..] == old(buf[at + |head| + |data|..])
  {
    var m, e := at + |head|, at + |head| + |data|;
    Copy(buf, at, head);
    assert buf[e..] == buf[m..][|data|..];
    Copy(buf, m, data);
    assert buf[..at] == buf[..m][..at];
    assert buf[at..e] == buf[..m][at..] + buf[m..e];
  }

  /** The bytes an optional input leaves in the buffer: a NULL pointer copies nothing, which
      is the same as copying the bytes already there onto themselves. */
  function Placed(input: Option<seq<byte>>, there: seq<byte>): seq<byte> {
    match input
    case None => there
    case Some(bytes) => bytes
  }

  method EmitTcp(buf: array<byte>, r: Route, t: TcpFields, options: seq<byte>, payload: seq<byte>, ghost end: nat)
    requires r.Valid() && |options| <= TCP_MAX_OPTIONS
    requires r.Start() + TCP_LENGTH + |options| + |payload| == end <= buf.Length
    modifies buf
    ensures buf[..end] == TcpFrame(r, t, options, payload)
    ensures buf[end..] == old(buf[end..])
  {
    EmitTransport(buf, r, PROTO_TCP, TcpFront(t, |options|), [0, 0] + options + payload, end);
  }

  /** `PktBuildTcpFrame`; options and payload may be NULL with a non-zero length, in which
      case the buffer's own bytes are framed and summed. */
  method BuildTcp(buf: array<byte>, bufferSize: u32, r: Route, t: TcpFields,
                  options: Option<seq<byte>>, optionsLength: u16, payload: Option<seq<byte>>, payloadLength: u16)
    returns (ok: bool, newSize: u32)
    requires r.Valid() && bufferSize <= buf.Length
    requires options.Some? ==> |options.value| == optionsLength
    requires payload.Some? ==> |payload.value| == payloadLength
    modifies buf
    ensures ok <==> r.Start() + TCP_LENGTH + optionsLength + payloadLength <= bufferSize && optionsLength <= TCP_MAX_OPTIONS
    ensures !ok ==> buf[..] == old(buf[..]) && newSize == bufferSize
    ensures ok ==> newSize == r.Start() + TCP_LENGTH + optionsLength + payloadLength
                   && HoldsTcp(old(buf[..]), buf[..], r, t, options, optionsLength, payload, newSize)
  {
    var start := r.Start();
    var at := start + TCP_LENGTH;
    var total := at + optionsLength + payloadLength;
    if bufferSize < total || optionsLength > TCP_MAX_OPTIONS {
      return false, bufferSize;
    }
    var there := buf[..];
    EmitPlaced(buf, r, t, Placed(options, there[at..at + optionsLength]), Placed(payload, there[at + optionsLength..total]),
               options, optionsLength, payload, total);
    return true, total;
  }

  method EmitPlaced(buf: array<byte>, r: Route, t: TcpFields, o: seq<byte>, p: seq<byte>,
                    ghost options: Option<seq<byte>>, ghost optionsLength: u16, ghost payload: Option<seq<byte>>, total: nat)
    requires r.Valid() && |o| == optionsLength <= TCP_MAX_OPTIONS && r.Start() + TCP_LENGTH + |o| + |p| == total <= buf.Length
    requires var at := r.Start() + TCP_LENGTH;
      o == Placed(options, buf[..][at..at + optionsLength]) && p == Placed(payload, buf[..][at + optionsLength..total])
    modifies buf
    ensures HoldsTcp(old(buf[..]), buf[..], r, t, options, optionsLength, payload, total)
  {
    EmitTcp(buf, r, t, o, p, total);
  }

  /** The first bytes of the buffer are the frame, made of the inputs or of what was there; the rest is as it
      was. */
  ghost predicate HoldsTcp(before: seq<byte>, after: seq<byte>, r: Route, t: TcpFields,
                           options: Option<seq<byte>>, optionsLength: u16, payload: Option<seq<byte>>, size: nat)
    requires r.Valid()
  {
    var at := r.Start() + TCP_LENGTH;
    && at + optionsLength <= size <= |before| == |after| && after[size..] == before[size..]
    && var o := Placed(options, before[at..at + optionsLength]);
       |o| <= TCP_MAX_OPTIONS && after[..size] == TcpFrame(r, t, o, Placed(payload, before[at + optionsLength..size]))
  }

  lemma KeptTail(before: seq<byte>, after: seq<byte>, start: nat, lo: nat, hi: nat)
    requires start <= lo <= hi <= |before| == |after|
    requires before[start..] == after[start..]
    ensures before[lo..hi] == after[lo..hi] && before[hi..] == after[hi..]
  {
    assert forall i :: start <= i < |before| ==> before[i] == before[start..][i - start] && after[i] == after[start..][i - start];
  }

  /** The zeroed ICMP message with its first two bytes and payload filled in. */
  method WriteIcmp(buf: array<byte>, at: nat, header: nat, front: seq<byte>, payload: seq<byte>)
    requires |front| == 2 && 4 <= header && at + header + |payload| <= buf.Length
    requires buf[at..at + header + |payload|] == Zeros(header + |payload|)
    modifies buf
    ensures buf[..at] == old(buf[..at])
    ensures buf[at..at + header + |payload|] == SegmentWith(front, 0, IcmpBack(header, payload))
    ensures buf[at..at + header] == front + Le16(0) + Zeros(header - 4)
    ensures buf[at + header + |payload|..] == old(buf[at + header + |payload|..])
  {
    var m, e := at + header, at + header + |payload|;
    ghost var before := buf[..];
    Copy(buf, at, front);
    ghost var fronted := buf[..];
    Copy(buf, m, payload);
    IcmpHead(before, fronted, buf[..], at, header, front, |payload|);
    ghost var head := front + Le16(0) + Zeros(header - 4);
    KeptTail(before, fronted, at + 2, m, e);
    assert buf[..at] == buf[..m][..at] == fronted[..m][..at];
    assert buf[at..e] == buf[at..m] + buf[m..e] == head + payload;
    assert head + payload == SegmentWith(front, 0, IcmpBack(header, payload));
  }

  lemma IcmpHead(before: seq<byte>, fronted: seq<byte>, after: seq<byte>, at: nat, header: nat, front: seq<byte>, length: nat)
    requires |front| == 2 && 4 <= header && at + header + length <= |before| == |fronted| == |after|
    requires before[at..at + header + length] == Zeros(header + length)
    requires fronted[at..at + 2] == front && fronted[at + 2..] == before[at + 2..]
    requires after[..at + header] == fronted[..at + header]
    ensures after[at..at + header] == front + Le16(0) + Zeros(header - 4)
  {
    var head := front + Le16(0) + Zeros(header - 4);
    forall k | 0 <= k < header
      ensures after[at + k] == head[k]
    {
      assert after[at + k] == after[..at + header][at + k] == fronted[..at + header][at + k];
      if k < 2 {
        assert fronted[at + k] == fronted[at..at + 2][k];
      } else {
        assert fronted[at + k] == fronted[at + 2..][k - 2] == before[at + 2..][k - 2];
        assert before[at + k] == before[at..at + header + length][k];
      }
    }
  }

  /** `PktBuildIcmp4Frame`; `header` is the size of the ICMP header structure. */
  method BuildIcmp4(buf: array<byte>, bufferSize: u32, r: Route, header: nat, payload: seq<byte>)
    returns (ok: bool, newSize: u32)
    requires r.Valid() && r.family == Ipv4 && 4 <= header <= 256 && |payload| <= MAX_U16 && bufferSize <= buf.Length
    modifies buf
    ensures ok <==> r.Start() + header + |payload| <= bufferSize
    ensures !ok ==> buf[..] == old(buf[..]) && newSize == bufferSize
    ensures ok ==> newSize == r.Start() + header + |payload|
                   && buf[..newSize] == Icmp4Frame(r, header, payload)
                   && buf[newSize..] == old(buf[newSize..])
  {
    var start := r.Start();
    var total := start + header + |payload|;
    if bufferSize < total {
      return false, bufferSize;
    }
    StartIcmp(buf, r, header + |payload|, PROTO_ICMP);
    WriteIcmp(buf, start, header, ICMP4_FRONT, payload);
    var length: u16 := (header + |payload|) % 0x1_0000;
    ghost var back := IcmpBack(header, payload);
    assert buf[start..start + length] == buf[start..total][..length];
    var sum := FullChecksum(0, buf[start..start + length]);
    StoreField(buf, start, total, ICMP4_FRONT, 0, back, sum);
    Assembled(buf[..], r, PROTO_ICMP, header + |payload|, Icmp4Segment(header, payload));
    return true, total;
  }

  /** Zero the whole frame, then write the link and IP headers. */
  method StartIcmp(buf: array<byte>, r: Route, length: nat, proto: byte)
    requires r.Valid() && r.Start() + length <= buf.Length
    modifies buf
    ensures buf[..r.Start()] == Ethernet(r) + IpHeader(r, length, proto)
    ensures buf[r.Start()..r.Start() + length] == Zeros(length)
    ensures buf[r.Start() + length..] == old(buf[r.Start() + length..])
  {
    var start, total := r.Start(), r.Start() + length;
    Copy(buf, 0, Zeros(total));
    ghost var zeroed := buf[..];
    assert zeroed[start..total] == zeroed[0..total][start..] == Zeros(length);
    WriteHeaders(buf, r, length, proto);
    KeptTail(zeroed, buf[..], start, start, total);
  }

  /** `PktBuildIcmp6Frame`: the checksum is accumulated from six pieces and folded once. */
  method BuildIcmp6(buf: array<byte>, bufferSize: u32, r: Route, header: nat, payload: seq<byte>)
    returns (ok: bool, newSize: u32)
    requires r.Valid() && r.family == Ipv6 && 4 <= header <= 256 && |payload| <= MAX_U16 && bufferSize <= buf.Length
    modifies buf
    ensures ok <==> r.Start() + header + |payload| <= bufferSize
    ensures !ok ==> buf[..] == old(buf[..]) && newSize == bufferSize
    ensures ok ==> newSize == r.Start() + header + |payload|
                   && buf[..newSize] == Icmp6Frame(r, header, payload)
                   && buf[newSize..] == old(buf[newSize..])
  {
    var start := r.Start();
    var total := start + header + |payload|;
    if bufferSize < total {
      return false, bufferSize;
    }
    EmitIcmp6(buf, r, header, payload, total);
    return true, total;
  }

  /** Its course once the size check has passed. */
  method EmitIcmp6(buf: array<byte>, r: Route, header: nat, payload: seq<byte>, total: nat)
    requires r.Valid() && r.family == Ipv6 && 4 <= header <= 256 && |payload| <= MAX_U16
    requires total == r.Start() + header + |payload| <= buf.Length
    modifies buf
    ensures buf[..total] == Icmp6Frame(r, header, payload)
    ensures buf[total..] == old(buf[total..])
  {
    StartIcmp(buf, r, header + |payload|, PROTO_ICMPV6);
    WriteIcmp(buf, r.Start(), header, ICMP6_FRONT, payload);
    var sum := Icmp6Sum(r, buf[r.Start()..r.Start() + header], header, payload);
    StoreField(buf, r.Start(), total, ICMP6_FRONT, 0, IcmpBack(header, payload), sum);
    Icmp6Assembled(buf[..], r, header, payload, sum, total);
  }

  method Icmp6Sum(r: Route, head: seq<byte>, header: nat, payload: seq<byte>) returns (sum: u16)
    requires r.Valid() && 4 <= header == |head| <= 256 && |payload| <= MAX_U16 && head == ICMP6_FRONT + Le16(0) + Zeros(header - 4)
    ensures sum == 0xFFFF - Rep(Icmp6Pieces(r, header, payload))
  {
    var checksum := Icmp6Accumulate(r, head, payload);
    FoldIsRep(checksum);
    sum := 0xFFFF - Fold(checksum);
  }

  lemma Icmp6Assembled(buf: seq<byte>, r: Route, header: nat, payload: seq<byte>, sum: u16, total: nat)
    requires r.Valid() && r.family == Ipv6 && 4 <= header && total == r.Start() + header + |payload| <= |buf|
    requires buf[..r.Start()] == Ethernet(r) + IpHeader(r, header + |payload|, PROTO_ICMPV6)
    requires buf[r.Start()..total] == SegmentWith(ICMP6_FRONT, sum, IcmpBack(header, payload))
    requires sum == 0xFFFF - Rep(Icmp6Pieces(r, header, payload))
    ensures buf[..total] == Icmp6Frame(r, header, payload)
  {
    Assembled(buf, r, PROTO_ICMPV6, header + |payload|, Icmp6Segment(r, header, payload));
  }

  method Icmp6Accumulate(r: Route, head: seq<byte>, payload: seq<byte>) returns (checksum: u32)
    requires r.Valid() && 4 <= |head| <= 256 && |payload| <= MAX_U16
    ensures checksum == OnesSum(r.ipSrc) + OnesSum(r.ipDst) + OnesSum(Be16((|head| + |payload|) % 0x1_0000))
                        + PROTO_ICMPV6 * 256 + OnesSum(head) + OnesSum(payload)
  {
    checksum := PartialChecksum(r.ipSrc);
    var piece := PartialChecksum(r.ipDst);
    checksum := checksum + piece;
    piece := PartialChecksum(Be16((|head| + |payload|) % 0x1_0000));
    checksum := checksum + piece;
    checksum := checksum + PROTO_ICMPV6 as int * 256;
    piece := PartialChecksum(head);
    checksum := checksum + piece;
    piece := PartialChecksum(payload);
    checksum := checksum + piece;
  }

  /** `PktParseTcpFrame`: walks the headers with a running offset. */
  method ParseTcpFrame(frame: seq<byte>) returns (r: Option<Parsed>)
    requires |frame| <= MAX_U32
    ensures r == ParseTcp(frame)
  {
    var offset := 0;
    if |frame| < ETHERNET_LENGTH {
      return None;
    }
    var ethernetType := ReadBe16(frame, 12);
    offset := offset + ETHERNET_LENGTH;
    var proto: byte, ipPayload: u16;
    if ethernetType == TYPE_IPV4 {
      if |frame| < offset + 20 {
        return None;
      }
      proto, ipPayload := frame[offset + 9], (ReadBe16(frame, offset + 2) - 20) % 0x1_0000;
      offset := offset + 20;
    } else if ethernetType == TYPE_IPV6 {
      if |frame| < offset + 40 {
        return None;
      }
      proto, ipPayload := frame[offset + 6], ReadBe16(frame, offset + 4);
      offset := offset + 40;
    } else {
      return None;
    }
    if proto != PROTO_TCP || |frame| < offset + TCP_LENGTH {
      return None;
    }
    var header := offset;
    var headerLength := frame[offset + 12] as int / 16 * 4;
    if |frame| < offset + ipPayload {
      return None;
    }
    offset := offset + headerLength;
    return Some(Parsed(header, offset, (ipPayload - headerLength) % 0x1_0000_0000));
  }
}
