/** Captured frames: the source port looked up ahead, and the full parse of a frame. */
module CollectorFrames {
  import opened Bytes

  const TYPE_IP: nat := 0x0800
  const IP_TCP: byte := 6
  const DLT_EN10MB: int := 1
  const DLT_EN3MB: int := 2
  const ETHERNET_HEADER: nat := 14
  const MIN_HEADER: nat := 20

  datatype Lookahead = Port(port: nat) | OutOfRange

  datatype ParseError = NoEthernetHeader | NoIpHeader | NoTcpHeader | NotTcp | NotIp

  datatype Parsed = Request(srcIp: bytes, srcPort: nat, data: bytes) | Rejected(error: ParseError)

  predicate HasEthernet(linkType: int) {
    linkType == DLT_EN10MB || linkType == DLT_EN3MB
  }

  function HeaderLength(linkType: int): nat {
    if HasEthernet(linkType) then ETHERNET_HEADER else 0
  }

  function BigEndian16(b: bytes): nat
    requires |b| == 2
  {
    b[0] as nat * 256 + b[1] as nat
  }

  function Min(a: nat, b: nat): nat {
    if a < b then a else b
  }

  // The port is read where the length of the IP header says; a frame without any byte of an
  // IP header is indexed out of range.
  function GetPortNo(data: bytes, linkType: int): Lookahead {
    var header := HeaderLength(linkType);
    if header >= |data| then OutOfRange
    else
      var portIdx := header + data[header] as nat % 16 * 4;
      if portIdx + 2 > |data| then Port(0) else Port(BigEndian16(data[portIdx..portIdx + 2]))
  }

  function ParsePacketFast(data: bytes, linkType: int): Parsed {
    if |data| < ETHERNET_HEADER then Rejected(NoEthernetHeader)
    else
      var packetType := if HasEthernet(linkType) then BigEndian16(data[12..14]) else TYPE_IP;
      var payload := data[HeaderLength(linkType)..];
      if packetType != TYPE_IP then Rejected(NotIp)
      else if |payload| < MIN_HEADER then Rejected(NoIpHeader)
      else
        var pEnd := Min(BigEndian16(payload[2..4]), |payload|);
        var pIhl := Min(payload[0] as nat % 16 * 4, pEnd);
        if payload[9] != IP_TCP then Rejected(NotTcp)
        else ParseTcp(payload[pIhl..pEnd], payload[12..16])
  }

  function ParseTcp(segment: bytes, srcIp: bytes): Parsed {
    if |segment| < MIN_HEADER then Rejected(NoTcpHeader)
    else Request(srcIp, BigEndian16(segment[0..2]), segment[Min(segment[12] as nat / 16 * 4, |segment|)..])
  }

  // For every frame that is accepted the port looked up ahead is its source port.
  lemma LookaheadIsPort(data: bytes, linkType: int)
    requires ParsePacketFast(data, linkType).Request?
    ensures GetPortNo(data, linkType) == Port(ParsePacketFast(data, linkType).srcPort)
  {
    var header := HeaderLength(linkType);
    var payload := data[header..];
    var pEnd := Min(BigEndian16(payload[2..4]), |payload|);
    var ihl := payload[0] as nat % 16 * 4;
    var pIhl := Min(ihl, pEnd);
    assert |payload[pIhl..pEnd]| >= MIN_HEADER;
    assert payload[pIhl..pEnd][0..2] == payload[ihl..ihl + 2] == data[header + ihl..header + ihl + 2];
  }

  // Looking ahead never fails where there is the first byte of an IP header, and only there.
  lemma LookaheadInRange(data: bytes, linkType: int)
    ensures GetPortNo(data, linkType).Port? <==> |data| > HeaderLength(linkType)
    ensures GetPortNo(data, linkType).Port? ==> GetPortNo(data, linkType).port < 65536
  {
  }

  // Where the fields of a frame lie: behind the 14 bytes of an Ethernet header (link types 1 and
  // 2) the IP header, whose first byte holds its length in words, and behind that the TCP header.
  function IpAt(linkType: int): nat {
    if linkType == 1 || linkType == 2 then 14 else 0
  }

  function TcpAt(data: bytes, linkType: int): nat
    requires IpAt(linkType) < |data|
  {
    IpAt(linkType) + 4 * (data[IpAt(linkType)] as nat % 16)
  }

  // Where the datagram ends, or the frame if it was cut off.
  function DatagramEnd(data: bytes, linkType: int): nat
    requires IpAt(linkType) + 4 <= |data|
  {
    var ip := IpAt(linkType);
    Min(ip + 256 * (data[ip + 2] as nat) + data[ip + 3] as nat, |data|)
  }

  // The frames accepted: IPv4 by the Ethernet type 0x0800, TCP by the protocol number 6, and
  // room for all three headers.
  predicate Acceptable(data: bytes, linkType: int) {
    var ip := IpAt(linkType);
    && 14 <= |data| && ip + 20 <= |data|
    && (ip == 14 ==> data[12] == 0x08 && data[13] == 0x00)
    && data[ip + 9] == 6 && TcpAt(data, linkType) + 20 <= DatagramEnd(data, linkType)
  }

  // Exactly these frames are accepted, and the fields are taken from their places.
  lemma ParsedByPlaces(data: bytes, linkType: int)
    ensures ParsePacketFast(data, linkType).Request? <==> Acceptable(data, linkType)
    ensures Acceptable(data, linkType) ==>
      var ip, tcp, end := IpAt(linkType), TcpAt(data, linkType), DatagramEnd(data, linkType);
      ParsePacketFast(data, linkType) ==
        Request(data[ip + 12..ip + 16], 256 * (data[tcp] as nat) + data[tcp + 1] as nat,
          data[Min(tcp + 4 * (data[tcp + 12] as nat / 16), end)..end])
  {
    hide ParsePacketFast, ParseTcp;
    FastForm(data, linkType);
    var ip := IpAt(linkType);
    if 14 <= |data| && ip + 20 <= |data| {
      var tcp, end := TcpAt(data, linkType), DatagramEnd(data, linkType);
      EndInside(data, linkType);
      SegmentByPlaces(data, Min(tcp, end), end, data[ip + 12..ip + 16]);
    }
  }

  lemma EndInside(data: bytes, linkType: int)
    requires IpAt(linkType) + 4 <= |data|
    ensures IpAt(linkType) <= DatagramEnd(data, linkType) <= |data|
  {
  }

  // The checks in their order, by places.
  lemma FastForm(data: bytes, linkType: int)
    ensures |data| < 14 ==> ParsePacketFast(data, linkType) == Rejected(NoEthernetHeader)
    ensures var ip := IpAt(linkType);
      14 <= |data| < ip + 20 ==> ParsePacketFast(data, linkType).Rejected?
    ensures var ip := IpAt(linkType);
      14 <= |data| && ip + 20 <= |data| ==>
        ParsePacketFast(data, linkType) ==
          if ip == 14 && !(data[12] == 0x08 && data[13] == 0x00) then Rejected(NotIp)
          else if data[ip + 9] != 6 then Rejected(NotTcp)
          else
            var tcp, end := TcpAt(data, linkType), DatagramEnd(data, linkType);
            ParseTcp(data[Min(tcp, end)..end], data[ip + 12..ip + 16])
  {
    hide BigEndian16, ParseTcp;
    var ip := IpAt(linkType);
    if 14 <= |data| {
      TypeIs(data);
      if ip + 20 <= |data| {
        LengthsAre(data, ip);
        var end, ihl := Min(256 * (data[ip + 2] as nat) + data[ip + 3] as nat, |data| - ip), 4 * (data[ip] as nat % 16);
        SlicesOf(data, ip, Min(ihl, end), end);
      }
    }
  }

  lemma TypeIs(data: bytes)
    requires 14 <= |data|
    ensures BigEndian16(data[12..14]) == TYPE_IP <==> data[12] == 0x08 && data[13] == 0x00
  {
    assert data[12..14] == [data[12], data[13]];
  }

  lemma LengthsAre(data: bytes, ip: nat)
    requires ip + 20 <= |data|
    ensures var payload := data[ip..];
      && |payload| == |data| - ip && payload[0] == data[ip] && payload[9] == data[ip + 9]
      && BigEndian16(payload[2..4]) == 256 * (data[ip + 2] as nat) + data[ip + 3] as nat
      && payload[12..16] == data[ip + 12..ip + 16]
  {
    assert data[ip..][2..4] == [data[ip + 2], data[ip + 3]];
  }

  lemma SlicesOf(data: bytes, ip: nat, m: nat, n: nat)
    requires ip <= |data| && m <= n <= |data| - ip
    ensures data[ip..][m..n] == data[ip + m..ip + n]
  {
  }

  lemma SegmentByPlaces(data: bytes, tcp: nat, end: nat, srcIp: bytes)
    requires tcp <= end <= |data|
    ensures ParseTcp(data[tcp..end], srcIp) ==
      if end < tcp + 20 then Rejected(NoTcpHeader)
      else Request(srcIp, 256 * (data[tcp] as nat) + data[tcp + 1] as nat,
        data[Min(tcp + 4 * (data[tcp + 12] as nat / 16), end)..end])
  {
    if end >= tcp + 20 {
      var s := data[tcp..end];
      assert s[0..2] == [data[tcp], data[tcp + 1]];
      var k := Min(4 * (data[tcp + 12] as nat / 16), end - tcp);
      assert s[k..] == data[tcp + k..end];
    }
  }

  // The port looked up ahead, for accepted frames and others.
  lemma LookaheadByPlaces(data: bytes, linkType: int)
    requires IpAt(linkType) < |data|
    ensures var tcp := TcpAt(data, linkType);
      GetPortNo(data, linkType) ==
        if tcp + 2 > |data| then Port(0) else Port(256 * (data[tcp] as nat) + data[tcp + 1] as nat)
  {
    var tcp := TcpAt(data, linkType);
    if tcp + 2 <= |data| {
      assert data[tcp..tcp + 2] == [data[tcp], data[tcp + 1]];
    }
  }

  // Why a frame is rejected: the first header that is missing or not the right one.
  lemma RejectedFor(data: bytes, linkType: int)
    ensures var r, ip := ParsePacketFast(data, linkType), IpAt(linkType);
      && (r == Rejected(NoEthernetHeader) <==> |data| < 14)
      && (r == Rejected(NotIp) <==> |data| >= 14 && ip == 14 && !(data[12] == 0x08 && data[13] == 0x00))
      && (r == Rejected(NoIpHeader) ==> |data| < ip + 20) && (r == Rejected(NotTcp) ==> data[ip + 9] != 6)
  {
  }

  // A TCP segment in an IPv4 datagram (section 3.1 of RFC 791 and section 3.1 of RFC 9293),
  // with the header fields that are not looked at given as bytes.
  datatype Segment = Segment(
    srcPort: nat, tcpFields: bytes, flags: byte, tcpRest: bytes, tcpOptions: bytes, payload: bytes)

  datatype Datagram = Datagram(
    version: nat, tos: byte, ipFields: bytes, checksum: bytes, srcIp: bytes, dstIp: bytes, ipOptions: bytes,
      segment: Segment)

  predicate ValidSegment(s: Segment) {
    && s.srcPort < 65536 && |s.tcpFields| == 10 && |s.tcpRest| == 7
    && |s.tcpOptions| % 4 == 0 && |s.tcpOptions| <= 40 && s.flags as nat < 16
  }

  predicate ValidDatagram(d: Datagram) {
    && d.version < 16 && |d.ipFields| == 5 && |d.checksum| == 2 && |d.srcIp| == 4 && |d.dstIp| == 4
    && |d.ipOptions| % 4 == 0 && |d.ipOptions| <= 40
    && ValidSegment(d.segment) && TotalLength(d) < 65536
  }

  function SegmentLength(s: Segment): nat {
    MIN_HEADER + |s.tcpOptions| + |s.payload|
  }

  function TotalLength(d: Datagram): nat {
    MIN_HEADER + |d.ipOptions| + SegmentLength(d.segment)
  }

  function Encode16(n: nat): bytes
    requires n < 65536
  {
    [(n / 256) as byte, (n % 256) as byte]
  }

  function EncodeSegment(s: Segment): (b: bytes)
    requires ValidSegment(s)
    ensures |b| == SegmentLength(s)
  {
    var words := (MIN_HEADER + |s.tcpOptions|) / 4;
    Encode16(s.srcPort) + s.tcpFields + [(words * 16) as byte + s.flags] + s.tcpRest + s.tcpOptions + s.payload
  }

  function IpHeader(d: Datagram): (b: bytes)
    requires ValidDatagram(d)
    ensures |b| == MIN_HEADER
  {
    var words := (MIN_HEADER + |d.ipOptions|) / 4;
    [(d.version * 16 + words) as byte, d.tos] + Encode16(TotalLength(d)) + d.ipFields + [6] + d.checksum +
      d.srcIp + d.dstIp
  }

  function EncodeDatagram(d: Datagram): (b: bytes)
    requires ValidDatagram(d)
    ensures |b| == TotalLength(d)
  {
    IpHeader(d) + d.ipOptions + EncodeSegment(d.segment)
  }

  // Parsing a frame gives the sender and exactly the payload of the segment, whatever options
  // the headers have and whatever pads the frame.
  lemma ParseEncoded(addresses: bytes, d: Datagram, padding: bytes, linkType: int)
    requires ValidDatagram(d) && |addresses| == 12
    ensures var link := if linkType == 1 || linkType == 2 then addresses + [0x08, 0x00] else [];
      ParsePacketFast(link + EncodeDatagram(d) + padding, linkType) ==
      Request(d.srcIp, d.segment.srcPort, d.segment.payload)
  {
    hide EncodeDatagram, ParseTcp, ValidSegment, SegmentLength, EncodeSegment;
    var link := if linkType == 1 || linkType == 2 then addresses + [0x08, 0x00] else [];
    var data := link + EncodeDatagram(d) + padding;
    assert data[|link|..] == EncodeDatagram(d) + padding;
    if HasEthernet(linkType) {
      assert data[12..14] == [0x08, 0x00];
    }
    HeaderFields(d, padding);
    SegmentParsed(d.segment, d.srcIp);
  }

  lemma HeaderFields(d: Datagram, padding: bytes)
    requires ValidDatagram(d)
    ensures var b := EncodeDatagram(d) + padding;
      var ihl := MIN_HEADER + |d.ipOptions|;
      && |b| >= TotalLength(d) >= MIN_HEADER && b[0] as nat % 16 * 4 == ihl
      && BigEndian16(b[2..4]) == TotalLength(d) && b[9] == IP_TCP && b[12..16] == d.srcIp
      && b[ihl..TotalLength(d)] == EncodeSegment(d.segment)
  {
    hide EncodeSegment, SegmentLength, IpHeader, BigEndian16;
    var b := EncodeDatagram(d) + padding;
    var h := IpHeader(d);
    HeaderBytes(d);
    assert b[0] == h[0] && b[9] == h[9];
    assert b[2..4] == h[2..4] && b[12..16] == h[12..16];
    var ihl := MIN_HEADER + |d.ipOptions|;
    assert b[ihl..TotalLength(d)] == EncodeSegment(d.segment);
  }

  lemma HeaderBytes(d: Datagram)
    requires ValidDatagram(d)
    ensures var h := IpHeader(d);
      && h[0] as nat % 16 * 4 == MIN_HEADER + |d.ipOptions| && h[9] == IP_TCP
      && BigEndian16(h[2..4]) == TotalLength(d) && h[12..16] == d.srcIp
  {
    var words := (MIN_HEADER + |d.ipOptions|) / 4;
    LengthByte(d.version, words, |d.ipOptions|);
    SixteenBits(TotalLength(d));
    hide TotalLength, ValidSegment, Encode16, BigEndian16;
    var h := IpHeader(d);
    var front := [(d.version * 16 + (MIN_HEADER + |d.ipOptions|) / 4) as byte, d.tos] + Encode16(TotalLength(d));
    var middle := d.ipFields + [6] + d.checksum;
    assert h == front + middle + (d.srcIp + d.dstIp);
    assert h[2..4] == front[2..4] == Encode16(TotalLength(d));
    assert h[9] == middle[5] == 6;
    assert h[12..16] == (d.srcIp + d.dstIp)[..4] == d.srcIp;
  }

  lemma LengthByte(version: nat, words: nat, options: nat)
    requires version < 16 && options % 4 == 0 && options <= 40 && words == (20 + options) / 4
    ensures version * 16 + words < 256 && (version * 16 + words) % 16 * 4 == 20 + options
  {
    assert options == 4 * (options / 4);
    assert words == 5 + options / 4 && words < 16;
    assert (version * 16 + words) % 16 == words;
  }

  lemma SixteenBits(n: nat)
    requires n < 65536
    ensures |Encode16(n)| == 2 && BigEndian16(Encode16(n)) == n
  {
  }

  lemma SegmentParsed(s: Segment, srcIp: bytes)
    requires ValidSegment(s)
    ensures ParseTcp(EncodeSegment(s), srcIp) == Request(srcIp, s.srcPort, s.payload)
  {
    var b := EncodeSegment(s);
    assert b[0..2] == Encode16(s.srcPort);
    var words := (MIN_HEADER + |s.tcpOptions|) / 4;
    assert b[12] as nat == words * 16 + s.flags as nat;
    assert b[MIN_HEADER + |s.tcpOptions|..] == s.payload;
  }
}
