// The octets of a captured frame: a Linux cooked-capture header, an IP header, a TCP header
// and the payload, all made up from the details of the connection.
module Packets {
  import opened Bytes
  import opened Checksum
  import opened Common
  import opened TcpSegments

  datatype Version = V4 | V6

  /** Addresses are in network order, as the socket interface keeps them. */
  datatype Connection = Connection(
    version: Version, source: seq<byte>, destination: seq<byte>,
    sport: u16, dport: u16, ttl: byte, checksums: bool)

  function AddressSize(v: Version): nat {
    if v.V4? then 4 else 16
  }

  predicate Valid(cn: Connection) {
    |cn.source| == |cn.destination| == AddressSize(cn.version)
  }

  const TCP: byte := 6
  const LCC_SIZE: nat := 16
  const TCP_SIZE: nat := 20

  function IpSize(v: Version): nat {
    if v.V4? then 20 else 40
  }

  /** Who sends a frame, and who receives it. */
  function From(cn: Connection, incoming: bool): seq<byte> {
    if incoming then cn.destination else cn.source
  }

  function To(cn: Connection, incoming: bool): seq<byte> {
    if incoming then cn.source else cn.destination
  }

  // ----- Headers -----

  function LccHeader(v: Version, incoming: bool): (h: seq<byte>)
    ensures |h| == LCC_SIZE
  {
    [0, if incoming then 0 else 4, 0, 1, 0, 6]
    + Repeat(if incoming then 2 else 1, 6) + [0, 0] + (if v.V4? then [0x08, 0x00] else [0x86, 0xDD])
  }

  /** An IPv4 header without options whose checksum field is still zero. */
  function BareIpv4(cn: Connection, f: Frame): (h: seq<byte>)
    requires Valid(cn) && cn.version.V4?
    ensures |h| == 20 && h[10] == 0 && h[11] == 0
  {
    [0x45, 0] + BE16((20 + TCP_SIZE + |f.payload|) % U16) + LE16(f.id) + [0x40, 0, cn.ttl, TCP, 0, 0]
    + From(cn, f.incoming) + To(cn, f.incoming)
  }

  function Ipv6Header(cn: Connection, f: Frame): (h: seq<byte>)
    requires Valid(cn) && cn.version.V6?
    ensures |h| == 40
  {
    [0x60, 0, 0, 0] + BE16((TCP_SIZE + |f.payload|) % U16) + [TCP, cn.ttl] + From(cn, f.incoming) + To(cn, f.incoming)
  }

  function IpHeader(cn: Connection, f: Frame): (h: seq<byte>)
    requires Valid(cn)
    ensures |h| == IpSize(cn.version)
  {
    if cn.version.V6? then Ipv6Header(cn, f)
    else
      var bare := BareIpv4(cn, f);
      Store16(bare, 10, if cn.checksums then Cksum(bare) else 0)
  }

  function FlagBits(f: Frame): byte {
    (if f.fin then 1 else 0) + (if f.syn then 2 else 0) + (if f.ack then 16 else 0)
  }

  /** A TCP header without options whose checksum field is still zero. */
  function BareTcp(cn: Connection, f: Frame): (h: seq<byte>)
    ensures |h| == TCP_SIZE && h[16] == 0 && h[17] == 0
  {
    BE16(if f.incoming then cn.dport else cn.sport) + BE16(if f.incoming then cn.sport else cn.dport)
    + BE32(f.seqNo) + BE32(f.ackNo) + [0x50, FlagBits(f), 0x80, 0, 0, 0, 0, 0]
  }

  /** The pseudo header the checksum also covers. */
  function PseudoHeader(cn: Connection, f: Frame): (h: seq<byte>)
    requires Valid(cn)
    ensures |h| == 2 * AddressSize(cn.version) + 4
  {
    From(cn, f.incoming) + To(cn, f.incoming) + [0, TCP] + BE16((|f.payload| + TCP_SIZE) % U16)
  }

  function TcpHeader(cn: Connection, f: Frame): (h: seq<byte>)
    requires Valid(cn)
    ensures |h| == TCP_SIZE
  {
    var bare := BareTcp(cn, f);
    Store16(bare, 16, if cn.checksums then Cksum(L4Data(PseudoHeader(cn, f), bare, f.payload)) else 0)
  }

  function Packet(cn: Connection, f: Frame): (p: seq<byte>)
    requires Valid(cn)
    ensures |p| == LCC_SIZE + IpSize(cn.version) + TCP_SIZE + |f.payload|
  {
    LccHeader(cn.version, f.incoming) + IpHeader(cn, f) + TcpHeader(cn, f) + f.payload
  }

  // ----- Building a packet -----

  method CreateIpHeader(cn: Connection, f: Frame) returns (h: seq<byte>)
    requires Valid(cn)
    ensures h == IpHeader(cn, f)
  {
    if cn.version.V6? {
      return Ipv6Header(cn, f);
    }
    h := BareIpv4(cn, f);
    var sum := IphdrCksum(h, cn.checksums);
    h := Store16(h, 10, sum);
  }

  method CreateTcpHeader(cn: Connection, f: Frame) returns (h: seq<byte>)
    requires Valid(cn)
    ensures h == TcpHeader(cn, f)
  {
    h := BareTcp(cn, f);
    var sum := L4hdrCksum(PseudoHeader(cn, f), h, f.payload, cn.checksums);
    h := Store16(h, 16, sum);
  }

  method BuildPacket(cn: Connection, f: Frame) returns (p: seq<byte>)
    requires Valid(cn)
    ensures p == Packet(cn, f)
  {
    p := LccHeader(cn.version, f.incoming);
    var ip := CreateIpHeader(cn, f);
    p := p + ip;
    var tcp := CreateTcpHeader(cn, f);
    p := p + tcp + f.payload;
  }

  // ----- Reading a packet -----

  /** What a dissector finds behind the cooked-capture header: the frame, without the IP
      identification, which IPv6 does not have. */
  function Dissected(p: seq<byte>): Option<Frame> {
    if |p| < LCC_SIZE then None
    else if p[14..16] == [0x08, 0x00] then DissectedTcp(p, LCC_SIZE + 20)
    else if p[14..16] == [0x86, 0xDD] then DissectedTcp(p, LCC_SIZE + 40)
    else None
  }

  function DissectedTcp(p: seq<byte>, at: nat): Option<Frame>
    requires LCC_SIZE <= at
  {
    if |p| < at + TCP_SIZE then None
    else
      var bits := p[at + 13];
      Some(Frame(p[1] == 0, FromBE32(p[at + 4..]), FromBE32(p[at + 8..]),
                 bits / 2 % 2 == 1, bits % 2 == 1, bits / 16 % 2 == 1, 0, p[at + TCP_SIZE..]))
  }

  lemma BitsAreRead(f: Frame)
    ensures var b := FlagBits(f);
            (b / 2 % 2 == 1 <==> f.syn) && (b % 2 == 1 <==> f.fin) && (b / 16 % 2 == 1 <==> f.ack)
  {
  }

  /** Where the fields of a TCP header lie, with or without a checksum. */
  lemma TcpFields(cn: Connection, f: Frame, rest: seq<byte>)
    requires Valid(cn)
    ensures var t := TcpHeader(cn, f) + rest;
            FromBE32(t[4..]) == f.seqNo && FromBE32(t[8..]) == f.ackNo && t[13] == FlagBits(f) && t[TCP_SIZE..] == rest
  {
    var bare := BareTcp(cn, f);
    var h := TcpHeader(cn, f);
    assert forall i :: 0 <= i < 16 ==> h[i] == bare[i];
    hide TcpHeader, FlagBits;
    var t := h + rest;
    var q, a := BE32(f.seqNo), BE32(f.ackNo);
    assert bare[4] == q[0] && bare[5] == q[1] && bare[6] == q[2] && bare[7] == q[3];
    assert bare[8] == a[0] && bare[9] == a[1] && bare[10] == a[2] && bare[11] == a[3];
    SameNumber(t[4..], q);
    SameNumber(t[8..], a);
  }

  lemma TcpPartIsDissected(front: seq<byte>, tcp: seq<byte>, f: Frame)
    requires LCC_SIZE <= |front| && |tcp| >= TCP_SIZE
    requires front[1] == if f.incoming then 0 else 4
    requires FromBE32(tcp[4..]) == f.seqNo && FromBE32(tcp[8..]) == f.ackNo
    requires tcp[13] == FlagBits(f) && tcp[TCP_SIZE..] == f.payload
    ensures DissectedTcp(front + tcp, |front|) == Some(f.(id := 0))
  {
    BitsAreRead(f);
    hide FlagBits, FromBE32;
    var p, at := front + tcp, |front|;
    assert p[at + 4..] == tcp[4..] && p[at + 8..] == tcp[8..] && p[at + TCP_SIZE..] == tcp[TCP_SIZE..];
  }

  /** Dissecting a built packet gives the frame back, for either IP version. */
  lemma PacketIsDissected(cn: Connection, f: Frame)
    requires Valid(cn)
    ensures Dissected(Packet(cn, f)) == Some(f.(id := 0))
  {
    var lcc := LccHeader(cn.version, f.incoming);
    TcpFields(cn, f, f.payload);
    assert lcc[1] == (if f.incoming then 0 else 4) && lcc[14..16] == if cn.version.V4? then [0x08, 0x00] else [0x86, 0xDD];
    hide LccHeader, IpHeader, TcpHeader, FlagBits, DissectedTcp, FromBE32;
    var front, t := lcc + IpHeader(cn, f), TcpHeader(cn, f) + f.payload;
    TcpPartIsDissected(front, t, f);
    var p := Packet(cn, f);
    assert p == front + t;
    assert p[14..16] == lcc[14..16];
  }

  /** The octets of the sender's and of the receiver's address. */
  function Addresses(p: seq<byte>, v: Version): (seq<byte>, seq<byte>)
    requires |p| >= LCC_SIZE + IpSize(v)
  {
    var at := if v.V4? then LCC_SIZE + 12 else LCC_SIZE + 8;
    var n := AddressSize(v);
    (p[at..at + n], p[at + n..at + 2 * n])
  }

  function Ports(p: seq<byte>, v: Version): (u16, u16)
    requires |p| >= LCC_SIZE + IpSize(v) + TCP_SIZE
  {
    var at := LCC_SIZE + IpSize(v);
    (FromBE16(p[at..]), FromBE16(p[at + 2..]))
  }

  lemma IpAddresses(cn: Connection, f: Frame)
    requires Valid(cn)
    ensures var h := IpHeader(cn, f);
            var at := if cn.version.V4? then 12 else 8;
            var n := AddressSize(cn.version);
            h[at..at + n] == From(cn, f.incoming) && h[at + n..at + 2 * n] == To(cn, f.incoming)
  {
    var h := IpHeader(cn, f);
    if cn.version.V4? {
      var bare := BareIpv4(cn, f);
      assert bare[12..16] == From(cn, f.incoming) && bare[16..20] == To(cn, f.incoming);
      assert forall i :: 12 <= i < 20 ==> h[i] == bare[i];
      hide IpHeader, BareIpv4;
      assert h[12..16] == bare[12..16] && h[16..20] == bare[16..20];
    }
  }

  lemma TcpPorts(cn: Connection, f: Frame)
    requires Valid(cn)
    ensures var h := TcpHeader(cn, f);
            && FromBE16(h) == (if f.incoming then cn.dport else cn.sport)
            && FromBE16(h[2..]) == (if f.incoming then cn.sport else cn.dport)
  {
    var bare, h := BareTcp(cn, f), TcpHeader(cn, f);
    assert forall i :: 0 <= i < 16 ==> h[i] == bare[i];
    var s, d := BE16(if f.incoming then cn.dport else cn.sport), BE16(if f.incoming then cn.sport else cn.dport);
    assert bare[0] == s[0] && bare[1] == s[1] && bare[2] == d[0] && bare[3] == d[1];
    hide TcpHeader, BareTcp;
    SamePair(h, s);
    SamePair(h[2..], d);
  }

  lemma Inside(before: seq<byte>, part: seq<byte>, after: seq<byte>, i: nat, j: nat)
    requires i <= j <= |part|
    ensures (before + part + after)[|before| + i..|before| + j] == part[i..j]
  {
  }

  /** Frames of either direction go between the right ends. */
  lemma EndpointsAreRead(cn: Connection, f: Frame)
    requires Valid(cn)
    ensures Addresses(Packet(cn, f), cn.version)
         == if f.incoming then (cn.destination, cn.source) else (cn.source, cn.destination)
    ensures Ports(Packet(cn, f), cn.version)
         == if f.incoming then (cn.dport, cn.sport) else (cn.sport, cn.dport)
  {
    IpAddresses(cn, f);
    TcpPorts(cn, f);
    AddressesOf(cn, f);
    PortsOf(cn, f);
    hide Addresses, Ports, Packet, IpHeader, TcpHeader;
  }

  lemma AddressesOf(cn: Connection, f: Frame)
    requires Valid(cn)
    ensures var h, at, n := IpHeader(cn, f), if cn.version.V4? then 12 else 8, AddressSize(cn.version);
            Addresses(Packet(cn, f), cn.version) == (h[at..at + n], h[at + n..at + 2 * n])
  {
    var lcc, ip, tcp := LccHeader(cn.version, f.incoming), IpHeader(cn, f), TcpHeader(cn, f);
    var at, n := if cn.version.V4? then 12 else 8, AddressSize(cn.version);
    assert Packet(cn, f) == lcc + ip + (tcp + f.payload);
    hide LccHeader, IpHeader, TcpHeader, Packet;
    Inside(lcc, ip, tcp + f.payload, at, at + n);
    Inside(lcc, ip, tcp + f.payload, at + n, at + 2 * n);
  }

  lemma PortsOf(cn: Connection, f: Frame)
    requires Valid(cn)
    ensures var h := TcpHeader(cn, f);
            Ports(Packet(cn, f), cn.version) == (FromBE16(h), FromBE16(h[2..]))
  {
    var p, tcp := Packet(cn, f), TcpHeader(cn, f);
    var t := LCC_SIZE + IpSize(cn.version);
    hide LccHeader, IpHeader, TcpHeader;
    assert p[t..t + 4] == tcp[..4];
    hide Packet, FromBE16;
    SamePair(p[t..], tcp);
    SamePair(p[t + 2..], tcp[2..]);
  }

  /** The size of an IP packet by its own header. */
  function ClaimedSize(header: seq<byte>, v: Version): nat
    requires |header| == IpSize(v)
  {
    if v.V4? then FromBE16(header[2..]) else IpSize(v) + FromBE16(header[4..])
  }

  /** The 16-bit length field is right exactly for payloads that fit into it; without a limit
      on the payload it may not be. */
  lemma LengthFieldIff(cn: Connection, f: Frame)
    requires Valid(cn)
    ensures ClaimedSize(IpHeader(cn, f), cn.version) == IpSize(cn.version) + TCP_SIZE + |f.payload|
        <==> |f.payload| < U16 - TCP_SIZE - (if cn.version.V4? then IpSize(V4) else 0)
  {
    var size := TCP_SIZE + |f.payload| + if cn.version.V4? then IpSize(V4) else 0;
    LengthFieldIsRead(cn, f);
    FitsIff(size);
    hide IpHeader, ClaimedSize;
  }

  lemma FitsIff(size: nat)
    ensures size % U16 == size <==> size < U16
  {
  }

  lemma LengthFieldIsRead(cn: Connection, f: Frame)
    requires Valid(cn)
    ensures ClaimedSize(IpHeader(cn, f), cn.version)
         == if cn.version.V4? then (IpSize(V4) + TCP_SIZE + |f.payload|) % U16
            else IpSize(V6) + (TCP_SIZE + |f.payload|) % U16
  {
    var h := IpHeader(cn, f);
    if cn.version.V4? {
      var n := BE16((20 + TCP_SIZE + |f.payload|) % U16);
      assert h[2] == n[0] && h[3] == n[1];
      hide IpHeader, FromBE16, BE16;
      SamePair(h[2..], n);
    } else {
      var n := BE16((TCP_SIZE + |f.payload|) % U16);
      assert h[4] == n[0] && h[5] == n[1];
      hide IpHeader, FromBE16, BE16;
      SamePair(h[4..], n);
    }
  }

  // ----- The other header fields -----

  /** The cooked-capture header: from this host or to it, Ethernet with made-up addresses of
      six octets, and the version of IP. */
  predicate LccFields(p: seq<byte>, v: Version, incoming: bool)
    requires |p| >= LCC_SIZE
  {
    && p[..6] == [0, if incoming then 0 else 4, 0, 1, 0, 6]
    && (forall i :: 6 <= i < 12 ==> p[i] == if incoming then 2 else 1)
    && p[12..16] == if v.V4? then [0, 0, 0x08, 0x00] else [0, 0, 0x86, 0xDD]
  }

  /** Version and header size, identification, no fragments, time to live, TCP. */
  predicate IpFields(h: seq<byte>, cn: Connection, id: u16)
    requires |h| == IpSize(cn.version)
  {
    if cn.version.V4? then
      && h[..2] == [0x45, 0] && FromLE16(h[4..]) == id && h[6..10] == [0x40, 0, cn.ttl, TCP]
      && (!cn.checksums ==> h[10] == h[11] == 0)
    else
      h[..4] == [0x60, 0, 0, 0] && h[6] == TCP && h[7] == cn.ttl
  }

  /** A header of five words, a window of 32768, nothing urgent. */
  predicate TcpConstants(h: seq<byte>, checksums: bool)
    requires |h| == TCP_SIZE
  {
    h[12] == 0x50 && h[14..16] == [0x80, 0] && h[18] == h[19] == 0 && (!checksums ==> h[16] == h[17] == 0)
  }

  lemma IpFieldsAreSet(cn: Connection, f: Frame)
    requires Valid(cn)
    ensures IpFields(IpHeader(cn, f), cn, f.id)
  {
    if cn.version.V4? {
      var bare, h, id := BareIpv4(cn, f), IpHeader(cn, f), LE16(f.id);
      assert bare[..2] == [0x45, 0] && bare[4..6] == id && bare[6..10] == [0x40, 0, cn.ttl, TCP];
      assert forall i :: 0 <= i < 10 ==> h[i] == bare[i];
      assert !cn.checksums ==> h[10] == h[11] == 0;
      hide IpHeader, BareIpv4, LE16, FromLE16;
      assert h[..2] == bare[..2] && h[6..10] == bare[6..10] && h[4..6] == bare[4..6];
      SamePair(h[4..], h[4..6]);
    }
  }

  lemma TcpConstantsAreSet(cn: Connection, f: Frame)
    requires Valid(cn)
    ensures TcpConstants(TcpHeader(cn, f), cn.checksums)
  {
    var bare, h := BareTcp(cn, f), TcpHeader(cn, f);
    assert bare[12] == 0x50 && bare[14] == 0x80 && bare[15] == 0 && bare[18] == bare[19] == 0;
    assert forall i :: 0 <= i < TCP_SIZE && i != 16 && i != 17 ==> h[i] == bare[i];
    assert !cn.checksums ==> h[16] == h[17] == 0;
  }

  /** The fields of a built packet that do not come from the conversation. */
  lemma HeaderFields(cn: Connection, f: Frame)
    requires Valid(cn)
    ensures var p, at := Packet(cn, f), LCC_SIZE + IpSize(cn.version);
            && LccFields(p, cn.version, f.incoming)
            && IpFields(p[LCC_SIZE..at], cn, f.id)
            && TcpConstants(p[at..at + TCP_SIZE], cn.checksums)
  {
    IpFieldsAreSet(cn, f);
    TcpConstantsAreSet(cn, f);
    var p, at := Packet(cn, f), LCC_SIZE + IpSize(cn.version);
    PartsOfPacket(cn, f);
    assert LccFields(LccHeader(cn.version, f.incoming), cn.version, f.incoming);
    hide IpHeader, TcpHeader, LccHeader, IpFields, TcpConstants;
    assert p[at..at + TCP_SIZE] == p[at..][..TCP_SIZE] == TcpHeader(cn, f);
    var lcc := LccHeader(cn.version, f.incoming);
    assert p[..LCC_SIZE] == lcc;
    assert p[..6] == lcc[..6] && p[12..16] == lcc[12..16] && forall i :: 6 <= i < 12 ==> p[i] == lcc[i];
  }

  // ----- Checksums of a packet -----

  /** With checksums enabled, a receiver's sums over the IP header and over the TCP segment
      with its pseudo header come out right. */
  lemma CapturedChecksumsVerify(cn: Connection, f: Frame)
    requires Valid(cn) && cn.checksums
    requires NoOverflow(L4Data(PseudoHeader(cn, f), BareTcp(cn, f), f.payload))
    ensures cn.version.V4? ==> Cksum(IpHeader(cn, f)) == 0
    ensures Cksum(L4Data(PseudoHeader(cn, f), TcpHeader(cn, f), f.payload)) == 0
  {
    if cn.version.V4? {
      CompletedVerifies(BareIpv4(cn, f), 10);
    }
    hide Cksum, BareTcp, PseudoHeader, BareIpv4;
    CompletedL4Verifies(PseudoHeader(cn, f), BareTcp(cn, f), f.payload, 16);
  }

  lemma SumsOfPairs(a: seq<byte>, b: seq<byte>, n: u16)
    requires |a| % 2 == 0 && |b| % 2 == 0
    ensures WordSum(a + b + [0, TCP] + BE16(n)) == WordSum(a) + WordSum(b) + 6 + n
  {
    SumsAdd(a + b + [0, TCP], BE16(n));
    SumsAdd(a + b, [0, TCP]);
    SumsAdd(a, b);
    OneWord([0, TCP]);
    OneWord(BE16(n));
    hide WordSum;
  }

  lemma OneWord(w: seq<byte>)
    requires |w| == 2
    ensures WordSum(w) == w[0] as int * 256 + w[1]
  {
    LastWord(w, 0);
    assert Words(w, 0) == 0;
    hide Words;
  }

  /** A receiver goes by the octets of the packet: the words of the IPv4 header, and the words
      of the two addresses, the protocol number, the length of the segment and the words of
      the segment, each add up to a non-zero multiple of 65535. */
  predicate SumsRight(p: seq<byte>, v: Version)
    requires |p| >= LCC_SIZE + IpSize(v) + TCP_SIZE
  {
    var at := LCC_SIZE + IpSize(v);
    var (sender, receiver) := Addresses(p, v);
    var sum := WordSum(sender) + WordSum(receiver) + 6 + (|p| - at) % U16 + SegmentSum(p[at..]);
    && (v.V4? ==> var s := WordSum(p[LCC_SIZE..at]); s > 0 && s % 0xFFFF == 0)
    && sum > 0 && sum % 0xFFFF == 0
  }

  lemma PacketSumsRight(cn: Connection, f: Frame)
    requires Valid(cn) && cn.checksums
    requires 2 * AddressSize(cn.version) + 4 + TCP_SIZE + |f.payload| <= 2 * 65537
    ensures SumsRight(Packet(cn, f), cn.version)
  {
    var p, v := Packet(cn, f), cn.version;
    EndpointsAreRead(cn, f);
    PartsOfPacket(cn, f);
    SumsAreRight(cn, f);
    hide Packet, IpHeader, TcpHeader, From, To, WordSum, SegmentSum, SumsRight, Addresses, L4Data;
    SumsOfParts(p, v, IpHeader(cn, f), From(cn, f.incoming), To(cn, f.incoming), TcpHeader(cn, f) + f.payload);
  }

  lemma SumsOfParts(p: seq<byte>, v: Version, ip: seq<byte>, sender: seq<byte>, receiver: seq<byte>, segment: seq<byte>)
    requires |p| >= LCC_SIZE + IpSize(v) + TCP_SIZE
    requires Addresses(p, v) == (sender, receiver)
    requires p[LCC_SIZE..LCC_SIZE + IpSize(v)] == ip && p[LCC_SIZE + IpSize(v)..] == segment
    requires v.V4? ==> WordSum(ip) > 0 && WordSum(ip) % 0xFFFF == 0
    requires var sum := WordSum(sender) + WordSum(receiver) + 6 + |segment| % U16 + SegmentSum(segment);
             sum > 0 && sum % 0xFFFF == 0
    ensures SumsRight(p, v)
  {
    hide WordSum, SegmentSum, Addresses;
  }

  lemma SumsAreRight(cn: Connection, f: Frame)
    requires Valid(cn) && cn.checksums
    requires 2 * AddressSize(cn.version) + 4 + TCP_SIZE + |f.payload| <= 2 * 65537
    ensures cn.version.V4? ==> var s := WordSum(IpHeader(cn, f)); s > 0 && s % 0xFFFF == 0
    ensures var sum := WordSum(From(cn, f.incoming)) + WordSum(To(cn, f.incoming)) + 6 + (TCP_SIZE + |f.payload|) % U16
                       + SegmentSum(TcpHeader(cn, f) + f.payload);
            sum > 0 && sum % 0xFFFF == 0
  {
    CapturedChecksumsVerify(cn, f);
    hide WordSum, SegmentSum, Cksum, IpHeader, TcpHeader, BareTcp, PseudoHeader, From, To;
    SegmentSumsRight(cn, f);
    if cn.version.V4? {
      VerifiesIff(IpHeader(cn, f));
    }
  }

  lemma PartsOfPacket(cn: Connection, f: Frame)
    requires Valid(cn)
    ensures var p := Packet(cn, f);
            var at := LCC_SIZE + IpSize(cn.version);
            p[LCC_SIZE..at] == IpHeader(cn, f) && p[at..] == TcpHeader(cn, f) + f.payload
  {
    hide LccHeader, IpHeader, TcpHeader;
  }

  lemma SegmentSumsRight(cn: Connection, f: Frame)
    requires Valid(cn)
    requires 2 * AddressSize(cn.version) + 4 + TCP_SIZE + |f.payload| <= 2 * 65537
    requires Cksum(L4Data(PseudoHeader(cn, f), TcpHeader(cn, f), f.payload)) == 0
    ensures var sum := WordSum(From(cn, f.incoming)) + WordSum(To(cn, f.incoming)) + 6 + (TCP_SIZE + |f.payload|) % U16
                       + SegmentSum(TcpHeader(cn, f) + f.payload);
            sum > 0 && sum % 0xFFFF == 0
  {
    SumsOfPairs(From(cn, f.incoming), To(cn, f.incoming), (|f.payload| + TCP_SIZE) % U16);
    hide WordSum, SegmentSum, Cksum, TcpHeader;
    L4SumIsReceiverSum(PseudoHeader(cn, f), TcpHeader(cn, f), f.payload);
    VerifiesIff(L4Data(PseudoHeader(cn, f), TcpHeader(cn, f), f.payload));
  }
}
