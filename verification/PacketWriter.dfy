/** `write_tcp` and `write_udp` as they fill a buffer. */
module PacketWriter {
  import opened Words
  import opened Checksum
  import opened Reassembly
  import opened TcpModel
  import opened PacketCodec

  /** `memcpy` into the buffer. */
  method Put(buffer: array<u8>, at: nat, bytes: Bytes)
    requires at + |bytes| <= buffer.Length
    modifies buffer
    ensures buffer[..] == old(buffer[..])[..at] + bytes + old(buffer[..])[at + |bytes|..]
  {
    forall i | 0 <= i < |bytes| {
      buffer[at + i] := bytes[i];
    }
  }

  /** One's-complement sums of consecutive pieces, each started with the sum so far. */
  lemma Chained(a: Bytes, b: Bytes, s: nat, t: nat)
    requires |a| % 2 == 0 && s == Fold(WordSum(a)) && t == Fold(s + WordSum(b))
    ensures t == Fold(WordSum(a + b))
  {
    ChecksumChains(0, a, b);
  }

  /** The pieces of an IPv4 header in a buffer. */
  lemma Ip4Layout(before: Bytes, after: Bytes, head: Bytes, check: Bytes, rest: Bytes)
    requires |before| >= 20 && |head| == 10 && |check| == 2 && |rest| == 8
    requires before[..20] == head + Stored(0) + rest
    requires after == before[..10] + check + before[12..]
    ensures after[..20] == head + check + rest && after[20..] == before[20..]
  {
    assert before[..10] == before[..20][..10] == head;
    assert before[12..20] == before[..20][12..] == rest;
  }

  /** The IPv4 header part of `write_tcp` and `write_udp`. */
  method PutIp4Header(buffer: array<u8>, c: Conn, protocol: u8)
    requires IsIp4(c) && 20 <= buffer.Length
    modifies buffer
    ensures buffer[..][..20] == Ip4Sealed(c, protocol, buffer.Length % TWO16)
    ensures buffer[..][20..] == old(buffer[..])[20..]
  {
    hide Fold, WordSum, Ip4Head, Ip4Sealed, Stored;
    var head := Ip4Head(protocol, buffer.Length % TWO16);
    var addresses := c.daddr + c.saddr;
    Ip4Lengths(protocol, buffer.Length % TWO16);
    Put(buffer, 0, head + Stored(0) + addresses);
    ghost var before := buffer[..];
    HeaderBefore(before, head, addresses);
    assert buffer[..20] == before[..20];
    var csum := CalcChecksum(0, buffer[..20]);
    Put(buffer, 10, Stored(0xFFFF - csum));
    Ip4Layout(before, buffer[..], head, Stored(0xFFFF - csum), addresses);
    Ip4Filled(c, protocol, buffer.Length % TWO16, csum);
  }

  lemma Ip4Lengths(protocol: u8, len: u16)
    ensures |Ip4Head(protocol, len)| == 10
    ensures forall w: u16 :: |Stored(w)| == 2
  {
  }

  lemma Ip4Filled(c: Conn, protocol: u8, len: u16, csum: u16)
    requires csum == Fold(WordSum([] + Ip4Head(protocol, len) + Stored(0) + (c.daddr + c.saddr)))
    ensures Ip4Sealed(c, protocol, len) == Ip4Head(protocol, len) + Stored(0xFFFF - csum) + (c.daddr + c.saddr)
  {
    hide Fold, WordSum, Ip4Head, Stored;
  }

  /** The header before its checksum is filled in. */
  lemma HeaderBefore(before: Bytes, head: Bytes, addresses: Bytes)
    requires |before| >= 20 && |head| == 10 && |addresses| == 8 && |Stored(0)| == 2
    requires before == before[..0] + (head + Stored(0) + addresses) + before[20..]
    ensures before[..20] == head + Stored(0) + addresses == [] + head + Stored(0) + addresses
  {
    assert before[..20] == (head + Stored(0) + addresses) + before[20..][..0];
  }

  predicate IsIp(c: Conn) {
    IsIp4(c) || IsIp6(c)
  }

  /** The header of a packet with n bytes behind it. */
  function IpHeader(c: Conn, protocol: u8, n: nat): Bytes {
    if IsIp4(c) then Ip4Sealed(c, protocol, (20 + n) % TWO16) else Ip6Header(c, protocol, n % TWO16)
  }

  function Pseudo(c: Conn, protocol: u8, n: nat): Bytes {
    if IsIp4(c) then Pseudo4(c, protocol, n % TWO16) else Pseudo6(c, protocol, n % TWO16)
  }

  function HeaderLength(c: Conn): nat {
    if IsIp4(c) then 20 else 40
  }

  /** The IP header in front of n bytes, for either version. */
  method PutIpHeader(buffer: array<u8>, c: Conn, protocol: u8, n: nat)
    requires IsIp(c)
    requires buffer.Length == HeaderLength(c) + n
    modifies buffer
    ensures buffer[..][..HeaderLength(c)] == IpHeader(c, protocol, n)
    ensures buffer[..][HeaderLength(c)..] == old(buffer[..])[HeaderLength(c)..]
  {
    hide Ip4Sealed;
    if IsIp4(c) {
      PutIp4Header(buffer, c, protocol);
    } else {
      Put(buffer, 0, Ip6Header(c, protocol, n % TWO16));
    }
  }

  /** The data is written first, then the IP header, the transport header and the options. */
  lemma Assembled(s0: Bytes, s1: Bytes, s2: Bytes, s3: Bytes, s4: Bytes,
                  ip: Bytes, header: Bytes, options: Bytes, data: Bytes)
    requires |s0| == |ip| + |header| + |options| + |data|
    requires s1 == s0[..|ip| + |header| + |options|] + data + s0[|s0|..]
    requires |s2| == |s0| && s2[..|ip|] == ip && s2[|ip|..] == s1[|ip|..]
    requires s3 == s2[..|ip|] + header + s2[|ip| + |header|..]
    requires s4 == s3[..|ip| + |header|] + options + s3[|ip| + |header| + |options|..]
    ensures s4 == ip + header + options + data
  {
    var o := |ip| + |header|;
    var d := o + |options|;
    assert s1[d..] == data;
    assert s2[d..] == s2[|ip|..][d - |ip|..] == s1[d..];
    assert s3[..o] == ip + header && s3[d..] == s2[d..];
  }

  /** A buffer with the IP header, the given transport header, options and data. */
  method Assemble(c: Conn, protocol: u8, header: Bytes, options: Bytes, data: Bytes) returns (buffer: array<u8>)
    requires IsIp(c)
    ensures var n := |header| + |options| + |data|;
            && fresh(buffer) && buffer.Length == HeaderLength(c) + n
            && buffer[..] == IpHeader(c, protocol, n) + header + options + data
  {
    hide IpHeader;
    var n := |header| + |options| + |data|;
    var h := HeaderLength(c);
    buffer := new u8[h + n](_ => 0);
    ghost var s0, ip := buffer[..], IpHeader(c, protocol, n);
    IpLengths(c, protocol, n);
    Put(buffer, h + |header| + |options|, data);
    ghost var s1 := buffer[..];
    PutIpHeader(buffer, c, protocol, n);
    ghost var s2 := buffer[..];
    Put(buffer, h, header);
    ghost var s3 := buffer[..];
    Put(buffer, h + |header|, options);
    Assembled(s0, s1, s2, s3, buffer[..], ip, header, options, data);
  }

  /** Filling in the checksum of a segment behind an IP header. */
  lemma SegmentLayout(h: Bytes, before: Bytes, after: Bytes, head: Bytes, check: Bytes, tail: Bytes)
    requires |check| == 2 && before == h + (head + Stored(0) + tail)
    requires after == before[..|h| + |head|] + check + before[|h| + |head| + 2..]
    ensures after == h + (head + check + tail)
  {
    var n := |h| + |head|;
    assert before[..n] == h + head;
    assert before[n + 2..] == tail;
  }

  lemma IpLengths(c: Conn, protocol: u8, n: nat)
    requires IsIp(c)
    ensures |IpHeader(c, protocol, n)| == HeaderLength(c)
    ensures |Pseudo(c, protocol, n)| == if IsIp4(c) then 12 else 40
  {
    hide Ip4Sealed;
    if IsIp4(c) {
      Ip4SealedShape(c, protocol, (20 + n) % TWO16);
    }
  }

  /** The sum over the pseudo header, the TCP header, its options and the data. */
  method TcpChecksum(pseudo: Bytes, header: Bytes, options: Bytes, data: Bytes) returns (csum: u16)
    requires |pseudo| % 2 == |header| % 2 == |options| % 2 == 0
    requires |pseudo| <= 40 && |header| == 20 && |options| <= 8 && |data| <= 0xFFFF
    ensures csum == Fold(WordSum(pseudo + header + options + data))
  {
    hide Fold, WordSum;
    var csum0 := CalcChecksum(0, pseudo);
    var csum1 := CalcChecksum(csum0, header);
    var csum2 := CalcChecksum(csum1, options);
    csum := CalcChecksum(csum2, data);
    Chained(pseudo, header, csum0, csum1);
    Chained(pseudo + header, options, csum1, csum2);
    Chained(pseudo + header + options, data, csum2, csum);
  }

  /** The sum over the pseudo header, the UDP header and the data. */
  method UdpChecksum(pseudo: Bytes, header: Bytes, data: Bytes) returns (csum: u16)
    requires |pseudo| % 2 == |header| % 2 == 0 && |pseudo| <= 40 && |header| == 8 && |data| <= 0xFFFF
    ensures csum == Fold(WordSum(pseudo + header + data))
  {
    hide Fold, WordSum;
    var csum0 := CalcChecksum(0, pseudo);
    var csum1 := CalcChecksum(csum0, header);
    csum := CalcChecksum(csum1, data);
    Chained(pseudo, header, csum0, csum1);
    Chained(pseudo + header, data, csum1, csum);
  }

  /** `write_tcp` for either version, up to the write to the tun device. */
  method WriteTcp(c: Conn, p: Packet, scale: u8) returns (buffer: array<u8>)
    requires IsIp(c)
    ensures fresh(buffer)
    ensures buffer[..] == if IsIp4(c) then Tcp4Packet(c, p, scale) else Tcp6Packet(c, p, scale)
  {
    hide Fold, WordSum, IpHeader, TcpHead, Stored, TcpOptions, Pseudo, Tcp4Packet, Tcp6Packet;
    var n := TcpLength(p);
    Lengths(c, p, scale);
    IpLengths(c, IPPROTO_TCP, n);
    var head, options := TcpHead(c, p), TcpOptions(p, scale, !IsIp4(c));
    var header := head + Stored(0) + [0, 0];
    buffer := Assemble(c, IPPROTO_TCP, header, options, p.data);
    var csum := TcpChecksum(Pseudo(c, IPPROTO_TCP, n), header, options, p.data);
    Regroup(Pseudo(c, IPPROTO_TCP, n), head, Stored(0), [0, 0], options, p.data);
    ghost var h, before := IpHeader(c, IPPROTO_TCP, n), buffer[..];
    RegroupAll(h, header, options, p.data);
    Put(buffer, HeaderLength(c) + 16, Stored(0xFFFF - csum));
    SegmentLayout(h, before, buffer[..], head, Stored(0xFFFF - csum), [0, 0] + options + p.data);
    TcpSealed(c, p, scale, csum);
  }

  lemma TcpSealed(c: Conn, p: Packet, scale: u8, csum: u16)
    requires IsIp(c)
    requires var tail := [0, 0] + TcpOptions(p, scale, !IsIp4(c)) + p.data;
             csum == Fold(WordSum(Pseudo(c, IPPROTO_TCP, TcpLength(p)) + TcpHead(c, p) + Stored(0) + tail))
    ensures IpHeader(c, IPPROTO_TCP, TcpLength(p))
            + (TcpHead(c, p) + Stored(0xFFFF - csum) + ([0, 0] + TcpOptions(p, scale, !IsIp4(c)) + p.data))
            == if IsIp4(c) then Tcp4Packet(c, p, scale) else Tcp6Packet(c, p, scale)
  {
    hide Ip4Sealed, Ip6Header, TcpHead, TcpOptions, Pseudo4, Pseudo6, Fold, WordSum, Stored;
    HeadLengths(c, p, scale, []);
    assert |[0, 0] + TcpOptions(p, scale, !IsIp4(c)) + p.data| == TcpLength(p) - 18;
  }

  lemma RegroupAll(h: Bytes, x: Bytes, o: Bytes, d: Bytes)
    ensures h + x + o + d == h + (x + o + d)
  {
  }

  /** `write_udp` for either version, up to the write to the tun device. */
  method WriteUdp(c: Conn, data: Payload) returns (buffer: array<u8>)
    requires IsIp(c)
    ensures fresh(buffer)
    ensures buffer[..] == if IsIp4(c) then Udp4Packet(c, data) else Udp6Packet(c, data)
  {
    hide Fold, WordSum, IpHeader, UdpHead, Stored, Pseudo, Udp4Packet, Udp6Packet;
    var n := 8 + |data|;
    UdpLengths(c, data);
    IpLengths(c, IPPROTO_UDP, n);
    var head := UdpHead(c, data);
    var header := head + Stored(0);
    buffer := Assemble(c, IPPROTO_UDP, header, [], data);
    var csum := UdpChecksum(Pseudo(c, IPPROTO_UDP, n), header, data);
    ghost var h, before := IpHeader(c, IPPROTO_UDP, n), buffer[..];
    RegroupUdp(h, Pseudo(c, IPPROTO_UDP, n), head, Stored(0), data);
    Put(buffer, HeaderLength(c) + 6, Stored(0xFFFF - csum));
    SegmentLayout(h, before, buffer[..], head, Stored(0xFFFF - csum), data);
    UdpSealed(c, data, csum);
  }

  lemma UdpSealed(c: Conn, data: Payload, csum: u16)
    requires IsIp(c)
    requires csum == Fold(WordSum(Pseudo(c, IPPROTO_UDP, 8 + |data|) + UdpHead(c, data) + Stored(0) + data))
    ensures IpHeader(c, IPPROTO_UDP, 8 + |data|) + (UdpHead(c, data) + Stored(0xFFFF - csum) + data)
            == if IsIp4(c) then Udp4Packet(c, data) else Udp6Packet(c, data)
  {
    hide Ip4Sealed, Ip6Header, UdpHead, Pseudo4, Pseudo6, Fold, WordSum, Stored;
    UdpHeadLength(c, data);
  }

  lemma Regroup(p: Bytes, h: Bytes, z: Bytes, u: Bytes, o: Bytes, d: Bytes)
    ensures p + (h + z + u) + o + d == p + h + z + (u + o + d)
    ensures (h + z + u) + o + d == h + z + (u + o + d)
  {
  }

  lemma RegroupUdp(ip: Bytes, p: Bytes, h: Bytes, z: Bytes, d: Bytes)
    ensures ip + (h + z) + [] + d == ip + (h + z + d)
    ensures p + (h + z) + d == p + h + z + d
  {
  }

  lemma Lengths(c: Conn, p: Packet, scale: u8)
    ensures |TcpHead(c, p)| == 16
    ensures |TcpOptions(p, scale, !IsIp4(c))| == if p.syn then 8 else 0
    ensures forall w: u16 :: |Stored(w)| == 2
  {
  }

  lemma UdpHeadLength(c: Conn, data: Payload)
    ensures |UdpHead(c, data)| == 6
  {
  }

  lemma UdpLengths(c: Conn, data: Payload)
    ensures |UdpHead(c, data)| == 6
    ensures forall w: u16 :: |Stored(w)| == 2
  {
  }
}
