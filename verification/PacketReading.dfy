/** Where everything lies in the packets over IPv6 and in the datagrams of both versions, read back as `handle_ip`,
    `handle_tcp` and `handle_udp` read packets. */
module PacketReading {
  import opened Wrappers
  import opened Words
  import opened NetworkOrder
  import opened Checksum
  import opened Reassembly
  import opened TcpModel
  import opened PacketCodec

  datatype Datagram = Datagram(version: u8, saddr: Bytes, daddr: Bytes, source: u16, dest: u16, data: Bytes)

  /** The header decode for TCP directly behind an IPv6 header. */
  function Decode6(b: Bytes): Option<Decoded>
    requires |b| <= 40 + 0xFFFF
  {
    if |b| < 40 || b[0] / 16 != 6 || b[6] != 6 then None
    else DecodeSegment(b, 40, b[8..24], b[24..40])
  }

  /** The decode of `handle_udp`, of the datagram at position t. */
  function DatagramAt(b: Bytes, t: nat, version: u8, saddr: Bytes, daddr: Bytes): Option<Datagram> {
    if t + 8 > |b| then None
    else Some(Datagram(version, saddr, daddr, GetBe16(b, t), GetBe16(b, t + 2), b[t + 8..]))
  }

  /** The header decode for UDP over either version, without extension headers. */
  function DecodeUdp(b: Bytes): Option<Datagram> {
    if b == [] then None
    else if b[0] / 16 == 4 then
      if |b| < 20 || Bit(b[7], 5) || GetBe16(b, 2) != |b| || b[9] != 17 then None
      else DatagramAt(b, 20 + OptionBytes(b[0] % 16), 4, b[12..16], b[16..20])
    else if b[0] / 16 == 6 then
      if |b| < 40 || b[6] != 17 then None else DatagramAt(b, 40, 6, b[8..24], b[24..40])
    else None
  }

  // ---- Segments ----

  /** The fields of a segment, seen from its start. */
  lemma SegmentFields(c: Conn, p: Packet, pseudo: Bytes, tail: Bytes)
    ensures var s := Sealed(pseudo, TcpHead(c, p), tail);
            && |s| == 18 + |tail|
            && GetBe16(s, 0) == c.dest && GetBe16(s, 2) == c.source
            && GetBe32(s, 4) == p.seqno && GetBe32(s, 8) == p.ackno
            && s[12] == (if p.syn then 0x70 else 0x50) && s[13] == Flags(p) && GetBe16(s, 14) == p.window
            && s[18..] == tail
  {
    hide Fold, WordSum, Flags, GetBe16, GetBe32, TcpHead, Sealed, Be16, Be32;
    var head := TcpHead(c, p);
    var s := Sealed(pseudo, head, tail);
    HeadParts(c, p);
    SealedParts(pseudo, head, tail);
    assert s[0..2] == s[..16][0..2] && s[2..4] == s[..16][2..4] && s[4..8] == s[..16][4..8];
    assert s[8..12] == s[..16][8..12] && s[14..16] == s[..16][14..16];
    assert s[12] == s[..16][12] && s[13] == s[..16][13];
    Slices16(s, 0, c.dest);
    Slices16(s, 2, c.source);
    Slices32(s, 4, p.seqno);
    Slices32(s, 8, p.ackno);
    Slices16(s, 14, p.window);
  }

  lemma UdpFields(c: Conn, data: Payload, pseudo: Bytes)
    ensures var s := Sealed(pseudo, UdpHead(c, data), data);
            && |s| == 8 + |data| && GetBe16(s, 0) == c.dest && GetBe16(s, 2) == c.source
            && GetBe16(s, 4) == (8 + |data|) % TWO16 && s[8..] == data
  {
    hide Fold, WordSum, GetBe16, Sealed, Be16;
    var head := UdpHead(c, data);
    var s := Sealed(pseudo, head, data);
    UdpHeadParts(c, data);
    SealedParts(pseudo, head, data);
    assert s[0..2] == s[..6][0..2] && s[2..4] == s[..6][2..4] && s[4..6] == s[..6][4..6];
    Slices16(s, 0, c.dest);
    Slices16(s, 2, c.source);
    Slices16(s, 4, (8 + |data|) % TWO16);
  }

  lemma UdpHeadParts(c: Conn, data: Payload)
    ensures var h := UdpHead(c, data);
            && |h| == 6 && h[0..2] == Be16(c.dest) && h[2..4] == Be16(c.source)
            && h[4..6] == Be16((8 + |data|) % TWO16)
  {
  }

  /** The fields behind a header h. */
  lemma Behind(h: Bytes, s: Bytes, i: nat)
    ensures i + 2 <= |s| ==> GetBe16(h + s, |h| + i) == GetBe16(s, i)
    ensures i + 4 <= |s| ==> GetBe32(h + s, |h| + i) == GetBe32(s, i)
    ensures i < |s| ==> (h + s)[|h| + i] == s[i]
    ensures i <= |s| ==> (h + s)[|h| + i..] == s[i..]
  {
  }

  // ---- IPv6 ----

  lemma Ip6Fields(c: Conn, protocol: u8, plen: u16, s: Bytes)
    requires IsIp6(c)
    ensures var b := Ip6Header(c, protocol, plen) + s;
            && |Ip6Header(c, protocol, plen)| == 40 && |b| == 40 + |s|
            && b[0] == 0x60 && b[1] == 0 && b[2] == 0 && b[3] == 0 && GetBe16(b, 4) == plen
            && b[6] == protocol && b[7] == 64 && b[8..24] == c.daddr && b[24..40] == c.saddr
  {
    hide GetBe16;
    var h := Ip6Header(c, protocol, plen);
    var b := h + s;
    assert b[4..6] == Be16(plen);
    Slices16(b, 4, plen);
  }

  lemma DecodeShape6(b: Bytes, c: Conn, p: Packet, o: Bytes)
    requires |b| == 60 + |o| + |p.data| <= 40 + 0xFFFF && |o| == (if p.syn then 8 else 0)
    requires GetBe16(b, 40) == c.dest && GetBe16(b, 42) == c.source
    requires GetBe32(b, 44) == p.seqno && GetBe32(b, 48) == p.ackno
    requires b[52] == (if p.syn then 0x70 else 0x50) && b[53] == Flags(p) && GetBe16(b, 54) == p.window
    requires b[60..] == o + p.data
    ensures DecodeSegment(b, 40, c.daddr, c.saddr)
            == Some(Decoded(c.daddr, c.saddr, c.dest, c.source, p, |o|, o + p.data))
  {
    hide Flags, GetBe16, GetBe32, Bit, OptionBytes;
    FlagsRoundTrip(p);
    HeaderOptions();
    assert b[60 + |o|..] == b[60..][|o|..] == p.data;
  }

  /** Decoding a packet of `write_tcp` over IPv6 gives back the exchanged endpoints and all of the packet. */
  lemma Tcp6RoundTrip(c: Conn, p: Packet, scale: u8)
    requires IsIp6(c) && TcpLength(p) <= 0xFFFF
    ensures var o := TcpOptions(p, scale, true);
            |Tcp6Packet(c, p, scale)| == 40 + TcpLength(p)
            && Decode6(Tcp6Packet(c, p, scale))
               == Some(Decoded(c.daddr, c.saddr, c.dest, c.source, p, |o|, o + p.data))
  {
    hide Fold, WordSum, Flags, GetBe16, GetBe32, TcpHead, Sealed, Ip6Header, DecodeSegment, Stored;
    var tail, n := TcpTail(p, scale, true), TcpLength(p);
    var pseudo := Pseudo6(c, IPPROTO_TCP, n);
    var s := Sealed(pseudo, TcpHead(c, p), tail);
    var h := Ip6Header(c, IPPROTO_TCP, n);
    HeadLengths(c, p, scale, []);
    SegmentFields(c, p, pseudo, tail);
    Ip6Fields(c, IPPROTO_TCP, n, s);
    AllBehind(h, s);
    UrgentPointer(s, p, scale);
    DecodeShape6(h + s, c, p, TcpOptions(p, scale, true));
  }

  lemma AllBehind(h: Bytes, s: Bytes)
    requires |h| == 40 && |s| >= 20
    ensures var b := h + s;
            && GetBe16(b, 40) == GetBe16(s, 0) && GetBe16(b, 42) == GetBe16(s, 2) && GetBe32(b, 44) == GetBe32(s, 4)
            && GetBe32(b, 48) == GetBe32(s, 8) && b[52] == s[12] && b[53] == s[13] && GetBe16(b, 54) == GetBe16(s, 14)
            && b[60..] == s[20..]
  {
    hide GetBe16, GetBe32;
    Behind(h, s, 0);
    Behind(h, s, 2);
    Behind(h, s, 4);
    Behind(h, s, 8);
    Behind(h, s, 12);
    Behind(h, s, 13);
    Behind(h, s, 14);
    Behind(h, s, 20);
  }

  lemma UrgentPointer(s: Bytes, p: Packet, scale: u8)
    requires |s| >= 18 && s[18..] == TcpTail(p, scale, true)
    ensures |s| >= 20 && s[20..] == TcpOptions(p, scale, true) + p.data
  {
    hide TcpOptions;
    assert s[20..] == s[18..][2..];
  }

  // ---- Datagrams ----

  /** Decoding a datagram of `write_udp` gives back the exchanged endpoints and all of the data, over IPv6 always and
      over IPv4 if its length fits 16 bits; otherwise it is refused. Its length field says how long it is. */
  lemma UdpRoundTrip(c: Conn, data: Payload)
    ensures IsIp4(c) ==>
              var b := Udp4Packet(c, data);
              && |b| == 28 + |data| && b[8] == 64 && GetBe16(b, 24) == (8 + |data|) % TWO16
              && DecodeUdp(b) == if |b| <= 0xFFFF then Some(Datagram(4, c.daddr, c.saddr, c.dest, c.source, data))
                                 else None
    ensures IsIp6(c) ==>
              var b := Udp6Packet(c, data);
              && |b| == 48 + |data| && b[7] == 64 && GetBe16(b, 44) == (8 + |data|) % TWO16
              && DecodeUdp(b) == Some(Datagram(6, c.daddr, c.saddr, c.dest, c.source, data))
  {
    hide Udp4Packet, Udp6Packet, DecodeUdp;
    if IsIp4(c) {
      Udp4RoundTrip(c, data);
    }
    if IsIp6(c) {
      Udp6RoundTrip(c, data);
    }
  }

  lemma Udp6RoundTrip(c: Conn, data: Payload)
    requires IsIp6(c)
    ensures var b := Udp6Packet(c, data);
            && |b| == 48 + |data| && b[7] == 64 && GetBe16(b, 44) == (8 + |data|) % TWO16
            && DecodeUdp(b) == Some(Datagram(6, c.daddr, c.saddr, c.dest, c.source, data))
  {
    hide Fold, WordSum, GetBe16, UdpHead, Sealed, Ip6Header;
    HeadLengths(c, Packet(0, 0, 0, [], false, false, false, false, false, false), 0, data);
    var n := (8 + |data|) % TWO16;
    var pseudo := Pseudo6(c, IPPROTO_UDP, n);
    var s := Sealed(pseudo, UdpHead(c, data), data);
    var h := Ip6Header(c, IPPROTO_UDP, n);
    UdpFields(c, data, pseudo);
    Ip6Fields(c, IPPROTO_UDP, n, s);
    Behind(h, s, 0);
    Behind(h, s, 2);
    Behind(h, s, 4);
    Behind(h, s, 8);
  }

  lemma Udp4RoundTrip(c: Conn, data: Payload)
    requires IsIp4(c)
    ensures var b := Udp4Packet(c, data);
            && |b| == 28 + |data| && b[8] == 64 && GetBe16(b, 24) == (8 + |data|) % TWO16
            && DecodeUdp(b) == if |b| <= 0xFFFF then Some(Datagram(4, c.daddr, c.saddr, c.dest, c.source, data))
                               else None
  {
    hide Fold, WordSum, NetworkSum, GetBe16, UdpHead, Sealed, Ip4Sealed, OptionBytes, Bit;
    HeadLengths(c, Packet(0, 0, 0, [], false, false, false, false, false, false), 0, data);
    var n := 28 + |data|;
    var pseudo := Pseudo4(c, IPPROTO_UDP, (8 + |data|) % TWO16);
    var s := Sealed(pseudo, UdpHead(c, data), data);
    var h := Ip4Sealed(c, IPPROTO_UDP, n % TWO16);
    Ip4SealedShape(c, IPPROTO_UDP, n % TWO16);
    UdpFields(c, data, pseudo);
    HeaderKept(h, s);
    Slices16(h + s, 2, n % TWO16);
    Behind(h, s, 0);
    Behind(h, s, 2);
    Behind(h, s, 4);
    Behind(h, s, 8);
    NoFragment();
    HeaderOptions();
  }

  // ---- The announced MSS ----

  /** A segment of the MSS that a SYN announces makes a packet of exactly the size of the tun device's MTU. */
  lemma AnnouncedMssFillsMtu(c: Conn, p: Packet, scale: u8)
    requires !p.syn && (IsIp4(c) || IsIp6(c)) && |p.data| == DefaultMss(IsIp6(c))
    ensures IsIp4(c) ==> |Tcp4Packet(c, p, scale)| == 10000
    ensures IsIp6(c) ==> |Tcp6Packet(c, p, scale)| == 10000
  {
    hide Fold, WordSum, GetBe16, GetBe32, Decode4, Decode6, Sealed, TcpHead, Flags;
    if IsIp4(c) {
      WrittenFields(c, p, scale);
    } else {
      Tcp6RoundTrip(c, p, scale);
    }
  }
}
