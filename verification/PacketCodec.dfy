/** The packets that tcp.c and udp.c write to the tun device, byte by byte. */
module PacketCodec {
  import opened Wrappers
  import opened Words
  import opened NetworkOrder
  import opened Checksum
  import opened Reassembly
  import opened TcpModel

  const IPPROTO_TCP: u8 := 6
  const IPPROTO_UDP: u8 := 17
  const IPDEFTTL: u8 := 64
  const MTU := 10000

  /** The endpoints of a session, as the client names them; addresses are 4 or 16 bytes. */
  datatype Conn = Conn(saddr: Bytes, daddr: Bytes, source: u16, dest: u16)

  predicate IsIp4(c: Conn) {
    |c.saddr| == 4 && |c.daddr| == 4
  }

  predicate IsIp6(c: Conn) {
    |c.saddr| == 16 && |c.daddr| == 16
  }

  // ---- Headers ----

  /** `struct iphdr` without options, in front of its checksum. */
  function Ip4Head(protocol: u8, len: u16): Bytes {
    [0x45, 0] + Be16(len) + [0, 0, 0, 0, IPDEFTTL, protocol]
  }

  /** `struct ip6_hdr`. */
  function Ip6Header(c: Conn, protocol: u8, plen: u16): Bytes {
    [0x60, 0, 0, 0] + Be16(plen) + [protocol, IPDEFTTL] + c.daddr + c.saddr
  }

  /** `struct ippseudo`. */
  function Pseudo4(c: Conn, protocol: u8, len: u16): Bytes {
    c.daddr + c.saddr + [0, protocol] + Be16(len)
  }

  /** `struct ip6_hdr_pseudo` as the code fills it: addresses exchanged, length in the first half. */
  function Pseudo6(c: Conn, protocol: u8, len: u16): Bytes {
    c.saddr + c.daddr + Be16(len) + [0, 0, 0, 0, 0, protocol]
  }

  function Flag(on: bool, bit: u8): u8 {
    if on then bit else 0
  }

  function Flags(p: Packet): (f: nat)
    ensures f < 64
  {
    var fin, syn, rst: nat := Flag(p.fin, 1), Flag(p.syn, 2), Flag(p.rst, 4);
    var psh, ack, urg: nat := Flag(p.psh, 8), Flag(p.ack, 16), Flag(p.urg, 32);
    fin + syn + rst + psh + ack + urg
  }

  /** `struct tcphdr` in front of its checksum. */
  function TcpHead(c: Conn, p: Packet): Bytes {
    Be16(c.dest) + Be16(c.source) + Be32(p.seqno) + Be32(p.ackno)
    + [if p.syn then 0x70 else 0x50, Flags(p)] + Be16(p.window)
  }

  function DefaultMss(ip6: bool): u16 {
    MTU - (if ip6 then 40 else 20) - 20
  }

  /** The options of a SYN: MSS, stored in host order, window scale, and the end marker. */
  function TcpOptions(p: Packet, scale: u8, ip6: bool): Bytes {
    if p.syn then [2, 4] + Stored(DefaultMss(ip6)) + [3, 3, scale, 0] else []
  }

  /** What follows the checksum in a TCP segment. */
  function TcpTail(p: Packet, scale: u8, ip6: bool): Bytes {
    [0, 0] + TcpOptions(p, scale, ip6) + p.data
  }

  function UdpHead(c: Conn, data: Payload): Bytes {
    Be16(c.dest) + Be16(c.source) + Be16((8 + |data|) % TWO16)
  }

  // ---- Checksums ----

  /** A transport segment whose checksum covers a pseudo header, everything before and after it. */
  function Sealed(pseudo: Bytes, head: Bytes, tail: Bytes): Bytes {
    head + Stored(0xFFFF - Fold(WordSum(pseudo + head + Stored(0) + tail))) + tail
  }

  lemma Associate(a: Bytes, b: Bytes, c: Bytes, d: Bytes)
    ensures a + (b + c + d) == (a + b) + c + d
  {
  }

  /** Summing what the receiver sums gives 0xFFFF, in the byte order of either host. */
  lemma SealedVerifies(pseudo: Bytes, head: Bytes, tail: Bytes)
    requires |pseudo| % 2 == 0 && |head| % 2 == 0
    ensures Fold(WordSum(pseudo + Sealed(pseudo, head, tail))) == 0xFFFF
    ensures Fold(NetworkSum(pseudo + Sealed(pseudo, head, tail))) == 0xFFFF
  {
    hide Fold, WordSum, NetworkSum, Stored;
    var check := Stored(0xFFFF - Fold(WordSum(pseudo + head + Stored(0) + tail)));
    ComplementVerifies(pseudo + head, tail, 0);
    Associate(pseudo, head, check, tail);
    VerifiesInNetworkOrder(pseudo + (head + check + tail));
  }

  function TcpLength(p: Packet): nat {
    20 + (if p.syn then 8 else 0) + |p.data|
  }

  /** An IPv4 header with its checksum; the pseudo header is empty. */
  function Ip4Sealed(c: Conn, protocol: u8, len: u16): Bytes {
    Sealed([], Ip4Head(protocol, len), c.daddr + c.saddr)
  }

  function Tcp4Packet(c: Conn, p: Packet, scale: u8): Bytes
    requires IsIp4(c)
  {
    InIp4(c, IPPROTO_TCP, TcpHead(c, p), TcpTail(p, scale, false))
  }

  function Tcp6Packet(c: Conn, p: Packet, scale: u8): Bytes
    requires IsIp6(c)
  {
    InIp6(c, IPPROTO_TCP, TcpHead(c, p), TcpTail(p, scale, true))
  }

  function Udp4Packet(c: Conn, data: Payload): Bytes
    requires IsIp4(c)
  {
    InIp4(c, IPPROTO_UDP, UdpHead(c, data), data)
  }

  function Udp6Packet(c: Conn, data: Payload): Bytes
    requires IsIp6(c)
  {
    InIp6(c, IPPROTO_UDP, UdpHead(c, data), data)
  }

  /** A segment behind an IPv4 header. `htons` keeps 16 bits of every length. */
  function InIp4(c: Conn, protocol: u8, head: Bytes, tail: Bytes): (b: Bytes)
    requires IsIp4(c)
    ensures |b| == 22 + |head| + |tail|
  {
    var n := |head| + 2 + |tail|;
    Ip4Sealed(c, protocol, (20 + n) % TWO16) + Sealed(Pseudo4(c, protocol, n % TWO16), head, tail)
  }

  function InIp6(c: Conn, protocol: u8, head: Bytes, tail: Bytes): (b: Bytes)
    requires IsIp6(c)
    ensures |b| == 42 + |head| + |tail|
  {
    var n := (|head| + 2 + |tail|) % TWO16;
    Ip6Header(c, protocol, n) + Sealed(Pseudo6(c, protocol, n), head, tail)
  }

  /** b is a valid IPv4 packet: its total length, section 3.1 of RFC 791, its header sum, and the transport
      sum with the pseudo header that the receiver builds from the packet itself, section 3.1 of RFC 9293
      and RFC 768. */
  predicate Verifies4(b: Bytes)
    requires |b| >= 20
  {
    GetBe16(b, 2) == |b| && SumsVerify4(b)
  }

  predicate SumsVerify4(b: Bytes)
    requires |b| >= 20
  {
    var pseudo := b[12..20] + [0, b[9]] + Be16((|b| - 20) % TWO16);
    && Fold(NetworkSum(b[..20])) == 0xFFFF
    && Fold(NetworkSum(pseudo + b[20..])) == 0xFFFF
  }

  /** The same for IPv6, sections 3 and 8.1 of RFC 8200: the length of the payload, the transport sum, and
      no UDP datagram without a checksum. */
  predicate Verifies6(b: Bytes)
    requires |b| >= 40
  {
    && GetBe16(b, 4) == |b| - 40 && SumVerifies6(b)
    && (b[6] == IPPROTO_UDP ==> |b| >= 48 && (b[46] != 0 || b[47] != 0))
  }

  /** The pseudo header has a 32-bit length, three zero bytes and the next header. */
  predicate SumVerifies6(b: Bytes)
    requires |b| >= 40
  {
    var pseudo := b[8..40] + [0, 0] + Be16((|b| - 40) % TWO16) + [0, 0, 0, b[6]];
    Fold(NetworkSum(pseudo + b[40..])) == 0xFFFF
  }

  lemma Ip4SealedShape(c: Conn, protocol: u8, len: u16)
    requires IsIp4(c)
    ensures var h := Ip4Sealed(c, protocol, len);
            && |h| == 20 && h[0] == 0x45 && h[2..4] == Be16(len) && h[6] == 0 && h[7] == 0 && h[8] == 64
            && h[9] == protocol
            && h[12..16] == c.daddr && h[16..20] == c.saddr && h[12..20] == c.daddr + c.saddr
            && Fold(NetworkSum(h)) == 0xFFFF
  {
    hide Fold, WordSum, NetworkSum, Sealed, Stored;
    var h := Ip4Sealed(c, protocol, len);
    var head := Ip4Head(protocol, len);
    SealedVerifies([], head, c.daddr + c.saddr);
    SealedParts([], head, c.daddr + c.saddr);
    assert [] + h == h;
    HeaderParts(h, head, c.daddr, c.saddr);
    assert head[2..4] == Be16(len);
  }

  lemma HeaderParts(h: Bytes, head: Bytes, src: Bytes, dst: Bytes)
    requires |h| == 20 && |head| == 10 && |src| == |dst| == 4 && h[..10] == head && h[12..] == src + dst
    ensures h[0] == head[0] && h[6] == head[6] && h[7] == head[7] && h[8] == head[8] && h[9] == head[9]
    ensures h[2..4] == head[2..4]
    ensures h[12..16] == src && h[16..20] == dst && h[12..20] == src + dst
  {
    assert h[0] == h[..10][0] && h[6] == h[..10][6] && h[7] == h[..10][7] && h[8] == h[..10][8] && h[9] == h[..10][9];
    assert h[2..4] == h[..10][2..4];
    assert h[12..16] == h[12..][..4] && h[16..20] == h[12..][4..] && h[12..20] == h[12..];
  }

  /** What is behind a header does not change what is in it. */
  lemma HeaderKept(h: Bytes, s: Bytes)
    requires |h| == 20
    ensures var b := h + s;
            && b[..20] == h && b[20..] == s && b[0] == h[0] && b[7] == h[7] && b[8] == h[8] && b[9] == h[9]
            && b[2..4] == h[2..4]
            && b[12..16] == h[12..16] && b[16..20] == h[16..20] && b[12..20] == h[12..20]
  {
  }

  lemma SealedParts(pseudo: Bytes, head: Bytes, tail: Bytes)
    ensures var s := Sealed(pseudo, head, tail);
            |s| == |head| + 2 + |tail| && s[..|head|] == head && s[|head| + 2..] == tail
  {
    hide Fold, WordSum;
  }

  /** The sums always verify, the length only if it needs no more than 16 bits. */
  lemma InIp4Verifies(c: Conn, protocol: u8, head: Bytes, tail: Bytes)
    requires IsIp4(c) && |head| % 2 == 0
    ensures var b := InIp4(c, protocol, head, tail);
            && |b| == 22 + |head| + |tail| && SumsVerify4(b) && (Verifies4(b) <==> |b| <= 0xFFFF)
  {
    hide Fold, WordSum, NetworkSum, Ip4Sealed, Sealed, GetBe16;
    var n := |head| + 2 + |tail|;
    var pseudo := Pseudo4(c, protocol, n % TWO16);
    var s, h := Sealed(pseudo, head, tail), Ip4Sealed(c, protocol, (20 + n) % TWO16);
    var b := h + s;
    Ip4SealedShape(c, protocol, (20 + n) % TWO16);
    SealedVerifies(pseudo, head, tail);
    SealedLength(pseudo, head, tail);
    HeaderKept(h, s);
    Slices16(b, 2, (20 + n) % TWO16);
  }

  lemma WordSum2(a: Bytes, b: Bytes)
    requires |a| % 2 == 0 && |b| % 2 == 0
    ensures WordSum(a + b) == WordSum(a) + WordSum(b)
  {
    WordSumAppend(a, b);
  }

  /** Exchanged addresses and a misplaced length do not change the sum of the pseudo header. */
  lemma Pseudo6Sum(src: Bytes, dst: Bytes, len: u16, protocol: u8)
    requires |src| == 16 && |dst| == 16
    ensures WordSum(src + dst + [0, 0] + Be16(len) + [0, 0, 0, protocol])
            == WordSum(dst + src + Be16(len) + [0, 0, 0, 0, 0, protocol])
  {
    hide WordSum;
    WordSum2(src, dst);
    WordSum2(dst, src);
    WordSum2(src + dst, [0, 0]);
    WordSum2(src + dst + [0, 0], Be16(len));
    WordSum2(src + dst + [0, 0] + Be16(len), [0, 0, 0, protocol]);
    WordSum2(dst + src, Be16(len));
    WordSum2(dst + src + Be16(len), [0, 0, 0, 0, 0, protocol]);
    Zeros(protocol);
  }

  lemma Zeros(x: u8)
    ensures WordSum([0, 0]) == 0
    ensures WordSum([0, 0, 0, x]) == WordSum([0, 0, 0, 0, 0, x])
  {
    hide WordSum;
    TwoZeros();
    WordSum2([0, 0], [0, 0, 0, x]);
    assert [0, 0, 0, 0, 0, x] == [0, 0] + [0, 0, 0, x];
  }

  lemma TwoZeros()
    ensures WordSum([0, 0]) == 0
  {
  }

  /** Another pseudo header with the same sum verifies too. */
  lemma SameSumVerifies(rx: Bytes, pseudo: Bytes, s: Bytes)
    requires |rx| % 2 == 0 && |pseudo| % 2 == 0 && WordSum(rx) == WordSum(pseudo)
    requires Fold(WordSum(pseudo + s)) == 0xFFFF
    ensures Fold(NetworkSum(rx + s)) == 0xFFFF
  {
    hide Fold, WordSum, NetworkSum;
    WordSumAppend(rx, s);
    WordSumAppend(pseudo, s);
    VerifiesInNetworkOrder(rx + s);
  }

  lemma InIp6Verifies(c: Conn, protocol: u8, head: Bytes, tail: Bytes)
    requires IsIp6(c) && |head| % 2 == 0
    ensures var b := InIp6(c, protocol, head, tail);
            && |b| == 42 + |head| + |tail| && SumVerifies6(b) && b[6] == protocol
            && (GetBe16(b, 4) == |b| - 40 <==> |b| - 40 <= 0xFFFF)
            && b[40 + |head|..42 + |head|]
               == Stored(0xFFFF - SumOf(Pseudo6(c, protocol, (|head| + 2 + |tail|) % TWO16), head, tail))
  {
    hide Fold, WordSum, NetworkSum, Sealed, GetBe16;
    var n := (|head| + 2 + |tail|) % TWO16;
    var pseudo := Pseudo6(c, protocol, n);
    var s := Sealed(pseudo, head, tail);
    var h := Ip6Header(c, protocol, n);
    var b := h + s;
    SealedLength(pseudo, head, tail);
    assert h[8..40] == c.daddr + c.saddr && h[6] == protocol && h[4..6] == Be16(n);
    assert b[8..40] == h[8..40] && b[40..] == s && b[6] == h[6] && b[4..6] == h[4..6];
    Slices16(b, 4, n);
    assert b[40 + |head|..42 + |head|] == s[|head|..|head| + 2];
    Pseudo6Sum(c.daddr, c.saddr, n, protocol);
    SealedVerifies(Pseudo6(c, protocol, n), head, tail);
    SameSumVerifies(c.daddr + c.saddr + [0, 0] + Be16(n) + [0, 0, 0, protocol], Pseudo6(c, protocol, n), s);
  }

  /** The sum that a checksum is the complement of. */
  function SumOf(pseudo: Bytes, head: Bytes, tail: Bytes): u16 {
    Fold(WordSum(pseudo + head + Stored(0) + tail))
  }

  lemma SealedLength(pseudo: Bytes, head: Bytes, tail: Bytes)
    ensures var s := Sealed(pseudo, head, tail);
            |s| == |head| + 2 + |tail| && s[|head|..|head| + 2] == Stored(0xFFFF - SumOf(pseudo, head, tail))
  {
    hide Fold, WordSum;
  }

  /** The sum over a datagram to an IPv6 client. */
  function UdpSum6(c: Conn, data: Payload): u16 {
    SumOf(Pseudo6(c, IPPROTO_UDP, (8 + |data|) % TWO16), UdpHead(c, data), data)
  }

  /** Exactly which packets that the service writes to the tun device are valid at the receiver: those whose
      length fits 16 bits. Over IPv6 a datagram is valid only if its sum is not 0xFFFF besides: its checksum
      is stored as zero then. */
  lemma EmittedPacketsVerify(c: Conn, p: Packet, scale: u8, data: Payload)
    ensures IsIp4(c) ==> (Verifies4(Tcp4Packet(c, p, scale)) <==> 20 + TcpLength(p) <= 0xFFFF)
    ensures IsIp6(c) ==> (Verifies6(Tcp6Packet(c, p, scale)) <==> TcpLength(p) <= 0xFFFF)
    ensures IsIp4(c) ==> (Verifies4(Udp4Packet(c, data)) <==> 28 + |data| <= 0xFFFF)
    ensures IsIp6(c) ==> (Verifies6(Udp6Packet(c, data)) <==> 8 + |data| <= 0xFFFF && UdpSum6(c, data) != 0xFFFF)
  {
    hide Fold, WordSum, NetworkSum, SumsVerify4, SumVerifies6, InIp4, InIp6, TcpHead, TcpTail, UdpHead, GetBe16;
    HeadLengths(c, p, scale, data);
    if IsIp4(c) {
      InIp4Verifies(c, IPPROTO_TCP, TcpHead(c, p), TcpTail(p, scale, false));
      InIp4Verifies(c, IPPROTO_UDP, UdpHead(c, data), data);
    }
    if IsIp6(c) {
      InIp6Verifies(c, IPPROTO_TCP, TcpHead(c, p), TcpTail(p, scale, true));
      InIp6Verifies(c, IPPROTO_UDP, UdpHead(c, data), data);
      var b := Udp6Packet(c, data);
      assert b[46..48][0] == b[46] && b[46..48][1] == b[47];
    }
  }

  lemma HeadLengths(c: Conn, p: Packet, scale: u8, data: Payload)
    ensures |TcpHead(c, p)| == 16 && |UdpHead(c, data)| == 6
    ensures |TcpTail(p, scale, false)| == |TcpTail(p, scale, true)| == TcpLength(p) - 18
  {
    hide Flags;
  }

  /** To every IPv6 client there is a datagram of two bytes that it has to discard. */
  lemma DiscardedDatagram(c: Conn) returns (data: Payload)
    requires IsIp6(c)
    ensures |data| == 2 && Udp6Packet(c, data)[46..48] == [0, 0] && !Verifies6(Udp6Packet(c, data))
  {
    hide Fold, WordSum, Verifies6, UdpHead;
    var none: Payload := [0, 0];
    data := Stored(0xFFFF - UdpSum6(c, none));
    SameHead(c, none, data);
    var pseudo, head := Pseudo6(c, IPPROTO_UDP, 10), UdpHead(c, data);
    HeadLengths(c, Packet(0, 0, 0, [], false, false, false, false, false, false), 0, data);
    LastField(pseudo + head + Stored(0), 0xFFFF - UdpSum6(c, none));
    ComplementFolds(WordSum(pseudo + head + Stored(0) + [0, 0]));
    InIp6Verifies(c, IPPROTO_UDP, head, data);
    EmittedPacketsVerify(c, Packet(0, 0, 0, [], false, false, false, false, false, false), 0, data);
  }

  lemma SameHead(c: Conn, x: Payload, y: Payload)
    requires |x| == |y|
    ensures UdpHead(c, x) == UdpHead(c, y)
  {
  }

  lemma LastField(b: Bytes, w: u16)
    requires |b| % 2 == 0
    ensures WordSum(b + Stored(w)) == WordSum(b + [0, 0]) + w
  {
    FieldSum(b, w, []);
    FieldSum(b, 0, []);
    assert b + Stored(w) + [] == b + Stored(w) && b + Stored(0) + [] == b + [0, 0];
  }

  // ---- Reading packets ----

  /** What `handle_ip` and `handle_tcp` take from an IPv4 packet; options are followed by the data. */
  datatype Decoded = Decoded(saddr: Bytes, daddr: Bytes, source: u16, dest: u16, p: Packet,
                             optlen: nat, options: Bytes)

  predicate Bit(f: u8, i: nat) {
    f / Pow2(i) % 2 == 1
  }

  /** Option bytes of a header of n 32-bit words, a `uint8_t`. */
  function OptionBytes(n: int): nat {
    (n - 5) * 4 % 256
  }

  /** The decode of `handle_tcp`, of the segment at position t. */
  function DecodeSegment(b: Bytes, t: nat, saddr: Bytes, daddr: Bytes): Option<Decoded>
    requires |b| <= t + 20 + 0xFFFF
  {
    if t + 20 > |b| then None
    else
      var optlen := OptionBytes(b[t + 12] / 16);
      var d := t + 20 + optlen;
      if d > |b| then None
      else
        var f := b[t + 13];
        var p := Packet(GetBe32(b, t + 4), GetBe32(b, t + 8), GetBe16(b, t + 14), b[d..],
                        Bit(f, 5), Bit(f, 4), Bit(f, 3), Bit(f, 2), Bit(f, 1), Bit(f, 0));
        Some(Decoded(saddr, daddr, GetBe16(b, t), GetBe16(b, t + 2), p, optlen, b[t + 20..]))
  }

  /** The header decode of `handle_ip` and `handle_tcp` for TCP over IPv4. */
  function Decode4(b: Bytes): Option<Decoded> {
    if |b| < 20 || b[0] / 16 != 4 then None
    else if Bit(b[7], 5) then None // IP_MF, tested in host order
    else if GetBe16(b, 2) != |b| || b[9] != 6 then None
    else DecodeSegment(b, 20 + OptionBytes(b[0] % 16), b[12..16], b[16..20])
  }

  lemma FlagsRoundTrip(p: Packet)
    ensures var f := Flags(p);
            && Bit(f, 0) == p.fin && Bit(f, 1) == p.syn && Bit(f, 2) == p.rst
            && Bit(f, 3) == p.psh && Bit(f, 4) == p.ack && Bit(f, 5) == p.urg
  {
    BitOf(p.fin, p.syn, p.rst, p.psh, p.ack, p.urg);
  }

  lemma BitOf(b0: bool, b1: bool, b2: bool, b3: bool, b4: bool, b5: bool)
    ensures var f := Flag(b0, 1) as int + Flag(b1, 2) + Flag(b2, 4) + Flag(b3, 8) + Flag(b4, 16) + Flag(b5, 32);
            && Bit(f, 0) == b0 && Bit(f, 1) == b1 && Bit(f, 2) == b2
            && Bit(f, 3) == b3 && Bit(f, 4) == b4 && Bit(f, 5) == b5
  {
    hide Pow2;
    Powers();
    var f5: int := if b5 then 1 else 0;
    var f4 := 2 * f5 + if b4 then 1 else 0;
    var f3 := 2 * f4 + if b3 then 1 else 0;
    var f2 := 2 * f3 + if b2 then 1 else 0;
    var f1 := 2 * f2 + if b1 then 1 else 0;
    var f0 := 2 * f1 + if b0 then 1 else 0;
    assert f0 / 2 == f1 && f0 / 4 == f2 && f0 / 8 == f3 && f0 / 16 == f4 && f0 / 32 == f5;
  }

  lemma Powers()
    ensures Pow2(0) == 1 && Pow2(1) == 2 && Pow2(2) == 4 && Pow2(3) == 8 && Pow2(4) == 16 && Pow2(5) == 32
  {
    assert Pow2(3) == 8;
  }

  lemma Slices16(b: Bytes, i: nat, x: u16)
    requires i + 2 <= |b| && b[i..i + 2] == Be16(x)
    ensures GetBe16(b, i) == x
  {
    assert b[i] == b[i..i + 2][0] && b[i + 1] == b[i..i + 2][1];
  }

  lemma Slices32(b: Bytes, i: nat, x: u32)
    requires i + 4 <= |b| && b[i..i + 4] == Be32(x)
    ensures GetBe32(b, i) == x
  {
    assert b[i] == b[i..i + 4][0] && b[i + 1] == b[i..i + 4][1];
    assert b[i + 2] == b[i..i + 4][2] && b[i + 3] == b[i..i + 4][3];
    Be32RoundTrip(x);
  }

  lemma HeadParts(c: Conn, p: Packet)
    ensures var h := TcpHead(c, p);
            && |h| == 16 && h[0..2] == Be16(c.dest) && h[2..4] == Be16(c.source)
            && h[4..8] == Be32(p.seqno) && h[8..12] == Be32(p.ackno)
            && h[12] == (if p.syn then 0x70 else 0x50) && h[13] == Flags(p) && h[14..16] == Be16(p.window)
  {
    hide Flags;
  }

  lemma BehindHeader(h: Bytes, s: Bytes, head: Bytes, tail: Bytes)
    requires |h| == 20 && |head| == 16 && |s| == 18 + |tail| && s[..16] == head && s[18..] == tail
    ensures (h + s)[20..36] == head && (h + s)[38..] == tail
  {
    assert (h + s)[20..36] == s[..16] && (h + s)[38..] == s[18..];
  }

  /** Where the fields of a TCP segment lie. */
  lemma TcpFields(c: Conn, p: Packet, pseudo: Bytes, tail: Bytes, h: Bytes)
    requires |h| == 20
    ensures var b := h + Sealed(pseudo, TcpHead(c, p), tail);
            && |b| == 38 + |tail|
            && GetBe16(b, 20) == c.dest && GetBe16(b, 22) == c.source
            && GetBe32(b, 24) == p.seqno && GetBe32(b, 28) == p.ackno
            && b[32] == (if p.syn then 0x70 else 0x50) && b[33] == Flags(p) && GetBe16(b, 34) == p.window
            && b[38..] == tail
  {
    hide Fold, WordSum, Flags, GetBe16, GetBe32, TcpHead, Sealed, Be16, Be32;
    var head := TcpHead(c, p);
    var b := h + Sealed(pseudo, head, tail);
    HeadParts(c, p);
    SealedParts(pseudo, head, tail);
    BehindHeader(h, Sealed(pseudo, head, tail), head, tail);
    assert b[20..22] == b[20..36][0..2] && b[22..24] == b[20..36][2..4] && b[24..28] == b[20..36][4..8];
    assert b[28..32] == b[20..36][8..12] && b[34..36] == b[20..36][14..16];
    assert b[32] == b[20..36][12] && b[33] == b[20..36][13];
    Slices16(b, 20, c.dest);
    Slices16(b, 22, c.source);
    Slices32(b, 24, p.seqno);
    Slices32(b, 28, p.ackno);
    Slices16(b, 34, p.window);
  }

  lemma DecodeShape(b: Bytes, c: Conn, p: Packet, o: Bytes)
    requires IsIp4(c) && |b| == 40 + |o| + |p.data| <= 0xFFFF && |o| == (if p.syn then 8 else 0)
    requires b[0] == 0x45 && GetBe16(b, 2) == |b| && b[7] == 0 && b[9] == IPPROTO_TCP
    requires b[12..16] == c.daddr && b[16..20] == c.saddr
    requires GetBe16(b, 20) == c.dest && GetBe16(b, 22) == c.source
    requires GetBe32(b, 24) == p.seqno && GetBe32(b, 28) == p.ackno
    requires b[32] == (if p.syn then 0x70 else 0x50) && b[33] == Flags(p) && GetBe16(b, 34) == p.window
    requires b[40..] == o + p.data
    ensures Decode4(b) == Some(Decoded(c.daddr, c.saddr, c.dest, c.source, p, |o|, o + p.data))
  {
    hide Flags, GetBe16, GetBe32, Bit, OptionBytes;
    FlagsRoundTrip(p);
    NoFragment();
    HeaderOptions();
    assert b[40 + |o|..] == b[40..][|o|..] == p.data;
  }

  lemma HeaderOptions()
    ensures OptionBytes(5) == 0 && OptionBytes(7) == 8
  {
  }

  lemma NoFragment()
    ensures !Bit(0, 5)
  {
  }

  /** Where everything lies in a packet of `write_tcp`. */
  lemma WrittenFields(c: Conn, p: Packet, scale: u8)
    requires IsIp4(c)
    ensures var b := Tcp4Packet(c, p, scale);
            && |b| == 20 + TcpLength(p) && GetBe16(b, 2) == |b| % TWO16
            && b[0] == 0x45 && b[7] == 0 && b[9] == IPPROTO_TCP && b[12..16] == c.daddr && b[16..20] == c.saddr
            && GetBe16(b, 20) == c.dest && GetBe16(b, 22) == c.source
            && GetBe32(b, 24) == p.seqno && GetBe32(b, 28) == p.ackno
            && b[32] == (if p.syn then 0x70 else 0x50) && b[33] == Flags(p) && GetBe16(b, 34) == p.window
            && b[40..] == TcpOptions(p, scale, false) + p.data
  {
    hide Fold, WordSum, NetworkSum, Flags, GetBe16, GetBe32, Sealed, TcpHead, Ip4Sealed, Stored;
    var n := 20 + TcpLength(p);
    var h, tail := Ip4Sealed(c, IPPROTO_TCP, n % TWO16), TcpTail(p, scale, false);
    var pseudo := Pseudo4(c, IPPROTO_TCP, TcpLength(p) % TWO16);
    HeadLengths(c, p, scale, []);
    Ip4SealedShape(c, IPPROTO_TCP, n % TWO16);
    TcpFields(c, p, pseudo, tail, h);
    var s := Sealed(pseudo, TcpHead(c, p), tail);
    HeaderKept(h, s);
    Slices16(h + s, 2, n % TWO16);
    BehindUrgent(h + s, p, scale);
  }

  lemma BehindUrgent(b: Bytes, p: Packet, scale: u8)
    requires |b| >= 38 && b[38..] == TcpTail(p, scale, false)
    ensures |b| >= 40 && b[40..] == TcpOptions(p, scale, false) + p.data
  {
    hide TcpOptions;
    assert b[40..] == b[38..][2..];
  }

  /** Decoding a packet of `write_tcp` gives back the exchanged endpoints and all of the packet, if its
      length fits 16 bits, and refuses it otherwise. */
  lemma PrintParseRoundTrip(c: Conn, p: Packet, scale: u8)
    requires IsIp4(c)
    ensures var o := TcpOptions(p, scale, false);
            Decode4(Tcp4Packet(c, p, scale))
            == if 20 + TcpLength(p) <= 0xFFFF
               then Some(Decoded(c.daddr, c.saddr, c.dest, c.source, p, |o|, o + p.data)) else None
  {
    hide Flags, GetBe16, GetBe32, Tcp4Packet, Decode4;
    var b := Tcp4Packet(c, p, scale);
    WrittenFields(c, p, scale);
    if |b| <= 0xFFFF {
      DecodeShape(b, c, p, TcpOptions(p, scale, false));
    } else {
      LengthRefused(b);
    }
  }

  lemma LengthRefused(b: Bytes)
    requires |b| >= 20 && GetBe16(b, 2) != |b|
    ensures Decode4(b) == None
  {
  }
}
