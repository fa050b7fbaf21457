/** The option loop of `handle_tcp`. */
module TcpOptionList {
  import opened Words
  import opened Wrappers
  import opened NetworkOrder
  import opened Checksum
  import opened TcpModel
  import opened PacketCodec

  /** `Short` claims a length of one: the loop takes its kind alone, and its length byte for a
      no-operation. */
  datatype TcpOption = Nop | Short(kind: u8) | Mss(mss: u16) | Scale(ws: u8) | Other(kind: u8, body: Bytes)

  /** Kinds 0 and 1 are the end marker and the no-operation; MSS and window scale have their own
      constructors. */
  predicate WellFormed(o: TcpOption) {
    && (o.Short? ==> o.kind > 1)
    && (o.Other? ==>
          && o.kind > 1 && |o.body| <= 253
          && !(o.kind == 2 && |o.body| == 2) && !(o.kind == 3 && |o.body| == 1))
  }

  predicate AllWellFormed(os: seq<TcpOption>) {
    forall o <- os :: WellFormed(o)
  }

  function Encode(o: TcpOption): Bytes
    requires WellFormed(o)
  {
    match o
    case Nop => [1]
    case Short(kind) => [kind, 1]
    case Mss(mss) => [2, 4] + Be16(mss)
    case Scale(ws) => [3, 3, ws]
    case Other(kind, body) => [kind, 2 + |body|] + body
  }

  function EncodeAll(os: seq<TcpOption>): Bytes
    requires AllWellFormed(os)
  {
    if os == [] then [] else Encode(os[0]) + EncodeAll(os[1..])
  }

  /** The last MSS of a list, or the given one. */
  function LastMss(os: seq<TcpOption>, mss: u16): u16 {
    if os == [] then mss else LastMss(os[1..], if os[0].Mss? then os[0].mss else mss)
  }

  function LastScale(os: seq<TcpOption>, ws: u8): u8 {
    if os == [] then ws else LastScale(os[1..], if os[0].Scale? then os[0].ws else ws)
  }

  /** The memory the option pointer walks over. Nothing is known of what lies behind the packet. */
  type Memory = nat -> u8

  /** b lies in memory from `at` on. */
  predicate Holds(mem: Memory, at: nat, b: Bytes) {
    forall i :: 0 <= i < |b| ==> mem(at + i) == b[i]
  }

  /** The variables of the loop: the option pointer, `optlen`, `mss` and `ws`. */
  datatype Cursor = Cursor(at: nat, optlen: int, mss: u16, ws: u8)

  /** The loop condition, with the break for the end marker. */
  predicate Running(mem: Memory, c: Cursor) {
    c.optlen > 0 && mem(c.at) != 0
  }

  /** The body of the loop. */
  function Advance(mem: Memory, c: Cursor): Cursor {
    var kind, len := mem(c.at), mem(c.at + 1);
    var hi: int := mem(c.at + 2);
    var mss := if kind == 2 && len == 4 then hi * 256 + mem(c.at + 3) else c.mss;
    var ws := if kind == 3 && len == 3 then mem(c.at + 2) else c.ws;
    var n := if kind == 1 then 1 else len;
    Cursor(c.at + n, c.optlen - n, mss, ws)
  }

  /** The values the loop ends with, or that it never ends. */
  datatype Outcome = Parsed(mss: u16, ws: u8) | Hangs

  function Parse(mem: Memory, c: Cursor): Outcome
    decreases c.optlen
  {
    if !Running(mem, c) then Parsed(c.mss, c.ws)
    else if Advance(mem, c).optlen == c.optlen then Hangs
    else Parse(mem, Advance(mem, c))
  }

  /** The loop. Where the source would go round for ever, the method stops and says so. */
  method ParseOptions(mem: Memory, options: nat, optlen: nat, mss: u16) returns (r: Outcome)
    ensures r == Parse(mem, Cursor(options, optlen, mss, 0))
  {
    var c := Cursor(options, optlen, mss, 0);
    while Running(mem, c)
      invariant Parse(mem, c) == Parse(mem, Cursor(options, optlen, mss, 0))
      decreases c.optlen
    {
      if Advance(mem, c).optlen == c.optlen {
        return Hangs;
      }
      c := Advance(mem, c);
    }
    return Parsed(c.mss, c.ws);
  }

  // ---- When the loop ends ----

  /** n turns of the loop. */
  function Turns(mem: Memory, c: Cursor, n: nat): Cursor
    decreases n
  {
    if n == 0 then c else Turns(mem, Advance(mem, c), n - 1)
  }

  lemma {:induction false} HangsForEver(mem: Memory, c: Cursor, n: nat)
    requires Parse(mem, c) == Hangs
    ensures Running(mem, Turns(mem, c, n))
    decreases n
  {
    if n > 0 {
      HangsForEver(mem, Advance(mem, c), n - 1);
    }
  }

  lemma {:induction false} ParsedEnds(mem: Memory, c: Cursor) returns (n: nat)
    requires Parse(mem, c).Parsed?
    ensures !Running(mem, Turns(mem, c, n))
    ensures Parse(mem, c) == Parsed(Turns(mem, c, n).mss, Turns(mem, c, n).ws)
    decreases c.optlen
  {
    if !Running(mem, c) {
      return 0;
    }
    var m := ParsedEnds(mem, Advance(mem, c));
    return m + 1;
  }

  /** `Hangs` is what it says: the loop condition holds after every number of turns. */
  lemma HangsIffForEver(mem: Memory, c: Cursor)
    ensures Parse(mem, c) == Hangs <==> forall n: nat :: Running(mem, Turns(mem, c, n))
  {
    if Parse(mem, c) == Hangs {
      forall n: nat ensures Running(mem, Turns(mem, c, n)) {
        HangsForEver(mem, c, n);
      }
    } else {
      var n := ParsedEnds(mem, c);
    }
  }

  // ---- Reading options ----

  /** c after one option. */
  function Past(c: Cursor, o: TcpOption): Cursor
    requires WellFormed(o)
  {
    Cursor(c.at + |Encode(o)|, c.optlen - |Encode(o)|, if o.Mss? then o.mss else c.mss, if o.Scale? then o.ws else c.ws)
  }

  lemma ShortIsKindAndNop(mem: Memory, c: Cursor)
    requires c.optlen >= 2 && mem(c.at) > 1 && mem(c.at + 1) == 1
    ensures Running(mem, c)
    ensures Parse(mem, c) == Parse(mem, Cursor(c.at + 2, c.optlen - 2, c.mss, c.ws))
  {
    var c1 := Advance(mem, c);
    assert Advance(mem, c1) == Cursor(c.at + 2, c.optlen - 2, c.mss, c.ws);
  }

  lemma HeldByte(mem: Memory, at: nat, b: Bytes, i: nat)
    requires Holds(mem, at, b) && i < |b|
    ensures mem(at + i) == b[i]
  {
  }

  lemma AdvancesBy(mem: Memory, c: Cursor, o: TcpOption)
    requires WellFormed(o) && !o.Short? && c.optlen > 0
    requires mem(c.at) == Encode(o)[0] && (|Encode(o)| > 1 ==> mem(c.at + 1) == Encode(o)[1])
    requires o.Mss? || o.Scale? ==> mem(c.at + 2) == Encode(o)[2]
    requires o.Mss? ==> mem(c.at + 3) == Encode(o)[3]
    ensures Running(mem, c) && Advance(mem, c) == Past(c, o)
  {
  }

  /** An option that lies in memory and within `optlen` is read as what it is. */
  lemma ReadsOption(mem: Memory, c: Cursor, o: TcpOption)
    requires WellFormed(o) && Holds(mem, c.at, Encode(o)) && c.optlen >= |Encode(o)|
    ensures Parse(mem, c) == Parse(mem, Past(c, o))
  {
    hide Holds, Advance, Running;
    var b := Encode(o);
    HeldByte(mem, c.at, b, 0);
    if |b| > 1 {
      HeldByte(mem, c.at, b, 1);
    }
    if o.Short? {
      ShortIsKindAndNop(mem, c);
    } else {
      if o.Mss? || o.Scale? {
        HeldByte(mem, c.at, b, 2);
      }
      if o.Mss? {
        HeldByte(mem, c.at, b, 3);
      }
      AdvancesBy(mem, c, o);
    }
  }

  /** c after all options of a list. */
  function PastAll(c: Cursor, os: seq<TcpOption>): Cursor
    requires AllWellFormed(os)
  {
    Cursor(c.at + |EncodeAll(os)|, c.optlen - |EncodeAll(os)|, LastMss(os, c.mss), LastScale(os, c.ws))
  }

  lemma HoldsParts(mem: Memory, at: nat, a: Bytes, b: Bytes)
    ensures Holds(mem, at, a + b) <==> Holds(mem, at, a) && Holds(mem, at + |a|, b)
  {
    if Holds(mem, at, a + b) {
      forall i | 0 <= i < |a| ensures mem(at + i) == a[i] {
        assert (a + b)[i] == a[i];
      }
      forall i | 0 <= i < |b| ensures mem(at + |a| + i) == b[i] {
        assert mem(at + (|a| + i)) == (a + b)[|a| + i];
      }
    }
    if Holds(mem, at, a) && Holds(mem, at + |a|, b) {
      forall i | 0 <= i < |a + b| ensures mem(at + i) == (a + b)[i] {
        if i >= |a| {
          assert mem(at + |a| + (i - |a|)) == b[i - |a|];
        }
      }
    }
  }

  lemma {:induction false} ReadsOptions(mem: Memory, c: Cursor, os: seq<TcpOption>)
    requires AllWellFormed(os) && Holds(mem, c.at, EncodeAll(os)) && c.optlen >= |EncodeAll(os)|
    ensures Parse(mem, c) == Parse(mem, PastAll(c, os))
    decreases |os|
  {
    hide Parse, Holds, WellFormed, Encode;
    if os == [] {
      assert PastAll(c, os) == c;
    } else {
      assert os[0] in os;
      HoldsParts(mem, c.at, Encode(os[0]), EncodeAll(os[1..]));
      ReadsOption(mem, c, os[0]);
      ReadsOptions(mem, Past(c, os[0]), os[1..]);
    }
  }

  /** On every list of well-formed options, ended by its length or by an end marker, the loop ends and
      finds the last MSS and the last window scale, whatever lies behind the packet. */
  lemma ParseFindsLast(mem: Memory, c: Cursor, os: seq<TcpOption>)
    requires AllWellFormed(os) && Holds(mem, c.at, EncodeAll(os)) && c.optlen >= |EncodeAll(os)|
    requires c.optlen > |EncodeAll(os)| ==> mem(c.at + |EncodeAll(os)|) == 0
    ensures Parse(mem, c) == Parsed(LastMss(os, c.mss), LastScale(os, c.ws))
  {
    hide Holds, EncodeAll, WellFormed, Advance;
    ReadsOptions(mem, c, os);
    assert !Running(mem, PastAll(c, os));
  }

  // ---- When the loop does not end ----

  /** Within n bytes from `at` on lie the options os and then one of length zero. */
  predicate EndsInZeroLength(mem: Memory, at: nat, n: int, os: seq<TcpOption>) {
    && AllWellFormed(os) && Holds(mem, at, EncodeAll(os)) && |EncodeAll(os)| < n
    && mem(at + |EncodeAll(os)|) > 1 && mem(at + |EncodeAll(os)| + 1) == 0
  }

  lemma ZeroLengthHangs(mem: Memory, c: Cursor)
    requires EndsInZeroLength(mem, c.at, c.optlen, [])
    ensures Parse(mem, c) == Hangs
  {
    assert EncodeAll([]) == [];
  }

  /** The option the loop takes at c. */
  lemma OptionAt(mem: Memory, c: Cursor) returns (o: TcpOption)
    requires Running(mem, c) && (mem(c.at) > 1 ==> mem(c.at + 1) != 0)
    ensures WellFormed(o) && Holds(mem, c.at, Encode(o))
  {
    var kind, len := mem(c.at), mem(c.at + 1);
    if kind == 1 {
      return Nop;
    } else if len == 1 {
      return Short(kind);
    } else if kind == 2 && len == 4 {
      var hi: int := mem(c.at + 2);
      o := Mss(hi * 256 + mem(c.at + 3));
      assert Encode(o) == [2, 4, mem(c.at + 2), mem(c.at + 3)];
    } else if kind == 3 && len == 3 {
      o := Scale(mem(c.at + 2));
    } else {
      o := Other(kind, seq(len - 2, i requires 0 <= i => mem(c.at + 2 + i)));
      forall i | 0 <= i < len ensures mem(c.at + i) == Encode(o)[i] {
        assert i >= 2 ==> o.body[i - 2] == mem(c.at + 2 + (i - 2));
      }
    }
  }

  lemma MeetsAt(mem: Memory, c: Cursor)
    requires Parse(mem, c) == Hangs && Advance(mem, c).optlen == c.optlen
    ensures EndsInZeroLength(mem, c.at, c.optlen, [])
  {
    hide WellFormed, Parse;
    assert Running(mem, c) by {
      Goes(mem, c);
    }
    assert EncodeAll([]) == [];
  }

  lemma Goes(mem: Memory, c: Cursor)
    requires Parse(mem, c) == Hangs
    ensures Running(mem, c)
  {
  }

  lemma MeetsBehind(mem: Memory, c: Cursor, o: TcpOption, rest: seq<TcpOption>)
    requires WellFormed(o) && Holds(mem, c.at, Encode(o))
    requires EndsInZeroLength(mem, c.at + |Encode(o)|, c.optlen - |Encode(o)|, rest)
    ensures EndsInZeroLength(mem, c.at, c.optlen, [o] + rest)
  {
    hide Holds, WellFormed, Encode;
    var os := [o] + rest;
    assert os[1..] == rest;
    HoldsParts(mem, c.at, Encode(o), EncodeAll(rest));
  }

  lemma {:induction false} HangingMeetsZeroLength(mem: Memory, c: Cursor) returns (os: seq<TcpOption>)
    requires Parse(mem, c) == Hangs
    ensures EndsInZeroLength(mem, c.at, c.optlen, os)
    decreases c.optlen
  {
    hide Holds, EndsInZeroLength, EncodeAll, WellFormed;
    if Advance(mem, c).optlen == c.optlen {
      MeetsAt(mem, c);
      os := [];
    } else {
      var o := OptionAt(mem, c);
      Fits(mem, c, o);
      ReadsOption(mem, c, o);
      assert |Encode(o)| > 0;
      var rest := HangingMeetsZeroLength(mem, Past(c, o));
      MeetsBehind(mem, c, o, rest);
      os := [o] + rest;
    }
  }

  /** An option that would reach past `optlen` ends the loop. */
  lemma Fits(mem: Memory, c: Cursor, o: TcpOption)
    requires Parse(mem, c) == Hangs && Advance(mem, c).optlen != c.optlen
    requires WellFormed(o) && Holds(mem, c.at, Encode(o))
    ensures c.optlen >= |Encode(o)|
  {
    var b := Encode(o);
    assert mem(c.at + 0) == b[0];
    assert |b| > 1 ==> mem(c.at + 1) == b[1];
  }

  /** Exactly which bytes make the loop run for ever: well-formed options and then, still within the
      length of the options, a kind other than the end marker and the no-operation with length zero. */
  lemma HangsIffZeroLength(mem: Memory, c: Cursor)
    ensures (forall n: nat :: Running(mem, Turns(mem, c, n)))
            <==> exists os :: EndsInZeroLength(mem, c.at, c.optlen, os)
  {
    hide Holds, Parse, WellFormed, Turns, Running;
    HangsIffForEver(mem, c);
    if Parse(mem, c) == Hangs {
      var os := HangingMeetsZeroLength(mem, c);
    }
    if os :| EndsInZeroLength(mem, c.at, c.optlen, os) {
      ReadsOptions(mem, c, os);
      assert EncodeAll([]) == [];
      ZeroLengthHangs(mem, PastAll(c, os));
    }
  }

  // ---- Packets ----

  /** The options of an emitted SYN are read back with their window scale. The MSS, stored in host
      order, comes back with its bytes exchanged. */
  lemma SynOptionsReadBack(p: Packet, scale: u8, ip6: bool, mem: Memory, options: nat, mss: u16)
    requires p.syn && Holds(mem, options, TcpOptions(p, scale, ip6))
    ensures Parse(mem, Cursor(options, 8, mss, 0)) == Parsed(GetBe16(Stored(DefaultMss(ip6)), 0), scale)
  {
    var swapped := GetBe16(Stored(DefaultMss(ip6)), 0);
    var os := [Mss(swapped), Scale(scale)];
    assert os[1..] == [Scale(scale)] && os[1..][1..] == [];
    assert EncodeAll([]) == [];
    assert EncodeAll(os[1..]) == Encode(Scale(scale)) + EncodeAll([]);
    assert Be16(swapped) == Stored(DefaultMss(ip6));
    assert EncodeAll(os) + [0] == TcpOptions(p, scale, ip6);
    HoldsParts(mem, options, EncodeAll(os), [0]);
    assert mem(options + |EncodeAll(os)| + 0) == [0][0];
    ParseFindsLast(mem, Cursor(options, 8, mss, 0), os);
    assert LastMss(os, mss) == LastMss(os[1..], swapped) == LastMss([], swapped);
    assert LastScale(os, 0) == LastScale(os[1..], 0) == LastScale([], scale);
  }

  const ZERO_LENGTH: Bytes := [8, 0, 0, 0, 0, 0, 0, 0]

  /** A SYN from 10.0.0.1 to 10.0.0.2 with eight bytes of options, which begin with kind 8 and length
      zero. */
  const IP_PART: Bytes := [0x45, 0, 0, 48, 0, 0, 0, 0, 64, 6, 0, 0, 10, 0, 0, 1, 10, 0, 0, 2]
  const TCP_PART: Bytes := [0x30, 0x39, 0, 80, 0, 0, 0, 1, 0, 0, 0, 0, 0x70, 2, 0xFF, 0xFF, 0, 0, 0, 0]
  const HANGING_SYN: Bytes := IP_PART + TCP_PART + ZERO_LENGTH

  /** It decodes as a SYN, and its options are never through. */
  lemma HangingSyn(mem: Memory, options: nat, mss: u16)
    requires Holds(mem, options, ZERO_LENGTH)
    ensures var d := Decode4(HANGING_SYN);
            && d.Some? && d.value.p.syn && !d.value.p.urg && d.value.p.data == [] && d.value.options == ZERO_LENGTH
            && forall n: nat :: Running(mem, Turns(mem, Cursor(options, d.value.optlen, mss, 0), n))
  {
    hide Decode4, Turns, Parse;
    HangingSynDecodes();
    var c := Cursor(options, 8, mss, 0);
    HeldByte(mem, options, ZERO_LENGTH, 0);
    HeldByte(mem, options, ZERO_LENGTH, 1);
    assert EncodeAll([]) == [];
    ZeroLengthHangs(mem, c);
    HangsIffForEver(mem, c);
  }

  lemma HangingSynDecodes()
    ensures var p := Packet(1, 0, 0xFFFF, [], false, false, false, false, true, false);
            Decode4(HANGING_SYN)
            == Some(Decoded([10, 0, 0, 1], [10, 0, 0, 2], 12345, 80, p, 8, ZERO_LENGTH))
  {
    hide Decode4, GetBe16, GetBe32, Flags, IP_PART, TCP_PART;
    var p := Packet(1, 0, 0xFFFF, [], false, false, false, false, true, false);
    IpPart();
    TcpPartPorts();
    TcpPartFlags(p);
    assert ZERO_LENGTH + p.data == ZERO_LENGTH;
    DecodesParts(IP_PART, TCP_PART, ZERO_LENGTH, Conn([10, 0, 0, 2], [10, 0, 0, 1], 80, 12345), p);
  }

  lemma IpPart()
    ensures |IP_PART| == 20 && IP_PART[0] == 0x45 && IP_PART[7] == 0 && IP_PART[9] == 6 && GetBe16(IP_PART, 2) == 48
    ensures IP_PART[12..16] == [10, 0, 0, 1] && IP_PART[16..20] == [10, 0, 0, 2]
  {
  }

  lemma TcpPartPorts()
    ensures |TCP_PART| == 20 && GetBe16(TCP_PART, 0) == 12345 && GetBe16(TCP_PART, 2) == 80
    ensures GetBe32(TCP_PART, 4) == 1 && GetBe32(TCP_PART, 8) == 0
  {
  }

  lemma TcpPartFlags(p: Packet)
    requires p == Packet(1, 0, 0xFFFF, [], false, false, false, false, true, false)
    ensures |TCP_PART| == 20 && TCP_PART[12] == 0x70 && TCP_PART[13] == Flags(p) && GetBe16(TCP_PART, 14) == 0xFFFF
  {
  }

  lemma DecodesParts(h: Bytes, t: Bytes, o: Bytes, c: Conn, p: Packet)
    requires |h| == 20 && |t| == 20 && IsIp4(c) && |o| == (if p.syn then 8 else 0) && 40 + |o| + |p.data| <= 0xFFFF
    requires h[0] == 0x45 && GetBe16(h, 2) == 40 + |o| + |p.data| && h[7] == 0 && h[9] == IPPROTO_TCP
    requires h[12..16] == c.daddr && h[16..20] == c.saddr
    requires GetBe16(t, 0) == c.dest && GetBe16(t, 2) == c.source && GetBe32(t, 4) == p.seqno
    requires GetBe32(t, 8) == p.ackno
    requires t[12] == (if p.syn then 0x70 else 0x50) && t[13] == Flags(p) && GetBe16(t, 14) == p.window
    ensures Decode4(h + t + (o + p.data)) == Some(Decoded(c.daddr, c.saddr, c.dest, c.source, p, |o|, o + p.data))
  {
    hide Decode4, Flags;
    var b := h + t + (o + p.data);
    assert b[12..16] == h[12..16] && b[16..20] == h[16..20] && b[40..] == o + p.data;
    assert forall i :: 0 <= i < 20 ==> b[i] == h[i] && b[20 + i] == t[i];
    DecodeShape(b, c, p, o);
  }
}
