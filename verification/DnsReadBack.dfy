/** What `parse_dns_response` makes of the messages that an encoder writes, and which messages it leaves alone. */
module DnsReadBack {
  import opened Words
  import opened NetworkOrder
  import opened DnsName
  import opened DnsRoundTrip
  import opened DnsResponse

  // ---- Records ----

  /** How a record names its owner: in full, or by a pointer to a name that may itself be in pieces. */
  datatype Owner = InFull | At(pieces: seq<Piece>)

  datatype Resource = Resource(labels: seq<Bytes>, owner: Owner, kind: u16, cls: u16, ttl: u32, rdata: Bytes)

  /** A name that the decoder handles: section 2.3.4 of RFC 1035, and at most 25 labels. */
  predicate Nameable(labels: seq<Bytes>) {
    && Legal(labels) && 1 <= |labels| < 26 && |Encode(labels)| + 1 <= 255
    && forall l <- labels :: 0 !in l
  }

  /** The labels in pieces that a pointer leads to, in fewer turns than the decoder has. */
  predicate PointedAt(pieces: seq<Piece>, labels: seq<Bytes>) {
    pieces != [] && pieces[0].at < 0x4000 && LabelsOf(pieces) == labels && TurnsOf(pieces) < 26
  }

  predicate WellFormed(r: Resource) {
    && Nameable(r.labels) && |r.rdata| <= 0xFFFF && (r.owner.At? ==> PointedAt(r.owner.pieces, r.labels))
    && (r.cls == 1 && r.kind == 1 ==> |r.rdata| == 4)
    && (r.cls == 1 && r.kind == 28 ==> |r.rdata| == 16)
  }

  /** The bytes of the owner's name in the record. */
  function OwnerBytes(r: Resource): Bytes
    requires WellFormed(r)
  {
    if r.owner.At? then Pointer(r.owner.pieces[0].at) else Encode(r.labels) + [0]
  }

  function FixedBytes(r: Resource): Bytes
    requires WellFormed(r)
  {
    Be16(r.kind) + Be16(r.cls) + Be32(r.ttl) + Be16(|r.rdata|)
  }

  function RecordBytes(r: Resource): Bytes
    requires WellFormed(r)
  {
    OwnerBytes(r) + (FixedBytes(r) + r.rdata)
  }

  /** The records one behind the other, with every pointer at the name it stands for. */
  predicate LaidOut(data: Bytes, at: nat, rs: seq<Resource>)
    decreases |rs|
  {
    rs == [] ||
    (&& WellFormed(rs[0]) && Holds(data, at, RecordBytes(rs[0]))
     && (rs[0].owner.At? ==> Laid(data, rs[0].owner.pieces))
     && LaidOut(data, at + |RecordBytes(rs[0])|, rs[1..]))
  }

  /** A or AAAA in the class IN, section 3.2.2 of RFC 1035 and section 2.1 of RFC 3596. */
  predicate IsAddressRecord(r: Resource) {
    r.cls == 1 && (r.kind == 1 || r.kind == 28)
  }

  /** What the app is told about a report. */
  datatype Resolved = Resolved(question: Bytes, name: Bytes, address: Bytes, ttl: u32)

  /** The address records, in order. */
  function Expected(rs: seq<Resource>, question: Bytes): seq<Resolved> {
    if rs == [] then []
    else if IsAddressRecord(rs[0]) then
      [Resolved(question, Joined(rs[0].labels), rs[0].rdata, rs[0].ttl)] + Expected(rs[1..], question)
    else Expected(rs[1..], question)
  }

  function ToldOf(data: Bytes, r: Report): Resolved
    requires r.at + r.size <= |data|
  {
    Resolved(r.question, r.name, data[r.at..r.at + r.size], r.ttl)
  }

  function Told(data: Bytes, reports: seq<Report>): seq<Resolved>
    requires forall r <- reports :: r.at + r.size <= |data|
  {
    if reports == [] then [] else [ToldOf(data, reports[0])] + Told(data, reports[1..])
  }

  lemma {:induction false} CStringWhole(b: Bytes)
    requires 0 !in b
    ensures CString(b) == b
  {
    if b != [] {
      CStringWhole(b[1..]);
    }
  }

  lemma {:induction false} JoinedWithoutNul(labels: seq<Bytes>)
    requires forall l <- labels :: 0 !in l
    ensures 0 !in Joined(labels)
  {
    if labels != [] {
      assert labels[0] in labels;
      JoinedWithoutNul(labels[1..]);
    }
  }

  lemma FullNameReadsBack(data: Bytes, at: nat, labels: seq<Bytes>)
    requires |data| <= 0xFFFF && Nameable(labels) && Holds(data, at, Encode(labels) + [0])
    ensures GetName(data, at, NO_NAME) == Name(Joined(labels), at + |Encode(labels)| + 1)
  {
    hide Holds, Encode, GetName, Joined, Legal, Zeros;
    HoldsParts(data, at, Encode(labels), [0]);
    NameRoundTrip(data, at, labels, NO_NAME);
  }

  lemma PointerReadsBack(data: Bytes, at: nat, pieces: seq<Piece>, labels: seq<Bytes>)
    requires |data| <= 0xFFFF && Nameable(labels) && PointedAt(pieces, labels)
    requires Holds(data, at, Pointer(pieces[0].at)) && Laid(data, pieces)
    ensures GetName(data, at, NO_NAME) == Name(Joined(labels), at + 2)
  {
    hide Holds, Encode, GetName, Joined, Zeros, Pointer, Legal, LabelsOf, Dotted;
    PointerPoints(data, at, pieces[0].at);
    NoLabels(data, at);
    Lengths(labels);
    var all := [Piece(at, [])] + pieces;
    assert all[1..] == pieces;
    PointerFirst(all);
    CompressedName(data, all, NO_NAME);
  }

  lemma PointerFirst(all: seq<Piece>)
    requires |all| > 1 && all[0].labels == []
    ensures LabelsOf(all) == LabelsOf(all[1..]) && TurnsOf(all) == TurnsOf(all[1..]) + 1
  {
  }

  lemma OwnerReadsBack(data: Bytes, at: nat, r: Resource)
    requires |data| <= 0xFFFF && WellFormed(r) && Holds(data, at, OwnerBytes(r))
    requires r.owner.At? ==> Laid(data, r.owner.pieces)
    ensures GetName(data, at, NO_NAME) == Name(Joined(r.labels), at + |OwnerBytes(r)|)
    ensures CString(Joined(r.labels)) == Joined(r.labels)
  {
    hide Holds, Encode, GetName, Joined, CString, Zeros, Laid, PointedAt, Legal;
    JoinedWithoutNul(r.labels);
    CStringWhole(Joined(r.labels));
    if r.owner.At? {
      PointerReadsBack(data, at, r.owner.pieces, r.labels);
    } else {
      FullNameReadsBack(data, at, r.labels);
    }
  }

  lemma NoLabels(data: Bytes, at: nat)
    requires at <= |data|
    ensures Legal([]) && Encode([]) == [] && Holds(data, at, Encode([]))
  {
  }

  lemma WordReadsBack(data: Bytes, at: nat, x: u16)
    requires Holds(data, at, Be16(x))
    ensures at + 2 <= |data| && GetBe16(data, at) == x
  {
    Be16RoundTrip(x);
    assert data[at..at + 2] == Be16(x);
    assert data[at..at + 2][0] == data[at] && data[at..at + 2][1] == data[at + 1];
  }

  lemma LongReadsBack(data: Bytes, at: nat, x: u32)
    requires Holds(data, at, Be32(x))
    ensures at + 4 <= |data| && GetBe32(data, at) == x
  {
    hide Be32;
    Be32Halves(x);
    HoldsParts(data, at, Be16(x / 0x1_0000), Be16(x % 0x1_0000));
    WordReadsBack(data, at, x / 0x1_0000);
    WordReadsBack(data, at + 2, x % 0x1_0000);
  }

  lemma Be32Halves(x: u32)
    ensures Be32(x) == Be16(x / 0x1_0000) + Be16(x % 0x1_0000)
  {
    var hi, lo := x / 0x1_0000, x % 0x1_0000;
    Bytes4(hi / 256, hi % 256, lo / 256, lo % 256, x);
  }

  lemma Bytes4(a: u8, b: u8, c: u8, d: u8, x: u32)
    requires x == ((a * 256 + b) * 256 + c) * 256 + d
    ensures Be32(x) == [a, b, c, d]
  {
    assert x / 0x100_0000 == a;
    assert x / 0x1_0000 == a * 256 + b;
    assert x / 0x100 == (a * 256 + b) * 256 + c;
  }

  lemma FixedReadsBack(data: Bytes, at: nat, r: Resource)
    requires WellFormed(r) && Holds(data, at, FixedBytes(r))
    ensures at + 10 <= |data| && FixedAt(data, at) == Fixed(r.kind, r.cls, r.ttl, |r.rdata|)
  {
    hide Holds, GetBe16, GetBe32;
    var kind, cls, ttl, len := Be16(r.kind), Be16(r.cls), Be32(r.ttl), Be16(|r.rdata|);
    assert FixedBytes(r) == kind + (cls + (ttl + len));
    HoldsParts(data, at, kind, cls + (ttl + len));
    HoldsParts(data, at + 2, cls, ttl + len);
    HoldsParts(data, at + 4, ttl, len);
    WordReadsBack(data, at, r.kind);
    WordReadsBack(data, at + 2, r.cls);
    LongReadsBack(data, at + 4, r.ttl);
    WordReadsBack(data, at + 8, |r.rdata|);
  }

  /** Where the records end. */
  function EndOf(at: nat, rs: seq<Resource>): nat
    requires forall r <- rs :: WellFormed(r)
    decreases |rs|
  {
    if rs == [] then at else EndOf(at + |RecordBytes(rs[0])|, rs[1..])
  }

  lemma {:induction false} LaidOutInside(data: Bytes, at: nat, rs: seq<Resource>)
    requires at <= |data| && LaidOut(data, at, rs)
    ensures forall r <- rs :: WellFormed(r)
    ensures EndOf(at, rs) <= |data|
    decreases |rs|
  {
    hide WellFormed;
    if rs != [] {
      LaidOutInside(data, at + |RecordBytes(rs[0])|, rs[1..]);
      assert forall r <- rs :: r == rs[0] || r in rs[1..];
    }
  }

  /** What is reported of the record r at position at. */
  function Reported(at: nat, r: Resource, question: Bytes): Report
    requires WellFormed(r)
  {
    Report(question, Joined(r.labels), at + |OwnerBytes(r)| + 10, |r.rdata|, r.ttl)
  }

  /** One well-formed record is reported iff it is an address, and the walk goes on behind it. */
  lemma RecordReadBack(data: Bytes, at: nat, r: Resource, n: nat, question: Bytes)
    requires |data| <= 0xFFFF && WellFormed(r) && Holds(data, at, RecordBytes(r))
    requires r.owner.At? ==> Laid(data, r.owner.pieces)
    ensures var a, rest := Walked(data, at, n + 1, question), Walked(data, at + |RecordBytes(r)|, n, question);
            a == if IsAddressRecord(r) then Answers([Reported(at, r, question)] + rest.reports, rest.complete) else rest
  {
    hide Holds, Encode, GetName, Joined, CString, WellFormed, OwnerBytes, FixedBytes, FixedAt, Laid;
    HoldsParts(data, at, OwnerBytes(r), FixedBytes(r) + r.rdata);
    HoldsParts(data, at + |OwnerBytes(r)|, FixedBytes(r), r.rdata);
    OwnerReadsBack(data, at, r);
    FixedReadsBack(data, at + |OwnerBytes(r)|, r);
    Sizes(r);
    Held(data, at + |OwnerBytes(r)| + 10, r.rdata);
  }

  /** The address that is told of a record is its data. */
  lemma AddressReadBack(data: Bytes, at: nat, r: Resource, question: Bytes)
    requires |data| <= 0xFFFF && WellFormed(r) && Holds(data, at, RecordBytes(r))
    ensures var x := Reported(at, r, question); x.at + x.size <= |data| && data[x.at..x.at + x.size] == r.rdata
    ensures at + |RecordBytes(r)| <= |data|
  {
    hide Holds, WellFormed, OwnerBytes, FixedBytes, Joined;
    HoldsParts(data, at, OwnerBytes(r), FixedBytes(r) + r.rdata);
    HoldsParts(data, at + |OwnerBytes(r)|, FixedBytes(r), r.rdata);
    Sizes(r);
    Held(data, at + |OwnerBytes(r)| + 10, r.rdata);
  }

  /** Well-formed records are read to their end, and the app is told exactly the addresses among them, in order, with
      their owners, bytes and lifetimes; then the walk goes on over those that the header counts besides. */
  lemma {:induction false} AnswersReadBack(data: Bytes, at: nat, rs: seq<Resource>, more: nat, question: Bytes)
    requires |data| <= 0xFFFF && at <= |data| && LaidOut(data, at, rs)
    ensures forall r <- rs :: WellFormed(r)
    ensures EndOf(at, rs) <= |data|
    ensures var a, rest := Walked(data, at, |rs| + more, question), Walked(data, EndOf(at, rs), more, question);
            && (a.complete <==> rest.complete)
            && (forall r <- a.reports :: r.at + r.size <= |data|)
            && (forall r <- rest.reports :: r.at + r.size <= |data|)
            && Told(data, a.reports) == Expected(rs, question) + Told(data, rest.reports)
    decreases |rs|
  {
    hide Holds, Joined, WellFormed, RecordBytes, OwnerBytes, Walked, Told, IsAddressRecord;
    LaidOutInside(data, at, rs);
    AllInside(data, at, |rs| + more, question);
    AllInside(data, EndOf(at, rs), more, question);
    if rs != [] {
      var r := rs[0];
      var next := at + |RecordBytes(r)|;
      RecordReadBack(data, at, r, |rs| - 1 + more, question);
      AddressReadBack(data, at, r, question);
      AnswersReadBack(data, next, rs[1..], more, question);
      var rest := Walked(data, next, |rs| - 1 + more, question);
      if IsAddressRecord(r) {
        ToldCons(data, Reported(at, r, question), rest.reports);
      }
    }
  }

  lemma ToldCons(data: Bytes, r: Report, rest: seq<Report>)
    requires r.at + r.size <= |data| && forall x <- rest :: x.at + x.size <= |data|
    ensures Told(data, [r] + rest) == [ToldOf(data, r)] + Told(data, rest)
  {
    hide ToldOf;
    var rs := [r] + rest;
    assert rs[0] == r && rs[1..] == rest;
  }

  lemma AllInside(data: Bytes, off: nat, n: nat, question: Bytes)
    requires |data| <= 0xFFFF && off <= |data|
    ensures forall r <- Walked(data, off, n, question).reports :: r.at + r.size <= |data|
  {
    hide Walked;
    WalkedInside(data, off, n, question);
  }

  lemma Sizes(r: Resource)
    requires WellFormed(r)
    ensures |FixedBytes(r)| == 10 && |RecordBytes(r)| == |OwnerBytes(r)| + 10 + |r.rdata|
    ensures IsAddressRecord(r) ==> |r.rdata| == if r.kind == 1 then 4 else 16
  {
  }

  /** The header says that data is the answer to a standard query: the top bit of its third byte is set and the next
      four are not, and it counts at least one question and one answer. */
  predicate SaysAnswer(data: Bytes) {
    && |data| >= 13 && 128 <= data[2] < 136
    && (data[4] != 0 || data[5] != 0) && (data[6] != 0 || data[7] != 0)
  }

  /** How many answers the header counts. */
  function Counted(data: Bytes): nat
    requires |data| >= 8
  {
    var hi, lo: int := data[6], data[7];
    256 * hi + lo
  }

  /** A message whose header does not say that it is an answer is left alone, whatever is blocked. */
  lemma LeftAlone(data: Bytes, isBlocked: Bytes -> bool, rcode: int)
    requires |data| <= 0xFFFF && !SaysAnswer(data)
    ensures Parse(data, isBlocked, rcode) == Response(data, [], false)
  {
    hide GetName, CString, Walked, Emptied;
  }

  lemma HeaderRead(data: Bytes)
    requires SaysAnswer(data)
    ensures IsResponse(data) && GetBe16(data, 6) == Counted(data)
  {
    assert data[2] / 8 == 16;
  }

  /** The records are the n that are counted, or the first of them in a message that is cut off behind them. */
  lemma AllRead(data: Bytes, at: nat, rs: seq<Resource>, n: nat, question: Bytes)
    requires |data| <= 0xFFFF && at <= |data| && LaidOut(data, at, rs) && forall r <- rs :: WellFormed(r)
    requires |rs| == n || (|rs| < n && EndOf(at, rs) == |data|)
    ensures var a := Walked(data, at, n, question);
            && (a.complete <==> |rs| == n) && (forall x <- a.reports :: x.at + x.size <= |data|)
            && Told(data, a.reports) == Expected(rs, question)
  {
    hide LaidOut, Walked, Told, Expected, EndOf, WellFormed, ToldOf;
    var more := n - |rs|;
    NothingTold(data);
    AnswersReadBack(data, at, rs, more, question);
    if more > 0 {
      NothingMore(data, more, question);
    }
    NoMore(data, EndOf(at, rs), 0, question);
    assert Expected(rs, question) + [] == Expected(rs, question);
  }

  /** A message with one well-formed question and well-formed records behind it, all or only the first of those that
      its header counts. If its header says that it is an answer, the app is told exactly the addresses among the
      records, and it is emptied iff they are all there and its name is blocked; otherwise nothing happens. */
  lemma ResponseReadBack(data: Bytes, labels: seq<Bytes>, rs: seq<Resource>, isBlocked: Bytes -> bool, rcode: int)
    requires |data| <= 0xFFFF
    requires Nameable(labels) && Holds(data, DNS_HEADER, Encode(labels) + [0])
    requires DNS_HEADER + |Encode(labels)| + 5 <= |data|
    requires LaidOut(data, DNS_HEADER + |Encode(labels)| + 5, rs) && forall r <- rs :: WellFormed(r)
    requires |rs| == Counted(data)
             || (|rs| < Counted(data) && EndOf(DNS_HEADER + |Encode(labels)| + 5, rs) == |data|)
    ensures var r := Parse(data, isBlocked, rcode);
            && (forall x <- r.reports :: x.at + x.size <= |data|)
            && Told(data, r.reports) == (if SaysAnswer(data) then Expected(rs, Joined(labels)) else [])
            && (r.blocked <==> SaysAnswer(data) && |rs| == Counted(data) && isBlocked(Joined(labels)))
            && (if r.blocked then
                  && |r.data| == DNS_HEADER + |Encode(labels)| + 5
                  && r.data[..2] == data[..2] && r.data[2..4] == [128, rcode % 16] && r.data[4..6] == data[4..6]
                  && r.data[6..12] == [0, 0, 0, 0, 0, 0] && r.data[12..] == data[12..|r.data|]
                else r.data == data)
  {
    hide Holds, Encode, GetName, Joined, CString, Zeros, LaidOut, Walked, Emptied, Told, Expected, Legal, Parse;
    hide IsResponse, SaysAnswer, EndOf, WellFormed, Counted, ToldOf;
    var end := DNS_HEADER + |Encode(labels)| + 5;
    BlockedMessage(data, isBlocked, rcode);
    NothingTold(data);
    if SaysAnswer(data) {
      FullName(data, labels);
      ParsedWith(data, Joined(labels), DNS_HEADER + |Encode(labels)| + 1, isBlocked, rcode);
      AllRead(data, end, rs, Counted(data), Joined(labels));
    } else {
      LeftAlone(data, isBlocked, rcode);
    }
  }

  /** A message with a question is read on behind it, and emptied if that goes well and the name is blocked. */
  lemma ParsedWith(data: Bytes, text: Bytes, next: nat, isBlocked: Bytes -> bool, rcode: int)
    requires |data| <= 0xFFFF && SaysAnswer(data) && CString(text) == text && next + 4 <= |data|
    requires GetName(data, DNS_HEADER, NO_NAME) == Name(text, next)
    ensures var r := Parse(data, isBlocked, rcode);
            var a := Walked(data, next + 4, Counted(data), text);
            && r.reports == a.reports && (r.blocked <==> a.complete && isBlocked(text))
            && (r.blocked ==> |r.data| == next + 4)
  {
    hide GetName, CString, Zeros, Walked, Emptied, IsResponse, SaysAnswer, Counted;
    HeaderRead(data);
    NameAdvances(data, DNS_HEADER, NO_NAME);
    EmptiedFields(data, rcode, next + 4);
  }

  lemma FullName(data: Bytes, labels: seq<Bytes>)
    requires |data| <= 0xFFFF && Nameable(labels) && Holds(data, DNS_HEADER, Encode(labels) + [0])
    ensures GetName(data, DNS_HEADER, NO_NAME) == Name(Joined(labels), DNS_HEADER + |Encode(labels)| + 1)
    ensures CString(Joined(labels)) == Joined(labels)
  {
    hide Holds, Encode, GetName, Joined, CString, Zeros, Legal;
    FullNameReadsBack(data, DNS_HEADER, labels);
    JoinedWithoutNul(labels);
    CStringWhole(Joined(labels));
  }

  lemma NothingTold(data: Bytes)
    ensures Told(data, []) == []
  {
  }

  lemma NothingMore(data: Bytes, more: nat, question: Bytes)
    requires |data| <= 0xFFFF && more > 0
    ensures Walked(data, |data|, more, question) == Answers([], false)
  {
    hide Walk;
  }

  // ---- An ordinary answer ----

  const HEADER: Bytes := [0, 1, 128, 0, 0, 1, 0, 1, 0, 0, 0, 0]
  const NAME: Bytes := [1, 97, 0]
  const QUESTION: Bytes := [0, 1, 0, 1]
  const ANSWER: Bytes := [192, 12, 0, 1, 0, 1, 0, 0, 0, 60, 0, 4, 10, 0, 0, 1]

  /** The answer to a query for the address of the name "a": 10.0.0.1, for a minute. */
  const ORDINARY: Bytes := HEADER + NAME + QUESTION + ANSWER

  /** It is told to the app, and emptied iff the name is blocked. */
  lemma OrdinaryAnswer(isBlocked: Bytes -> bool, rcode: int)
    ensures var r := Parse(ORDINARY, isBlocked, rcode);
            && (forall x <- r.reports :: x.at + x.size <= |ORDINARY|)
            && Told(ORDINARY, r.reports) == [Resolved([97], [97], [10, 0, 0, 1], 60)]
            && r.data == if isBlocked([97])
                         then [0, 1, 128, rcode % 16, 0, 1, 0, 0, 0, 0, 0, 0] + NAME + QUESTION else ORDINARY
  {
    hide Parse, Told, Laid, LaidOut, Holds, Nameable, WellFormed, SaysAnswer, Counted, Encode, Joined, EndOf;
    var pieces := [Piece(12, [[97]])];
    var record := Resource([[97]], At(pieces), 1, 1, 60, [10, 0, 0, 1]);
    OrdinaryName(pieces);
    OrdinaryRecord(pieces, record);
    OrdinaryHeader();
    ResponseReadBack(ORDINARY, [[97]], [record], isBlocked, rcode);
    var r := Parse(ORDINARY, isBlocked, rcode);
    assert [record][1..] == [];
    if r.blocked {
      OrdinaryEmptied(r.data, rcode);
    }
  }

  lemma OrdinaryEmptied(data: Bytes, rcode: int)
    requires |data| == 19 && |ORDINARY| == 35
    requires data[..2] == ORDINARY[..2] && data[2..4] == [128, rcode % 16] && data[4..6] == ORDINARY[4..6]
    requires data[6..12] == [0, 0, 0, 0, 0, 0] && data[12..] == ORDINARY[12..19]
    ensures data == [0, 1, 128, rcode % 16, 0, 1, 0, 0, 0, 0, 0, 0] + NAME + QUESTION
  {
    var head := [0, 1, 128, rcode % 16, 0, 1, 0, 0, 0, 0, 0, 0];
    OrdinarySlices();
    assert data[..12] == data[..2] + data[2..4] + data[4..6] + data[6..12];
    assert data[..12] == [0, 1] + [128, rcode % 16] + [0, 1] + [0, 0, 0, 0, 0, 0] == head;
    assert data == data[..12] + data[12..];
  }

  lemma OrdinarySlices()
    ensures |ORDINARY| == 35 && ORDINARY[..2] == [0, 1] && ORDINARY[4..6] == [0, 1]
    ensures ORDINARY[12..19] == NAME + QUESTION
  {
    assert ORDINARY == HEADER + (NAME + QUESTION + ANSWER);
    assert ORDINARY[12..19] == (NAME + QUESTION + ANSWER)[..7];
  }

  lemma Placed(a: Bytes, b: Bytes, c: Bytes)
    ensures Holds(a + b + c, |a|, b)
  {
  }

  lemma OrdinaryName(pieces: seq<Piece>)
    requires pieces == [Piece(12, [[97]])]
    ensures Nameable([[97]]) && Laid(ORDINARY, pieces) && Encode([[97]]) == [1, 97] && Joined([[97]]) == [97]
    ensures LabelsOf(pieces) == [[97]] && TurnsOf(pieces) == 1
    ensures Holds(ORDINARY, 12, Encode([[97]]) + [0])
  {
    hide Holds;
    OneLabel(97);
    Placed(HEADER, NAME, QUESTION + ANSWER);
    assert HEADER + NAME + (QUESTION + ANSWER) == ORDINARY;
    assert NAME == [1, 97] + [0];
    HoldsParts(ORDINARY, 12, [1, 97], [0]);
    assert pieces[1..] == [];
    assert LabelsOf([]) == [] && LabelsOf(pieces) == [[97]] + [];
  }

  lemma OrdinaryRecord(pieces: seq<Piece>, r: Resource)
    requires pieces == [Piece(12, [[97]])] && r == Resource([[97]], At(pieces), 1, 1, 60, [10, 0, 0, 1])
    requires Nameable([[97]]) && LabelsOf(pieces) == [[97]] && TurnsOf(pieces) == 1 && Laid(ORDINARY, pieces)
    ensures WellFormed(r) && LaidOut(ORDINARY, 19, [r]) && EndOf(19, [r]) == |ORDINARY|
    ensures Expected([r], [97]) == [Resolved([97], Joined([[97]]), [10, 0, 0, 1], 60)]
  {
    hide Holds, Laid, Nameable, Joined;
    assert RecordBytes(r) == ANSWER;
    Placed(HEADER + NAME + QUESTION, ANSWER, []);
    assert HEADER + NAME + QUESTION + ANSWER + [] == ORDINARY;
    assert [r][1..] == [];
  }

  lemma OrdinaryHeader()
    ensures |ORDINARY| == 35 && SaysAnswer(ORDINARY) && Counted(ORDINARY) == 1
  {
  }
}
