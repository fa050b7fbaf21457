/** The answer walk of `parse_dns_response`, and what it leaves of a message it blocks. */
module DnsResponse {
  import opened Words
  import opened NetworkOrder
  import opened DnsName

  const DNS_HEADER := 12
  const DNS_QCLASS_IN := 1
  const DNS_QTYPE_A := 1
  const DNS_QTYPE_AAAA := 28

  /** One call of `dns_resolved`; the address is the size bytes at position at. */
  datatype Report = Report(question: Bytes, name: Bytes, at: nat, size: nat, ttl: u32)

  /** The calls made, and whether every answer was read. */
  datatype Answers = Answers(reports: seq<Report>, complete: bool)

  /** The message as it is left, and the calls made. */
  datatype Response = Response(data: Bytes, reports: seq<Report>, blocked: bool)

  /** What the app blocks, and the code it answers with. */
  datatype Policy = Policy(isBlocked: Bytes -> bool, rcode: int)

  function Zeros(n: nat): (b: Bytes)
    ensures |b| == n
  {
    if n == 0 then [] else [0] + Zeros(n - 1)
  }

  const NO_NAME: Bytes := Zeros(DNS_QNAME_MAX + 1)

  /** What a C string function sees of a buffer. */
  function CString(b: Bytes): Bytes {
    if b == [] || b[0] == 0 then [] else [b[0]] + CString(b[1..])
  }

  /** The fixed part of a resource record, behind its name. */
  datatype Fixed = Fixed(kind: u16, cls: u16, ttl: u32, rdlength: u16)

  function FixedAt(data: Bytes, at: nat): Fixed
    requires at + 10 <= |data|
  {
    Fixed(GetBe16(data, at), GetBe16(data, at + 2), GetBe32(data, at + 4), GetBe16(data, at + 8))
  }

  predicate IsAddress(f: Fixed) {
    f.cls == DNS_QCLASS_IN && (f.kind == DNS_QTYPE_A || f.kind == DNS_QTYPE_AAAA)
  }

  function AddressSize(f: Fixed): nat {
    if f.kind == DNS_QTYPE_A then 4 else 16
  }

  /** The loop over n answers from position off. */
  function Walked(data: Bytes, off: nat, n: nat, question: Bytes): Answers
    requires |data| <= 0xFFFF
    decreases n
  {
    if n == 0 then Answers([], true)
    else
      var name := GetName(data, off, NO_NAME);
      if name.Invalid? || name.next + 10 > |data| then Answers([], false)
      else
        var f, at := FixedAt(data, name.next), name.next + 10;
        if at + f.rdlength > |data| then Answers([], false)
        else if !IsAddress(f) then Walked(data, at + f.rdlength, n - 1, question)
        else if at + AddressSize(f) > |data| then Answers([], false)
        else
          var rest := Walked(data, at + f.rdlength, n - 1, question);
          Answers([Report(question, CString(name.text), at, AddressSize(f), f.ttl)] + rest.reports, rest.complete)
  }

  /** qr is set, opcode is zero, and there are questions and answers. */
  predicate IsResponse(data: Bytes) {
    && |data| >= DNS_HEADER + 1
    && data[2] / 128 == 1 && data[2] / 8 % 16 == 0
    && GetBe16(data, 4) > 0 && GetBe16(data, 6) > 0
  }

  /** The header a blocked message gets, and nothing behind the question. */
  function Emptied(data: Bytes, rcode: int, end: nat): Bytes
    requires DNS_HEADER <= end <= |data|
  {
    data[..2] + [128, rcode % 16] + data[4..6] + [0, 0, 0, 0, 0, 0] + data[DNS_HEADER..end]
  }

  /** `parse_dns_response`. */
  function Parse(data: Bytes, isBlocked: Bytes -> bool, rcode: int): Response
    requires |data| <= 0xFFFF
  {
    if !IsResponse(data) then Response(data, [], false)
    else
      var name := GetName(data, DNS_HEADER, NO_NAME);
      if name.Invalid? || name.next + 4 > |data| then Response(data, [], false)
      else
        NameAdvances(data, DNS_HEADER, NO_NAME);
        var question, end := CString(name.text), name.next + 4;
        var answers := Walked(data, end, GetBe16(data, 6), question);
        if answers.complete && isBlocked(question) then Response(Emptied(data, rcode, end), answers.reports, true)
        else Response(data, answers.reports, false)
  }

  // ---- Names ----

  lemma {:induction false} WalkAdvances(data: Bytes, w: Walker, off: nat)
    requires WellPlaced(data, w)
    requires w.off == if w.jumped then off + 2 else off
    requires if w.jumped then off + 2 <= |data| else w.ptr >= off && (w.noff > 0 ==> w.ptr >= off + 2)
    ensures var r := Walk(data, w);
            && r.off == (if r.jumped then off + 2 else off)
            && (if r.jumped then off + 2 <= |data| else r.ptr >= off && (r.noff > 0 ==> r.ptr >= off + 2))
    decreases MAX_STEPS - w.count
  {
    hide Walk, Overwrite;
    Turn(data, w);
    if w.len == 0 || w.count >= MAX_STEPS {
    } else if MayJump(data, w) {
      if Target(data, w) < |data| {
        WalkAdvances(data, Jump(data, w), off);
      }
    } else if MayCopy(data, w) {
      WalkAdvances(data, Copy(data, w), off);
    }
  }

  /** A decoded name takes at least two bytes, all inside the message. */
  lemma NameAdvances(data: Bytes, off: nat, qname: Bytes)
    requires |data| <= 0xFFFF && |qname| == DNS_QNAME_MAX + 1
    requires GetName(data, off, qname).Name?
    ensures off + 2 <= GetName(data, off, qname).next <= |data|
  {
    hide Walk;
    WalkAdvances(data, Start(data, off, qname), off);
  }

  lemma {:induction false} WalkIgnoresBuffer(data: Bytes, v: Walker, w: Walker)
    requires WellPlaced(data, v) && WellPlaced(data, w)
    requires v == w.(qname := v.qname) && v.qname[..v.noff] == w.qname[..w.noff]
    ensures var r, s := Walk(data, v), Walk(data, w);
            r == s.(qname := r.qname) && r.qname[..r.noff] == s.qname[..s.noff]
    decreases MAX_STEPS - w.count
  {
    hide Walk;
    Turn(data, v);
    Turn(data, w);
    if w.len == 0 || w.count >= MAX_STEPS {
    } else if MayJump(data, w) {
      if Target(data, w) < |data| {
        WalkIgnoresBuffer(data, Jump(data, v), Jump(data, w));
      }
    } else if MayCopy(data, w) {
      CopyIgnoresBuffer(data, v, w);
      WalkIgnoresBuffer(data, Copy(data, v), Copy(data, w));
    }
  }

  lemma CopyIgnoresBuffer(data: Bytes, v: Walker, w: Walker)
    requires WellPlaced(data, v) && WellPlaced(data, w) && MayCopy(data, w)
    requires v == w.(qname := v.qname) && v.qname[..v.noff] == w.qname[..w.noff]
    ensures var r, s := Copy(data, v), Copy(data, w);
            r == s.(qname := r.qname) && r.qname[..r.noff] == s.qname[..s.noff]
  {
    var piece := data[w.ptr + 1..w.ptr + 1 + w.len] + [DOT];
    var end := w.noff + |piece|;
    assert Overwrite(v.qname, v.noff, piece)[..end] == v.qname[..v.noff] + piece;
    assert Overwrite(w.qname, w.noff, piece)[..end] == w.qname[..w.noff] + piece;
  }

  /** What the buffer held before does not show in the decoded name. */
  lemma NameIgnoresBuffer(data: Bytes, off: nat, p: Bytes, q: Bytes)
    requires |data| <= 0xFFFF && |p| == |q| == DNS_QNAME_MAX + 1
    ensures GetName(data, off, p) == GetName(data, off, q)
  {
    hide Walk;
    if off < |data| {
      WalkIgnoresBuffer(data, Start(data, off, p), Start(data, off, q));
      var r, s := Walk(data, Start(data, off, p)), Walk(data, Start(data, off, q));
      if r.noff > 0 {
        assert r.qname[..r.noff - 1] == r.qname[..r.noff][..r.noff - 1];
        assert s.qname[..s.noff - 1] == s.qname[..s.noff][..s.noff - 1];
      }
    }
  }

  // ---- The walk over the answers ----

  /** The reported addresses lie inside the message, each at least 12 bytes behind the one before. */
  predicate Inside(reports: seq<Report>, off: nat, size: nat, question: Bytes) {
    && (forall i :: 0 <= i < |reports| ==>
          && off + 12 * (i + 1) <= reports[i].at && reports[i].at + reports[i].size <= size
          && reports[i].question == question && reports[i].size in {4, 16})
    && (forall i, j :: 0 <= i < j < |reports| ==> reports[i].at + 12 <= reports[j].at)
  }

  lemma InsideCons(report: Report, rest: seq<Report>, off: nat, next: nat, size: nat, question: Bytes)
    requires Inside(rest, next, size, question)
    requires off + 12 <= report.at <= next && report.at + report.size <= size
    requires report.question == question && report.size in {4, 16}
    ensures Inside([report] + rest, off, size, question)
  {
  }

  lemma InsideEarlier(reports: seq<Report>, off: nat, next: nat, size: nat, question: Bytes)
    requires Inside(reports, next, size, question) && off <= next
    ensures Inside(reports, off, size, question)
  {
  }

  /** Every record takes at least 12 bytes. So a message that is read to its end is long enough for
      the number of answers it claims, and what is reported lies inside it. */
  lemma {:induction false} WalkedInside(data: Bytes, off: nat, n: nat, question: Bytes)
    requires |data| <= 0xFFFF && off <= |data|
    ensures var a := Walked(data, off, n, question);
            && |a.reports| <= n
            && (a.complete ==> off + 12 * n <= |data|)
            && Inside(a.reports, off, |data|, question)
    decreases n
  {
    hide GetName, CString, FixedAt, Inside;
    NothingInside(off, |data|, question);
    if n > 0 && GetName(data, off, NO_NAME).Name? {
      var name := GetName(data, off, NO_NAME);
      NameAdvances(data, off, NO_NAME);
      if name.next + 10 <= |data| {
        var f, at := FixedAt(data, name.next), name.next + 10;
        if at + f.rdlength <= |data| {
          var rest := Walked(data, at + f.rdlength, n - 1, question);
          WalkedInside(data, at + f.rdlength, n - 1, question);
          InsideEarlier(rest.reports, off, at + f.rdlength, |data|, question);
          if IsAddress(f) && at + AddressSize(f) <= |data| {
            var report := Report(question, CString(name.text), at, AddressSize(f), f.ttl);
            InsideCons(report, rest.reports, off, at + f.rdlength, |data|, question);
          }
        }
      }
    }
  }

  lemma NothingInside(off: nat, size: nat, question: Bytes)
    ensures Inside([], off, size, question)
  {
  }

  /** Fields that follow the two header bytes are kept or cleared as a whole. */
  lemma EmptiedFields(data: Bytes, rcode: int, end: nat)
    requires DNS_HEADER <= end <= |data|
    ensures var e := Emptied(data, rcode, end);
            && |e| == end && e[..2] == data[..2] && e[2] == 128 && e[3] == rcode % 16
            && e[4..6] == data[4..6] && e[6..DNS_HEADER] == [0, 0, 0, 0, 0, 0]
            && e[DNS_HEADER..] == data[DNS_HEADER..end]
  {
  }

  /** A message is changed only when its question is blocked and all its answers were read. It then
      ends with its question, which keeps its bytes, as do the id and the number of questions; it is
      left as a response with the given code and no records. */
  lemma BlockedMessage(data: Bytes, isBlocked: Bytes -> bool, rcode: int)
    requires |data| <= 0xFFFF
    ensures var r := Parse(data, isBlocked, rcode);
            && (!r.blocked ==> r.data == data)
            && (r.blocked ==>
                  && DNS_HEADER < |r.data| && |r.data| + 12 * GetBe16(data, 6) <= |data|
                  && r.data[..2] == data[..2] && r.data[2] == 128 && r.data[3] == rcode % 16
                  && r.data[4..6] == data[4..6] && r.data[6..DNS_HEADER] == [0, 0, 0, 0, 0, 0]
                  && r.data[DNS_HEADER..] == data[DNS_HEADER..|r.data|])
  {
    hide GetName, CString, Walked, Emptied;
    if IsResponse(data) {
      var name := GetName(data, DNS_HEADER, NO_NAME);
      if name.Name? && name.next + 4 <= |data| {
        NameAdvances(data, DNS_HEADER, NO_NAME);
        WalkedInside(data, name.next + 4, GetBe16(data, 6), CString(name.text));
        EmptiedFields(data, rcode, name.next + 4);
      }
    }
  }

  /** Parsing a blocked message again does nothing, whatever is blocked by then. */
  lemma BlockedStays(data: Bytes, isBlocked: Bytes -> bool, rcode: int, laterBlocked: Bytes -> bool, later: int)
    requires |data| <= 0xFFFF && Parse(data, isBlocked, rcode).blocked
    ensures var r := Parse(data, isBlocked, rcode).data;
            |r| <= 0xFFFF && Parse(r, laterBlocked, later) == Response(r, [], false)
  {
    hide GetName, CString, Walked, Emptied;
    BlockedMessage(data, isBlocked, rcode);
    var r := Parse(data, isBlocked, rcode).data;
    assert r[6..DNS_HEADER][0] == 0 && r[6..DNS_HEADER][1] == 0;
    assert GetBe16(r, 6) == 0;
  }

  // ---- In place ----

  lemma {:induction false} CStringPrefix(text: Bytes, buffer: Bytes)
    requires text + [0] <= buffer
    ensures CString(buffer) == CString(text)
  {
    if text == [] {
      assert buffer[0] == (text + [0])[0];
    } else {
      assert buffer[0] == (text + [0])[0] == text[0];
      assert text[1..] + [0] == (text + [0])[1..] <= buffer[1..];
      CStringPrefix(text[1..], buffer[1..]);
    }
  }

  /** `get_qname` into a buffer, and the string found there. */
  method ReadName(msg: Bytes, off: u16, buffer: array<u8>) returns (next: int, text: Bytes)
    requires |msg| <= 0xFFFF && buffer.Length == DNS_QNAME_MAX + 1
    modifies buffer
    ensures var name := GetName(msg, off, NO_NAME);
            && next == (if name.Invalid? then -1 else name.next)
            && (next > 0 <==> name.Name?)
            && (name.Name? ==> off + 2 <= next <= |msg| && text == CString(name.text))
  {
    hide GetName, Zeros;
    NameIgnoresBuffer(msg, off, buffer[..][0 := 0], NO_NAME);
    next := GetQname(msg, off, buffer);
    text := [];
    if next > 0 {
      NameAdvances(msg, off, NO_NAME);
      CStringPrefix(GetName(msg, off, NO_NAME).text, buffer[..]);
      text := CString(buffer[..]);
    } else if GetName(msg, off, NO_NAME).Name? {
      NameAdvances(msg, off, NO_NAME);
    }
  }

  function Prepend(reports: seq<Report>, a: Answers): Answers {
    Answers(reports + a.reports, a.complete)
  }

  lemma WalkedStep(data: Bytes, off: nat, n: nat, question: Bytes, done: seq<Report>)
    requires |data| <= 0xFFFF && n > 0
    requires GetName(data, off, NO_NAME).Name? && GetName(data, off, NO_NAME).next + 10 <= |data|
    ensures var name := GetName(data, off, NO_NAME);
            var f, at := FixedAt(data, name.next), name.next + 10;
            var report := Report(question, CString(name.text), at, AddressSize(f), f.ttl);
            Prepend(done, Walked(data, off, n, question)) ==
            if at + f.rdlength > |data| || (IsAddress(f) && at + AddressSize(f) > |data|) then Answers(done, false)
            else Prepend(if IsAddress(f) then done + [report] else done,
                         Walked(data, at + f.rdlength, n - 1, question))
  {
    hide GetName, CString, FixedAt;
    var name := GetName(data, off, NO_NAME);
    var f, at := FixedAt(data, name.next), name.next + 10;
    var report := Report(question, CString(name.text), at, AddressSize(f), f.ttl);
    if at + f.rdlength <= |data| {
      var rest := Walked(data, at + f.rdlength, n - 1, question);
      assert done + ([report] + rest.reports) == done + [report] + rest.reports;
    }
  }

  /** The loop over the answers. */
  method WalkAnswers(msg: Bytes, start: nat, acount: nat, question: Bytes, buffer: array<u8>)
    returns (reports: seq<Report>, complete: bool)
    requires |msg| <= 0xFFFF && start <= |msg| && buffer.Length == DNS_QNAME_MAX + 1
    modifies buffer
    ensures Answers(reports, complete) == Walked(msg, start, acount, question)
  {
    hide GetName, CString, FixedAt, Walked;
    reports := [];
    var off: int := start;
    ghost var all := Walked(msg, start, acount, question);
    for a := 0 to acount
      invariant 0 <= off <= |msg|
      invariant Prepend(reports, Walked(msg, off, acount - a, question)) == all
    {
      NoMore(msg, off, acount - a, question);
      var next, text := ReadName(msg, off, buffer);
      if next <= 0 || next + 10 > |msg| {
        return reports, false;
      }
      WalkedStep(msg, off, acount - a, question, reports);
      var f := FixedAt(msg, next);
      off := next + 10;
      if off + f.rdlength > |msg| {
        return reports, false;
      }
      if IsAddress(f) {
        if off + AddressSize(f) > |msg| {
          return reports, false;
        }
        reports := reports + [Report(question, text, off, AddressSize(f), f.ttl)];
      }
      off := off + f.rdlength;
    }
    NoMore(msg, off, 0, question);
    complete := true;
  }

  lemma NoMore(data: Bytes, off: nat, n: nat, question: Bytes)
    requires |data| <= 0xFFFF
    ensures n == 0 ==> Walked(data, off, n, question) == Answers([], true)
    ensures n > 0 && (GetName(data, off, NO_NAME).Invalid? || GetName(data, off, NO_NAME).next + 10 > |data|) ==>
              Walked(data, off, n, question) == Answers([], false)
  {
  }

  /** The header fields set one by one, up to the three counts. */
  method ClearHeader(data: array<u8>, rcode: int)
    requires data.Length >= DNS_HEADER && data[2] / 8 % 16 == 0
    modifies data
    ensures forall end :: DNS_HEADER <= end <= data.Length ==>
              data[..end] == Emptied(old(data[..]), rcode, end) && data[end..] == old(data[end..])
  {
    data[2] := 128 + data[2] / 8 % 16 * 8;
    data[3] := rcode % 16;
    data[6], data[7] := 0, 0;
    data[8], data[9] := 0, 0;
    data[10], data[11] := 0, 0;
  }

  /** `parse_dns_response` on the buffer of the caller. */
  method ParseDnsResponse(data: array<u8>, datalen: nat, isBlocked: Bytes -> bool, rcode: int)
    returns (newlen: nat, reports: seq<Report>)
    requires datalen <= data.Length && datalen <= 0xFFFF
    modifies data
    ensures newlen <= datalen && data[newlen..] == old(data[newlen..])
    ensures var r := Parse(old(data[..datalen]), isBlocked, rcode);
            data[..newlen] == r.data && reports == r.reports && (newlen < datalen ==> r.blocked)
  {
    hide GetName, CString, FixedAt, Walked, Emptied, Zeros;
    var msg := data[..datalen];
    newlen, reports := datalen, [];
    if datalen < DNS_HEADER + 1 || !IsResponse(msg) {
      return;
    }
    var name := new u8[DNS_QNAME_MAX + 1](_ => 0);
    var next, question := ReadName(msg, DNS_HEADER, name);
    if next <= 0 || next + 4 > datalen {
      return;
    }
    var aoff := next + 4;
    var complete;
    reports, complete := WalkAnswers(msg, aoff, GetBe16(msg, 6), question, name);
    if complete && isBlocked(question) {
      EmptiedPrefix(data[..], datalen, rcode, aoff);
      ClearHeader(data, rcode);
      newlen := aoff;
    }
  }

  lemma EmptiedPrefix(data: Bytes, n: nat, rcode: int, end: nat)
    requires DNS_HEADER <= end <= n <= |data|
    ensures Emptied(data, rcode, end) == Emptied(data[..n], rcode, end)
  {
    assert data[..n][..2] == data[..2] && data[..n][4..6] == data[4..6];
    assert data[..n][DNS_HEADER..end] == data[DNS_HEADER..end];
  }

  // ---- Inside a TCP stream ----

  /** Whether what a TCP session reads is looked at: it is for connections to port 53. */
  datatype Filter = Unfiltered | Filtered(policy: Policy)

  /** What the bytes of one read are passed on as. Behind the two bytes of its length, a DNS message is
      parsed in the buffer, but the number of bytes passed on stays the same. */
  function Shown(b: Bytes, filter: Filter): (r: Bytes)
    requires |b| <= 0xFFFF
    ensures |r| == |b|
  {
    if filter.Unfiltered? || |b| <= 2 then b
    else
      BlockedMessage(b[2..], filter.policy.isBlocked, filter.policy.rcode);
      var message := Parse(b[2..], filter.policy.isBlocked, filter.policy.rcode).data;
      b[..2] + message + b[2 + |message|..]
  }

  /** Bytes are changed only in the header of a message that is blocked. */
  lemma ShownChangesHeader(b: Bytes, filter: Filter)
    requires |b| <= 0xFFFF && Shown(b, filter) != b
    ensures filter.Filtered? && |b| > 2 + DNS_HEADER
    ensures Parse(b[2..], filter.policy.isBlocked, filter.policy.rcode).blocked
    ensures Shown(b, filter)[..4] == b[..4] && Shown(b, filter)[2 + DNS_HEADER..] == b[2 + DNS_HEADER..]
  {
    hide Parse;
    var data, policy := b[2..], filter.policy;
    var r := Parse(data, policy.isBlocked, policy.rcode);
    BlockedMessage(data, policy.isBlocked, policy.rcode);
    if r.blocked {
      var shown, n := Shown(b, filter), |r.data|;
      assert shown[..4] == b[..2] + r.data[..2];
      assert b[..4] == b[..2] + data[..2];
      assert shown[2 + DNS_HEADER..] == r.data[DNS_HEADER..] + b[2 + n..];
      assert b[2 + DNS_HEADER..] == data[DNS_HEADER..n] + b[2 + n..];
    }
  }

  /** In a connection to port 53 the header of a blocked message is changed in place: it says that it has no answers,
      and the code. What was not blocked, or is no message, is passed on as it is. */
  lemma ShownIfBlocked(length: Bytes, data: Bytes, policy: Policy)
    requires |length| == 2 && |data| <= 0xFFFD
    ensures var shown := Shown(length + data, Filtered(policy));
            && Shown(length + data, Unfiltered) == length + data
            && if Parse(data, policy.isBlocked, policy.rcode).blocked then
                 && |shown| > 14 && shown[..4] == length + data[..2] && shown[4..6] == [128, policy.rcode % 16]
                 && shown[6..8] == data[4..6] && shown[8..14] == [0, 0, 0, 0, 0, 0] && shown[14..] == data[12..]
               else shown == length + data
  {
    hide Parse;
    var b := length + data;
    assert b[2..] == data && b[..2] == length;
    var r := Parse(data, policy.isBlocked, policy.rcode);
    BlockedMessage(data, policy.isBlocked, policy.rcode);
    if r.blocked {
      var rest := data[|r.data|..];
      assert b[2 + |r.data|..] == rest;
      Parts(length, r.data, rest);
      assert data[12..] == data[12..|r.data|] + rest;
    }
  }

  lemma Parts(a: Bytes, b: Bytes, c: Bytes)
    requires |a| == 2 && |b| > 12
    ensures var s := a + b + c;
            && s[..4] == a + b[..2] && s[4..6] == [b[2], b[3]] && s[6..8] == b[4..6] && s[8..14] == b[6..12]
            && s[14..] == b[12..] + c
  {
  }
}
