/** Decoding what an encoder of section 3.1 of RFC 1035 wrote. */
module DnsRoundTrip {
  import opened Words
  import opened DnsName

  /** Labels of 1 to 63 octets, section 2.3.4 of RFC 1035. */
  predicate Legal(names: seq<Bytes>) {
    forall l <- names :: 1 <= |l| <= 63
  }

  function Encode(names: seq<Bytes>): Bytes
    requires Legal(names)
  {
    if names == [] then [] else [|names[0]|] + names[0] + Encode(names[1..])
  }

  /** The labels, each with a dot behind it. */
  function Dotted(names: seq<Bytes>): Bytes {
    if names == [] then [] else names[0] + [DOT] + Dotted(names[1..])
  }

  /** The labels joined by dots. */
  function Joined(names: seq<Bytes>): Bytes {
    if names == [] then [] else if |names| == 1 then names[0] else names[0] + [DOT] + Joined(names[1..])
  }

  /** data holds b at position at. */
  predicate Holds(data: Bytes, at: nat, b: Bytes) {
    at + |b| <= |data| && data[at..at + |b|] == b
  }

  lemma {:induction false} DottedIsJoined(names: seq<Bytes>)
    requires names != []
    ensures Dotted(names) == Joined(names) + [DOT]
  {
    if |names| > 1 {
      DottedIsJoined(names[1..]);
    } else {
      assert Dotted(names[1..]) == [];
    }
  }

  lemma {:induction false} Lengths(names: seq<Bytes>)
    requires Legal(names)
    ensures |Dotted(names)| == |Encode(names)|
    ensures |Encode(names)| >= 2 * |names|
    ensures names == [] ==> Encode(names) == []
  {
    if names != [] {
      assert names[0] in names;
      Lengths(names[1..]);
    }
  }

  /** The walker after it read names. */
  function Read(data: Bytes, w: Walker, names: seq<Bytes>): (r: Walker)
    requires Legal(names) && w.noff + |Dotted(names)| <= DNS_QNAME_MAX && |w.qname| == DNS_QNAME_MAX + 1
    requires w.ptr + |Encode(names)| < |data|
    ensures r.ptr == w.ptr + |Encode(names)| && r.len == data[r.ptr] && r.noff == w.noff + |Dotted(names)|
    ensures r.count == w.count + |names| && r.jumped == w.jumped && r.off == w.off
    ensures r.qname == Overwrite(w.qname, w.noff, Dotted(names))
  {
    var p := w.ptr + |Encode(names)|;
    w.(ptr := p, len := data[p], noff := w.noff + |Dotted(names)|, count := w.count + |names|,
       qname := Overwrite(w.qname, w.noff, Dotted(names)))
  }

  lemma OverwriteTwice(b: Bytes, at: nat, x: Bytes, y: Bytes)
    requires at + |x| + |y| <= |b|
    ensures Overwrite(Overwrite(b, at, x), at + |x|, y) == Overwrite(b, at, x + y)
  {
  }

  lemma HoldsParts(data: Bytes, at: nat, x: Bytes, y: Bytes)
    requires Holds(data, at, x + y)
    ensures Holds(data, at, x) && Holds(data, at + |x|, y)
  {
    assert data[at..at + |x|] == data[at..at + |x + y|][..|x|];
    assert data[at + |x|..at + |x| + |y|] == data[at..at + |x + y|][|x|..];
  }

  lemma HoldsByte(data: Bytes, at: nat, x: u8)
    requires Holds(data, at, [x])
    ensures at < |data| && data[at] == x
  {
    assert data[at..at + 1][0] == x;
  }

  lemma HeldLabel(data: Bytes, at: nat, names: seq<Bytes>)
    requires Legal(names) && names != [] && Holds(data, at, Encode(names))
    ensures at < |data| && data[at] == |names[0]| && at + 1 + |names[0]| <= |data|
    ensures data[at + 1..at + 1 + |names[0]|] == names[0]
    ensures Holds(data, at + 1 + |names[0]|, Encode(names[1..]))
  {
    hide Encode, Holds;
    var n, rest := |names[0]|, Encode(names[1..]);
    EncodeCons(names);
    HoldsParts(data, at, [n], names[0] + rest);
    HoldsParts(data, at + 1, names[0], rest);
    HoldsByte(data, at, n);
    Held(data, at + 1, names[0]);
  }

  lemma Held(data: Bytes, at: nat, b: Bytes)
    requires Holds(data, at, b)
    ensures at + |b| <= |data| && data[at..at + |b|] == b
  {
  }

  /** The first label and the rest of a name. */
  lemma EncodeCons(names: seq<Bytes>)
    requires Legal(names) && names != []
    ensures 1 <= |names[0]| <= 63
    ensures Encode(names) == [|names[0]|] + (names[0] + Encode(names[1..]))
    ensures Dotted(names) == names[0] + [DOT] + Dotted(names[1..])
  {
    assert names[0] in names;
  }

  /** The walker after one label. */
  function PastLabel(data: Bytes, w: Walker, l: Bytes): (r: Walker)
    requires w.ptr + 1 + |l| < |data| && w.noff + |l| < DNS_QNAME_MAX && |w.qname| == DNS_QNAME_MAX + 1
    ensures r.ptr == w.ptr + 1 + |l| && r.len == data[r.ptr] && r.noff == w.noff + |l| + 1
    ensures r.count == w.count + 1 && |r.qname| == |w.qname|
  {
    var p := w.ptr + 1 + |l|;
    w.(ptr := p, len := data[p], noff := w.noff + |l| + 1, count := w.count + 1,
       qname := Overwrite(w.qname, w.noff, l + [DOT]))
  }

  lemma ReadLabel(data: Bytes, w: Walker, l: Bytes)
    requires WellPlaced(data, w) && w.count < MAX_STEPS && 1 <= |l| <= 63 && w.len == |l|
    requires w.ptr + 1 + |l| < |data| && w.noff + |l| < DNS_QNAME_MAX
    requires data[w.ptr + 1..w.ptr + 1 + |l|] == l
    ensures Walk(data, w) == Walk(data, PastLabel(data, w, l))
  {
    hide Walk, Overwrite;
    assert !MayJump(data, w) && MayCopy(data, w);
    assert (w.noff + w.len + 1) % 256 == w.noff + |l| + 1;
    assert Copy(data, w) == PastLabel(data, w, l);
    Turn(data, w);
  }

  /** Reading the first label and then the rest is reading all. */
  lemma ReadOne(data: Bytes, w: Walker, names: seq<Bytes>)
    requires Legal(names) && names != [] && |w.qname| == DNS_QNAME_MAX + 1
    requires w.ptr + |Encode(names)| < |data| && w.noff + |Dotted(names)| <= DNS_QNAME_MAX
    ensures w.ptr + 1 + |names[0]| < |data| && w.noff + |names[0]| < DNS_QNAME_MAX
    ensures var c := PastLabel(data, w, names[0]);
            && c.ptr + |Encode(names[1..])| == w.ptr + |Encode(names)|
            && c.noff + |Dotted(names[1..])| == w.noff + |Dotted(names)|
            && Read(data, c, names[1..]) == Read(data, w, names)
  {
    hide Overwrite, Encode, Dotted;
    EncodeCons(names);
    OverwriteTwice(w.qname, w.noff, names[0] + [DOT], Dotted(names[1..]));
  }

  /** Reading labels one after the other, whatever follows them. */
  lemma {:induction false} ReadLabels(data: Bytes, w: Walker, names: seq<Bytes>)
    requires WellPlaced(data, w) && Legal(names)
    requires Holds(data, w.ptr, Encode(names)) && w.ptr + |Encode(names)| < |data|
    requires w.noff + |Dotted(names)| <= DNS_QNAME_MAX && w.count + |names| <= MAX_STEPS
    ensures Walk(data, w) == Walk(data, Read(data, w, names))
    decreases |names|
  {
    hide Walk, Overwrite, Holds, Read, PastLabel, Encode, Dotted, Legal;
    if names == [] {
      ReadNothing(data, w, names);
      return;
    }
    LegalTail(names);
    HeldLabel(data, w.ptr, names);
    ReadOne(data, w, names);
    ReadLabel(data, w, names[0]);
    ReadLabels(data, PastLabel(data, w, names[0]), names[1..]);
  }

  lemma LegalTail(names: seq<Bytes>)
    requires Legal(names) && names != []
    ensures 1 <= |names[0]| <= 63 && Legal(names[1..])
  {
    assert names[0] in names;
  }

  lemma ReadNothing(data: Bytes, w: Walker, names: seq<Bytes>)
    requires WellPlaced(data, w) && names == [] && w.noff <= DNS_QNAME_MAX
    ensures Legal(names) && Encode(names) == [] && Dotted(names) == [] && Read(data, w, names) == w
  {
    assert Overwrite(w.qname, w.noff, []) == w.qname;
  }

  /** A walker at the terminating zero is at its end. */
  lemma AtZero(data: Bytes, w: Walker, names: seq<Bytes>, qname: Bytes)
    requires WellPlaced(data, w) && w.len == 0 && Legal(names)
    requires |qname| == DNS_QNAME_MAX + 1 && |Dotted(names)| <= DNS_QNAME_MAX
    requires w.noff == |Dotted(names)| && w.qname == Overwrite(qname, 0, Dotted(names))
    ensures Finish(Walk(data, w)) ==
            if names == [] then Invalid else Name(Joined(names), if w.jumped then w.off else w.ptr + 1)
  {
    Lengths(names);
    if names != [] {
      DottedIsJoined(names);
      assert w.qname[..w.noff - 1] == Joined(names);
    }
  }

  /** A name longer than the loop allows is refused. */
  lemma TooMany(data: Bytes, w: Walker)
    requires WellPlaced(data, w) && w.count == MAX_STEPS && w.len > 0
    ensures Finish(Walk(data, w)) == Invalid
  {
  }

  lemma EndsInZero(data: Bytes, at: nat)
    requires Holds(data, at, [0])
    ensures at < |data| && data[at] == 0
  {
    HoldsByte(data, at, 0);
  }

  lemma {:induction false} EncodeSplit(names: seq<Bytes>, k: nat)
    requires Legal(names) && k <= |names|
    ensures Encode(names) == Encode(names[..k]) + Encode(names[k..])
  {
    if k == 0 {
      assert names[..0] == [] && names[0..] == names;
      return;
    }
    hide Encode, Dotted;
    EncodeSplit(names[1..], k - 1);
    assert names[1..][..k - 1] == names[..k][1..] && names[1..][k - 1..] == names[k..];
    EncodeCons(names);
    EncodeCons(names[..k]);
    Regroup([|names[0]|], names[0], Encode(names[..k][1..]), Encode(names[k..]));
  }

  lemma Regroup(a: Bytes, b: Bytes, c: Bytes, d: Bytes)
    ensures a + (b + (c + d)) == a + (b + c) + d
  {
  }

  /** The two bytes of a pointer, section 4.1.4 of RFC 1035. */
  function Pointer(target: nat): Bytes
    requires target < 0x4000
  {
    [192 + target / 256, target % 256]
  }

  /** Two bytes that are taken for a pointer: either of the top bits of the first is enough. The RFC sets both. */
  predicate PointsTo(data: Bytes, at: nat, target: nat) {
    at + 2 <= |data| && data[at] >= 64 &&
    var hi: int := data[at] % 64;
    target == hi * 256 + data[at + 1]
  }

  lemma PointerPoints(data: Bytes, at: nat, target: nat)
    requires target < 0x4000 && Holds(data, at, Pointer(target))
    ensures PointsTo(data, at, target)
  {
    assert Pointer(target) == [192 + target / 256] + [target % 256];
    HoldsParts(data, at, [192 + target / 256], [target % 256]);
    HoldsByte(data, at, 192 + target / 256);
    HoldsByte(data, at + 1, target % 256);
  }

  lemma FollowPointer(data: Bytes, w: Walker, target: nat)
    requires WellPlaced(data, w) && w.count < MAX_STEPS && target < |data| && PointsTo(data, w.ptr, target)
    ensures MayJump(data, w) && Target(data, w) == target && Walk(data, w) == Walk(data, Jump(data, w))
  {
    hide Walk;
    Turn(data, w);
  }

  // ---- Names in pieces ----

  /** Labels that stand at a position of the message. */
  datatype Piece = Piece(at: nat, labels: seq<Bytes>)

  /** The pieces lie in the message: behind the labels of each one stands a pointer to the next, and behind
      those of the last one the terminating zero. */
  predicate Laid(data: Bytes, pieces: seq<Piece>) {
    && pieces != [] && Legal(pieces[0].labels)
    && Holds(data, pieces[0].at, Encode(pieces[0].labels))
    && var end := pieces[0].at + |Encode(pieces[0].labels)|;
       if |pieces| == 1 then Holds(data, end, [0])
       else PointsTo(data, end, pieces[1].at) && Laid(data, pieces[1..])
  }

  function LabelsOf(pieces: seq<Piece>): seq<Bytes> {
    if pieces == [] then [] else pieces[0].labels + LabelsOf(pieces[1..])
  }

  /** The turns of the loop that a name takes: one for each label and one for each pointer. */
  function TurnsOf(pieces: seq<Piece>): int {
    |LabelsOf(pieces)| + |pieces| - 1
  }

  lemma {:induction false} LabelsLegal(data: Bytes, pieces: seq<Piece>)
    requires Laid(data, pieces)
    ensures Legal(LabelsOf(pieces))
  {
    if |pieces| > 1 {
      LabelsLegal(data, pieces[1..]);
    } else {
      assert LabelsOf(pieces[1..]) == [];
    }
  }

  lemma LaidInside(data: Bytes, pieces: seq<Piece>)
    requires Laid(data, pieces)
    ensures pieces[0].at + |Encode(pieces[0].labels)| < |data|
  {
    hide Encode;
    if |pieces| == 1 {
      EndsInZero(data, pieces[0].at + |Encode(pieces[0].labels)|);
    }
  }

  lemma LabelsSplit(pieces: seq<Piece>)
    requires pieces != []
    ensures Dotted(LabelsOf(pieces)) == Dotted(pieces[0].labels) + Dotted(LabelsOf(pieces[1..]))
    ensures |LabelsOf(pieces)| == |pieces[0].labels| + |LabelsOf(pieces[1..])|
    ensures |pieces| == 1 ==> LabelsOf(pieces) == pieces[0].labels
  {
    hide Dotted;
    DottedAppend(pieces[0].labels, LabelsOf(pieces[1..]));
  }

  /** The walker after it read the labels of the first piece and followed the pointer behind them. */
  lemma PieceThenPointer(data: Bytes, w: Walker, pieces: seq<Piece>) returns (r: Walker)
    requires Laid(data, pieces) && |pieces| > 1
    requires WellPlaced(data, w) && w.ptr == pieces[0].at && w.count + |pieces[0].labels| < MAX_STEPS
    requires w.noff + |Dotted(pieces[0].labels)| <= DNS_QNAME_MAX
    ensures WellPlaced(data, r) && Walk(data, w) == Walk(data, r)
    ensures r.ptr == pieces[1].at && r.noff == w.noff + |Dotted(pieces[0].labels)|
    ensures r.jumped && r.off == if w.jumped then w.off else w.off + 2
    ensures r.count == w.count + |pieces[0].labels| + 1
    ensures r.qname == Overwrite(w.qname, w.noff, Dotted(pieces[0].labels))
  {
    hide Walk, Overwrite, Holds, Encode, Dotted, Read, Legal;
    LaidInside(data, pieces);
    LaidInside(data, pieces[1..]);
    ReadLabels(data, w, pieces[0].labels);
    FollowPointer(data, Read(data, w, pieces[0].labels), pieces[1].at);
    r := Jump(data, Read(data, w, pieces[0].labels));
  }

  /** The walker at the terminating zero of a name in pieces. */
  predicate ReadAll(data: Bytes, w: Walker, pieces: seq<Piece>, r: Walker)
    requires pieces != [] && Legal(pieces[0].labels) && w.noff + |Dotted(LabelsOf(pieces))| <= |w.qname|
  {
    && WellPlaced(data, r) && r.len == 0
    && r.noff == w.noff + |Dotted(LabelsOf(pieces))|
    && r.qname == Overwrite(w.qname, w.noff, Dotted(LabelsOf(pieces)))
    && (r.jumped <==> w.jumped || |pieces| > 1)
    && (r.jumped ==> r.off == if w.jumped then w.off else w.off + 2)
    && (!r.jumped ==> r.ptr == w.ptr + |Encode(pieces[0].labels)|)
  }

  lemma LastPiece(data: Bytes, w: Walker, pieces: seq<Piece>) returns (r: Walker)
    requires Laid(data, pieces) && |pieces| == 1
    requires WellPlaced(data, w) && w.ptr == pieces[0].at && w.count + TurnsOf(pieces) <= MAX_STEPS
    requires w.noff + |Dotted(LabelsOf(pieces))| <= DNS_QNAME_MAX
    ensures ReadAll(data, w, pieces, r) && Walk(data, w) == Walk(data, r)
  {
    hide Walk, Overwrite, Holds, Encode, Dotted, Read, Legal;
    LaidInside(data, pieces);
    LabelsSplit(pieces);
    EndsInZero(data, pieces[0].at + |Encode(pieces[0].labels)|);
    ReadLabels(data, w, pieces[0].labels);
    r := Read(data, w, pieces[0].labels);
  }

  lemma {:induction false} ReadPieces(data: Bytes, w: Walker, pieces: seq<Piece>) returns (r: Walker)
    requires Laid(data, pieces)
    requires WellPlaced(data, w) && w.ptr == pieces[0].at && w.count + TurnsOf(pieces) <= MAX_STEPS
    requires w.noff + |Dotted(LabelsOf(pieces))| <= DNS_QNAME_MAX
    ensures ReadAll(data, w, pieces, r) && Walk(data, w) == Walk(data, r)
    decreases |pieces|
  {
    hide Walk, Overwrite, Holds, Encode, Dotted, Legal;
    LabelsSplit(pieces);
    if |pieces| == 1 {
      r := LastPiece(data, w, pieces);
    } else {
      var m := PieceThenPointer(data, w, pieces);
      r := ReadPieces(data, m, pieces[1..]);
      OverwriteTwice(w.qname, w.noff, Dotted(pieces[0].labels), Dotted(LabelsOf(pieces[1..])));
    }
  }

  /** A walker that has labels in front of it reads as many as it has turns. */
  lemma LabelsRefused(data: Bytes, w: Walker, labels: seq<Bytes>)
    requires WellPlaced(data, w) && Legal(labels) && Holds(data, w.ptr, Encode(labels))
    requires w.noff + |Dotted(labels)| <= DNS_QNAME_MAX && w.count + |labels| > MAX_STEPS
    ensures Finish(Walk(data, w)) == Invalid
  {
    hide Walk, Finish, Overwrite, Holds, Encode, Dotted;
    var k := MAX_STEPS - w.count;
    var first, rest := labels[..k], labels[k..];
    EncodeSplit(labels, k);
    DottedAppend(first, rest);
    assert first + rest == labels;
    HoldsParts(data, w.ptr, Encode(first), Encode(rest));
    HeldLabel(data, w.ptr + |Encode(first)|, rest);
    assert rest[0] in labels;
    ReadLabels(data, w, first);
    TooMany(data, Read(data, w, first));
  }

  lemma PointerRefused(data: Bytes, w: Walker, pieces: seq<Piece>)
    requires Laid(data, pieces) && |pieces| > 1
    requires WellPlaced(data, w) && w.ptr == pieces[0].at && w.count + |pieces[0].labels| == MAX_STEPS
    requires w.noff + |Dotted(pieces[0].labels)| <= DNS_QNAME_MAX
    ensures Finish(Walk(data, w)) == Invalid
  {
    hide Walk, Finish, Overwrite, Holds, Encode, Dotted, Legal;
    LaidInside(data, pieces);
    ReadLabels(data, w, pieces[0].labels);
    TooMany(data, Read(data, w, pieces[0].labels));
  }

  lemma {:induction false} PiecesRefused(data: Bytes, w: Walker, pieces: seq<Piece>)
    requires Laid(data, pieces)
    requires WellPlaced(data, w) && w.ptr == pieces[0].at && w.count + TurnsOf(pieces) > MAX_STEPS
    requires w.noff + |Dotted(LabelsOf(pieces))| <= DNS_QNAME_MAX
    ensures Finish(Walk(data, w)) == Invalid
    decreases |pieces|
  {
    hide Walk, Finish, Overwrite, Holds, Encode, Dotted, Legal;
    LabelsSplit(pieces);
    if w.count + |pieces[0].labels| > MAX_STEPS {
      LabelsRefused(data, w, pieces[0].labels);
    } else if w.count + |pieces[0].labels| == MAX_STEPS {
      PointerRefused(data, w, pieces);
    } else {
      var m := PieceThenPointer(data, w, pieces);
      PiecesRefused(data, m, pieces[1..]);
    }
  }

  /** What is returned as the offset of what follows the name. */
  function Returned(pieces: seq<Piece>): nat
    requires pieces != [] && Legal(pieces[0].labels)
  {
    if |pieces| == 1 then pieces[0].at + |Encode(pieces[0].labels)| + 1 else pieces[0].at + 2
  }

  /** Where the name ends in the message. */
  function TrueEnd(pieces: seq<Piece>): nat
    requires pieces != [] && Legal(pieces[0].labels)
  {
    pieces[0].at + |Encode(pieces[0].labels)| + if |pieces| == 1 then 1 else 2
  }

  /** A name that compression cut into pieces, each behind a pointer in the one before: it decodes to all its
      labels joined by dots iff it has a label and takes at most 26 turns, one for each label and pointer. Lengths from
      64 on, which the RFC reserves, are pointers too. */
  lemma CompressedName(data: Bytes, pieces: seq<Piece>, qname: Bytes)
    requires |data| <= 0xFFFF && |qname| == DNS_QNAME_MAX + 1
    requires Laid(data, pieces) && |Dotted(LabelsOf(pieces))| + 1 <= 255
    ensures GetName(data, pieces[0].at, qname) ==
            if LabelsOf(pieces) != [] && TurnsOf(pieces) <= 26
            then Name(Joined(LabelsOf(pieces)), Returned(pieces)) else Invalid
  {
    hide Walk, Finish, Overwrite, Holds, Encode, Dotted, Joined, Legal;
    LaidInside(data, pieces);
    LabelsLegal(data, pieces);
    var w := Start(data, pieces[0].at, qname);
    if TurnsOf(pieces) <= MAX_STEPS {
      var r := ReadPieces(data, w, pieces);
      AtZero(data, r, LabelsOf(pieces), qname);
    } else {
      PiecesRefused(data, w, pieces);
    }
  }

  /** The returned offset is where the name ends iff there is no pointer, or no label in front of the
      first one. */
  lemma OffsetRightIff(data: Bytes, pieces: seq<Piece>, qname: Bytes)
    requires |data| <= 0xFFFF && |qname| == DNS_QNAME_MAX + 1
    requires Laid(data, pieces) && |Dotted(LabelsOf(pieces))| + 1 <= 255
    requires LabelsOf(pieces) != [] && TurnsOf(pieces) <= 26
    ensures var name := GetName(data, pieces[0].at, qname);
            name.Name? && (name.next == TrueEnd(pieces) <==> |pieces| == 1 || pieces[0].labels == [])
  {
    hide GetName, Dotted, Joined;
    CompressedName(data, pieces, qname);
    Lengths(pieces[0].labels);
  }

  /** The name "b" at 0, and at 3 the label "a" with a pointer to it; a byte of something else at 7. */
  const SPLIT: Bytes := [1, 98, 0, 1, 97, 192, 0, 9]

  /** The name at 3 ends at 7, and 5 is returned. */
  lemma SplitNameOffset(qname: Bytes)
    requires |qname| == DNS_QNAME_MAX + 1
    ensures GetName(SPLIT, 3, qname) == Name([97, 46, 98], 5)
    ensures Laid(SPLIT, [Piece(3, [[97]]), Piece(0, [[98]])]) && TrueEnd([Piece(3, [[97]]), Piece(0, [[98]])]) == 7
  {
    hide GetName, Laid, Joined, LabelsOf;
    var pieces := [Piece(3, [[97]]), Piece(0, [[98]])];
    OneLabel(97);
    OneLabel(98);
    SplitLaid(pieces);
    SplitLabels(pieces);
    DottedAppend([[97]], [[98]]);
    CompressedName(SPLIT, pieces, qname);
  }

  lemma SplitLaid(pieces: seq<Piece>)
    requires pieces == [Piece(3, [[97]]), Piece(0, [[98]])]
    ensures Laid(SPLIT, pieces)
  {
    OneLabel(97);
    OneLabel(98);
    assert pieces[1..] == [Piece(0, [[98]])];
    assert Pointer(0) == [192, 0];
    assert SPLIT[0..2] == [1, 98] && SPLIT[2..3] == [0];
    assert Laid(SPLIT, pieces[1..]);
    assert SPLIT[3..5] == [1, 97] && SPLIT[5..7] == [192, 0];
  }

  lemma SplitLabels(pieces: seq<Piece>)
    requires pieces == [Piece(3, [[97]]), Piece(0, [[98]])]
    ensures LabelsOf(pieces) == [[97], [98]] == [[97]] + [[98]]
    ensures Joined([[97], [98]]) == [97, DOT, 98]
  {
    assert pieces[1..] == [Piece(0, [[98]])] && pieces[1..][1..] == [];
    assert LabelsOf(pieces[1..]) == [[98]] + LabelsOf([]) == [[98]];
    assert LabelsOf(pieces) == [[97]] + [[98]];
    assert [[97], [98]][1..] == [[98]];
    assert Joined([[97], [98]]) == [97] + [DOT] + Joined([[98]]);
  }

  lemma OneLabel(x: u8)
    ensures Legal([[x]]) && Encode([[x]]) == [1, x] && Dotted([[x]]) == [x, DOT]
  {
    assert [[x]][1..] == [] && Encode([]) == [] && Dotted([]) == [];
  }

  /** A legal name in the message, encoded without compression: it decodes to its labels joined by
      dots and to the offset just past it, iff it has at least one and at most 26 labels. */
  lemma NameRoundTrip(data: Bytes, off: nat, names: seq<Bytes>, qname: Bytes)
    requires |data| <= 0xFFFF && |qname| == DNS_QNAME_MAX + 1
    requires Legal(names) && |Encode(names)| + 1 <= 255
    requires Holds(data, off, Encode(names)) && Holds(data, off + |Encode(names)|, [0])
    ensures GetName(data, off, qname) ==
            if 1 <= |names| <= 26 then Name(Joined(names), off + |Encode(names)| + 1) else Invalid
  {
    hide Encode, Dotted, Holds, Joined, Legal, GetName;
    var pieces := [Piece(off, names)];
    LabelsSplit(pieces);
    Lengths(names);
    CompressedName(data, pieces, qname);
  }

  function Letters(n: nat): seq<Bytes> {
    if n == 0 then [] else [[97]] + Letters(n - 1)
  }

  lemma {:induction false} LettersAre(n: nat)
    ensures Legal(Letters(n)) && |Letters(n)| == n && |Encode(Letters(n))| == 2 * n
  {
    if n > 0 {
      LettersAre(n - 1);
      assert Letters(n)[1..] == Letters(n - 1);
    }
  }

  /** Twenty-seven labels of one letter, 55 octets in all, are refused. */
  lemma ManyLabelsRefused(qname: Bytes)
    requires |qname| == DNS_QNAME_MAX + 1
    ensures var names := Letters(27);
            Legal(names) && |Encode(names)| + 1 == 55 && GetName(Encode(names) + [0], 0, qname) == Invalid
  {
    hide GetName, Encode, Letters, Legal;
    var names := Letters(27);
    LettersAre(27);
    var data := Encode(names) + [0];
    assert data[..|Encode(names)|] == Encode(names) && data[|Encode(names)|..] == [0];
    NameRoundTrip(data, 0, names, qname);
  }

  lemma {:induction false} DottedAppend(a: seq<Bytes>, b: seq<Bytes>)
    ensures Dotted(a + b) == Dotted(a) + Dotted(b)
  {
    if a == [] {
      assert a + b == b;
    } else {
      DottedAppend(a[1..], b);
      assert (a + b)[1..] == a[1..] + b;
    }
  }
}
