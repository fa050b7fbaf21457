/** What the decoder makes of names that are too long.

    The place to write at is a single byte. A label that ends exactly at the end of the 256 bytes leaves it at
    zero, and the text read so far is forgotten. */
module DnsLongName {
  import opened Words
  import opened DnsName
  import opened DnsRoundTrip

  /** The octets of the first j labels in the text. */
  function TextOf(names: seq<Bytes>, j: nat): nat
    requires j <= |names|
  {
    |Dotted(names[..j])|
  }

  /** The j-th label crosses a multiple of 256 octets of text and does not end on it. */
  predicate Straddles(names: seq<Bytes>, j: nat) {
    && j < |names| && TextOf(names, j + 1) % 256 != 0
    && TextOf(names, j) / 256 < TextOf(names, j + 1) / 256
  }

  lemma OneDotted(l: Bytes)
    ensures Dotted([l]) == l + [DOT]
  {
    var none: seq<Bytes> := [];
    assert [l][1..] == none && Dotted(none) == [];
    assert l + [DOT] + [] == l + [DOT];
  }

  lemma TextGrows(names: seq<Bytes>, j: nat)
    requires j < |names|
    ensures TextOf(names, j + 1) == TextOf(names, j) + |names[j]| + 1
  {
    assert names[..j + 1] == names[..j] + [names[j]];
    DottedAppend(names[..j], [names[j]]);
    OneDotted(names[j]);
  }

  lemma TextBetween(names: seq<Bytes>, k: nat, j: nat)
    requires k <= j <= |names|
    ensures TextOf(names, j) == TextOf(names, k) + |Dotted(names[k..j])|
  {
    assert names[..j] == names[..k] + names[k..j];
    DottedAppend(names[..k], names[k..j]);
  }

  /** w stands behind the first j labels, and has kept the text of those from the k-th on. */
  predicate KeptFrom(data: Bytes, off: nat, names: seq<Bytes>, j: nat, k: nat, w: Walker)
    requires Legal(names)
  {
    && k <= j <= |names| && WellPlaced(data, w) && w.count == j && !w.jumped
    && Legal(names[..j]) && Legal(names[j..]) && w.ptr == off + |Encode(names[..j])|
    && Holds(data, w.ptr, Encode(names[j..]) + [0])
    && TextOf(names, k) % 256 == 0 && w.noff == |Dotted(names[k..j])|
    && w.qname[..w.noff] == Dotted(names[k..j])
  }

  ghost predicate Decodes(data: Bytes, off: nat, names: seq<Bytes>, k: nat, name: Name)
    requires Legal(names) && k <= |names|
  {
    && TextOf(names, k) % 256 == 0
    && ((exists j: nat :: Straddles(names, j)) ==> name == Invalid)
    && ((forall j: nat :: !Straddles(names, j)) ==>
          && |Dotted(names[k..])| < 256
          && name == if k == |names| then Invalid else Name(Joined(names[k..]), off + |Encode(names)| + 1))
  }

  /** What happens at the next label is decided by the octets of text that are kept. */
  lemma StraddlesIff(names: seq<Bytes>, j: nat, k: nat)
    requires Legal(names) && k <= j < |names| && TextOf(names, k) % 256 == 0 && |Dotted(names[k..j])| < 256
    ensures Straddles(names, j) <==> |Dotted(names[k..j])| + |names[j]| + 1 > 256
    ensures |Dotted(names[k..j])| + |names[j]| + 1 == 256 ==> TextOf(names, j + 1) % 256 == 0
  {
    hide Dotted;
    assert names[j] in names;
    TextGrows(names, j);
    TextBetween(names, k, j);
    var a := TextOf(names, k) / 256;
    assert TextOf(names, j) == 256 * a + |Dotted(names[k..j])|;
  }

  lemma SplitLegal(names: seq<Bytes>, j: nat)
    requires Legal(names) && j < |names|
    ensures Legal(names[..j]) && Legal(names[j..]) && Legal(names[..j + 1]) && Legal(names[j + 1..])
    ensures names[j..][0] == names[j] && names[j..][1..] == names[j + 1..] && 1 <= |names[j]| <= 63
    ensures |Encode(names[..j + 1])| == |Encode(names[..j])| + 1 + |names[j]|
  {
    assert names[j] in names;
    Lengths(names[..j]);
    Lengths(names[..j + 1]);
    TextGrows(names, j);
  }

  lemma NextLabel(data: Bytes, off: nat, names: seq<Bytes>, j: nat, k: nat, w: Walker)
    requires Legal(names) && KeptFrom(data, off, names, j, k, w) && j < |names|
    ensures w.len == |names[j]| && w.ptr + 1 + |names[j]| < |data|
    ensures data[w.ptr + 1..w.ptr + 1 + |names[j]|] == names[j]
    ensures Holds(data, w.ptr + 1 + |names[j]|, Encode(names[j + 1..]) + [0])
  {
    hide Encode, Dotted, Holds, Legal;
    SplitLegal(names, j);
    var rest := Encode(names[j + 1..]);
    HoldsParts(data, w.ptr, Encode(names[j..]), [0]);
    HeldLabel(data, w.ptr, names[j..]);
    EncodeCons(names[j..]);
    assert Encode(names[j..]) + [0] == ([|names[j]|] + names[j]) + (rest + [0]);
    HoldsParts(data, w.ptr, [|names[j]|] + names[j], rest + [0]);
    Held(data, w.ptr + 1 + |names[j]|, rest + [0]);
  }

  lemma StraddlingRefused(data: Bytes, off: nat, names: seq<Bytes>, j: nat, k: nat, w: Walker)
    requires Legal(names) && KeptFrom(data, off, names, j, k, w) && j < |names| && Straddles(names, j)
    ensures Finish(Walk(data, w)) == Invalid
  {
    hide Encode, Dotted, Holds, Straddles, Overwrite;
    NextLabel(data, off, names, j, k, w);
    SplitLegal(names, j);
    StraddlesIff(names, j, k);
    Turn(data, w);
  }

  lemma KeepsLabel(data: Bytes, off: nat, names: seq<Bytes>, j: nat, k: nat, w: Walker) returns (k': nat, w': Walker)
    requires Legal(names) && KeptFrom(data, off, names, j, k, w) && j < |names| <= MAX_STEPS && !Straddles(names, j)
    ensures KeptFrom(data, off, names, j + 1, k', w') && Walk(data, w) == Walk(data, w')
  {
    hide Encode, Dotted, Holds, Straddles, Walk, TextOf;
    NextLabel(data, off, names, j, k, w);
    SplitLegal(names, j);
    StraddlesIff(names, j, k);
    Turn(data, w);
    w' := Copy(data, w);
    k' := if w'.noff == 0 then j + 1 else k;
    KeptText(names, j, k, w.qname, w.noff);
  }

  lemma KeptText(names: seq<Bytes>, j: nat, k: nat, qname: Bytes, noff: nat)
    requires k <= j < |names| && noff + |names[j]| + 1 <= |qname| && noff == |Dotted(names[k..j])|
    requires qname[..noff] == Dotted(names[k..j])
    ensures |Dotted(names[k..j + 1])| == noff + |names[j]| + 1
    ensures Overwrite(qname, noff, names[j] + [DOT])[..noff + |names[j]| + 1] == Dotted(names[k..j + 1])
    ensures Dotted(names[j + 1..j + 1]) == []
  {
    hide Dotted;
    assert names[k..j + 1] == names[k..j] + [names[j]];
    DottedAppend(names[k..j], [names[j]]);
    OneDotted(names[j]);
    assert names[j + 1..j + 1] == [];
    NoneDotted();
  }

  lemma NoneDotted()
    ensures Dotted([]) == []
  {
  }

  lemma KeptToEnd(data: Bytes, off: nat, names: seq<Bytes>, k: nat, w: Walker)
    requires Legal(names) && KeptFrom(data, off, names, |names|, k, w)
    ensures |Dotted(names[k..])| < 256
    ensures Finish(Walk(data, w)) ==
            if k == |names| then Invalid else Name(Joined(names[k..]), off + |Encode(names)| + 1)
  {
    hide Encode, Dotted, Holds, Joined, TextOf;
    var n := |names|;
    assert names[..n] == names && names[n..] == [] && names[k..n] == names[k..];
    NoLettersLeft(data, w.ptr);
    Turn(data, w);
    NoneDotted();
    if k < n {
      DottedIsJoined(names[k..]);
      assert w.qname[..w.noff][..w.noff - 1] == w.qname[..w.noff - 1];
    }
  }

  lemma NoLettersLeft(data: Bytes, at: nat)
    requires Holds(data, at, Encode([]) + [0])
    ensures at < |data| && data[at] == 0
  {
    assert Encode([]) + [0] == [0];
    HoldsByte(data, at, 0);
  }

  lemma {:induction false} WalkLong(data: Bytes, off: nat, names: seq<Bytes>, j: nat, k: nat, w: Walker)
    returns (last: nat)
    requires Legal(names) && |names| <= MAX_STEPS && KeptFrom(data, off, names, j, k, w)
    requires forall i: nat | i < j :: !Straddles(names, i)
    ensures last <= |names| && Decodes(data, off, names, last, Finish(Walk(data, w)))
    decreases |names| - j
  {
    hide Encode, Dotted, Holds, Joined, TextOf, Walk, Finish, Straddles, Legal;
    if j == |names| {
      KeptToEnd(data, off, names, k, w);
      NoneStraddles(names);
      last := k;
    } else if Straddles(names, j) {
      StraddlingRefused(data, off, names, j, k, w);
      last := k;
    } else {
      var k', w' := KeepsLabel(data, off, names, j, k, w);
      last := WalkLong(data, off, names, j + 1, k', w');
    }
  }

  lemma NoneStraddles(names: seq<Bytes>)
    ensures forall i: nat | i >= |names| :: !Straddles(names, i)
  {
  }

  /** A name of at most 26 labels and any length: it is refused iff a label crosses a multiple of 256 octets of
      text, or the text ends on one; otherwise only the labels behind the last multiple reached are decoded. */
  lemma LongName(data: Bytes, off: nat, names: seq<Bytes>, qname: Bytes) returns (last: nat)
    requires |data| <= 0xFFFF && |qname| == DNS_QNAME_MAX + 1
    requires Legal(names) && |names| <= 26 && Holds(data, off, Encode(names) + [0])
    ensures last <= |names| && Decodes(data, off, names, last, GetName(data, off, qname))
  {
    hide Dotted, Joined, Straddles, Walk, Finish, Decodes;
    assert names[..0] == [] && names[0..] == names && names[0..0] == [];
    NoneDotted();
    Lengths(names[..0]);
    Held(data, off, Encode(names) + [0]);
    last := WalkLong(data, off, names, 0, 0, Start(data, off, qname));
  }

  function Repeated(n: nat): (l: Bytes)
    ensures |l| == n
  {
    if n == 0 then [] else [97] + Repeated(n - 1)
  }

  /** Four labels of 63 letters, and then "b". */
  function LongLabels(): (names: seq<Bytes>)
    ensures |names| == 5
  {
    [Repeated(63), Repeated(63), Repeated(63), Repeated(63), [98]]
  }

  lemma LongLabelsText()
    ensures Legal(LongLabels())
    ensures forall j :: 0 <= j <= 4 ==> TextOf(LongLabels(), j) == 64 * j
    ensures TextOf(LongLabels(), 5) == 258
  {
    hide Dotted, Repeated;
    var names := LongLabels();
    assert names[..0] == [];
    NoneDotted();
    TextGrows(names, 0);
    TextGrows(names, 1);
    TextGrows(names, 2);
    TextGrows(names, 3);
    TextGrows(names, 4);
  }

  lemma LongLabelsFit()
    ensures forall j: nat :: !Straddles(LongLabels(), j)
    ensures forall k :: 0 <= k <= 5 && TextOf(LongLabels(), k) % 256 == 0 ==> k == 0 || k == 4
  {
    hide TextOf, LongLabels;
    LongLabelsText();
  }

  /** A name of 259 octets, more than section 2.3.4 of RFC 1035 allows, is read as its last label. */
  lemma LongNameForgets(qname: Bytes)
    requires |qname| == DNS_QNAME_MAX + 1
    ensures Legal(LongLabels()) && |Encode(LongLabels())| + 1 == 259
    ensures GetName(Encode(LongLabels()) + [0], 0, qname) == Name([98], 259)
  {
    hide GetName, Encode, Dotted, Repeated, Holds, Straddles;
    var names := LongLabels();
    LongLabelsText();
    LongLabelsFit();
    Lengths(names);
    assert names[..5] == names && names[0..] == names && names[4..] == [[98]];
    var data := Encode(names) + [0];
    WholeHeld(data);
    var k := LongName(data, 0, names, qname);
    assert |Dotted(names[0..])| == 258;
    OneJoined(98);
  }

  lemma WholeHeld(data: Bytes)
    ensures Holds(data, 0, data)
  {
  }

  lemma OneJoined(x: u8)
    ensures Joined([[x]]) == [x]
  {
  }
}
