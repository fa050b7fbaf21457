/** The domain-name decoder of dns.c. */
module DnsName {
  import opened Words

  const DNS_QNAME_MAX := 255
  const MAX_STEPS := 26
  const DOT: u8 := 46

  /** The text is what `qname` holds up to its terminator; next is the returned offset. */
  datatype Name = Name(text: Bytes, next: nat) | Invalid

  /** The variables of the loop, and the buffer it writes; count is the number of turns made. */
  datatype Walker = Walker(ptr: nat, len: u8, noff: u8, jumped: bool, off: nat, count: nat, qname: Bytes)

  function Overwrite(b: Bytes, at: nat, piece: Bytes): (r: Bytes)
    requires at + |piece| <= |b|
    ensures |r| == |b|
  {
    b[..at] + piece + b[at + |piece|..]
  }

  /** Any of the two top bits makes the length a pointer. */
  predicate IsPointer(len: u8) {
    len >= 64
  }

  predicate WellPlaced(data: Bytes, w: Walker) {
    && |data| <= 0xFFFF && |w.qname| == DNS_QNAME_MAX + 1
    && w.ptr < |data| && w.len == data[w.ptr] && w.count <= MAX_STEPS
  }

  predicate MayJump(data: Bytes, w: Walker) {
    w.ptr + 1 < |data| && IsPointer(w.len)
  }

  function Target(data: Bytes, w: Walker): nat
    requires MayJump(data, w)
  {
    var hi: int := w.len % 64;
    hi * 256 + data[w.ptr + 1]
  }

  predicate MayCopy(data: Bytes, w: Walker) {
    w.ptr + 1 + w.len < |data| && w.noff + w.len <= DNS_QNAME_MAX
  }

  function Jump(data: Bytes, w: Walker): Walker
    requires MayJump(data, w) && Target(data, w) < |data|
  {
    var t := Target(data, w);
    w.(ptr := t, len := data[t], jumped := true, off := if w.jumped then w.off else w.off + 2, count := w.count + 1)
  }

  function Copy(data: Bytes, w: Walker): Walker
    requires MayCopy(data, w) && |w.qname| == DNS_QNAME_MAX + 1
  {
    var t := w.ptr + 1 + w.len;
    w.(ptr := t, len := data[t], noff := (w.noff + w.len + 1) % 256, count := w.count + 1,
       qname := Overwrite(w.qname, w.noff, data[w.ptr + 1..t] + [DOT]))
  }

  /** The loop of `get_qname`. */
  function Walk(data: Bytes, w: Walker): (r: Walker)
    requires WellPlaced(data, w)
    ensures WellPlaced(data, r)
    decreases MAX_STEPS - w.count
  {
    if w.len == 0 || w.count >= MAX_STEPS then w
    else if MayJump(data, w) then
      if Target(data, w) >= |data| then w else Walk(data, Jump(data, w))
    else if MayCopy(data, w) then Walk(data, Copy(data, w))
    else w
  }

  function Start(data: Bytes, off: nat, qname: Bytes): Walker
    requires off < |data|
  {
    Walker(off, data[off], 0, false, off, 0, qname)
  }

  function Finish(w: Walker): Name
    requires w.noff <= |w.qname|
  {
    if w.len > 0 || w.noff == 0 then Invalid
    else Name(w.qname[..w.noff - 1], if w.jumped then w.off else w.ptr + 1)
  }

  /** `get_qname`. */
  function GetName(data: Bytes, off: nat, qname: Bytes): Name
    requires |data| <= 0xFFFF && |qname| == DNS_QNAME_MAX + 1
  {
    if off >= |data| then Invalid else Finish(Walk(data, Start(data, off, qname)))
  }

  /** Copy a label and put a dot behind it. */
  method CopyLabel(qname: array<u8>, noff: nat, piece: Bytes)
    requires noff + |piece| < qname.Length
    modifies qname
    ensures qname[..] == Overwrite(old(qname[..]), noff, piece + [DOT])
  {
    forall i | 0 <= i < |piece| {
      qname[noff + i] := piece[i];
    }
    qname[noff + |piece|] := DOT;
  }

  /** One turn of the loop. */
  lemma Turn(data: Bytes, w: Walker)
    requires WellPlaced(data, w)
    ensures Walk(data, w) ==
            if w.len == 0 || w.count >= MAX_STEPS then w
            else if MayJump(data, w) then
              if Target(data, w) >= |data| then w else Walk(data, Jump(data, w))
            else if MayCopy(data, w) then Walk(data, Copy(data, w))
            else w
  {
  }

  lemma Ending(w: Walker)
    requires w.noff <= |w.qname|
    ensures Finish(w) == if w.len > 0 || w.noff == 0 then Invalid
                         else Name(w.qname[..w.noff - 1], if w.jumped then w.off else w.ptr + 1)
  {
  }

  /** `get_qname` on the buffer of the caller. Every read is inside the message, every write inside
      the 256 bytes, and the loop turns at most 26 times, for any message, cyclic pointers included. */
  method GetQname(data: Bytes, off: u16, qname: array<u8>) returns (r: int)
    requires |data| <= 0xFFFF && qname.Length == DNS_QNAME_MAX + 1
    modifies qname
    ensures var name := GetName(data, off, old(qname[..])[0 := 0]);
            && (name.Invalid? ==> r == -1)
            && (name.Name? ==> r == name.next && name.text + [0] <= qname[..])
  {
    hide Overwrite, Walk, Finish;
    qname[0] := 0;
    if off >= |data| {
      return -1;
    }
    ghost var start := Start(data, off, qname[..]);
    var jumped, noff, ptr, end := false, 0 as int, off as int, off as int;
    var len := data[ptr];
    var count := 0;
    while len != 0 && count < MAX_STEPS
      invariant 0 <= noff < 256 && 0 <= ptr < |data| && 0 <= end && 0 <= count <= MAX_STEPS && len == data[ptr]
      invariant Walk(data, Walker(ptr, len, noff, jumped, end, count, qname[..])) == Walk(data, start)
      decreases MAX_STEPS - count
    {
      ghost var w := Walker(ptr, len, noff, jumped, end, count, qname[..]);
      Turn(data, w);
      if ptr + 1 < |data| && IsPointer(len) {
        var hi: int := len % 64;
        var t := hi * 256 + data[ptr + 1];
        if t >= |data| {
          break;
        }
        ptr := t;
        len := data[ptr];
        if !jumped {
          jumped := true;
          end := end + 2;
        }
        assert Walker(ptr, len, noff, jumped, end, count + 1, qname[..]) == Jump(data, w);
      } else if ptr + 1 + len < |data| && noff + len <= DNS_QNAME_MAX {
        var t := ptr + 1 + len;
        CopyLabel(qname, noff, data[ptr + 1..t]);
        noff := (noff + len + 1) % 256;
        ptr := t;
        len := data[ptr];
        assert Walker(ptr, len, noff, jumped, end, count + 1, qname[..]) == Copy(data, w);
      } else {
        break;
      }
      count := count + 1;
    }
    Turn(data, Walker(ptr, len, noff, jumped, end, count, qname[..]));
    assert Walk(data, start) == Walker(ptr, len, noff, jumped, end, count, qname[..]);
    Ending(Walk(data, start));
    if len > 0 || noff == 0 {
      return -1;
    }
    ghost var text := qname[..noff - 1];
    qname[noff - 1] := 0;
    assert qname[..noff - 1] == text && qname[noff - 1] == 0;
    return if jumped then end else ptr + 1;
  }
}
