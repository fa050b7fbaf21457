/** The queue of client segments that wait to be forwarded to the socket (tcp.c: `forward`). */
module Reassembly {
  import opened Words
  import opened Serial

  /** `datalen` is a `uint16_t`. */
  type Payload = d: seq<u8> | |d| <= 0xFFFF witness []

  /** `struct segment`; `len` is `|data|`. */
  datatype Segment = Segment(seqno: u32, data: Payload, sent: u16, psh: bool)

  /** The outcome of one `send`: bytes taken, EINTR/EAGAIN, or any other error. */
  datatype SendResult = Sent(n: nat) | Retry | Broken

  /** What one pass of the forwarding loop leaves behind. */
  datatype Drained = Drained(rest: seq<Segment>, remote: u32, accepted: seq<u8>, fwd: bool, broken: bool)

  /** A queued segment that is sent again keeps its data if the length is the same. */
  function Refill(s: Segment, data: Payload): Segment {
    if |s.data| == |data| then s else s.(data := data)
  }

  /** The list walk of `queue_tcp`. */
  function Insert(q: seq<Segment>, seqno: u32, data: Payload, psh: bool): seq<Segment> {
    if q == [] || CompareU32(q[0].seqno, seqno) > 0 then [Segment(seqno, data, 0, psh)] + q
    else if CompareU32(q[0].seqno, seqno) < 0 then [q[0]] + Insert(q[1..], seqno, data, psh)
    else [Refill(q[0], data)] + q[1..]
  }

  /** `queue_tcp`. */
  function QueueTcp(q: seq<Segment>, remote: u32, seqno: u32, data: Payload, psh: bool): seq<Segment> {
    if CompareU32(seqno, remote) < 0 then q else Insert(q, seqno, data, psh)
  }

  /** `len - sent < buffer_size`, an unsigned comparison. */
  predicate Fits(s: Segment, buffer: u32) {
    (|s.data| - s.sent) % TWO32 < buffer
  }

  /** The number of bytes `send` takes when it is offered the rest of s. */
  function Taken(s: Segment, n: nat): nat
    requires s.sent <= |s.data|
  {
    if n < |s.data| - s.sent then n else |s.data| - s.sent
  }

  /** An `int` read from SO_SNDBUF and SIOCOUTQ never reaches 2^31. */
  type BufferSize = x: int | 0 <= x < 0x8000_0000

  /** The forwarding loop of `check_tcp_socket`; a missing send result stands for EAGAIN. */
  function Drain(q: seq<Segment>, remote: u32, buffer: BufferSize, sends: seq<SendResult>): Drained {
    if q == [] || q[0].seqno != remote || !Fits(q[0], buffer) || sends == [] || sends[0].Retry? then
      Drained(q, remote, [], false, false)
    else if sends[0].Broken? then
      Drained(q, remote, [], false, true)
    else
      var s := q[0];
      var n := Taken(s, sends[0].n);
      if s.sent + n == |s.data| then
        var d := Drain(q[1..], Wrap(s.seqno + |s.data|), buffer - n, sends[1..]);
        d.(accepted := s.data[s.sent..] + d.accepted, fwd := true)
      else
        Drained([s.(sent := s.sent + n)] + q[1..], remote, s.data[s.sent..s.sent + n], true, false)
  }

  // ---- The queue against one client stream ----

  /** How much of the first segment the socket already has. */
  function Partial(q: seq<Segment>): nat {
    if q == [] then 0 else q[0].sent
  }

  /** The signed distance of a segment from the edge of the forwarded data. */
  function Key(s: Segment, edge: u32): int {
    Delta(s.seqno, edge)
  }

  /** data is what the stream holds from offset pos on. */
  predicate Matches(data: seq<u8>, pos: int, stream: seq<u8>) {
    0 <= pos && pos + |data| <= |stream| && data == stream[pos..pos + |data|]
  }

  /** s lies near the edge and, unless it starts behind it, carries the client's bytes; `at` is the
      unbounded stream offset that the 32-bit edge stands for. */
  predicate Genuine(s: Segment, edge: u32, at: nat, stream: seq<u8>) {
    && s.data != []
    && -0x1_0000 < Key(s, edge) < 0x4000_0000
    && (Key(s, edge) >= 0 ==> Matches(s.data, at + Key(s, edge), stream))
  }

  predicate Ascending(q: seq<Segment>, edge: u32) {
    forall i, j :: 0 <= i < j < |q| ==> Key(q[i], edge) < Key(q[j], edge)
  }

  /** Only the first segment may be partly sent, and only when it starts at the edge. */
  predicate OnlyHeadSent(q: seq<Segment>, edge: u32) {
    && (q != [] && q[0].sent > 0 ==> q[0].seqno == edge)
    && (q != [] ==> Unsent(q[1..]))
  }

  predicate Unsent(q: seq<Segment>) {
    forall s <- q :: s.sent == 0
  }

  predicate Held(q: seq<Segment>, edge: u32, at: nat, stream: seq<u8>) {
    && (forall s <- q :: Genuine(s, edge, at, stream))
    && Ascending(q, edge)
    && OnlyHeadSent(q, edge)
  }

  /** Everything an insertion can put in the queue. */
  lemma {:induction false} InsertElements(q: seq<Segment>, seqno: u32, data: Payload, psh: bool)
    ensures forall s <- Insert(q, seqno, data, psh) ::
              s in q || s == Segment(seqno, data, 0, psh)
              || exists o <- q :: o.seqno == seqno && s == o.(data := data)
  {
    if q != [] && CompareU32(q[0].seqno, seqno) < 0 {
      InsertElements(q[1..], seqno, data, psh);
    }
  }

  /** A segment that is sent again, with others only before it that precede it: its data is replaced if the length is
      another, whatever the bytes are, and what was sent of it stays; nothing else changes. */
  lemma {:induction false} SentAgain(q: seq<Segment>, seqno: u32, data: Payload, psh: bool, i: nat)
    requires i < |q| && q[i].seqno == seqno
    requires forall j :: 0 <= j < i ==> CompareU32(q[j].seqno, seqno) < 0
    ensures Insert(q, seqno, data, psh) == if |q[i].data| == |data| then q else q[i := q[i].(data := data)]
  {
    hide CompareU32;
    SameNumber(seqno);
    if i > 0 {
      SentAgain(q[1..], seqno, data, psh, i - 1);
      assert [q[0]] + q[1..] == q;
    }
  }

  lemma SameNumber(seqno: u32)
    ensures CompareU32(seqno, seqno) == 0
  {
  }

  /** A segment of a new number goes between those before and those behind it, unsent, with its push flag. */
  lemma {:induction false} SentFirst(q: seq<Segment>, seqno: u32, data: Payload, psh: bool, i: nat)
    requires i <= |q| && forall j :: 0 <= j < i ==> CompareU32(q[j].seqno, seqno) < 0
    requires i < |q| ==> CompareU32(q[i].seqno, seqno) > 0
    ensures Insert(q, seqno, data, psh) == q[..i] + [Segment(seqno, data, 0, psh)] + q[i..]
  {
    hide CompareU32;
    if i > 0 {
      SentFirst(q[1..], seqno, data, psh, i - 1);
    }
  }

  /** Inserting keeps a queue in window strictly ascending. */
  lemma {:induction false} InsertAscending(q: seq<Segment>, seqno: u32, data: Payload, psh: bool, edge: u32)
    requires forall s <- q :: -0x4000_0000 < Key(s, edge) < 0x4000_0000
    requires -0x4000_0000 < Delta(seqno, edge) < 0x4000_0000
    requires Ascending(q, edge)
    ensures Ascending(Insert(q, seqno, data, psh), edge)
  {
    hide CompareU32, Delta;
    if q != [] {
      assert q[0] in q;
      CompareInWindow(q[0].seqno, seqno, edge);
      if CompareU32(q[0].seqno, seqno) < 0 {
        InsertAscending(q[1..], seqno, data, psh, edge);
        InsertElements(q[1..], seqno, data, psh);
        var t := Insert(q[1..], seqno, data, psh);
        forall i | 0 <= i < |t| ensures Key(q[0], edge) < Key(t[i], edge) {
          assert t[i] in t;
        }
        FirstBelow(q[0], t, edge);
      }
    }
  }

  lemma FirstBelow(s: Segment, t: seq<Segment>, edge: u32)
    requires Ascending(t, edge) && forall i :: 0 <= i < |t| ==> Key(s, edge) < Key(t[i], edge)
    ensures Ascending([s] + t, edge)
  {
    hide Key;
  }

  /** Inserting at or after the edge leaves later segments unsent and a sent head at the edge. */
  lemma {:induction false} InsertOnlyHeadSent(q: seq<Segment>, seqno: u32, data: Payload, psh: bool, edge: u32)
    requires OnlyHeadSent(q, edge)
    requires 0 <= Delta(seqno, edge) < 0x4000_0000
    ensures OnlyHeadSent(Insert(q, seqno, data, psh), edge)
    ensures Partial(Insert(q, seqno, data, psh)) == Partial(q)
  {
    if q != [] {
      if CompareU32(q[0].seqno, seqno) < 0 {
        InsertUnsent(q[1..], seqno, data, psh);
        assert Insert(q, seqno, data, psh)[1..] == Insert(q[1..], seqno, data, psh);
      } else if q[0].sent > 0 {
        CompareInWindow(q[0].seqno, seqno, edge);
      }
    }
  }

  lemma {:induction false} InsertUnsent(q: seq<Segment>, seqno: u32, data: Payload, psh: bool)
    requires Unsent(q)
    ensures Unsent(Insert(q, seqno, data, psh))
  {
    if q != [] {
      assert q[0] in q;
      if CompareU32(q[0].seqno, seqno) < 0 {
        InsertUnsent(q[1..], seqno, data, psh);
      }
    }
  }

  /** `queue_tcp` keeps the queue genuine when the new segment is. Old data is dropped. */
  lemma {:induction false} QueueTcpHolds(q: seq<Segment>, seqno: u32, data: Payload, psh: bool,
                                         edge: u32, at: nat, stream: seq<u8>)
    requires Held(q, edge, at, stream)
    requires Genuine(Segment(seqno, data, 0, psh), edge, at, stream) && Delta(seqno, edge) >= 0
    ensures Held(Insert(q, seqno, data, psh), edge, at, stream)
    ensures Partial(Insert(q, seqno, data, psh)) == Partial(q)
  {
    InsertElements(q, seqno, data, psh);
    InsertAscending(q, seqno, data, psh, edge);
    InsertOnlyHeadSent(q, seqno, data, psh, edge);
  }

  /** A segment after one of length n keeps its place in the stream when the edge moves by n. */
  lemma GenuineShift(s: Segment, base: int, at: nat, n: nat, stream: seq<u8>)
    requires Genuine(s, Wrap(base + at), at, stream)
    requires Key(s, Wrap(base + at)) > 0 && n <= 0xFFFF
    ensures Key(s, Wrap(base + at + n)) == Key(s, Wrap(base + at)) - n
    ensures Genuine(s, Wrap(base + at + n), at + n, stream)
  {
    DeltaShift(s.seqno, base + at, n);
  }

  /** Forwarding the first segment completely moves the edge past it. */
  lemma PopHolds(q: seq<Segment>, base: int, at: nat, stream: seq<u8>)
    requires q != [] && q[0].seqno == Wrap(base + at)
    requires Held(q, Wrap(base + at), at, stream)
    ensures Matches(q[0].data, at, stream)
    ensures Held(q[1..], Wrap(base + at + |q[0].data|), at + |q[0].data|, stream)
    ensures Partial(q[1..]) == 0
  {
    hide Wrap, Delta;
    var n := |q[0].data|;
    var e, e' := Wrap(base + at), Wrap(base + at + n);
    assert q[0] in q;
    OnTheEdge(q[0], e);
    forall i | 1 <= i < |q|
      ensures Key(q[i], e') == Key(q[i], e) - n && Genuine(q[i], e', at + n, stream)
    {
      assert q[i] in q && Key(q[0], e) < Key(q[i], e);
      GenuineShift(q[i], base, at, n, stream);
    }
    assert forall s <- q[1..] :: s.sent == 0;
  }

  lemma OnTheEdge(s: Segment, edge: u32)
    requires s.seqno == edge
    ensures Key(s, edge) == 0
  {
  }

  /** A partial send only moves the mark inside the first segment. */
  lemma PartialHolds(q: seq<Segment>, edge: u32, at: nat, n: nat, stream: seq<u8>)
    requires q != [] && q[0].seqno == edge && Held(q, edge, at, stream)
    requires q[0].sent + n <= |q[0].data|
    ensures Held([q[0].(sent := q[0].sent + n)] + q[1..], edge, at, stream)
    ensures Matches(q[0].data, at, stream)
  {
    var s := q[0];
    var r := [s.(sent := s.sent + n)] + q[1..];
    assert s in q && Genuine(s, edge, at, stream) && Key(s, edge) == 0;
    assert r[1..] == q[1..];
    assert forall i :: 0 <= i < |r| ==> Key(r[i], edge) == Key(q[i], edge);
  }

  /** d leaves the edge at stream offset `at`, and the socket took exactly the stream from `before`. */
  predicate Advanced(d: Drained, base: int, before: nat, at: nat, stream: seq<u8>) {
    && d.remote == Wrap(base + at)
    && Held(d.rest, Wrap(base + at), at, stream)
    && before <= at + Partial(d.rest) <= |stream|
    && d.accepted == stream[before..at + Partial(d.rest)]
  }

  lemma StopAdvances(q: seq<Segment>, base: int, at: nat, broken: bool, stream: seq<u8>)
    requires Held(q, Wrap(base + at), at, stream) && at + Partial(q) <= |stream|
    ensures Advanced(Drained(q, Wrap(base + at), [], false, broken), base, at + Partial(q), at, stream)
  {
    assert stream[at + Partial(q)..at + Partial(q)] == [];
  }

  lemma SliceOfSlice(s: seq<u8>, at: nat, len: nat, i: nat, j: nat)
    requires at + len <= |s| && i <= j <= len
    ensures s[at..at + len][i..j] == s[at + i..at + j]
  {
    var whole, part := s[at..at + len], s[at + i..at + j];
    assert forall k :: 0 <= k < j - i ==> whole[i..j][k] == s[at + (i + k)] == part[k];
    assert whole[i..j] == part;
  }

  lemma PartialAdvances(q: seq<Segment>, base: int, at: nat, n: nat, stream: seq<u8>)
    requires q != [] && q[0].seqno == Wrap(base + at) && Held(q, Wrap(base + at), at, stream)
    requires q[0].sent + n <= |q[0].data|
    ensures var sent := q[0].sent;
            Advanced(Drained([q[0].(sent := sent + n)] + q[1..], Wrap(base + at),
                             q[0].data[sent..sent + n], true, false),
                     base, at + sent, at, stream)
  {
    PartialHolds(q, Wrap(base + at), at, n, stream);
    var sent := q[0].sent;
    assert q[0].data[sent..sent + n] == stream[at..at + |q[0].data|][sent..sent + n];
    SliceOfSlice(stream, at, |q[0].data|, sent, sent + n);
  }

  /** The head's last bytes, then what the rest of the loop sent, continue the stream. */
  lemma PopAdvances(q: seq<Segment>, d: Drained, base: int, at: nat, at': nat, stream: seq<u8>)
    requires q != [] && Matches(q[0].data, at, stream) && q[0].sent <= |q[0].data|
    requires Advanced(d, base, at + |q[0].data|, at', stream)
    ensures Advanced(d.(accepted := q[0].data[q[0].sent..] + d.accepted, fwd := true),
                     base, at + q[0].sent, at', stream)
  {
    hide Held;
    var mid, end := at + |q[0].data|, at' + Partial(d.rest);
    assert q[0].data[q[0].sent..] == stream[at + q[0].sent..mid];
    assert stream[at + q[0].sent..mid] + stream[mid..end] == stream[at + q[0].sent..end];
  }

  /** The heart of upstream safety: whatever `send` does, the bytes it takes continue the client
      stream where the socket left off, and the edge moves by the fully forwarded bytes only. */
  lemma {:induction false} DrainAdvances(q: seq<Segment>, base: int, at: nat, buffer: BufferSize,
                                         sends: seq<SendResult>, stream: seq<u8>)
    returns (at': nat)
    requires Held(q, Wrap(base + at), at, stream) && at + Partial(q) <= |stream|
    ensures at' >= at
    ensures Advanced(Drain(q, Wrap(base + at), buffer, sends), base, at + Partial(q), at', stream)
    decreases |q|
  {
    hide Held;
    hide Advanced;
    at' := at;
    if q == [] || q[0].seqno != Wrap(base + at) || !Fits(q[0], buffer) || sends == [] || !sends[0].Sent? {
      StopAdvances(q, base, at, false, stream);
      StopAdvances(q, base, at, true, stream);
    } else {
      var n := Taken(q[0], sends[0].n);
      if q[0].sent + n == |q[0].data| {
        var mid := at + |q[0].data|;
        PopHolds(q, base, at, stream);
        WrapAdd(base + at, |q[0].data|);
        assert base + mid == base + at + |q[0].data|;
        at' := DrainAdvances(q[1..], base, mid, buffer - n, sends[1..], stream);
        PopAdvances(q, Drain(q[1..], Wrap(base + mid), buffer - n, sends[1..]), base, at, at', stream);
      } else {
        PartialAdvances(q, base, at, n, stream);
      }
    }
  }
}
