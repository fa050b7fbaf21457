/** What one pass of the forwarding loop delivers of a queue with gaps and overlaps.

    Given room and a socket that takes what it is offered, the loop delivers everything up to the first
    byte that no queued segment holds, unless segments that touch the delivered stretch overlap: then,
    and only then, it ends in front of a segment that starts behind the edge. */
module Contiguous {
  import opened Words
  import opened Serial
  import opened Reassembly
  import opened ArrivalOrder
  import opened TcpModel
  import opened TcpReceive
  import opened TcpUpstream
  import opened TcpStall

  /** s holds the byte k past the edge. */
  predicate Covers(s: Segment, edge: u32, k: nat) {
    Key(s, edge) <= k < Key(s, edge) + |s.data|
  }

  predicate Covered(q: seq<Segment>, edge: u32, k: nat) {
    exists s <- q :: Covers(s, edge, k)
  }

  /** k is the offset of the first byte that no segment holds. */
  ghost predicate FirstMissing(q: seq<Segment>, edge: u32, k: nat) {
    (forall i: nat :: i < k ==> Covered(q, edge, i)) && !Covered(q, edge, k)
  }

  /** The segments up to the i-th follow each other without gap from the edge on. */
  predicate Tiled(q: seq<Segment>, edge: u32, i: nat) {
    && i < |q| && Key(q[0], edge) == 0
    && forall j :: 0 <= j < i ==> Key(q[j + 1], edge) == Key(q[j], edge) + |q[j].data|
  }

  /** The segments up to the i-th have no gap, and the next one starts inside the i-th. */
  predicate OverlapsAt(q: seq<Segment>, edge: u32, i: nat) {
    Tiled(q, edge, i) && i + 1 < |q| && Key(q[i + 1], edge) < Key(q[i], edge) + |q[i].data|
  }

  /** Behind a run of segments without gap comes one that starts inside it. */
  ghost predicate Overlaps(q: seq<Segment>, edge: u32) {
    exists i: nat :: OverlapsAt(q, edge, i)
  }

  predicate StartsBehind(q: seq<Segment>, edge: u32) {
    q != [] && Key(q[0], edge) < 0
  }

  /** t is q without its first segment, seen from the edge that lies n further. */
  predicate Shifted(q: seq<Segment>, edge: u32, t: seq<Segment>, edge': u32) {
    && q != [] && t == q[1..] && Key(q[0], edge) == 0
    && forall i :: 0 <= i < |t| ==> Key(t[i], edge') == Key(q[i + 1], edge) - |q[0].data|
  }

  lemma ShiftedOverlapsAt(q: seq<Segment>, edge: u32, t: seq<Segment>, edge': u32, i: nat)
    requires Shifted(q, edge, t, edge')
    ensures OverlapsAt(q, edge, 0) <==> StartsBehind(t, edge')
    ensures OverlapsAt(q, edge, i + 1) <==> OverlapsAt(t, edge', i)
  {
    hide Key;
    TiledTail(q, edge, t, edge', i);
    if i + 1 < |t| {
      assert q[i + 1] == t[i] && q[i + 1 + 1] == t[i + 1];
    }
  }

  lemma ShiftedOverlaps(q: seq<Segment>, edge: u32, t: seq<Segment>, edge': u32)
    requires Shifted(q, edge, t, edge')
    ensures Overlaps(q, edge) <==> StartsBehind(t, edge') || Overlaps(t, edge')
  {
    hide Shifted, OverlapsAt, StartsBehind;
    ShiftedOverlapsAt(q, edge, t, edge', 0);
    if Overlaps(q, edge) {
      var i: nat :| OverlapsAt(q, edge, i);
      if i > 0 {
        ShiftedOverlapsAt(q, edge, t, edge', i - 1);
      }
    }
    if Overlaps(t, edge') {
      var i: nat :| OverlapsAt(t, edge', i);
      ShiftedOverlapsAt(q, edge, t, edge', i);
    }
  }

  lemma TiledTail(q: seq<Segment>, edge: u32, t: seq<Segment>, edge': u32, i: nat)
    requires Shifted(q, edge, t, edge')
    ensures Tiled(q, edge, i + 1) <==> Tiled(t, edge', i)
  {
    hide Key;
    if Tiled(q, edge, i + 1) {
      forall j | 0 <= j < i ensures Key(t[j + 1], edge') == Key(t[j], edge') + |t[j].data| {
        assert q[j + 1 + 1] == t[j + 1];
      }
      assert Key(q[0 + 1], edge) == Key(q[0], edge) + |q[0].data|;
    }
    if Tiled(t, edge', i) {
      forall j | 0 <= j < i + 1 ensures Key(q[j + 1], edge) == Key(q[j], edge) + |q[j].data| {
        assert q[j + 1] == t[j];
        if j > 0 {
          assert Key(t[j - 1 + 1], edge') == Key(t[j - 1], edge') + |t[j - 1].data|;
        }
      }
    }
  }

  lemma ShiftedCovers(q: seq<Segment>, edge: u32, t: seq<Segment>, edge': u32, k: nat)
    requires Shifted(q, edge, t, edge')
    ensures Covered(q, edge, k) <==> k < |q[0].data| || Covered(t, edge', k - |q[0].data|)
  {
    hide Key;
    if Covered(q, edge, k) && k >= |q[0].data| {
      var i :| 0 <= i < |q| && Covers(q[i], edge, k);
      assert q[i] == t[i - 1] && Covers(t[i - 1], edge', k - |q[0].data|);
    }
    if k < |q[0].data| {
      assert Covers(q[0], edge, k);
    } else if Covered(t, edge', k - |q[0].data|) {
      var i :| 0 <= i < |t| && Covers(t[i], edge', k - |q[0].data|);
      assert Covers(q[i + 1], edge, k);
    }
  }

  lemma ShiftedMissing(q: seq<Segment>, edge: u32, t: seq<Segment>, edge': u32, k: nat)
    requires Shifted(q, edge, t, edge') && FirstMissing(t, edge', k)
    ensures FirstMissing(q, edge, |q[0].data| + k)
  {
    hide Covered, Covers;
    ShiftedCovers(q, edge, t, edge', |q[0].data| + k);
    forall i: nat | i < |q[0].data| + k ensures Covered(q, edge, i) {
      ShiftedCovers(q, edge, t, edge', i);
    }
  }

  lemma PopShifts(q: seq<Segment>, base: int, at: nat, stream: seq<u8>)
    requires q != [] && q[0].seqno == Wrap(base + at) && Held(q, Wrap(base + at), at, stream)
    ensures Shifted(q, Wrap(base + at), q[1..], Wrap(base + at + |q[0].data|))
  {
    hide Matches;
    var n := |q[0].data|;
    forall i | 1 <= i < |q|
      ensures Key(q[i], Wrap(base + at + n)) == Key(q[i], Wrap(base + at)) - n
    {
      assert q[i] in q && Key(q[0], Wrap(base + at)) < Key(q[i], Wrap(base + at));
      DeltaShift(q[i].seqno, base + at, n);
    }
  }

  lemma NothingAtEdge(q: seq<Segment>, edge: u32, at: nat, stream: seq<u8>)
    requires Held(q, edge, at, stream) && (q != [] ==> q[0].seqno != edge)
    ensures !StartsBehind(q, edge) ==> FirstMissing(q, edge, 0)
    ensures !Overlaps(q, edge)
  {
    hide Genuine;
    KeyIsZero(q, edge);
    if !StartsBehind(q, edge) {
      forall i | 0 <= i < |q| ensures !Covers(q[i], edge, 0) {
        assert i > 0 ==> Key(q[0], edge) < Key(q[i], edge);
      }
    }
  }

  lemma KeyIsZero(q: seq<Segment>, edge: u32)
    ensures q != [] ==> (Key(q[0], edge) == 0 <==> q[0].seqno == edge)
  {
    if q != [] {
      KeyZero(q[0], edge);
    }
  }

  lemma PopOne(q: seq<Segment>, edge: u32, buffer: BufferSize, sends: seq<SendResult>)
    requires q != [] && q[0].seqno == edge && SentWithin(q) && ToForward(q) < buffer && Accepting(sends, |q|)
    ensures var n := |q[0].data| - q[0].sent;
            && sends != [] && 0 <= n <= buffer && SentWithin(q[1..])
            && ToForward(q[1..]) < buffer - n && Accepting(sends[1..], |q| - 1)
            && var d := Drain(q[1..], Wrap(edge + |q[0].data|), buffer - n, sends[1..]);
               Drain(q, edge, buffer, sends) == d.(accepted := q[0].data[q[0].sent..] + d.accepted, fwd := true)
  {
    assert q[0] in q && sends[0] in sends;
    ToForwardNonNegative(q[1..]);
  }

  /** d is what is left after the n bytes from the edge on went out. */
  predicate Delivered(d: Drained, q: seq<Segment>, base: int, at: nat, n: nat, stream: seq<u8>) {
    && !d.broken && Partial(d.rest) == 0
    && Advanced(d, base, at + Partial(q), at + n, stream)
  }

  /** What is left starts behind the edge exactly if q had an overlap, else q has no byte n. */
  ghost predicate Exhausted(d: Drained, q: seq<Segment>, edge: u32, n: nat) {
    && (d.rest != [] ==> d.rest[0].seqno != d.remote)
    && (StartsBehind(d.rest, d.remote) <==> StartsBehind(q, edge) || Overlaps(q, edge))
    && (!StartsBehind(d.rest, d.remote) ==> FirstMissing(q, edge, n))
  }

  lemma NothingDelivered(q: seq<Segment>, base: int, at: nat, buffer: BufferSize, sends: seq<SendResult>,
                         stream: seq<u8>)
    requires Held(q, Wrap(base + at), at, stream) && at <= |stream|
    requires q != [] ==> q[0].seqno != Wrap(base + at)
    ensures var d := Drain(q, Wrap(base + at), buffer, sends);
            Delivered(d, q, base, at, 0, stream) && Exhausted(d, q, Wrap(base + at), 0)
  {
    hide Held, Overlaps, FirstMissing, StartsBehind;
    HeadUnsent(q, Wrap(base + at), at, stream);
    StopAdvances(q, base, at, false, stream);
    NothingAtEdge(q, Wrap(base + at), at, stream);
  }

  lemma HeadUnsent(q: seq<Segment>, edge: u32, at: nat, stream: seq<u8>)
    requires Held(q, edge, at, stream) && (q != [] ==> q[0].seqno != edge)
    ensures Partial(q) == 0
  {
  }

  lemma OneDelivered(q: seq<Segment>, d: Drained, base: int, at: nat, n: nat, stream: seq<u8>)
    requires q != [] && q[0].seqno == Wrap(base + at) && q[0].sent <= |q[0].data|
    requires Held(q, Wrap(base + at), at, stream) && Partial(q[1..]) == 0
    requires Delivered(d, q[1..], base, at + |q[0].data|, n, stream)
    requires Exhausted(d, q[1..], Wrap(base + at + |q[0].data|), n)
    ensures var r := d.(accepted := q[0].data[q[0].sent..] + d.accepted, fwd := true);
            Delivered(r, q, base, at, |q[0].data| + n, stream) && Exhausted(r, q, Wrap(base + at), |q[0].data| + n)
  {
    hide Held, Advanced, Overlaps, FirstMissing, StartsBehind, Shifted;
    var len := |q[0].data|;
    PopHolds(q, base, at, stream);
    PopAdvances(q, d, base, at, at + len + n, stream);
    PopShifts(q, base, at, stream);
    ShiftedOverlaps(q, Wrap(base + at), q[1..], Wrap(base + at + len));
    AtEdge(q, Wrap(base + at));
    if !StartsBehind(d.rest, d.remote) {
      ShiftedMissing(q, Wrap(base + at), q[1..], Wrap(base + at + len), n);
    }
  }

  lemma AtEdge(q: seq<Segment>, edge: u32)
    requires q != [] && q[0].seqno == edge
    ensures !StartsBehind(q, edge)
  {
    KeyIsZero(q, edge);
  }

  /** The loop delivers the stretch up to the first missing byte, or ends in front of an overlap. */
  lemma {:induction false} DeliversContiguous(q: seq<Segment>, base: int, at: nat, buffer: BufferSize,
                                              sends: seq<SendResult>, stream: seq<u8>) returns (n: nat)
    requires Held(q, Wrap(base + at), at, stream) && SentWithin(q) && at + Partial(q) <= |stream|
    requires ToForward(q) < buffer && Accepting(sends, |q|)
    ensures var d := Drain(q, Wrap(base + at), buffer, sends);
            Delivered(d, q, base, at, n, stream) && Exhausted(d, q, Wrap(base + at), n)
    decreases |q|
  {
    hide Held, SentWithin, Accepting, Drain, Delivered, Exhausted, Wrap;
    if q == [] || q[0].seqno != Wrap(base + at) {
      NothingDelivered(q, base, at, buffer, sends, stream);
      return 0;
    }
    var len := |q[0].data|;
    PopHolds(q, base, at, stream);
    PopOne(q, Wrap(base + at), buffer, sends);
    WrapAdd(base + at, len);
    assert base + (at + len) == base + at + len;
    var m := DeliversContiguous(q[1..], base, at + len, buffer - (len - q[0].sent), sends[1..], stream);
    OneDelivered(q, Drain(q[1..], Wrap(base + at + len), buffer - (len - q[0].sent), sends[1..]), base, at, m, stream);
    return len + m;
  }

  /** In a connected session: with room for all that is queued, and a socket that takes it, the socket
      then has the client's stream up to the first byte that is not queued, if and only if no segments
      overlapped; otherwise the session is stuck behind the edge for good. */
  lemma ForwardContiguous(m: Machine, k: Kernel, sends: seq<SendResult>, ok: bool, stream: seq<u8>) returns (n: nat)
    requires Upstream(m, stream) && m.t.open && m.log.synIn == 1 && m.log.finIn == 0
    requires SentWithin(m.t.forward) && ToForward(m.t.forward) < ReceiveBuffer(m.t.open, k)
    requires Accepting(sends, |m.t.forward|)
    ensures var r := Forward(m, k, sends, ok).0;
            && Forwarded(m) + n <= |stream| && r.log.accepted == stream[..Forwarded(m) + n]
            && (Behind(r) <==> Behind(m) || Overlaps(m.t.forward, Edge(m)))
            && (!Behind(r) ==> FirstMissing(m.t.forward, Edge(m), n))
  {
    hide Held, SentWithin, Accepting, Drain, Overlaps, FirstMissing, WriteRst, Wrap, Delivered, Exhausted;
    var q, at := m.t.forward, Forwarded(m);
    assert m.t.remoteStart + 1 + at + 0 == Base(m.t) + at;
    n := DeliversContiguous(q, Base(m.t), at, ReceiveBuffer(m.t.open, k), sends, stream);
    DeliveredBy(m, Drain(q, Edge(m), ReceiveBuffer(m.t.open, k), sends), n, stream);
  }

  lemma DeliveredBy(m: Machine, d: Drained, n: nat, stream: seq<u8>)
    requires m.log.accepted <= stream && Forwarded(m) >= 0
    requires Delivered(d, m.t.forward, Base(m.t), Forwarded(m), n, stream)
    requires Exhausted(d, m.t.forward, Edge(m), n)
    ensures var r := AfterDrain(m, d);
            && !d.broken && Forwarded(m) + n <= |stream| && r.log.accepted == stream[..Forwarded(m) + n]
            && (Behind(r) <==> Behind(m) || Overlaps(m.t.forward, Edge(m)))
            && (!Behind(r) ==> FirstMissing(m.t.forward, Edge(m), n))
  {
    hide Held, Overlaps, FirstMissing, Wrap;
    var had, has := |m.log.accepted|, Forwarded(m) + n;
    assert m.log.accepted == stream[..had];
    assert stream[..had] + stream[had..has] == stream[..has];
    assert Base(m.t) + (Forwarded(m) + n) == Base(m.t) + Forwarded(m) + n;
  }
}
