/** Reassembly does not depend on the order in which segments arrive. */
module ArrivalOrder {
  import opened Words
  import opened Serial
  import opened Reassembly

  datatype Arrival = Arrival(seqno: u32, data: Payload, psh: bool)

  function Queued(a: Arrival): Segment {
    Segment(a.seqno, a.data, 0, a.psh)
  }

  function QueueAll(q: seq<Segment>, remote: u32, arrivals: seq<Arrival>): seq<Segment>
    decreases |arrivals|
  {
    if arrivals == [] then q
    else
      var a := arrivals[0];
      QueueAll(QueueTcp(q, remote, a.seqno, a.data, a.psh), remote, arrivals[1..])
  }

  /** The number of bytes in consecutive segments, and the bytes themselves. */
  function Total(tiles: seq<Arrival>): nat {
    if tiles == [] then 0 else Total(tiles[..|tiles| - 1]) + |tiles[|tiles| - 1].data|
  }

  function Bytes(tiles: seq<Arrival>): seq<u8> {
    if tiles == [] then [] else tiles[0].data + Bytes(tiles[1..])
  }

  /** tiles cut a stretch of the client stream into non-empty pieces, starting at base. */
  predicate Tiles(tiles: seq<Arrival>, base: int) {
    tiles != [] ==>
      var n := |tiles| - 1;
      && Tiles(tiles[..n], base)
      && tiles[n].seqno == Wrap(base + Total(tiles[..n]))
      && tiles[n].data != []
  }

  /** Sequence numbers at or after the edge and less than 2^30 past it. */
  predicate Ahead(seqno: u32, edge: u32) {
    0 <= Delta(seqno, edge) < 0x4000_0000
  }

  predicate AllAhead(arrivals: seq<Arrival>, edge: u32) {
    forall a <- arrivals :: Ahead(a.seqno, edge)
  }

  function InsertArrival(q: seq<Segment>, a: Arrival): seq<Segment> {
    Insert(q, a.seqno, a.data, a.psh)
  }

  predicate QueueAhead(q: seq<Segment>, edge: u32) {
    forall s <- q :: Ahead(s.seqno, edge)
  }

  /** Two segments with different sequence numbers may be queued in either order. */
  lemma {:induction false} InsertCommutes(q: seq<Segment>, a: Arrival, b: Arrival, edge: u32)
    requires QueueAhead(q, edge) && Ahead(a.seqno, edge) && Ahead(b.seqno, edge)
    requires a.seqno != b.seqno
    ensures InsertArrival(InsertArrival(q, a), b) == InsertArrival(InsertArrival(q, b), a)
  {
    hide CompareU32, Delta, Refill;
    CompareInWindow(a.seqno, b.seqno, edge);
    CompareInWindow(b.seqno, a.seqno, edge);
    if q != [] {
      assert q[0] in q;
      CompareInWindow(q[0].seqno, a.seqno, edge);
      CompareInWindow(q[0].seqno, b.seqno, edge);
      RefillKeepsNumber(q[0], a.data);
      RefillKeepsNumber(q[0], b.data);
      if CompareU32(q[0].seqno, a.seqno) < 0 && CompareU32(q[0].seqno, b.seqno) < 0 {
        InsertCommutes(q[1..], a, b, edge);
      }
    }
  }

  lemma RefillKeepsNumber(s: Segment, data: Payload)
    ensures Refill(s, data).seqno == s.seqno && Refill(Refill(s, data), data) == Refill(s, data)
  {
  }

  /** Queueing the same segment again changes nothing. */
  lemma {:induction false} InsertTwice(q: seq<Segment>, a: Arrival)
    ensures InsertArrival(InsertArrival(q, a), a) == InsertArrival(q, a)
  {
    hide CompareU32;
    if q != [] {
      RefillKeepsNumber(q[0], a.data);
      if CompareU32(q[0].seqno, a.seqno) < 0 {
        InsertTwice(q[1..], a);
      }
    }
  }

  lemma InsertAhead(q: seq<Segment>, a: Arrival, edge: u32)
    requires QueueAhead(q, edge) && Ahead(a.seqno, edge)
    ensures QueueTcp(q, edge, a.seqno, a.data, a.psh) == InsertArrival(q, a)
    ensures QueueAhead(InsertArrival(q, a), edge)
  {
    CompareIsSignOfDelta(a.seqno, edge);
    InsertElements(q, a.seqno, a.data, a.psh);
  }

  /** An arrival may be postponed behind others with different sequence numbers. */
  lemma {:induction false} PostponeArrival(q: seq<Segment>, a: Arrival, later: seq<Arrival>, edge: u32)
    requires QueueAhead(q, edge) && Ahead(a.seqno, edge) && AllAhead(later, edge)
    requires forall b <- later :: b.seqno != a.seqno
    ensures QueueAll(InsertArrival(q, a), edge, later) == InsertArrival(QueueAll(q, edge, later), a)
    ensures QueueAhead(QueueAll(q, edge, later), edge)
    decreases |later|
  {
    if later != [] {
      var b := later[0];
      assert b in later;
      InsertAhead(q, a, edge);
      InsertAhead(q, b, edge);
      InsertAhead(InsertArrival(q, a), b, edge);
      InsertCommutes(q, a, b, edge);
      PostponeArrival(InsertArrival(q, b), a, later[1..], edge);
    }
  }

  /** Tiles sit at increasing offsets, the last one furthest out. */
  lemma {:induction false} TilesAhead(tiles: seq<Arrival>, base: int)
    requires Tiles(tiles, base) && Total(tiles) <= 0x4000_0000
    ensures AllAhead(tiles, Wrap(base))
    ensures forall t <- tiles :: Delta(t.seqno, Wrap(base)) < Total(tiles)
  {
    if tiles != [] {
      var n := |tiles| - 1;
      TilesAhead(tiles[..n], base);
      DeltaOfWraps(base + Total(tiles[..n]), base);
      assert tiles == tiles[..n] + [tiles[n]];
    }
  }

  /** A segment past all queued ones goes to the end. */
  lemma {:induction false} InsertLast(q: seq<Segment>, a: Arrival, edge: u32)
    requires QueueAhead(q, edge) && Ahead(a.seqno, edge)
    requires forall s <- q :: Delta(s.seqno, edge) < Delta(a.seqno, edge)
    ensures InsertArrival(q, a) == q + [Queued(a)]
  {
    if q != [] {
      assert q[0] in q;
      CompareInWindow(q[0].seqno, a.seqno, edge);
      InsertLast(q[1..], a, edge);
    }
  }

  function QueuedAll(tiles: seq<Arrival>): seq<Segment> {
    if tiles == [] then [] else QueuedAll(tiles[..|tiles| - 1]) + [Queued(tiles[|tiles| - 1])]
  }

  lemma {:induction false} QueuedAllAt(tiles: seq<Arrival>)
    ensures |QueuedAll(tiles)| == |tiles|
    ensures forall i :: 0 <= i < |tiles| ==> QueuedAll(tiles)[i] == Queued(tiles[i])
  {
    if tiles != [] {
      QueuedAllAt(tiles[..|tiles| - 1]);
    }
  }

  function Except(arrivals: seq<Arrival>, t: Arrival): seq<Arrival> {
    if arrivals == [] then [] else (if arrivals[0] == t then [] else [arrivals[0]]) + Except(arrivals[1..], t)
  }

  lemma {:induction false} ExceptElements(arrivals: seq<Arrival>, t: Arrival)
    ensures forall a :: a in Except(arrivals, t) <==> a in arrivals && a != t
    ensures t !in arrivals ==> Except(arrivals, t) == arrivals
  {
    if arrivals != [] {
      ExceptElements(arrivals[1..], t);
      assert arrivals == [arrivals[0]] + arrivals[1..];
    }
  }

  /** However often t arrives, and wherever, it may as well come once, after all others. */
  lemma {:induction false} OnceAtEnd(q: seq<Segment>, arrivals: seq<Arrival>, t: Arrival, edge: u32)
    requires QueueAhead(q, edge) && AllAhead(arrivals, edge) && t in arrivals
    requires forall a <- arrivals :: a == t || a.seqno != t.seqno
    ensures QueueAll(q, edge, arrivals) == InsertArrival(QueueAll(q, edge, Except(arrivals, t)), t)
    decreases |arrivals|
  {
    hide Ahead, InsertArrival, QueueTcp;
    var a, rest := arrivals[0], arrivals[1..];
    assert a in arrivals;
    InsertAhead(q, a, edge);
    ExceptElements(rest, t);
    if a != t {
      OnceAtEnd(InsertArrival(q, a), rest, t, edge);
      assert Except(arrivals, t)[1..] == Except(rest, t);
    } else {
      assert Except(arrivals, t) == Except(rest, t);
      PostponeArrival(q, t, Except(rest, t), edge);
      if t in rest {
        OnceAtEnd(InsertArrival(q, t), rest, t, edge);
        InsertTwice(QueueAll(q, edge, Except(rest, t)), t);
      }
    }
  }

  predicate SameElements(xs: seq<Arrival>, ys: seq<Arrival>) {
    (forall a <- xs :: a in ys) && (forall a <- ys :: a in xs)
  }

  /** Whatever the order of arrival, and however often a piece is sent again, pieces that tile the
      stream are queued in stream order. */
  lemma {:induction false} AnyOrderSameQueue(arrivals: seq<Arrival>, tiles: seq<Arrival>, base: int)
    requires SameElements(arrivals, tiles)
    requires Tiles(tiles, base) && Total(tiles) <= 0x4000_0000
    ensures QueueAll([], Wrap(base), arrivals) == QueuedAll(tiles)
    decreases |tiles|
  {
    hide Wrap, Delta, Ahead, Insert;
    var edge := Wrap(base);
    if tiles == [] {
      assert forall a :: a !in arrivals;
      assert arrivals == [];
    } else {
      var n := |tiles| - 1;
      var last := tiles[n];
      LastIsFurthest(tiles, base);
      assert tiles == tiles[..n] + [last];
      ExceptElements(arrivals, last);
      OnceAtEnd([], arrivals, last, edge);
      AnyOrderSameQueue(Except(arrivals, last), tiles[..n], base);
      QueuedAllAt(tiles[..n]);
      InsertLast(QueuedAll(tiles[..n]), last, edge);
    }
  }

  lemma LastIsFurthest(tiles: seq<Arrival>, base: int)
    requires tiles != [] && Tiles(tiles, base) && Total(tiles) <= 0x4000_0000
    ensures AllAhead(tiles, Wrap(base))
    ensures var n := |tiles| - 1;
            && (forall t <- tiles[..n] :: Delta(t.seqno, Wrap(base)) < Delta(tiles[n].seqno, Wrap(base)))
            && QueueAhead(QueuedAll(tiles[..n]), Wrap(base))
  {
    hide Wrap, Delta, Ahead;
    var n := |tiles| - 1;
    TilesAhead(tiles[..n], base);
    TilesAhead(tiles, base);
    DeltaOfWraps(base + Total(tiles[..n]), base);
    QueuedAllAt(tiles[..n]);
  }

  /** A socket that takes everything offered, often enough. */
  predicate Accepting(sends: seq<SendResult>, n: nat) {
    |sends| >= n && forall r <- sends :: r.Sent? && r.n >= 0xFFFF
  }

  lemma {:induction false} BytesFirst(tiles: seq<Arrival>, base: int)
    requires tiles != [] && Tiles(tiles, base)
    ensures tiles[0].seqno == Wrap(base) && tiles[0].data != []
    ensures Tiles(tiles[1..], base + |tiles[0].data|)
    ensures Total(tiles) == |tiles[0].data| + Total(tiles[1..])
    ensures Bytes(tiles) == tiles[0].data + Bytes(tiles[1..])
    decreases |tiles|
  {
    var n := |tiles| - 1;
    if n > 0 {
      BytesFirst(tiles[..n], base);
      assert tiles[1..][..n - 1] == tiles[..n][1..];
    }
  }

  lemma DrainPop(q: seq<Segment>, remote: u32, buffer: BufferSize, sends: seq<SendResult>)
    requires q != [] && q[0].seqno == remote && q[0].sent == 0 && |q[0].data| < buffer
    requires sends != [] && sends[0].Sent? && sends[0].n >= |q[0].data|
    ensures var n := |q[0].data|;
            var d := Drain(q[1..], Wrap(remote + n), buffer - n, sends[1..]);
            Drain(q, remote, buffer, sends) == d.(accepted := q[0].data + d.accepted, fwd := true)
  {
    assert q[0].data[0..] == q[0].data;
  }

  lemma NoTilesDrain(tiles: seq<Arrival>, base: int, buffer: BufferSize, sends: seq<SendResult>)
    requires tiles == []
    ensures Drain([], Wrap(base), buffer, sends) == Drained([], Wrap(base + Total(tiles)), Bytes(tiles), false, false)
  {
  }

  /** With room for all of it, one pass of the forwarding loop delivers the whole stretch. */
  lemma {:induction false} TilesDrain(q: seq<Segment>, tiles: seq<Arrival>, base: int, buffer: BufferSize,
                                      sends: seq<SendResult>)
    requires Tiles(tiles, base) && Total(tiles) < buffer && Accepting(sends, |tiles|)
    requires |q| == |tiles| && forall i :: 0 <= i < |q| ==> q[i] == Queued(tiles[i])
    ensures Drain(q, Wrap(base), buffer, sends)
            == Drained([], Wrap(base + Total(tiles)), Bytes(tiles), tiles != [], false)
    decreases |tiles|
  {
    hide Wrap, Tiles, Total, Drain, Bytes;
    if tiles == [] {
      NoTilesDrain(tiles, base, buffer, sends);
      return;
    }
    BytesFirst(tiles, base);
    assert sends[0] in sends;
    var n := |tiles[0].data|;
    WrapAdd(base, n);
    assert base + n + Total(tiles[1..]) == base + Total(tiles);
    DrainPop(q, Wrap(base), buffer, sends);
    TilesDrain(q[1..], tiles[1..], base + n, buffer - n, sends[1..]);
  }

  /** Neither order nor repetition matters to the socket either. */
  lemma AnyOrderSameDelivery(arrivals: seq<Arrival>, tiles: seq<Arrival>, base: int, buffer: BufferSize,
                             sends: seq<SendResult>)
    requires SameElements(arrivals, tiles)
    requires Tiles(tiles, base) && Total(tiles) <= 0x4000_0000
    requires Total(tiles) < buffer && Accepting(sends, |tiles|)
    ensures var d := Drain(QueueAll([], Wrap(base), arrivals), Wrap(base), buffer, sends);
            d.rest == [] && d.accepted == Bytes(tiles) && d.remote == Wrap(base + Total(tiles))
  {
    AnyOrderSameQueue(arrivals, tiles, base);
    QueuedAllAt(tiles);
    TilesDrain(QueuedAll(tiles), tiles, base, buffer, sends);
  }
}
