/** When everything that is queued arrives, over as many turns of the event loop as it takes. */
module TcpDelivery {
  import opened Words
  import opened Reassembly
  import opened TcpModel
  import opened TcpReceive
  import opened TcpUpstream
  import opened TcpStall
  import opened Contiguous

  // ---- One pass ----

  /** r, seen from the edge that lies moved bytes further, is what a pass leaves of q. */
  ghost predicate Reduces(q: seq<Segment>, edge: u32, r: seq<Segment>, edge': u32, moved: nat) {
    && (StartsBehind(r, edge') || Overlaps(r, edge') <==> StartsBehind(q, edge) || Overlaps(q, edge))
    && (forall n: nat :: FirstMissing(r, edge', n) ==> FirstMissing(q, edge, moved + n))
  }

  lemma ReducesToItself(q: seq<Segment>, edge: u32)
    ensures Reduces(q, edge, q, edge, 0)
  {
    hide Overlaps, FirstMissing, StartsBehind;
  }

  /** How much is sent of the first segment changes nothing. */
  lemma ReducesMarked(q: seq<Segment>, edge: u32, sent: u16)
    requires q != []
    ensures Reduces(q, edge, [q[0].(sent := sent)] + q[1..], edge, 0)
  {
    hide Key, FirstMissing, Overlaps;
    var r := [q[0].(sent := sent)] + q[1..];
    SameKey(q[0], sent, edge);
    MarkedOverlaps(q, edge, r);
    MarkedOverlaps(r, edge, q);
    forall n: nat | FirstMissing(r, edge, n) ensures FirstMissing(q, edge, 0 + n) {
      MarkedMissing(q, edge, r, n);
    }
  }

  lemma SameKey(s: Segment, sent: u16, edge: u32)
    ensures Key(s.(sent := sent), edge) == Key(s, edge)
  {
  }

  predicate SamePlaces(q: seq<Segment>, edge: u32, r: seq<Segment>) {
    |r| == |q| && forall i :: 0 <= i < |q| ==> Key(r[i], edge) == Key(q[i], edge) && r[i].data == q[i].data
  }

  lemma MarkedOverlaps(q: seq<Segment>, edge: u32, r: seq<Segment>)
    requires SamePlaces(q, edge, r)
    ensures Overlaps(q, edge) ==> Overlaps(r, edge)
  {
    hide Key;
    if Overlaps(q, edge) {
      var i: nat :| OverlapsAt(q, edge, i);
      assert OverlapsAt(r, edge, i);
    }
  }

  lemma MarkedCovered(q: seq<Segment>, edge: u32, r: seq<Segment>, k: nat)
    requires SamePlaces(q, edge, r)
    ensures Covered(q, edge, k) <==> Covered(r, edge, k)
  {
    hide Key;
    if Covered(q, edge, k) {
      var i :| 0 <= i < |q| && Covers(q[i], edge, k);
      assert Covers(r[i], edge, k);
    }
    if Covered(r, edge, k) {
      var i :| 0 <= i < |r| && Covers(r[i], edge, k);
      assert Covers(q[i], edge, k);
    }
  }

  lemma MarkedMissing(q: seq<Segment>, edge: u32, r: seq<Segment>, n: nat)
    requires SamePlaces(q, edge, r) && FirstMissing(r, edge, n)
    ensures FirstMissing(q, edge, n)
  {
    hide Key, Covered, SamePlaces;
    MarkedCovered(q, edge, r, n);
    forall i: nat | i < n ensures Covered(q, edge, i) {
      MarkedCovered(q, edge, r, i);
    }
  }

  lemma ReducesPopped(q: seq<Segment>, base: int, at: nat, stream: seq<u8>)
    requires q != [] && q[0].seqno == Wrap(base + at) && Held(q, Wrap(base + at), at, stream)
    ensures Reduces(q, Wrap(base + at), q[1..], Wrap(base + at + |q[0].data|), |q[0].data|)
  {
    hide Held, Wrap, Overlaps, FirstMissing, StartsBehind, Shifted;
    var edge, edge' := Wrap(base + at), Wrap(base + at + |q[0].data|);
    PopShifts(q, base, at, stream);
    ShiftedOverlaps(q, edge, q[1..], edge');
    AtEdge(q, edge);
    forall n: nat | FirstMissing(q[1..], edge', n) ensures FirstMissing(q, edge, |q[0].data| + n) {
      ShiftedMissing(q, edge, q[1..], edge', n);
    }
  }

  lemma ReducesOn(q: seq<Segment>, edge: u32, t: seq<Segment>, edge': u32, a: nat, r: seq<Segment>, edge'': u32, b: nat)
    requires Reduces(q, edge, t, edge', a) && Reduces(t, edge', r, edge'', b)
    ensures Reduces(q, edge, r, edge'', a + b)
  {
    hide Overlaps, FirstMissing, StartsBehind;
    forall n: nat | FirstMissing(r, edge'', n) ensures FirstMissing(q, edge, a + b + n) {
      assert FirstMissing(t, edge', b + n);
      assert a + (b + n) == a + b + n;
    }
  }

  /** The socket takes all of the first segment. */
  predicate TakesFirst(q: seq<Segment>, edge: u32, buffer: BufferSize, sends: seq<SendResult>) {
    q != [] && q[0].seqno == edge ==>
      Fits(q[0], buffer) && sends != [] && sends[0].Sent? && sends[0].n >= |q[0].data|
  }

  predicate NoneBroken(sends: seq<SendResult>) {
    forall s <- sends :: !s.Broken?
  }

  /** d is what a pass leaves of q after the edge moved on. */
  ghost predicate Passed(d: Drained, q: seq<Segment>, base: int, at: nat, moved: nat, stream: seq<u8>) {
    && Advanced(d, base, at + Partial(q), at + moved, stream)
    && Reduces(q, Wrap(base + at), d.rest, Wrap(base + at + moved), moved)
    && SentWithin(d.rest) && |d.rest| <= |q|
  }

  lemma PassedNothing(q: seq<Segment>, base: int, at: nat, broken: bool, stream: seq<u8>)
    requires Held(q, Wrap(base + at), at, stream) && at + Partial(q) <= |stream| && SentWithin(q)
    ensures Passed(Drained(q, Wrap(base + at), [], false, broken), q, base, at, 0, stream)
  {
    hide Held, Reduces;
    StopAdvances(q, base, at, broken, stream);
    ReducesToItself(q, Wrap(base + at));
  }

  lemma PassedPart(q: seq<Segment>, base: int, at: nat, n: nat, stream: seq<u8>)
    requires q != [] && q[0].seqno == Wrap(base + at) && Held(q, Wrap(base + at), at, stream) && SentWithin(q)
    requires q[0].sent + n <= |q[0].data|
    ensures var d := Drained([q[0].(sent := q[0].sent + n)] + q[1..], Wrap(base + at),
                             q[0].data[q[0].sent..q[0].sent + n], true, false);
            Passed(d, q, base, at, 0, stream)
  {
    hide Held, Reduces;
    PartialAdvances(q, base, at, n, stream);
    ReducesMarked(q, Wrap(base + at), q[0].sent + n);
    assert forall s <- q[1..] :: s in q;
  }

  lemma PassedFirst(q: seq<Segment>, d: Drained, base: int, at: nat, moved: nat, stream: seq<u8>)
    requires q != [] && q[0].seqno == Wrap(base + at) && Held(q, Wrap(base + at), at, stream)
    requires q[0].sent <= |q[0].data| && Partial(q[1..]) == 0
    requires Passed(d, q[1..], base, at + |q[0].data|, moved, stream)
    ensures Passed(d.(accepted := q[0].data[q[0].sent..] + d.accepted, fwd := true), q, base, at,
                   |q[0].data| + moved, stream)
  {
    hide Held, Reduces, SentWithin, Advanced, Wrap;
    var len := |q[0].data|;
    PopHolds(q, base, at, stream);
    PopAdvances(q, d, base, at, at + len + moved, stream);
    ReducesPopped(q, base, at, stream);
    assert base + (at + len) == base + at + len && base + (at + len) + moved == base + at + (len + moved);
    ReducesOn(q, Wrap(base + at), q[1..], Wrap(base + at + len), len, d.rest, Wrap(base + at + (len + moved)), moved);
  }

  /** Whatever is sent, what is left is a reduction of what was queued. */
  lemma {:induction false} DrainReduces(q: seq<Segment>, base: int, at: nat, buffer: BufferSize,
                                        sends: seq<SendResult>, stream: seq<u8>) returns (moved: nat)
    requires Held(q, Wrap(base + at), at, stream) && at + Partial(q) <= |stream| && SentWithin(q)
    ensures Passed(Drain(q, Wrap(base + at), buffer, sends), q, base, at, moved, stream)
    decreases |q|
  {
    hide Held, Passed, Wrap, Advanced, Reduces;
    moved := 0;
    if q == [] || q[0].seqno != Wrap(base + at) || !Fits(q[0], buffer) || sends == [] || !sends[0].Sent? {
      PassedNothing(q, base, at, false, stream);
      PassedNothing(q, base, at, true, stream);
    } else {
      assert q[0] in q;
      var n := Taken(q[0], sends[0].n);
      if q[0].sent + n == |q[0].data| {
        var len := |q[0].data|;
        PopHolds(q, base, at, stream);
        WrapAdd(base + at, len);
        assert base + (at + len) == base + at + len;
        assert forall s <- q[1..] :: s in q;
        var m := DrainReduces(q[1..], base, at + len, buffer - n, sends[1..], stream);
        PassedFirst(q, Drain(q[1..], Wrap(base + at + len), buffer - n, sends[1..]), base, at, m, stream);
        moved := len + m;
      } else {
        PassedPart(q, base, at, n, stream);
      }
    }
  }

  lemma DrainShrinks(q: seq<Segment>, edge: u32, buffer: BufferSize, sends: seq<SendResult>)
    requires SentWithin(q) && TakesFirst(q, edge, buffer, sends)
    ensures var d := Drain(q, edge, buffer, sends);
            if q != [] && q[0].seqno == edge then |d.rest| < |q| else d.rest == q && d.accepted == []
  {
    if q != [] && q[0].seqno == edge {
      assert q[0] in q;
      DrainNoLonger(q[1..], Wrap(q[0].seqno + |q[0].data|), buffer - Taken(q[0], sends[0].n), sends[1..]);
    }
  }

  lemma {:induction false} DrainNoLonger(q: seq<Segment>, edge: u32, buffer: BufferSize, sends: seq<SendResult>)
    ensures |Drain(q, edge, buffer, sends).rest| <= |q|
    decreases |q|
  {
    if q != [] && q[0].seqno == edge && Fits(q[0], buffer) && sends != [] && sends[0].Sent? {
      var n := Taken(q[0], sends[0].n);
      if q[0].sent + n == |q[0].data| {
        DrainNoLonger(q[1..], Wrap(q[0].seqno + |q[0].data|), buffer - n, sends[1..]);
      }
    }
  }

  lemma {:induction false} DrainUnbroken(q: seq<Segment>, edge: u32, buffer: BufferSize, sends: seq<SendResult>)
    requires NoneBroken(sends)
    ensures !Drain(q, edge, buffer, sends).broken
    decreases |q|
  {
    if q != [] && q[0].seqno == edge && Fits(q[0], buffer) && sends != [] {
      assert sends[0] in sends;
      if sends[0].Sent? {
        var n := Taken(q[0], sends[0].n);
        if q[0].sent + n == |q[0].data| {
          DrainUnbroken(q[1..], Wrap(q[0].seqno + |q[0].data|), buffer - n, sends[1..]);
        }
      }
    }
  }

  // ---- Turns of the event loop ----

  /** A connected session with an open socket, none of whose segments overlap where they touch. */
  ghost predicate Ready(m: Machine, stream: seq<u8>) {
    && Upstream(m, stream) && m.t.open && m.log.synIn == 1 && SentWithin(m.t.forward)
    && !Behind(m) && !Overlaps(m.t.forward, Edge(m))
  }

  /** The socket is writable, has room for the first segment and takes it. */
  predicate Turn(m: Machine, e: Event) {
    && e.FromSocket? && !e.e.err && e.e.writable && !e.e.readable && NoneBroken(e.e.sends)
    && TakesFirst(m.t.forward, m.t.remoteSeq, ReceiveBuffer(true, e.e.before), e.e.sends)
  }

  predicate Turns(m: Machine, es: seq<Event>)
    decreases |es|
  {
    es != [] ==> Turn(m, es[0]) && Turns(Step(m, es[0]), es[1..])
  }

  /** b has forwarded moved bytes more than a, and what it still queues reduces what a queued. */
  ghost predicate Progress(a: Machine, b: Machine, moved: nat) {
    && Forwarded(b) == Forwarded(a) + moved
    && Reduces(a.t.forward, Edge(a), b.t.forward, Edge(b), moved)
    && (if a.t.forward != [] && a.t.forward[0].seqno == Edge(a) then |b.t.forward| < |a.t.forward|
        else b.t.forward == a.t.forward && moved == 0)
  }

  lemma ReadyFacts(m: Machine, stream: seq<u8>)
    requires Ready(m, stream)
    ensures !m.t.state.Listen? && Forwarded(m) >= 0 && Held(m.t.forward, Edge(m), Forwarded(m), stream)
    ensures m.log.accepted <= stream
    ensures m.t.forward != [] ==> m.t.remoteSeq == Edge(m)
  {
    hide Held, Overlaps, SentWithin;
  }

  lemma ForwardProgress(m: Machine, k: Kernel, sends: seq<SendResult>, stream: seq<u8>) returns (moved: nat)
    requires Ready(m, stream) && TakesFirst(m.t.forward, m.t.remoteSeq, ReceiveBuffer(true, k), sends)
    ensures var r := AfterDrain(m, Drain(m.t.forward, m.t.remoteSeq, ReceiveBuffer(true, k), sends));
            Progress(m, r, moved) && SentWithin(r.t.forward)
  {
    hide Held, Overlaps, SentWithin, TakesFirst, Drain, Reduces, Wrap, Upstream, Behind;
    ReadyFacts(m, stream);
    var q, at, buffer := m.t.forward, Forwarded(m), ReceiveBuffer(true, k);
    if q == [] {
      EmptyDrain(m.t.remoteSeq, buffer, sends);
      ReducesToItself(q, Edge(m));
      assert m.log.accepted + [] == m.log.accepted;
      moved := 0;
    } else {
      moved := DrainReduces(q, Base(m.t), at, buffer, sends, stream);
      DrainShrinks(q, Edge(m), buffer, sends);
      var d := Drain(q, Edge(m), buffer, sends);
      assert Base(m.t) + (at + moved) == Base(m.t) + at + moved;
      if q[0].seqno != Edge(m) {
        HeadUnsent(q, Edge(m), at, stream);
      }
    }
  }

  lemma EmptyDrain(remote: u32, buffer: BufferSize, sends: seq<SendResult>)
    ensures Drain([], remote, buffer, sends) == Drained([], remote, [], false, false)
  {
  }

  lemma AcknowledgeKeeps(m: Machine, fwd: bool, k: Kernel, now: int, ok: bool)
    ensures var r := Acknowledge(m, fwd, k, now, ok);
            && r.t.forward == m.t.forward && r.t.remoteStart == m.t.remoteStart && r.t.open == m.t.open
            && r.log.accepted == m.log.accepted && r.log.synIn == m.log.synIn
  {
    hide ReceiveWindow, Outgoing;
  }

  lemma TurnIs(m: Machine, e: Event)
    requires Turn(m, e) && m.t.open && !m.t.state.Listen?
    ensures var d := Drain(m.t.forward, m.t.remoteSeq, ReceiveBuffer(true, e.e.before), e.e.sends);
            Step(m, e) == Acknowledge(AfterDrain(m, d), d.fwd, e.e.after, e.e.now, e.e.ackOk)
  {
    hide Drain, Acknowledge, TakesFirst, Fetch;
    DrainUnbroken(m.t.forward, m.t.remoteSeq, ReceiveBuffer(true, e.e.before), e.e.sends);
  }

  lemma TurnDelivers(m: Machine, e: Event, stream: seq<u8>) returns (moved: nat)
    requires Ready(m, stream) && Turn(m, e)
    ensures Ready(Step(m, e), stream) && Progress(m, Step(m, e), moved)
  {
    hide Held, Overlaps, SentWithin, TakesFirst, Drain, Upstream, FirstMissing, Acknowledge, Step;
    ReadyFacts(m, stream);
    TurnIs(m, e);
    moved := ForwardProgress(m, e.e.before, e.e.sends, stream);
    var d := Drain(m.t.forward, m.t.remoteSeq, ReceiveBuffer(true, e.e.before), e.e.sends);
    AcknowledgeKeeps(AfterDrain(m, d), d.fwd, e.e.after, e.e.now, e.e.ackOk);
    StepUpstream(m, e, stream);
  }

  /** m has at least a turn for each queued segment, or none is to be forwarded. */
  predicate Enough(m: Machine, es: seq<Event>) {
    m.t.forward != [] && m.t.forward[0].seqno == Edge(m) ==> |m.t.forward| <= |es|
  }

  lemma AllThere(m: Machine, stream: seq<u8>)
    requires Ready(m, stream) && (m.t.forward != [] ==> m.t.forward[0].seqno != Edge(m))
    ensures FirstMissing(m.t.forward, Edge(m), 0)
    ensures Forwarded(m) <= |stream| && m.log.accepted == stream[..Forwarded(m)]
  {
    hide Held, Overlaps, SentWithin, FirstMissing, Upstream;
    ReadyFacts(m, stream);
    NothingAtEdge(m.t.forward, Edge(m), Forwarded(m), stream);
    HeadUnsent(m.t.forward, Edge(m), Forwarded(m), stream);
  }

  /** However little room there is at a time: after at least as many turns as segments are queued, each with room
      for the first of them, the socket has the stream up to the first byte that was not queued. */
  lemma {:induction false} TurnsDeliver(m: Machine, es: seq<Event>, stream: seq<u8>) returns (n: nat)
    requires Ready(m, stream) && Turns(m, es) && Enough(m, es)
    ensures var r := Run(m, es);
            && Ready(r, stream) && FirstMissing(m.t.forward, Edge(m), n)
            && Forwarded(m) + n <= |stream| && r.log.accepted == stream[..Forwarded(m) + n]
            && (r.t.forward != [] ==> r.t.forward[0].seqno != Edge(r)) && Forwarded(r) == Forwarded(m) + n
    decreases |es|
  {
    hide Step, Upstream, Held, Overlaps, SentWithin, FirstMissing, Turn, Behind, StartsBehind, Forwarded;
    if es == [] {
      AllThere(m, stream);
      n := 0;
    } else {
      var moved := TurnDelivers(m, es[0], stream);
      var rest := TurnsDeliver(Step(m, es[0]), es[1..], stream);
      n := moved + rest;
    }
  }

  /** Everything the client still has to send is queued. */
  ghost predicate AllQueued(m: Machine, stream: seq<u8>) {
    exists n: nat :: FirstMissing(m.t.forward, Edge(m), n) && Forwarded(m) + n == |stream|
  }

  lemma MissingIsOne(q: seq<Segment>, edge: u32, a: nat, b: nat)
    requires FirstMissing(q, edge, a) && FirstMissing(q, edge, b)
    ensures a == b
  {
  }

  lemma NothingBehindTheEnd(m: Machine, stream: seq<u8>)
    requires Ready(m, stream) && Forwarded(m) == |stream|
    requires m.t.forward != [] ==> m.t.forward[0].seqno != Edge(m)
    ensures m.t.forward == []
  {
    hide Overlaps, SentWithin;
    ReadyFacts(m, stream);
    if m.t.forward != [] {
      var s := m.t.forward[0];
      assert s in m.t.forward && Genuine(s, Edge(m), Forwarded(m), stream);
      KeyZero(s, Edge(m));
    }
  }

  /** A session that took the client's FIN in order, with everything in front of it queued: after enough turns
      the socket has the whole stream, and in CLOSE_WAIT the FIN is counted then. */
  lemma WholeStreamArrives(m: Machine, es: seq<Event>, stream: seq<u8>)
    requires Ready(m, stream) && AllQueued(m, stream) && Turns(m, es) && Enough(m, es)
    ensures var r := Run(m, es);
            r.log.accepted == stream && r.t.forward == [] && (r.t.state.CloseWait? ==> r.log.finIn == 1)
  {
    hide Run, Turns, Enough, Upstream, Held, Overlaps, SentWithin, FirstMissing, Behind;
    var n := TurnsDeliver(m, es, stream);
    var whole: nat :| FirstMissing(m.t.forward, Edge(m), whole) && Forwarded(m) + whole == |stream|;
    MissingIsOne(m.t.forward, Edge(m), n, whole);
    NothingBehindTheEnd(Run(m, es), stream);
    UpstreamMeans(Run(m, es), stream);
    assert stream[..|stream|] == stream;
  }
}
