/** What a TCP session reads from its socket, and what it shows of that to the client. */
module TcpReading {
  import opened Words
  import opened Reassembly
  import opened TcpModel

  /** One successful read, and whether it was looked at. */
  datatype Chunk = Chunk(b: Payload, filter: Filter)

  function AllRead(chunks: seq<Chunk>): seq<u8> {
    if chunks == [] then [] else chunks[0].b + AllRead(chunks[1..])
  }

  function AllShown(chunks: seq<Chunk>): (r: seq<u8>)
    ensures |r| == |AllRead(chunks)|
  {
    if chunks == [] then [] else Shown(chunks[0].b, chunks[0].filter) + AllShown(chunks[1..])
  }

  /** From a to b the given chunks were read. */
  predicate ReadsAfter(a: Machine, b: Machine, chunks: seq<Chunk>) {
    b.log.fetched == a.log.fetched + AllRead(chunks) && b.log.shown == a.log.shown + AllShown(chunks)
  }

  lemma ReadNothing(a: Machine, b: Machine)
    requires b.log.fetched == a.log.fetched && b.log.shown == a.log.shown
    ensures ReadsAfter(a, b, [])
  {
  }

  lemma FetchReadsOnce(m: Machine, recv: RecvResult, filter: Filter, now: int, ok: bool) returns (chunks: seq<Chunk>)
    ensures ReadsAfter(m, Fetch(m, recv, filter, now, ok), chunks)
    ensures forall c <- chunks :: c.filter == filter
  {
    hide SendWindow, WriteRst, TakeEof, WriteOrClose, ReadsAfter, Shown;
    var m1 := m.(t := m.t.(time := now));
    var size := if SendWindow(m.t) > m.t.mss then m.t.mss else SendWindow(m.t);
    chunks := [];
    ClosingReadsNothing(m1, ok);
    if recv.Bytes? {
      var b := if |recv.data| <= size then recv.data else recv.data[..size];
      if b != [] {
        chunks := [Chunk(b, filter)];
        BytesRead(m1, b, filter, ok);
        SameReads(m1, m, Fetch(m, recv, filter, now, ok), chunks);
        return;
      }
    }
    ReadNothing(m, Fetch(m, recv, filter, now, ok));
  }

  lemma SameReads(a: Machine, b: Machine, c: Machine, chunks: seq<Chunk>)
    requires a.log == b.log && ReadsAfter(a, c, chunks)
    ensures ReadsAfter(b, c, chunks)
  {
  }

  lemma ClosingReadsNothing(m: Machine, ok: bool)
    ensures TakeEof(m, ok).log.fetched == m.log.fetched && TakeEof(m, ok).log.shown == m.log.shown
    ensures WriteRst(m, ok).log.fetched == m.log.fetched && WriteRst(m, ok).log.shown == m.log.shown
  {
    hide Outgoing;
  }

  lemma BytesRead(m: Machine, b: Payload, filter: Filter, ok: bool)
    ensures ReadsAfter(m, TakeBytes(m, b, Shown(b, filter), ok), [Chunk(b, filter)])
  {
    hide Outgoing, Shown;
    var chunks := [Chunk(b, filter)];
    var none: seq<Chunk> := [];
    assert chunks[0] == Chunk(b, filter) && chunks[1..] == none;
    assert AllRead(none) == [] && AllShown(none) == [];
    assert AllRead(chunks) == b + AllRead(none) == b;
    assert AllShown(chunks) == Shown(b, filter) + AllShown(none) == Shown(b, filter);
  }

  lemma TransferReads(m: Machine, e: SocketEvent) returns (chunks: seq<Chunk>)
    ensures ReadsAfter(m, Transfer(m, e), chunks)
    ensures forall c <- chunks :: c.filter == e.filter
  {
    hide ReadsAfter, Fetch, SendWindow;
    var (m1, fwd) := if e.writable then Forward(m, e.before, e.sends, e.rstOk) else (m, false);
    var m2 := Acknowledge(m1, fwd, e.after, e.now, e.ackOk);
    ForwardReadsNothing(m, e.before, e.sends, e.rstOk);
    AcknowledgeReadsNothing(m1, fwd, e.after, e.now, e.ackOk);
    chunks := [];
    if MayFetch(m2.t, e.readable) {
      chunks := FetchReadsOnce(m2, e.recv, e.filter, e.now, e.dataOk);
      SameBefore(m, m2, Transfer(m, e), chunks);
    } else {
      ReadNothing(m, m2);
    }
  }

  lemma SameBefore(a: Machine, b: Machine, c: Machine, chunks: seq<Chunk>)
    requires b.log.fetched == a.log.fetched && b.log.shown == a.log.shown && ReadsAfter(b, c, chunks)
    ensures ReadsAfter(a, c, chunks)
  {
  }

  lemma ForwardReadsNothing(m: Machine, k: Kernel, sends: seq<SendResult>, ok: bool)
    ensures Forward(m, k, sends, ok).0.log.fetched == m.log.fetched
    ensures Forward(m, k, sends, ok).0.log.shown == m.log.shown
  {
    hide Drain, Outgoing;
  }

  lemma AcknowledgeReadsNothing(m: Machine, fwd: bool, k: Kernel, now: int, ok: bool)
    ensures Acknowledge(m, fwd, k, now, ok).log.fetched == m.log.fetched
    ensures Acknowledge(m, fwd, k, now, ok).log.shown == m.log.shown
  {
    hide ReceiveWindow, Outgoing;
  }

  /** Only socket events read. */
  lemma OthersReadNothing(m: Machine, e: Event)
    requires !e.FromSocket?
    ensures Step(m, e).log.fetched == m.log.fetched && Step(m, e).log.shown == m.log.shown
  {
    hide WriteRst, HandleTcp, MonitorTcp;
    match e
    case FromTun(p, now, ok) => HandleTcpReadsNothing(m, p, now, ok);
    case Monitor(ms, k, ctlOk, ok) => MonitorReadsNothing(m, ms, k, ctlOk, ok);
    case Sweep(now, timeout, ok) => ClosingReadsNothing(m, ok);
    case Disallow(ok) => ClosingReadsNothing(m, ok);
  }

  lemma HandleTcpReadsNothing(m: Machine, p: Packet, now: int, ok: bool)
    ensures var r := HandleTcp(m, p, now, ok); r.log.fetched == m.log.fetched && r.log.shown == m.log.shown
  {
    hide WriteRst, QueueTcp, Shl32, TakeFlags;
    var m1 := Refresh(m, p, now);
    ClosingReadsNothing(m, ok);
    ClosingReadsNothing(m1, ok);
    TakeFlagsReadsNothing(Enqueue(m1, p), p, ok);
  }

  lemma TakeFlagsReadsNothing(m: Machine, p: Packet, ok: bool)
    ensures TakeFlags(m, p, ok).log.fetched == m.log.fetched && TakeFlags(m, p, ok).log.shown == m.log.shown
  {
    hide WriteRst, Outgoing;
    ClosingReadsNothing(m, ok);
  }

  lemma MonitorReadsNothing(m: Machine, ms: int, k: Kernel, ctlOk: bool, ok: bool)
    ensures var r := MonitorTcp(m, ms, k, ctlOk, ok).0;
            r.log.fetched == m.log.fetched && r.log.shown == m.log.shown
  {
    hide SendWindow, CanForward, Outgoing;
  }

  lemma StepReads(m: Machine, e: Event) returns (chunks: seq<Chunk>)
    ensures ReadsAfter(m, Step(m, e), chunks)
    ensures forall c <- chunks :: e.FromSocket? && c.filter == e.e.filter
  {
    hide ReadsAfter, Transfer, WriteRst, Connected;
    chunks := [];
    if !e.FromSocket? {
      OthersReadNothing(m, e);
    } else if m.t.open && !e.e.err {
      ConnectedReadsNothing(m, e.e.now, e.e.ackOk);
      if !m.t.state.Listen? {
        chunks := TransferReads(m, e.e);
        return;
      }
    } else {
      ClosingReadsNothing(m.(t := m.t.(time := e.e.now)), e.e.rstOk);
    }
    ReadNothing(m, Step(m, e));
  }

  lemma ConnectedReadsNothing(m: Machine, now: int, ok: bool)
    ensures Connected(m, now, ok).log.fetched == m.log.fetched && Connected(m, now, ok).log.shown == m.log.shown
  {
    hide Outgoing;
  }

  lemma {:induction false} ReadsAppend(a: seq<Chunk>, b: seq<Chunk>)
    ensures AllRead(a + b) == AllRead(a) + AllRead(b) && AllShown(a + b) == AllShown(a) + AllShown(b)
  {
    hide Shown;
    if a == [] {
      assert a + b == b;
    } else {
      assert (a + b)[1..] == a[1..] + b;
      ReadsAppend(a[1..], b);
    }
  }

  /** Every chunk of a run comes from one of its socket events. */
  ghost predicate ReadIn(c: Chunk, es: seq<Event>) {
    exists e :: e in es && e.FromSocket? && c.filter == e.e.filter
  }

  lemma ReadsCompose(a: Machine, b: Machine, c: Machine, first: seq<Chunk>, rest: seq<Chunk>)
    requires ReadsAfter(a, b, first) && ReadsAfter(b, c, rest)
    ensures ReadsAfter(a, c, first + rest)
  {
    hide AllRead, AllShown;
    ReadsAppend(first, rest);
  }

  lemma ReadInHere(c: Chunk, es: seq<Event>)
    requires es != []
    ensures es[0].FromSocket? && c.filter == es[0].e.filter ==> ReadIn(c, es)
    ensures ReadIn(c, es[1..]) ==> ReadIn(c, es)
  {
    assert es[0] in es;
  }

  lemma {:induction false} RunReads(m: Machine, es: seq<Event>) returns (chunks: seq<Chunk>)
    ensures ReadsAfter(m, Run(m, es), chunks)
    ensures forall c <- chunks :: ReadIn(c, es)
    decreases |es|
  {
    hide Step, ReadsAfter, ReadIn, AllRead, AllShown;
    if es == [] {
      chunks := [];
      ReadNothing(m, m);
    } else {
      var m1 := Step(m, es[0]);
      var first := StepReads(m, es[0]);
      var rest := RunReads(m1, es[1..]);
      chunks := first + rest;
      ReadsCompose(m, m1, Run(m, es), first, rest);
      forall c | c in chunks
        ensures ReadIn(c, es)
      {
        ReadInHere(c, es);
      }
    }
  }

  lemma {:induction false} UnfilteredIsShown(chunks: seq<Chunk>)
    requires forall c <- chunks :: c.filter.Unfiltered?
    ensures AllShown(chunks) == AllRead(chunks)
  {
    if chunks != [] {
      assert chunks[0] in chunks;
      UnfilteredIsShown(chunks[1..]);
    }
  }
}
