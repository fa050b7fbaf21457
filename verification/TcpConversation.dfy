/** Whole conversations: the handshake, a request, an answer, and a close from either side.

    The client's packets, the bytes and all numbers are arbitrary; the kernel has room, the writes to the tun device
    succeed, and each side gets through what it sends at once. */
module TcpConversation {
  import opened Words
  import opened Serial
  import opened Reassembly
  import opened TcpModel
  import opened TcpExamples

  /** What does not change in a conversation. */
  datatype Terms = Terms(mss: u16, ws: u8, k: Kernel, filter: Filter)

  // ---- What is said ----

  /** A packet of the session, but for its window. */
  function Says(seqno: int, ackno: int, data: Payload, syn: bool, fin: bool): Packet {
    Packet(Wrap(seqno), Wrap(ackno), 0, data, false, true, false, false, syn, fin)
  }

  /** Packets but for their windows. */
  function Heading(out: seq<Packet>): (r: seq<Packet>)
    ensures |r| == |out|
  {
    if out == [] then [] else [out[0].(window := 0)] + Heading(out[1..])
  }

  lemma {:induction false} HeadingAdds(a: seq<Packet>, p: Packet)
    ensures Heading(a + [p]) == Heading(a) + [p.(window := 0)]
  {
    if a == [] {
      assert [] + [p] == [p];
    } else {
      assert (a + [p])[1..] == a[1..] + [p];
      HeadingAdds(a[1..], p);
    }
  }

  /** What the client says: an acknowledgement of l, data from c on, or its FIN. */
  function Answer(c: int, l: int, window: u16, data: Payload, psh: bool, fin: bool): Packet {
    Packet(Wrap(c), Wrap(l), window, data, false, true, psh, false, false, fin)
  }

  function Heard(p: Packet, now: int): Event {
    FromTun(p, now, true)
  }

  /** The socket can be written to, and takes what it is offered in one piece. */
  function Takes(x: Terms, n: nat, now: int): Event {
    FromSocket(SocketEvent(false, false, true, now, x.k, [Sent(n)], x.k, RecvError(true), x.filter, true, true, true))
  }

  /** The socket delivers b; nothing is the end of the server's stream. */
  function Delivers(x: Terms, b: seq<u8>, now: int): Event {
    FromSocket(SocketEvent(false, true, false, now, x.k, [], x.k, Bytes(b), x.filter, true, true, true))
  }

  // ---- Where the session stands ----

  /** The window that is offered while nothing waits to be forwarded. */
  function Offered(x: Terms): u32 {
    var room := ReceiveBuffer(true, x.k);
    var max := Shl32(0xFFFF, x.ws);
    if room > max then max else room
  }

  /** All of the client's numbers below c are taken, and it has acknowledged none or all of the session's below l. */
  predicate Stands(m: Machine, x: Terms, s: State, c: int, l: int) {
    && m.t.state == s && m.t.remoteSeq == Wrap(c) && m.t.localSeq == Wrap(l) && m.t.forward == []
    && m.t.recvWindow == Offered(x) && m.t.mss == x.mss && m.t.recvScale == x.ws && m.t.sendScale == x.ws
  }

  /** The books, and all that was written, but for the windows. */
  predicate Books(m: Machine, d: seq<u8>, b: seq<u8>, shown: seq<u8>, says: seq<Packet>) {
    && m.log.accepted == d && m.log.fetched == b && m.log.shown == shown && Heading(m.log.out) == says
    && m.t.sent == |d| && m.t.received == |b| && m.log.usage == []
  }

  // ---- Steps ----

  lemma Opens(p: Packet, isn: u32, x: Terms, now: int)
    requires p.data == []
    ensures var m := NewSession(p, x.mss, x.ws, isn, now, x.k);
            Stands(m, x, Listen, p.seqno, isn) && m.t.open && Books(m, [], [], [], [])
  {
    hide Shl32, ReceiveBuffer;
  }

  lemma Connects(m: Machine, x: Terms, c: int, l: int, n: nat, now: int)
    requires Stands(m, x, Listen, c, l) && m.t.open && Books(m, [], [], [], [])
    ensures var r := Step(m, Takes(x, n, now));
            && Stands(r, x, SynRecv, c + 1, l + 1) && r.t.open
            && Books(r, [], [], [], [Says(l, c + 1, [], true, false)])
  {
    hide Shl32, ReceiveBuffer, Wrap, Pow2, Offered;
    WrapAdd(c, 1);
    WrapAdd(l, 1);
  }

  /** The client acknowledges all that was sent: it opens the connection, or ends it, or goes on. */
  lemma Confirms(m: Machine, x: Terms, s: State, c: int, l: int, window: u16, now: int,
                 d: seq<u8>, b: seq<u8>, shown: seq<u8>, says: seq<Packet>)
    requires s.SynRecv? || s.Established? || s.LastAck?
    requires Stands(m, x, s, c, l) && Books(m, d, b, shown, says)
    ensures var r := Step(m, Heard(Answer(c, l, window, [], false, false), now));
            var s' := match s case SynRecv => Established case LastAck => Closing case _ => s;
            && Stands(r, x, s', c, l) && Books(r, d, b, shown, says) && r.t.open == m.t.open
            && r.t.acked == r.t.localSeq && r.t.unconfirmed == 0 && r.t.sendWindow == Shl32(window, x.ws)
  {
    hide Shl32, Wrap, Offered;
  }

  /** A request arrives and is queued. */
  lemma Asks(m: Machine, x: Terms, c: int, l: int, window: u16, d: Payload, psh: bool, now: int)
    requires Stands(m, x, Established, c, l) && m.t.open && d != []
    ensures var r := Step(m, Heard(Answer(c, l, window, d, psh, false), now));
            && Stands(r.(t := r.t.(forward := [])), x, Established, c, l) && r.log == m.log && r.t.sent == m.t.sent
            && r.t.forward == [Segment(Wrap(c), d, 0, psh)] && r.t.received == m.t.received
            && r.t.acked == r.t.localSeq && r.t.open && r.t.unconfirmed == 0
            && r.t.sendWindow == Shl32(window, x.ws)
  {
    hide Shl32, Wrap, Offered;
  }

  lemma Drains(q: seq<Segment>, c: int, d: Payload, psh: bool, room: BufferSize, n: nat)
    requires d != [] && q == [Segment(Wrap(c), d, 0, psh)] && |d| < room && |d| <= n
    ensures Drain(q, Wrap(c), room, [Sent(n)]) == Drained([], Wrap(c + |d|), d, true, false)
  {
    WrapAdd(c, |d|);
    assert [Sent(n)][1..] == [] && q[1..] == [];
    assert d[0..] == d && d + [] == d;
  }

  /** The request is passed on in one piece and acknowledged. */
  lemma Forwards(m: Machine, x: Terms, c: int, l: int, d: Payload, psh: bool, n: nat, now: int, says: seq<Packet>)
    requires m.t.forward == [Segment(Wrap(c), d, 0, psh)] && m.t.open
    requires Stands(m.(t := m.t.(forward := [])), x, Established, c, l)
    requires d != [] && |d| < ReceiveBuffer(true, x.k) && |d| <= n
    requires Books(m, [], [], [], says)
    ensures var r := Step(m, Takes(x, n, now));
            && Stands(r, x, Established, c + |d|, l) && Books(r, d, [], [], says + [Says(l, c + |d|, [], false, false)])
            && r.t.open && r.t.acked == m.t.acked && r.t.unconfirmed == m.t.unconfirmed
            && r.t.sendWindow == m.t.sendWindow && r.t.localSeq == m.t.localSeq
  {
    hide Shl32, ReceiveBuffer, Drain, Pow2, Wrap, Heading;
    Drains(m.t.forward, c, d, psh, ReceiveBuffer(true, x.k), n);
    assert [] + d == d;
    HeadingAddsOne(m.log.out);
    EmptyQueue();
  }

  lemma EmptyQueue()
    ensures Wrap(ToForward([])) == 0
  {
  }

  lemma HeadingAddsOne(a: seq<Packet>)
    ensures forall p: Packet :: Heading(a + [p]) == Heading(a) + [p.(window := 0)]
  {
    forall p: Packet ensures Heading(a + [p]) == Heading(a) + [p.(window := 0)] {
      HeadingAdds(a, p);
    }
  }

  /** The answer is read in one piece, looked at, and written to the client. */
  lemma Replies(m: Machine, x: Terms, c: int, l: int, b: Payload, now: int, d: seq<u8>, says: seq<Packet>)
    requires Stands(m, x, Established, c, l) && m.t.open && Books(m, d, [], [], says)
    requires b != [] && |b| <= m.t.mss && |b| <= SendWindow(m.t)
    ensures var r := Step(m, Delivers(x, b, now));
            && Stands(r, x, Established, c, l + |b|) && r.t.open
            && Books(r, d, b, Shown(b, x.filter), says + [Says(l, c, Shown(b, x.filter), false, false)])
  {
    hide Shl32, ReceiveBuffer, SendWindow, Pow2, Wrap, Shown, Heading, CompareU32;
    HeadingAddsOne(m.log.out);
    EmptyQueue();
    WrapAdd(l, |b|);
    assert [] + b == b && [] + Shown(b, x.filter) == Shown(b, x.filter);
  }

  /** The server's stream has ended: the session sends its FIN. */
  lemma Ends(m: Machine, x: Terms, s: State, c: int, l: int, now: int,
             d: seq<u8>, b: seq<u8>, shown: seq<u8>, says: seq<Packet>)
    requires s.Established? || s.CloseWait?
    requires Stands(m, x, s, c, l) && m.t.open && Books(m, d, b, shown, says) && SendWindow(m.t) > 0
    ensures var r := Step(m, Delivers(x, [], now));
            && Stands(r, x, if s.Established? then FinWait1 else LastAck, c, l + 1) && !r.t.open
            && Books(r, d, b, shown, says + [Says(l, c, [], false, true)])
  {
    hide Shl32, ReceiveBuffer, SendWindow, Pow2, Wrap, Heading, CompareU32;
    HeadingAddsOne(m.log.out);
    EmptyQueue();
    WrapAdd(l, 1);
  }

  /** The client's FIN is counted and acknowledged. */
  lemma Finishes(m: Machine, x: Terms, s: State, c: int, l: int, window: u16, now: int,
                 d: seq<u8>, b: seq<u8>, shown: seq<u8>, says: seq<Packet>)
    requires s.Established? || s.FinWait1?
    requires Stands(m, x, s, c, l) && Books(m, d, b, shown, says)
    ensures var r := Step(m, Heard(Answer(c, l, window, [], false, true), now));
            && Stands(r, x, if s.Established? then CloseWait else Close, c + 1, l) && r.t.open == m.t.open
            && Books(r, d, b, shown, says + [Says(l, c + 1, [], false, false)])
            && r.t.acked == m.t.acked && r.t.unconfirmed == 0 && r.t.sendWindow == Shl32(window, x.ws)
  {
    hide Shl32, Pow2, Wrap, Offered, Heading, CompareU32;
    HeadingAddsOne(m.log.out);
    WrapAdd(c, 1);
  }

  /** The sweep closes the socket, reports both byte counts once, and ends the session. */
  lemma Sweeps(m: Machine, x: Terms, s: State, c: int, l: int, now: int, timeout: int,
               d: seq<u8>, b: seq<u8>, shown: seq<u8>, says: seq<Packet>)
    requires s.Closing? || s.Close?
    requires Stands(m, x, s, c, l) && Books(m, d, b, shown, says) && d != []
    ensures var r := Step(m, Sweep(now, timeout, true));
            && Stands(r, x, Close, c, l) && (s.Closing? || !m.t.open ==> !r.t.open)
            && r.log == m.log.(usage := [Usage(|d|, |b|)]) && r.t.sent == r.t.received == 0
  {
    hide Shl32, ReceiveBuffer, Wrap, Pow2, Heading;
  }

  // ---- The conversation ----

  /** The room for sending n bytes at once. */
  lemma RoomFor(t: Tcp, n: nat)
    requires t.acked == t.localSeq && t.unconfirmed == 0 && t.sendWindow > 40 + n
    ensures SendWindow(t) > n
  {
  }

  /** A client with the SYN p asks for d, and the server answers b; at holds the times. */
  function Exchange(x: Terms, p: Packet, isn: u32, window: u16, d: Payload, psh: bool, b: Payload, at: seq<int>)
    : seq<Event>
    requires |at| >= 6
  {
    var c, l := p.seqno + 1, isn + 1;
    [Takes(x, 0, at[0]), Heard(Answer(c, l, window, [], false, false), at[1]),
     Heard(Answer(c, l, window, d, psh, false), at[2])]
    + [Takes(x, |d|, at[3]), Delivers(x, b, at[4]),
       Heard(Answer(c + |d|, l + |b|, window, [], false, false), at[5])]
  }

  /** The kernel and the client have room for the exchange. */
  predicate Roomy(x: Terms, window: u16, d: Payload, b: Payload) {
    && 0 < |d| < ReceiveBuffer(true, x.k) && 0 < |b| <= x.mss && Shl32(window, x.ws) > 40 + |b|
  }

  /** The session's side of the exchange. */
  function Exchanged(x: Terms, p: Packet, isn: u32, d: Payload, b: Payload): seq<Packet> {
    var c, l := p.seqno + 1, isn + 1;
    [Says(isn, c, [], true, false), Says(l, c + |d|, [], false, false),
     Says(l, c + |d|, Shown(b, x.filter), false, false)]
  }

  lemma Talks(x: Terms, p: Packet, isn: u32, start: int, window: u16, d: Payload, psh: bool, b: Payload, at: seq<int>)
    requires p.data == [] && |at| >= 6 && Roomy(x, window, d, b)
    ensures var m := Run(NewSession(p, x.mss, x.ws, isn, start, x.k), Exchange(x, p, isn, window, d, psh, b, at));
            && Stands(m, x, Established, p.seqno + 1 + |d|, isn + 1 + |b|) && m.t.open
            && m.t.acked == m.t.localSeq && m.t.unconfirmed == 0 && m.t.sendWindow == Shl32(window, x.ws)
            && Books(m, d, b, Shown(b, x.filter), Exchanged(x, p, isn, d, b))
  {
    hide Step, Stands, Books, ReceiveBuffer, Shl32, NewSession, Wrap, Shown, Says, SendWindow, Answer, Takes, Delivers;
    var c, l := p.seqno + 1, isn + 1;
    var m0 := NewSession(p, x.mss, x.ws, isn, start, x.k);
    var es := Exchange(x, p, isn, window, d, psh, b, at);
    var m1 := Step(m0, es[0]);
    var m2 := Step(m1, es[1]);
    var m3 := Step(m2, es[2]);
    var m4 := Step(m3, es[3]);
    var m5 := Step(m4, es[4]);
    var said := [Says(isn, c, [], true, false)];
    Opens(p, isn, x, start);
    Connects(m0, x, p.seqno, isn, 0, at[0]);
    Confirms(m1, x, SynRecv, c, l, window, at[1], [], [], [], said);
    Asks(m2, x, c, l, window, d, psh, at[2]);
    AsksKeepsBooks(m2, m3, said);
    Forwards(m3, x, c, l, d, psh, |d|, at[3], said);
    Stood(m4, x, Established, c + |d|, l);
    RoomFor(m4.t, |b|);
    Replies(m4, x, c + |d|, l, b, at[4], d, said + [Says(l, c + |d|, [], false, false)]);
    assert said + [Says(l, c + |d|, [], false, false)] + [Says(l, c + |d|, Shown(b, x.filter), false, false)]
           == Exchanged(x, p, isn, d, b);
    Confirms(m5, x, Established, c + |d|, l + |b|, window, at[5], d, b, Shown(b, x.filter), Exchanged(x, p, isn, d, b));
    RunOfThree(m0, es[0], es[1], es[2]);
    RunOfThree(m3, es[3], es[4], es[5]);
    RunsOn(m0, es[..3], es[3..]);
  }

  lemma AsksKeepsBooks(a: Machine, b: Machine, says: seq<Packet>)
    requires Books(a, [], [], [], says) && b.log == a.log && b.t.sent == a.t.sent && b.t.received == a.t.received
    ensures Books(b, [], [], [], says)
  {
  }

  lemma Stood(m: Machine, x: Terms, s: State, c: int, l: int)
    requires Stands(m, x, s, c, l)
    ensures m.t.mss == x.mss
  {
  }

  /** The client closes: it sends its FIN, the server's stream ends, the client acknowledges that, and the sweep comes
      by. */
  function ClientCloses(x: Terms, c: int, l: int, window: u16, at: seq<int>): seq<Event>
    requires |at| >= 4
  {
    [Heard(Answer(c, l, window, [], false, true), at[0]), Delivers(x, [], at[1]),
     Heard(Answer(c + 1, l + 1, window, [], false, false), at[2]), Sweep(at[3], TCP_CLOSE_TIMEOUT, true)]
  }

  /** The server closes: its stream ends, the client sends its FIN too, and the sweep comes by. */
  function ServerCloses(x: Terms, c: int, l: int, window: u16, at: seq<int>): seq<Event>
    requires |at| >= 4
  {
    [Delivers(x, [], at[0]), Heard(Answer(c, l + 1, window, [], false, true), at[1]),
     Sweep(at[2], TCP_CLOSE_TIMEOUT, true)]
  }

  /** m is over: the request was passed on and the answer was shown, whole and once, both were reported once, and these
      are all the packets that were written. */
  predicate Done(m: Machine, d: seq<u8>, b: seq<u8>, shown: seq<u8>, says: seq<Packet>) {
    && m.t.state.Close? && !m.t.open && m.t.forward == [] && m.t.sent == m.t.received == 0
    && m.log.accepted == d && m.log.fetched == b && m.log.shown == shown && Heading(m.log.out) == says
    && m.log.usage == [Usage(|d|, |b|)]
  }

  lemma IsDone(a: Machine, m: Machine, x: Terms, s: State, c: int, l: int, c': int, l': int,
               d: seq<u8>, b: seq<u8>, shown: seq<u8>, says: seq<Packet>)
    requires Stands(a, x, s, c', l') && Books(a, d, b, shown, says)
    requires Stands(m, x, Close, c, l) && !m.t.open && m.log == a.log.(usage := [Usage(|d|, |b|)])
    requires m.t.sent == m.t.received == 0
    ensures Done(m, d, b, shown, says)
  {
  }

  lemma ClosedByClient(m: Machine, x: Terms, c: int, l: int, window: u16, at: seq<int>,
                       d: seq<u8>, b: seq<u8>, shown: seq<u8>, says: seq<Packet>)
    requires |at| >= 4 && Stands(m, x, Established, c, l) && m.t.open && Books(m, d, b, shown, says) && d != []
    requires m.t.acked == m.t.localSeq && Shl32(window, x.ws) > 40
    ensures Done(Run(m, ClientCloses(x, c, l, window, at)), d, b, shown,
                 says + [Says(l, c + 1, [], false, false), Says(l, c + 1, [], false, true)])
  {
    hide Step, Stands, Books, ReceiveBuffer, Shl32, Wrap, Says, SendWindow, Answer, Delivers, Done;
    var es := ClientCloses(x, c, l, window, at);
    var m1 := Step(m, es[0]);
    var m2 := Step(m1, es[1]);
    var m3 := Step(m2, es[2]);
    var says1 := says + [Says(l, c + 1, [], false, false)];
    var says2 := says1 + [Says(l, c + 1, [], false, true)];
    Finishes(m, x, Established, c, l, window, at[0], d, b, shown, says);
    StandAlike(m, m1, x, Established, CloseWait, c, c + 1, l);
    RoomFor(m1.t, 0);
    Ends(m1, x, CloseWait, c + 1, l, at[1], d, b, shown, says1);
    Confirms(m2, x, LastAck, c + 1, l + 1, window, at[2], d, b, shown, says2);
    Sweeps(m3, x, Closing, c + 1, l + 1, at[3], TCP_CLOSE_TIMEOUT, d, b, shown, says2);
    IsDone(m3, Step(m3, es[3]), x, Closing, c + 1, l + 1, c + 1, l + 1, d, b, shown, says2);
    RunOfFour(m, es[0], es[1], es[2], es[3]);
    assert says2 == says + [Says(l, c + 1, [], false, false), Says(l, c + 1, [], false, true)];
  }

  lemma StandAlike(a: Machine, b: Machine, x: Terms, s: State, s': State, c: int, c': int, l: int)
    requires Stands(a, x, s, c, l) && Stands(b, x, s', c', l)
    ensures b.t.localSeq == a.t.localSeq
  {
  }

  lemma ClosedByServer(m: Machine, x: Terms, c: int, l: int, window: u16, at: seq<int>,
                       d: seq<u8>, b: seq<u8>, shown: seq<u8>, says: seq<Packet>)
    requires |at| >= 4 && Stands(m, x, Established, c, l) && m.t.open && Books(m, d, b, shown, says) && d != []
    requires m.t.acked == m.t.localSeq && m.t.unconfirmed == 0 && m.t.sendWindow > 40
    ensures Done(Run(m, ServerCloses(x, c, l, window, at)), d, b, shown,
                 says + [Says(l, c, [], false, true), Says(l + 1, c + 1, [], false, false)])
  {
    hide Step, Stands, Books, ReceiveBuffer, Shl32, Wrap, Says, SendWindow, Answer, Delivers, Done;
    var es := ServerCloses(x, c, l, window, at);
    var m1 := Step(m, es[0]);
    var m2 := Step(m1, es[1]);
    var says1 := says + [Says(l, c, [], false, true)];
    var says2 := says1 + [Says(l + 1, c + 1, [], false, false)];
    RoomFor(m.t, 0);
    Ends(m, x, Established, c, l, at[0], d, b, shown, says);
    Finishes(m1, x, FinWait1, c, l + 1, window, at[1], d, b, shown, says1);
    Sweeps(m2, x, Close, c + 1, l + 1, at[2], TCP_CLOSE_TIMEOUT, d, b, shown, says2);
    IsDone(m2, Step(m2, es[2]), x, Close, c + 1, l + 1, c + 1, l + 1, d, b, shown, says2);
    RunOfThree(m, es[0], es[1], es[2]);
    assert says2 == says + [Says(l, c, [], false, true), Says(l + 1, c + 1, [], false, false)];
  }

  /** From the SYN to the end, whichever side closes first: the request reaches the server and the answer the client,
      whole and once; both are reported once; and the session writes exactly six packets, its SYN, acknowledgements of
      the request and of the client's FIN, the answer and its own FIN, each with the right numbers, and no reset. */
  lemma ConversationCompletes(x: Terms, p: Packet, isn: u32, start: int, window: u16, d: Payload, psh: bool,
                              b: Payload, at: seq<int>, end: seq<int>)
    requires p.data == [] && |at| >= 6 && |end| >= 4 && Roomy(x, window, d, b)
    ensures var c, l := p.seqno + 1 + |d|, isn + 1 + |b|;
            var m := NewSession(p, x.mss, x.ws, isn, start, x.k);
            var talk := Exchange(x, p, isn, window, d, psh, b, at);
            var said := Exchanged(x, p, isn, d, b);
            && Done(Run(m, talk + ClientCloses(x, c, l, window, end)), d, b, Shown(b, x.filter),
                    said + [Says(l, c + 1, [], false, false), Says(l, c + 1, [], false, true)])
            && Done(Run(m, talk + ServerCloses(x, c, l, window, end)), d, b, Shown(b, x.filter),
                    said + [Says(l, c, [], false, true), Says(l + 1, c + 1, [], false, false)])
  {
    hide Run, Stands, Books, ReceiveBuffer, NewSession, Exchange, Exchanged, ClientCloses, ServerCloses, Done;
    hide Shown, Says, Shl32;
    var c, l := p.seqno + 1 + |d|, isn + 1 + |b|;
    var m0 := NewSession(p, x.mss, x.ws, isn, start, x.k);
    var talk := Exchange(x, p, isn, window, d, psh, b, at);
    var said := Exchanged(x, p, isn, d, b);
    var m := Run(m0, talk);
    Talks(x, p, isn, start, window, d, psh, b, at);
    ClosedByClient(m, x, c, l, window, end, d, b, Shown(b, x.filter), said);
    ClosedByServer(m, x, c, l, window, end, d, b, Shown(b, x.filter), said);
    RunsOn(m0, talk, ClientCloses(x, c, l, window, end));
    RunsOn(m0, talk, ServerCloses(x, c, l, window, end));
  }
}
