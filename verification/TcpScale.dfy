/** What the window scale decides.

    The code takes the scale of the client as it is. Under a moderate one every acknowledgement of data in
    flight is understood. Under a scale from 16 to 30 so much may be in flight that an acknowledgement of
    the first of it is taken for one of the future, and the session is reset. */
module TcpScale {
  import opened Words
  import opened Serial
  import opened Reassembly
  import opened TcpModel
  import opened TcpFlow
  import opened TcpExamples

  /** A packet that does nothing but acknowledge. */
  predicate BareAck(p: Packet) {
    p.ack && p.data == [] && !p.urg && !p.rst && !p.syn && !p.fin
  }

  /** ackno acknowledges some of what is in flight, but not all. */
  predicate InFlight(t: Tcp, ackno: u32) {
    0 < Wrap(t.localSeq - ackno) < Outstanding(t)
  }

  lemma InFlightIsBefore(t: Tcp, ackno: u32)
    requires InFlight(t, ackno) && Outstanding(t) < 0x7FFF_FFFF
    ensures CompareU32(ackno, t.localSeq) < 0 && ackno != t.localSeq
  {
  }

  lemma Understood(m: Machine, p: Packet, now: int, ok: bool)
    requires Live(m.t.state) && BareAck(p) && InFlight(m.t, p.ackno) && Outstanding(m.t) < 0x7FFF_FFFF
    ensures HandleTcp(m, p, now, ok).t.state == m.t.state
  {
    hide Shl32, WriteRst, CompareU32, InFlight;
    InFlightIsBefore(m.t, p.ackno);
  }

  /** With that scale, in every reachable live state, an acknowledgement of some of what is in flight
      leaves the session alive. */
  ghost predicate AcksUnderstood(ws: u8) {
    forall s, mss, isn, start, k, es, p, now, ok ::
      Acknowledges(NewSession(s, mss, ws, isn, start, k), es, p) ==>
        Kept(Run(NewSession(s, mss, ws, isn, start, k), es), p, now, ok)
  }

  predicate Acknowledges(m0: Machine, es: seq<Event>, p: Packet) {
    var m := Run(m0, es);
    NoHalfSpaceAcks(m0, es) && Live(m.t.state) && BareAck(p) && InFlight(m.t, p.ackno)
  }

  predicate Kept(m: Machine, p: Packet, now: int, ok: bool) {
    HandleTcp(m, p, now, ok).t.state == m.t.state
  }

  lemma ModerateUnderstood(s: Packet, mss: u16, ws: u8, isn: u32, start: int, k: Kernel, es: seq<Event>, p: Packet,
                           now: int, ok: bool)
    requires Moderate(ws) && Acknowledges(NewSession(s, mss, ws, isn, start, k), es, p)
    ensures Kept(Run(NewSession(s, mss, ws, isn, start, k), es), p, now, ok)
  {
    hide NewSession, Run, FlowBounded, Outstanding, HandleTcp, InFlight, BareAck, NoHalfSpaceAcks;
    var m0 := NewSession(s, mss, ws, isn, start, k);
    NewSessionFlow(s, mss, ws, isn, start, k);
    RunFlow(m0, es);
    var m := Run(m0, es);
    LiveBound(m.t);
    Understood(m, p, now, ok);
  }

  // ---- Too much in flight ----

  const READS := 32771

  function Reading(n: nat): seq<Event> {
    if n == 0 then [] else [Readable(Block())] + Reading(n - 1)
  }

  /** n blocks were read and nothing of them is acknowledged; the client's window is at least 0x90000000. */
  predicate Filled(m: Machine, n: nat) {
    && m.t.state.Established? && m.t.open && m.t.mss == 0xFFFF && m.t.forward == []
    && m.t.sendWindow >= 0x9000_0000 && m.t.acked == 101 && n <= READS
    && m.t.unconfirmed == n && m.t.localSeq == 101 + 0xFFFF * n
  }

  lemma RoomForBlock(t: Tcp, n: nat)
    requires n < READS && t.acked == 101 && t.localSeq == 101 + 0xFFFF * n && t.unconfirmed == n
    requires t.sendWindow >= 0x9000_0000
    ensures SendWindow(t) > 0xFFFF
  {
    assert Wrap(0xFFFF * n + (n + 1) * 40) == 0xFFFF * n + (n + 1) * 40;
  }

  lemma ReadsBlock(m: Machine, n: nat)
    requires Filled(m, n) && n < READS
    ensures Filled(Step(m, Readable(Block())), n + 1)
  {
    hide SendWindow, ReceiveWindow, Outgoing, WriteRst, TakeEof, Shown, TakeBytes, Acknowledge, Blank;
    RoomForBlock(m.t, n);
    var a := Acknowledge(m, false, QUIET, 0, true);
    NothingToAcknowledge(m);
    RoomForBlock(a.t, n);
    BlockTaken(a.(t := a.t.(time := 0)), n, Shown(Block(), UNFILTERED));
  }

  lemma BlockTaken(m: Machine, n: nat, shown: Payload)
    requires Filled(m, n) && n < READS && |shown| == 0xFFFF
    ensures Filled(TakeBytes(m, Block(), shown, true), n + 1)
  {
    hide Outgoing, Blank;
  }

  lemma {:induction false} ReadsBlocks(m: Machine, n: nat, k: nat)
    requires Filled(m, n) && n + k <= READS
    ensures Filled(Run(m, Reading(k)), n + k) && NoHalfSpaceAcks(m, Reading(k))
    decreases k
  {
    hide Step, Filled, Blank, TakesHalfSpaceAck;
    if k > 0 {
      ReadsBlock(m, n);
      assert Reading(k)[0] == Readable(Block()) && Reading(k)[1..] == Reading(k - 1);
      ReadsBlocks(Step(m, Readable(Block())), n + 1, k - 1);
    }
  }

  /** The session connects, the client acknowledges with its largest window, and much is read. */
  function LongRun(): seq<Event> {
    [Writable([]), Greeting(101)] + Reading(READS)
  }

  function Start(ws: u8): Machine {
    NewSession(SYN, 0xFFFF, ws, 100, 0, QUIET)
  }

  lemma Connects(ws: u8)
    ensures var r := Step(Start(ws), Writable([]));
            && r.t.state.SynRecv? && r.t.open && r.t.mss == 0xFFFF && r.t.forward == [] && r.t.sendScale == ws
            && r.t.localSeq == 101
  {
    hide ReceiveWindow, Outgoing, Shl32;
  }

  lemma HugeWindow(ws: u8)
    requires 16 <= ws <= 30
    ensures Shl32(0xFFFF, ws) >= 0x9000_0000
  {
    hide Pow2;
    Pow2Splits(16, ws - 16);
    Pow2Monotone(ws, 30);
    PowersOf16And30();
    NegativeWindow(Pow2(ws - 16));
  }

  lemma NegativeWindow(p: nat)
    requires 1 <= p <= 0x4000
    ensures Wrap(0xFFFF * (0x1_0000 * p)) == TWO32 - 0x1_0000 * p
  {
    hide Wrap;
    WrapOf(p - 1, TWO32 - 0x1_0000 * p);
    assert 0xFFFF * (0x1_0000 * p) == (p - 1) * TWO32 + (TWO32 - 0x1_0000 * p);
  }

  lemma WrapOf(q: int, r: u32)
    ensures Wrap(q * TWO32 + r) == r
  {
  }

  lemma PowersOf16And30()
    ensures Pow2(16) == 0x1_0000 && Pow2(30) == 0x4000_0000
  {
    assert Pow2(8) == 0x100;
    assert Pow2(16) == 0x1_0000;
    assert Pow2(23) == 0x80_0000;
  }

  lemma Establishes(m: Machine, ws: u8)
    requires m.t.state.SynRecv? && m.t.open && m.t.mss == 0xFFFF && m.t.forward == [] && m.t.sendScale == ws
    requires m.t.localSeq == 101 && 16 <= ws <= 30
    ensures Filled(Step(m, Greeting(101)), 0)
  {
    hide Shl32;
    HugeWindow(ws);
  }

  lemma Fills(ws: u8)
    requires 16 <= ws <= 30
    ensures Filled(Run(Start(ws), LongRun()), READS) && NoHalfSpaceAcks(Start(ws), LongRun())
  {
    hide Step, Start, Filled, Blank, Run, Reading, NoHalfSpaceAcks, TakesHalfSpaceAck;
    var m1 := Step(Start(ws), Writable([]));
    var m2 := Step(m1, Greeting(101));
    Connects(ws);
    Establishes(m1, ws);
    ReadsBlocks(m2, 0, READS);
    AfterTwo(Start(ws), Writable([]), Greeting(101), Reading(READS));
    NotLive(m1.t, Greeting(101).p);
  }

  lemma AfterTwo(m: Machine, a: Event, b: Event, es: seq<Event>)
    ensures Run(m, [a, b] + es) == Run(Step(Step(m, a), b), es)
    ensures NoHalfSpaceAcks(m, [a, b] + es) <==>
            && !(a.FromTun? && TakesHalfSpaceAck(m.t, a.p)) && !(b.FromTun? && TakesHalfSpaceAck(Step(m, a).t, b.p))
            && NoHalfSpaceAcks(Step(Step(m, a), b), es)
  {
    hide Step, TakesHalfSpaceAck;
    assert ([a, b] + es)[1..] == [b] + es && ([b] + es)[1..] == es;
    assert Run(Step(m, a), [b] + es) == Run(Step(Step(m, a), b), es);
  }

  lemma NotLive(t: Tcp, p: Packet)
    requires t.state.SynRecv?
    ensures !TakesHalfSpaceAck(t, p)
  {
  }

  /** The acknowledgement of the first block. */
  function FirstBlock(): Packet {
    Packet(1, 101 + 0xFFFF, 0xFFFF, [], false, true, false, false, false, false)
  }

  lemma FirstBlockResets(m: Machine)
    requires Filled(m, READS)
    ensures InFlight(m.t, FirstBlock().ackno)
    ensures HandleTcp(m, FirstBlock(), 0, true).t.state.Closing?
  {
    hide Shl32, Outgoing;
  }

  /** Over all runs, acknowledgements of data in flight are understood if and only if the scale is
      moderate: under each other one, a run exists after which that of the first block resets the session. */
  lemma UnderstoodIffModerate(ws: u8)
    ensures AcksUnderstood(ws) <==> Moderate(ws)
  {
    hide Run, NewSession, Kept, Acknowledges, Filled;
    if Moderate(ws) {
      forall s, mss, isn, start, k, es, p, now, ok | Acknowledges(NewSession(s, mss, ws, isn, start, k), es, p)
        ensures Kept(Run(NewSession(s, mss, ws, isn, start, k), es), p, now, ok)
      {
        ModerateUnderstood(s, mss, ws, isn, start, k, es, p, now, ok);
      }
    } else {
      NotUnderstood(ws);
    }
  }

  lemma NotUnderstood(ws: u8)
    requires 16 <= ws <= 30
    ensures Acknowledges(Start(ws), LongRun(), FirstBlock())
    ensures !Kept(Run(Start(ws), LongRun()), FirstBlock(), 0, true)
  {
    hide Run, Start, HandleTcp, InFlight, NoHalfSpaceAcks, LongRun;
    Fills(ws);
    FirstBlockResets(Run(Start(ws), LongRun()));
  }
}
