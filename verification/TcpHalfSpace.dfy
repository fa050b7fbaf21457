/** A run that takes an acknowledgement half the number space away. */
module TcpHalfSpace {
  import opened Words
  import opened TcpModel
  import opened TcpFlow
  import opened TcpExamples

  /** A session whose initial sequence number is two short of the wrap: its first data byte wraps
      `local_seq` to zero, and then comes the acknowledgement. */
  const ISN: u32 := 0xFFFF_FFFE

  function HalfSpaceRun(): seq<Event> {
    [Writable([]), Acks(0xFFFF_FFFF), Readable([7]), Acks(0x8000_0000)]
  }

  predicate Stands(m: Machine, s: State, localSeq: u32, acked: u32) {
    && m.t.state == s && m.t.open && m.t.localSeq == localSeq && m.t.acked == acked
    && m.t.mss == 1000 && m.t.sendScale == 0 && m.t.forward == []
  }

  lemma Connects()
    ensures Stands(Step(Opened(ISN), Writable([])), SynRecv, 0xFFFF_FFFF, 0)
  {
    hide ReceiveWindow, Outgoing;
  }

  lemma Establishes(m: Machine)
    requires Stands(m, SynRecv, 0xFFFF_FFFF, 0)
    ensures var r := Step(m, Acks(0xFFFF_FFFF));
            Stands(r, Established, 0xFFFF_FFFF, 0xFFFF_FFFF) && r.t.sendWindow == 1000 && r.t.unconfirmed == 0
  {
  }

  lemma Reads(m: Machine)
    requires Stands(m, Established, 0xFFFF_FFFF, 0xFFFF_FFFF) && m.t.sendWindow == 1000 && m.t.unconfirmed == 0
    ensures Stands(Step(m, Readable([7])), Established, 0, 0xFFFF_FFFF)
  {
    hide ReceiveWindow, Outgoing, WriteRst, TakeEof, Shown, TakeBytes;
    OpenWindow(m.t);
    var a := Acknowledge(m, false, QUIET, 0, true);
    NothingToAcknowledge(m);
    OpenWindow(a.t);
    assert [7][..1] == [7];
    BytesStand(a.(t := a.t.(time := 0)), Shown([7], UNFILTERED));
  }

  lemma OpenWindow(t: Tcp)
    requires t.localSeq == t.acked == 0xFFFF_FFFF && t.sendWindow == 1000 && t.unconfirmed == 0
    ensures SendWindow(t) == 960
  {
  }

  lemma BytesStand(m: Machine, shown: seq<u8>)
    requires Stands(m, Established, 0xFFFF_FFFF, 0xFFFF_FFFF) && |shown| == 1
    ensures Stands(TakeBytes(m, [7], shown, true), Established, 0, 0xFFFF_FFFF)
  {
    hide Outgoing;
  }

  /** The last packet acknowledges nothing that was sent, and `acked` goes back by 2^31 - 1. */
  lemma AckedGoesBack()
    ensures var m := Run(Opened(ISN), HalfSpaceRun()[..3]);
            var r := Run(Opened(ISN), HalfSpaceRun());
            && m.t.state.Established? && r.t.state.Established?
            && m.t.acked == 0xFFFF_FFFF && r.t.acked == 0x8000_0000
            && AckedUpto(r) == AckedUpto(m) - 0x7FFF_FFFF
  {
    hide Step, Opened, Outstanding;
    var es := HalfSpaceRun();
    var m1 := Step(Opened(ISN), es[0]);
    var m2 := Step(m1, es[1]);
    var m3 := Step(m2, es[2]);
    Connects();
    Establishes(m1);
    Reads(m2);
    RunOfFour(Opened(ISN), es[0], es[1], es[2], es[3]);
    StepFromTun(m3, es[3]);
    HalfSpaceAckGoesBack(m3, es[3].p, 0, true);
  }
}
