/** Pieces of concrete runs. */
module TcpExamples {
  import opened Words
  import opened Reassembly
  import opened TcpModel

  const SYN: Packet := Packet(0, 0, 1000, [], false, false, false, false, true, false)
  const QUIET := Kernel(1000, 0)

  function Opened(isn: u32): Machine {
    NewSession(SYN, 1000, 0, isn, 0, QUIET)
  }

  /** The socket can be written to. */
  function Writable(sends: seq<SendResult>): Event {
    FromSocket(SocketEvent(false, false, true, 0, QUIET, sends, QUIET, RecvError(true), UNFILTERED, true, true, true))
  }

  /** The socket delivers data. */
  function Readable(data: seq<u8>): Event {
    FromSocket(SocketEvent(false, true, false, 0, QUIET, [], QUIET, Bytes(data), UNFILTERED, true, true, true))
  }

  /** The client acknowledges, with a window of 1000. */
  function Acks(ackno: u32): Event {
    FromTun(Packet(1, ackno, 1000, [], false, true, false, false, false, false), 0, true)
  }

  /** The same with the largest window. */
  function Greeting(ackno: u32): Event {
    FromTun(Packet(1, ackno, 0xFFFF, [], false, true, false, false, false, false), 0, true)
  }

  function Blank(n: nat): (r: seq<u8>)
    ensures |r| == n
  {
    if n == 0 then [] else [0] + Blank(n - 1)
  }

  /** As many bytes as the largest MSS. */
  function Block(): Payload {
    Blank(0xFFFF)
  }

  /** An event that forwards nothing may acknowledge a reopened window, and changes nothing else. */
  lemma NothingToAcknowledge(m: Machine)
    ensures var r := Acknowledge(m, false, QUIET, 0, true);
            && r.t.state == m.t.state && r.t.open == m.t.open && r.t.localSeq == m.t.localSeq && r.t.acked == m.t.acked
            && r.t.mss == m.t.mss && r.t.sendScale == m.t.sendScale && r.t.forward == m.t.forward
            && r.t.sendWindow == m.t.sendWindow && r.t.unconfirmed == m.t.unconfirmed
  {
    hide ReceiveWindow, Outgoing, Wrap;
  }

  lemma RunOfThree(m: Machine, a: Event, b: Event, c: Event)
    ensures Run(m, [a, b, c]) == Step(Step(Step(m, a), b), c)
  {
    hide Step;
    var m1 := Step(m, a);
    var m2 := Step(m1, b);
    assert [a, b, c][1..] == [b, c] && [b, c][1..] == [c] && [c][1..] == [];
    assert Run(Step(m2, c), []) == Step(m2, c);
    assert Run(m2, [c]) == Run(Step(m2, c), []);
    assert Run(m1, [b, c]) == Run(m2, [c]);
  }

  lemma RunOfFour(m: Machine, a: Event, b: Event, c: Event, d: Event)
    ensures Run(m, [a, b, c, d]) == Step(Step(Step(Step(m, a), b), c), d)
  {
    hide Step;
    var m1 := Step(m, a);
    var m2 := Step(m1, b);
    var m3 := Step(m2, c);
    assert [a, b, c, d][1..] == [b, c, d] && [b, c, d][1..] == [c, d] && [c, d][1..] == [d] && [d][1..] == [];
    assert Run(Step(m3, d), []) == Step(m3, d);
    assert Run(m3, [d]) == Run(Step(m3, d), []);
    assert Run(m2, [c, d]) == Run(m3, [d]);
    assert Run(m1, [b, c, d]) == Run(m2, [c, d]);
  }
}
