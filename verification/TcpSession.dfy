/** The TCP session as the object of tcp.c, its fields updated in place and its segments in a linked
    list. Every method does exactly what the state machine of TcpModel says. */
module TcpSession {
  import opened Words
  import opened Serial
  import opened Reassembly
  import opened LinkedLists
  import opened SegmentList
  import D = DnsResponse
  import M = TcpModel

  // ---- The forwarding loop, turn by turn ----

  /** What the loop forwarded so far, in front of what it will forward. */
  function Prepend(accepted: seq<u8>, fwd: bool, d: Drained): Drained {
    d.(accepted := accepted + d.accepted, fwd := fwd || d.fwd)
  }

  predicate CanSend(m: M.Machine, n: nat) {
    && m.t.forward != [] && m.t.forward[0].seqno == m.t.remoteSeq
    && m.t.forward[0].sent + n <= |m.t.forward[0].data|
  }

  predicate Completes(s: Segment, n: nat) {
    s.sent + n == |s.data|
  }

  function Sending(s: Segment, n: nat): seq<u8>
    requires s.sent + n <= |s.data|
  {
    s.data[s.sent..s.sent + n]
  }

  /** m after the socket took n bytes of the first segment. */
  function AfterSend(m: M.Machine, n: nat): M.Machine
    requires CanSend(m, n)
  {
    var s := m.t.forward[0];
    var t := m.t.(sent := m.t.sent + n,
                  remoteSeq := if Completes(s, n) then Wrap(s.seqno + |s.data|) else m.t.remoteSeq,
                  forward := (if Completes(s, n) then [] else [s.(sent := s.sent + n)]) + m.t.forward[1..]);
    m.(t := t, log := m.log.(accepted := m.log.accepted + Sending(s, n)))
  }

  /** On the way from m to the outcome `all`, the loop has reached `now`. */
  predicate InDrain(m: M.Machine, now: M.Machine, all: Drained, accepted: seq<u8>, fwd: bool,
                    buffer: BufferSize, sends: seq<SendResult>) {
    && all == Prepend(accepted, fwd, Drain(now.t.forward, now.t.remoteSeq, buffer, sends))
    && now == M.AfterDrain(m, Drained(now.t.forward, now.t.remoteSeq, accepted, fwd, false))
  }

  lemma DrainStarts(m: M.Machine, buffer: BufferSize, sends: seq<SendResult>)
    ensures InDrain(m, m, Drain(m.t.forward, m.t.remoteSeq, buffer, sends), [], false, buffer, sends)
  {
    hide Drain;
    assert [] + Drain(m.t.forward, m.t.remoteSeq, buffer, sends).accepted
        == Drain(m.t.forward, m.t.remoteSeq, buffer, sends).accepted;
    assert m.log.accepted + [] == m.log.accepted;
  }

  lemma DrainStops(m: M.Machine, now: M.Machine, all: Drained, accepted: seq<u8>, fwd: bool,
                   buffer: BufferSize, sends: seq<SendResult>)
    requires InDrain(m, now, all, accepted, fwd, buffer, sends)
    requires var q := now.t.forward;
             q == [] || q[0].seqno != now.t.remoteSeq || !Fits(q[0], buffer) || sends == [] || !sends[0].Sent?
    ensures now == M.AfterDrain(m, all) && fwd == all.fwd
    ensures var q := now.t.forward;
            all.broken <==> !(q == [] || q[0].seqno != now.t.remoteSeq || !Fits(q[0], buffer) || sends == [])
                            && sends[0].Broken?
  {
    assert accepted + [] == accepted;
  }

  /** The spec of one turn whose send completes the first segment. */
  lemma DrainPops(q: seq<Segment>, buffer: BufferSize, sends: seq<SendResult>)
    requires q != [] && Fits(q[0], buffer) && sends != [] && sends[0].Sent?
    requires Completes(q[0], Taken(q[0], sends[0].n))
    ensures var n := Taken(q[0], sends[0].n);
            n <= buffer
            && Drain(q, q[0].seqno, buffer, sends)
               == Prepend(Sending(q[0], n), true, Drain(q[1..], Wrap(q[0].seqno + |q[0].data|), buffer - n, sends[1..]))
  {
    assert Sending(q[0], Taken(q[0], sends[0].n)) == q[0].data[q[0].sent..];
  }

  lemma PrependTwice(a: seq<u8>, b: seq<u8>, fwd: bool, d: Drained)
    ensures Prepend(a, fwd, Prepend(b, true, d)) == Prepend(a + b, true, d)
  {
    assert a + (b + d.accepted) == a + b + d.accepted;
  }

  lemma DrainGoesOn(m: M.Machine, now: M.Machine, all: Drained, accepted: seq<u8>, fwd: bool,
                    buffer: BufferSize, sends: seq<SendResult>, n: nat)
    requires InDrain(m, now, all, accepted, fwd, buffer, sends)
    requires now.t.forward != [] && now.t.forward[0].seqno == now.t.remoteSeq && Fits(now.t.forward[0], buffer)
    requires sends != [] && sends[0].Sent? && n == Taken(now.t.forward[0], sends[0].n)
    requires Completes(now.t.forward[0], n)
    ensures CanSend(now, n) && n <= buffer
    ensures InDrain(m, AfterSend(now, n), all, accepted + Sending(now.t.forward[0], n), true, buffer - n, sends[1..])
  {
    hide Drain;
    var q := now.t.forward;
    var bytes := Sending(q[0], n);
    assert m.log.accepted + accepted + bytes == m.log.accepted + (accepted + bytes);
    assert [] + q[1..] == q[1..];
    DrainPops(q, buffer, sends);
    PrependTwice(accepted, bytes, fwd, Drain(q[1..], Wrap(q[0].seqno + |q[0].data|), buffer - n, sends[1..]));
  }

  lemma DrainEndsPartly(m: M.Machine, now: M.Machine, all: Drained, accepted: seq<u8>, fwd: bool,
                        buffer: BufferSize, sends: seq<SendResult>, n: nat)
    requires InDrain(m, now, all, accepted, fwd, buffer, sends)
    requires now.t.forward != [] && now.t.forward[0].seqno == now.t.remoteSeq && Fits(now.t.forward[0], buffer)
    requires sends != [] && sends[0].Sent? && n == Taken(now.t.forward[0], sends[0].n)
    requires !Completes(now.t.forward[0], n)
    ensures CanSend(now, n) && n <= buffer
    ensures AfterSend(now, n) == M.AfterDrain(m, all) && all.fwd && !all.broken
  {
    var bytes := Sending(now.t.forward[0], n);
    assert m.log.accepted + accepted + bytes == m.log.accepted + (accepted + bytes);
  }

  class TcpSession {
    var state: M.State
    var open: bool
    var time: int
    const mss: u16
    const recvScale: u8
    const sendScale: u8
    var recvWindow: u32
    var sendWindow: u32
    var unconfirmed: u16
    var remoteSeq: u32
    var localSeq: u32
    const remoteStart: u32
    const localStart: u32
    var acked: u32
    var lastKeepAlive: int
    var sent: nat
    var received: nat
    var wantIn: bool
    var wantOut: bool
    const forward: Segments
    ghost var log: M.Log

    ghost predicate Valid()
      reads this, forward, forward.repr
    {
      forward.Valid()
    }

    /** The value of the object in the state machine. */
    ghost function Tcp(): M.Tcp
      reads this, forward
    {
      M.Tcp(state, open, time, mss, recvScale, sendScale, recvWindow, sendWindow, unconfirmed,
            remoteSeq, localSeq, remoteStart, localStart, acked, lastKeepAlive, sent, received,
            wantIn, wantOut, forward.contents)
    }

    ghost function Machine(): M.Machine
      reads this, forward
    {
      M.Machine(Tcp(), log)
    }

    /** The session that `handle_tcp` registers for a SYN. */
    constructor (p: M.Packet, mss: u16, ws: u8, isn: u32, now: int, k: M.Kernel)
      ensures Valid() && fresh(forward) && fresh(forward.repr)
      ensures Machine() == M.NewSession(p, mss, ws, isn, now, k)
    {
      state, open, time := M.Listen, true, now;
      this.mss, recvScale, sendScale := mss, ws, ws;
      sendWindow, unconfirmed := M.Shl32(p.window, ws), 0;
      remoteSeq, localSeq, remoteStart, localStart := p.seqno, isn, p.seqno, isn;
      acked, lastKeepAlive, sent, received := 0, 0, 0, 0;
      wantIn, wantOut := false, true;
      recvWindow := 0;
      forward := new LinkedList<Segment>();
      log := M.Log([], [], [], [], [], 0, 0);
      new;
      hide M.Shl32, M.ReceiveWindow, LinkedList.Valid;
      if p.data != [] {
        forward.Push(Segment(p.seqno, p.data, 0, p.psh));
        assert [Segment(p.seqno, p.data, 0, p.psh)] + [] == [Segment(p.seqno, p.data, 0, p.psh)];
      }
      var window := GetReceiveWindow(k);
      recvWindow := window;
    }

    method GetSendWindow() returns (total: u32)
      ensures total == M.SendWindow(Tcp())
    {
      var behind: u32;
      if acked <= localSeq {
        behind := localSeq - acked;
      } else {
        behind := Wrap(0x10000 + localSeq - acked);
      }
      behind := Wrap(behind + (unconfirmed + 1) * 40);
      total := if behind < sendWindow then sendWindow - behind else 0;
    }

    method GetReceiveWindow(k: M.Kernel) returns (total: u32)
      requires Valid()
      ensures total == M.ReceiveWindow(Tcp(), k)
    {
      var toForward := Waiting(forward);
      var window := M.ReceiveBuffer(open, k);
      var max := M.Shl32(0xFFFF, recvScale);
      if window > max {
        window := max;
      }
      total := if toForward < window then window - toForward else 0;
    }

    /** `write_tcp`; the packet goes to the tun device, which takes it iff ok. */
    method WriteTcp(data: Payload, syn: bool, ack: bool, fin: bool, rst: bool, ok: bool) returns (res: bool)
      modifies `log
      ensures res == ok
      ensures Machine() == M.WriteTcp(old(Machine()), M.Outgoing(old(Tcp()), data, syn, ack, fin, rst), ok)
    {
      res := ok;
      if ok {
        log := log.(out := log.out + [M.Outgoing(Tcp(), data, syn, ack, fin, rst)]);
      }
    }

    method WriteOrClose(data: Payload, syn: bool, fin: bool, ok: bool) returns (res: bool)
      modifies `log, `state
      ensures res == ok
      ensures Machine() == M.WriteOrClose(old(Machine()), data, syn, fin, ok)
    {
      res := WriteTcp(data, syn, true, fin, false, ok);
      if !res {
        state := M.Closing;
      }
    }

    method WriteAck(ok: bool) returns (res: bool)
      modifies `log, `state
      ensures res == ok && Machine() == M.WriteAck(old(Machine()), ok)
    {
      res := WriteOrClose([], false, false, ok);
    }

    method WriteRst(ok: bool)
      modifies `log, `state, `remoteSeq
      ensures Machine() == M.WriteRst(old(Machine()), ok)
    {
      var ack := false;
      if state == M.Listen {
        ack := true;
        CountSyn();
      }
      var _ := WriteTcp([], false, ack, false, true, ok);
      if state != M.Close {
        state := M.Closing;
      }
    }

    method CountSyn()
      modifies `remoteSeq, `log
      ensures Machine() == M.CountSyn(old(Machine()))
    {
      remoteSeq := Wrap(remoteSeq + 1);
      log := log.(synIn := log.synIn + 1);
    }

    method CountFin()
      modifies `remoteSeq, `log
      ensures Machine() == M.CountFin(old(Machine()))
    {
      remoteSeq := Wrap(remoteSeq + 1);
      log := log.(finIn := log.finIn + 1);
    }

    method QueueTcp(p: M.Packet)
      requires Valid() && p.data != []
      modifies forward, forward.repr
      ensures Valid() && fresh(forward.repr - old(forward.repr))
      ensures Machine() == M.Enqueue(old(Machine()), p)
    {
      if CompareU32(p.seqno, remoteSeq) >= 0 {
        Add(forward, p.seqno, p.data, p.psh);
      }
    }

    /** The FIN branch of `handle_tcp`. */
    method TakeFin(ok: bool)
      requires Valid()
      modifies `state, `remoteSeq, `log
      ensures Machine() == M.TakeFin(old(Machine()), ok)
    {
      if state == M.Established {
        if forward.Empty() {
          CountFin();
          var res := WriteAck(ok);
          if res {
            state := M.CloseWait;
          }
        } else {
          state := M.CloseWait;
        }
      } else if state == M.FinWait1 {
        CountFin();
        var res := WriteAck(ok);
        if res {
          state := M.Close;
        }
      }
    }

    /** The acknowledgement branch of `handle_tcp`. */
    method TakeAck(ackno: u32)
      modifies `state, `acked
      ensures Machine() == M.TakeAck(old(Machine()), ackno)
    {
      acked := ackno;
      if state == M.SynRecv {
        state := M.Established;
      } else if state == M.LastAck {
        state := M.Closing;
      }
    }

    method TakeOtherAck(ackno: u32, ok: bool)
      modifies `state, `acked, `remoteSeq, `log
      ensures Machine() == M.TakeOtherAck(old(Machine()), ackno, ok)
    {
      if Wrap(ackno + 1) != localSeq {
        if CompareU32(ackno, localSeq) < 0 {
          if CompareU32(ackno, acked) > 0 {
            acked := ackno;
          }
        } else {
          WriteRst(ok);
        }
      }
    }

    /** The part of `handle_tcp` after the data was queued. */
    method TakeFlags(p: M.Packet, ok: bool)
      requires Valid()
      modifies `state, `acked, `remoteSeq, `log
      ensures Machine() == M.TakeFlags(old(Machine()), p, ok)
    {
      hide M.WriteRst, M.TakeFin, M.TakeAck, M.TakeOtherAck;
      if p.rst {
        state := M.Closing;
      } else if !p.ack || p.ackno == localSeq {
        if p.syn {
        } else if p.fin {
          TakeFin(ok);
        } else if p.ack {
          TakeAck(p.ackno);
        }
      } else {
        TakeOtherAck(p.ackno, ok);
      }
    }

    /** `handle_tcp` on a known session. */
    method HandleTcp(p: M.Packet, now: int, ok: bool)
      requires Valid()
      modifies this, forward, forward.repr
      ensures Valid() && fresh(forward.repr - old(forward.repr))
      ensures Machine() == M.HandleTcp(old(Machine()), p, now, ok)
    {
      hide M.Shl32, M.WriteRst, M.TakeFlags, M.Enqueue, LinkedList.Valid;
      if p.urg {
        return;
      }
      if state == M.Closing || state == M.Close {
        WriteRst(ok);
        return;
      }
      Refresh(p, now);
      if p.data != [] {
        if !open || state == M.CloseWait {
          WriteRst(ok);
          return;
        }
        QueueTcp(p);
      } else {
        NoData(Machine(), p);
      }
      TakeFlags(p, ok);
    }

    method Refresh(p: M.Packet, now: int)
      modifies `time, `sendWindow, `unconfirmed
      ensures Machine() == M.Refresh(old(Machine()), p, now)
    {
      if !p.syn {
        time := now;
      }
      sendWindow := M.Shl32(p.window, sendScale);
      unconfirmed := 0;
    }

    lemma NoData(m: M.Machine, p: M.Packet)
      requires p.data == []
      ensures M.Enqueue(m, p) == m
    {
    }

    /** The connected branch of `check_tcp_socket` in LISTEN. */
    method Connected(now: int, ok: bool)
      requires Valid()
      modifies this
      ensures Valid() && Machine() == M.Connected(old(Machine()), now, ok)
    {
      hide M.WriteOrClose, M.CountSyn, LinkedList.Valid;
      CountSyn();
      var res := WriteOrClose([], true, false, ok);
      if res {
        time := now;
        localSeq := Wrap(localSeq + 1);
        state := M.SynRecv;
      }
    }

    /** One `send` of the forwarding loop that takes n bytes of the first segment. */
    method SendFirst(n: nat) returns (popped: bool)
      requires Valid() && CanSend(Machine(), n)
      modifies this`sent, this`remoteSeq, this`log, forward, forward.repr
      ensures Valid() && forward.repr == old(forward.repr)
      ensures popped == Completes(old(forward.contents)[0], n)
      ensures Machine() == AfterSend(old(Machine()), n)
    {
      hide LinkedList.Valid;
      var s := forward.First();
      sent := sent + n;
      log := log.(accepted := log.accepted + s.data[s.sent..s.sent + n]);
      forward.SetFirst(s.(sent := s.sent + n));
      popped := |s.data| == s.sent + n;
      if popped {
        remoteSeq := Wrap(s.seqno + s.sent + n);
        forward.Pop();
      }
    }

    /** The forwarding loop of `check_tcp_socket`. */
    method ForwardData(k: M.Kernel, sends: seq<SendResult>, ok: bool) returns (fwd: bool)
      requires Valid()
      modifies this, forward, forward.repr
      ensures Valid() && forward.repr == old(forward.repr)
      ensures (Machine(), fwd) == M.Forward(old(Machine()), k, sends, ok)
    {
      hide M.WriteRst, Drain, AfterSend, InDrain, LinkedList.Valid;
      fwd := false;
      var buffer: BufferSize := M.ReceiveBuffer(open, k);
      var c := 0;
      ghost var m := Machine();
      ghost var all := Drain(forward.contents, remoteSeq, buffer, sends);
      ghost var accepted := [];
      DrainStarts(m, buffer, sends);
      assert sends[0..] == sends;
      while !forward.Empty() && forward.First().seqno == remoteSeq && Fits(forward.First(), buffer)
        invariant Valid() && forward.repr == old(forward.repr) && c <= |sends|
        invariant InDrain(m, Machine(), all, accepted, fwd, buffer, sends[c..])
        decreases |sends| - c
      {
        if c == |sends| || sends[c].Retry? {
          DrainStops(m, Machine(), all, accepted, fwd, buffer, sends[c..]);
          return;
        }
        if sends[c].Broken? {
          DrainStops(m, Machine(), all, accepted, fwd, buffer, sends[c..]);
          WriteRst(ok);
          return;
        }
        var n := Taken(forward.First(), sends[c].n);
        if Completes(forward.contents[0], n) {
          DrainGoesOn(m, Machine(), all, accepted, fwd, buffer, sends[c..], n);
        } else {
          DrainEndsPartly(m, Machine(), all, accepted, fwd, buffer, sends[c..], n);
        }
        assert sends[c..][1..] == sends[c + 1..];
        accepted := accepted + Sending(forward.contents[0], n);
        var popped := SendFirst(n);
        fwd, buffer, c := true, buffer - n, c + 1;
        if !popped {
          return;
        }
      }
      DrainStops(m, Machine(), all, accepted, fwd, buffer, sends[c..]);
    }

    /** Window update and acknowledgement after forwarding. */
    method Acknowledge(fwd: bool, k: M.Kernel, now: int, ok: bool)
      requires Valid()
      modifies `recvWindow, `remoteSeq, `state, `time, `log
      ensures Machine() == M.Acknowledge(old(Machine()), fwd, k, now, ok)
    {
      hide LinkedList.Valid, M.ReceiveWindow, M.WriteAck, M.CountFin;
      var window := GetReceiveWindow(k);
      var prev := recvWindow;
      recvWindow := window;
      if fwd || (prev == 0 && window > 0) {
        if fwd && forward.Empty() && state == M.CloseWait {
          CountFin();
        }
        var res := WriteAck(ok);
        if res {
          time := now;
        }
      }
    }

    method TakeEof(ok: bool)
      requires Valid()
      modifies `localSeq, `remoteSeq, `state, `open, `log
      ensures Machine() == M.TakeEof(old(Machine()), ok)
    {
      hide LinkedList.Valid, M.WriteOrClose, M.WriteRst;
      if forward.Empty() {
        var res := WriteOrClose([], false, true, ok);
        if res {
          localSeq := Wrap(localSeq + 1);
        }
        if state == M.Established {
          state := M.FinWait1;
        } else if state == M.CloseWait {
          state := M.LastAck;
        }
      } else {
        WriteRst(ok);
      }
      open := false;
    }

    /** The DNS parser works on what lies behind the two bytes of the length. */
    method LookAt(b: Payload, filter: M.Filter) returns (shown: Payload)
      ensures shown == M.Shown(b, filter)
    {
      hide D.Parse;
      shown := b;
      if filter.Filtered? && |b| > 2 {
        var message := new u8[|b| - 2](i requires 0 <= i < |b| - 2 => b[i + 2]);
        assert message[..|b| - 2] == b[2..];
        var dlen, _ := D.ParseDnsResponse(message, |b| - 2, filter.policy.isBlocked, filter.policy.rcode);
        assert message[..] == message[..dlen] + message[dlen..];
        shown := b[..2] + message[..];
      }
    }

    method TakeBytes(b: Payload, shown: Payload, ok: bool)
      requires Valid()
      modifies `received, `localSeq, `unconfirmed, `state, `log
      ensures Machine() == M.TakeBytes(old(Machine()), b, shown, ok)
    {
      hide LinkedList.Valid, M.WriteOrClose, Wrap;
      received := received + |b|;
      log := log.(fetched := log.fetched + b, shown := log.shown + shown);
      var res := WriteOrClose(shown, false, false, ok);
      ghost var m := Machine();
      if res {
        localSeq := Wrap(localSeq + |b|);
        unconfirmed := (unconfirmed + 1) % TWO16;
        assert Machine() == m.(t := m.t.(localSeq := Wrap(m.t.localSeq + |b|),
                                         unconfirmed := (m.t.unconfirmed + 1) % TWO16));
      }
    }

    /** Read from the socket and pass on what was read. */
    method Fetch(window: u32, recv: M.RecvResult, filter: M.Filter, now: int, ok: bool)
      requires Valid() && window == M.SendWindow(Tcp())
      modifies this
      ensures Valid() && Machine() == M.Fetch(old(Machine()), recv, filter, now, ok)
    {
      hide LinkedList.Valid, M.SendWindow, M.WriteRst, M.TakeEof, M.TakeBytes, M.Shown;
      time := now;
      var size := if window > mss then mss else window;
      match recv
      case RecvError(retry) =>
        if !retry {
          WriteRst(ok);
        }
      case Bytes(data) =>
        var b := if |data| <= size then data else data[..size];
        if b == [] {
          TakeEof(ok);
        } else {
          var shown := LookAt(b, filter);
          TakeBytes(b, shown, ok);
        }
    }

    /** `check_tcp_socket`. */
    method CheckTcpSocket(e: M.SocketEvent)
      requires Valid()
      modifies this, forward, forward.repr
      ensures Valid() && forward.repr == old(forward.repr)
      ensures Machine() == M.CheckTcpSocket(old(Machine()), e)
    {
      hide LinkedList.Valid, M.WriteRst, M.Connected, M.Forward, M.Acknowledge, M.Fetch, M.SendWindow;
      if e.err {
        time := e.now;
        WriteRst(e.rstOk);
      } else if state == M.Listen {
        if e.writable {
          Connected(e.now, e.ackOk);
        }
      } else {
        var fwd := false;
        if e.writable {
          fwd := ForwardData(e.before, e.sends, e.rstOk);
        }
        Acknowledge(fwd, e.after, e.now, e.ackOk);
        if state == M.Established || state == M.CloseWait {
          var window := GetSendWindow();
          if e.readable && window > 0 {
            Fetch(window, e.recv, e.filter, e.now, e.dataOk);
          }
        }
      }
    }

    method KeepAlive(ms: int, ok: bool)
      requires Valid()
      modifies `lastKeepAlive, `remoteSeq, `state, `log
      ensures Machine() == M.KeepAlive(old(Machine()), ms, ok)
    {
      hide LinkedList.Valid, M.WriteAck;
      if ms - lastKeepAlive > M.EPOLL_MIN_CHECK {
        lastKeepAlive := ms;
        remoteSeq := Wrap(remoteSeq - 1);
        var _ := WriteAck(ok);
        remoteSeq := Wrap(remoteSeq + 1);
      }
    }

    method SetInterest(wantIn: bool, wantOut: bool, ctlOk: bool)
      requires Valid()
      modifies this`wantIn, this`wantOut, `state
      ensures Machine() == M.SetInterest(old(Machine()), wantIn, wantOut, ctlOk)
    {
      if (wantIn, wantOut) != (this.wantIn, this.wantOut) {
        this.wantIn, this.wantOut := wantIn, wantOut;
        if !ctlOk {
          state := M.Closing;
        }
      }
    }

    /** `monitor_tcp_session`. */
    method MonitorTcpSession(ms: int, k: M.Kernel, ctlOk: bool, ok: bool) returns (recheck: bool)
      requires Valid()
      modifies this
      ensures Valid() && (Machine(), recheck) == M.MonitorTcp(old(Machine()), ms, k, ctlOk, ok)
    {
      hide LinkedList.Valid, M.SendWindow, M.KeepAlive, M.ReceiveBuffer, M.SetInterest, Fits;
      recheck := false;
      var events := (false, false);
      if state == M.Listen {
        events := (false, true);
      } else if state == M.Established || state == M.CloseWait {
        var window := GetSendWindow();
        if window > 0 {
          events := (true, false);
        } else {
          recheck := true;
          KeepAlive(ms, ok);
        }
        if !forward.Empty() {
          if forward.First().seqno == remoteSeq && Fits(forward.First(), M.ReceiveBuffer(open, k)) {
            events := (events.0, true);
          } else {
            recheck := true;
          }
        }
      }
      SetInterest(events.0, events.1, ctlOk);
    }

    method Expire(now: int, timeout: int, ok: bool)
      requires Valid()
      modifies `state, `remoteSeq, `log
      ensures Machine() == M.Expire(old(Machine()), now, timeout, ok)
    {
      hide LinkedList.Valid, M.WriteRst;
      if state != M.Closing && state != M.Close && time + timeout < now {
        if state == M.Listen {
          state := M.Closing;
        } else {
          WriteRst(ok);
        }
      }
    }

    /** Report the counters once the session is closed. */
    method Account()
      requires Valid()
      modifies `sent, `received, `log
      ensures Machine() == M.Account(old(Machine()))
    {
      if (state == M.Closing || state == M.Close) && (sent > 0 || received > 0) {
        log := log.(usage := log.usage + [M.Usage(sent, received)]);
        sent, received := 0, 0;
      }
    }

    /** `check_tcp_session`; true if the session is to be freed. */
    method CheckTcpSession(now: int, timeout: int, ok: bool) returns (del: bool)
      requires Valid()
      modifies this
      ensures Valid() && (Machine(), del) == M.CheckTcpSession(old(Machine()), now, timeout, ok)
    {
      hide LinkedList.Valid, M.Expire, M.Account;
      Expire(now, timeout, ok);
      if state == M.Closing {
        open := false;
        time := now;
        state := M.Close;
      }
      Account();
      del := state == M.Close && time + M.TCP_KEEP_TIMEOUT < now;
    }

    /** The TCP part of `check_allowed`. */
    method Disallow(ok: bool)
      requires Valid()
      modifies `state, `remoteSeq, `log
      ensures Machine() == M.DisallowTcp(old(Machine()), ok)
    {
      if state != M.Closing && state != M.Close {
        WriteRst(ok);
      }
    }
  }
}
