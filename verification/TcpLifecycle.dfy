/** The states of a TCP session over whole runs, and when its socket is open. */
module TcpLifecycle {
  import opened Words
  import opened Reassembly
  import opened TcpModel

  function Rank(s: State): nat {
    match s
    case Listen => 0
    case SynRecv => 1
    case Established => 2
    case CloseWait => 3
    case FinWait1 => 3
    case LastAck => 4
    case Closing => 5
    case Close => 6
  }

  /** The socket is open up to CLOSE_WAIT and closed from the moment the session sent its FIN;
      a session that sent its FIN has nothing left to forward. */
  predicate SocketMatchesState(t: Tcp) {
    && (t.state.Listen? || t.state.SynRecv? || t.state.Established? || t.state.CloseWait? ==> t.open)
    && (t.state.FinWait1? || t.state.LastAck? || t.state.Close? ==> !t.open)
    && (t.state.FinWait1? || t.state.LastAck? ==> t.forward == [])
  }

  /** b can follow a: the same state, or one further on. */
  predicate Onward(a: Tcp, b: Tcp) {
    SocketMatchesState(b) && (a.state == b.state || Rank(a.state) < Rank(b.state))
  }

  lemma TakeFinOnward(m: Machine, ok: bool)
    requires SocketMatchesState(m.t)
    ensures Onward(m.t, TakeFin(m, ok).t)
  {
    hide Outgoing;
  }

  lemma ResetOnward(m: Machine, ok: bool)
    requires SocketMatchesState(m.t)
    ensures Onward(m.t, WriteRst(m, ok).t) && WriteRst(m, ok).t.open == m.t.open
    ensures !m.t.state.Close? ==> WriteRst(m, ok).t.state.Closing?
  {
    hide Outgoing;
  }

  lemma TakeFlagsOnward(m: Machine, p: Packet, ok: bool)
    requires SocketMatchesState(m.t) && !Closed(m.t.state)
    ensures Onward(m.t, TakeFlags(m, p, ok).t)
  {
    hide TakeFin, WriteRst;
    TakeFinOnward(m, ok);
    ResetOnward(m, ok);
  }

  lemma HandleTcpOnward(m: Machine, p: Packet, now: int, ok: bool)
    requires SocketMatchesState(m.t)
    ensures Onward(m.t, HandleTcp(m, p, now, ok).t)
  {
    hide QueueTcp, Outgoing, Shl32, TakeFlags;
    if !Closed(m.t.state) && (p.data == [] || (m.t.open && !m.t.state.CloseWait?)) {
      TakeFlagsOnward(Enqueue(Refresh(m, p, now), p), p, ok);
    }
  }

  lemma ForwardOnward(m: Machine, k: Kernel, sends: seq<SendResult>, ok: bool)
    requires SocketMatchesState(m.t) && m.t.open
    ensures var r := Forward(m, k, sends, ok).0.t; Onward(m.t, r) && r.open
  {
    hide Drain, Outgoing, ReceiveBuffer;
  }

  lemma AcknowledgeOnward(m: Machine, fwd: bool, k: Kernel, now: int, ok: bool)
    requires SocketMatchesState(m.t) && m.t.open
    ensures var r := Acknowledge(m, fwd, k, now, ok).t; Onward(m.t, r) && r.open
  {
    hide ReceiveWindow, Outgoing;
  }

  lemma FetchOnward(m: Machine, recv: RecvResult, filter: Filter, now: int, ok: bool)
    requires SocketMatchesState(m.t) && (m.t.state.Established? || m.t.state.CloseWait?)
    ensures Onward(m.t, Fetch(m, recv, filter, now, ok).t)
  {
    hide SendWindow, WriteRst, TakeEof;
    var m1 := m.(t := m.t.(time := now));
    ResetOnward(m1, ok);
    TakeEofOnward(m1, ok);
  }

  lemma TakeEofOnward(m: Machine, ok: bool)
    requires SocketMatchesState(m.t) && (m.t.state.Established? || m.t.state.CloseWait?)
    ensures Onward(m.t, TakeEof(m, ok).t)
  {
    hide WriteRst, Outgoing;
    ResetOnward(m, ok);
  }

  lemma CheckTcpSocketOnward(m: Machine, e: SocketEvent)
    requires SocketMatchesState(m.t) && m.t.open
    ensures Onward(m.t, CheckTcpSocket(m, e).t)
  {
    hide Forward, Acknowledge, Fetch, Outgoing, SendWindow;
    if !e.err && !m.t.state.Listen? {
      var (m1, fwd) := if e.writable then Forward(m, e.before, e.sends, e.rstOk) else (m, false);
      if e.writable {
        ForwardOnward(m, e.before, e.sends, e.rstOk);
      }
      AcknowledgeOnward(m1, fwd, e.after, e.now, e.ackOk);
      var m2 := Acknowledge(m1, fwd, e.after, e.now, e.ackOk);
      if MayFetch(m2.t, e.readable) {
        FetchOnward(m2, e.recv, e.filter, e.now, e.dataOk);
      }
    }
  }

  lemma MonitorTcpOnward(m: Machine, ms: int, k: Kernel, ctlOk: bool, ok: bool)
    requires SocketMatchesState(m.t) && m.t.open
    ensures Onward(m.t, MonitorTcp(m, ms, k, ctlOk, ok).0.t)
  {
    hide SendWindow, CanForward, KeepAlive;
    KeepAliveOnward(m, ms, ok);
  }

  lemma KeepAliveOnward(m: Machine, ms: int, ok: bool)
    requires SocketMatchesState(m.t) && m.t.open
    ensures var r := KeepAlive(m, ms, ok).t;
            r.open && r.forward == m.t.forward && (r.state == m.t.state || r.state.Closing?)
  {
    hide Outgoing;
  }

  lemma CheckTcpSessionOnward(m: Machine, now: int, timeout: int, ok: bool)
    requires SocketMatchesState(m.t)
    ensures Onward(m.t, CheckTcpSession(m, now, timeout, ok).0.t)
  {
    hide Outgoing;
  }

  /** Every step moves on in LISTEN < SYN_RECV < ESTABLISHED < {CLOSE_WAIT, FIN_WAIT1} < LAST_ACK
      < CLOSING < CLOSE or stays, and keeps socket and state in agreement. */
  lemma StepOnward(m: Machine, e: Event)
    requires SocketMatchesState(m.t)
    ensures Onward(m.t, Step(m, e).t)
  {
    hide HandleTcp, CheckTcpSocket, MonitorTcp, CheckTcpSession, Outgoing;
    match e
    case FromTun(p, now, ok) => HandleTcpOnward(m, p, now, ok);
    case FromSocket(ev) => if m.t.open { CheckTcpSocketOnward(m, ev); }
    case Monitor(ms, k, ctlOk, ok) => if m.t.open { MonitorTcpOnward(m, ms, k, ctlOk, ok); }
    case Sweep(now, timeout, ok) => CheckTcpSessionOnward(m, now, timeout, ok);
    case Disallow(ok) =>
  }

  /** How many steps of a run change the state. */
  function Changes(m: Machine, es: seq<Event>): nat
    decreases |es|
  {
    if es == [] then 0
    else (if Step(m, es[0]).t.state == m.t.state then 0 else 1) + Changes(Step(m, es[0]), es[1..])
  }

  /** Over any run the state changes at most six times, because every change climbs the order. */
  lemma {:induction false} RunClimbs(m: Machine, es: seq<Event>)
    requires SocketMatchesState(m.t)
    ensures SocketMatchesState(Run(m, es).t)
    ensures Rank(m.t.state) + Changes(m, es) <= Rank(Run(m, es).t.state) <= 6
    decreases |es|
  {
    hide Step;
    if es != [] {
      StepOnward(m, es[0]);
      RunClimbs(Step(m, es[0]), es[1..]);
    }
  }

  /** From the SYN on: at most six changes, and the socket is open exactly as the state says. */
  lemma SessionLifecycle(p: Packet, mss: u16, ws: u8, isn: u32, now: int, k: Kernel, es: seq<Event>)
    ensures var m := NewSession(p, mss, ws, isn, now, k);
            Changes(m, es) <= 6 && SocketMatchesState(Run(m, es).t)
  {
    RunClimbs(NewSession(p, mss, ws, isn, now, k), es);
  }
}
