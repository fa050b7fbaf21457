/** The TCP session state machine of tcp.c as functions on values.

    Every result of the kernel or the tun device is an input: `ok` says whether a write to the tun
    device succeeded, `sends` and `recv` are the results of the socket calls, `Kernel` holds what
    SO_SNDBUF and SIOCOUTQ report. The log records what the outside world has seen. */
module TcpModel {
  import opened Words
  import opened Serial
  import opened Reassembly
  import D = DnsResponse

  const SEND_BUF_DEFAULT := 163840
  const EPOLL_MIN_CHECK := 100
  const TCP_INIT_TIMEOUT := 20
  const TCP_IDLE_TIMEOUT := 3600
  const TCP_CLOSE_TIMEOUT := 20
  const TCP_KEEP_TIMEOUT := 300

  datatype State = Listen | SynRecv | Established | CloseWait | FinWait1 | LastAck | Closing | Close

  datatype Packet = Packet(seqno: u32, ackno: u32, window: u16, data: Payload,
                           urg: bool, ack: bool, psh: bool, rst: bool, syn: bool, fin: bool)

  /** `struct tcp_session`, the socket (open or closed) and the epoll interest of its `ng_session`. */
  datatype Tcp = Tcp(
    state: State, open: bool, time: int,
    mss: u16, recvScale: u8, sendScale: u8,
    recvWindow: u32, sendWindow: u32, unconfirmed: u16,
    remoteSeq: u32, localSeq: u32, remoteStart: u32, localStart: u32, acked: u32,
    lastKeepAlive: int, sent: nat, received: nat,
    wantIn: bool, wantOut: bool,
    forward: seq<Segment>)

  datatype Usage = Usage(sent: nat, received: nat)

  /** Bytes the socket accepted and delivered, the latter as they are passed on, packets written to
      the tun device, `account_usage` calls, and how often the remote SYN and FIN were counted. */
  datatype Log = Log(accepted: seq<u8>, fetched: seq<u8>, shown: seq<u8>, out: seq<Packet>,
                     usage: seq<Usage>, synIn: nat, finIn: nat)

  datatype Machine = Machine(t: Tcp, log: Log)

  datatype Kernel = Kernel(sendbuf: BufferSize, unsent: BufferSize)

  /** `recv`: an error (retry for EINTR/EAGAIN), or bytes; no bytes is end of file. */
  datatype RecvResult = RecvError(retry: bool) | Bytes(data: seq<u8>)

  type Filter = D.Filter

  const UNFILTERED: Filter := D.Unfiltered

  datatype SocketEvent = SocketEvent(err: bool, readable: bool, writable: bool, now: int,
                                     before: Kernel, sends: seq<SendResult>, after: Kernel, recv: RecvResult,
                                     filter: Filter, rstOk: bool, ackOk: bool, dataOk: bool)

  datatype Event =
    | FromTun(p: Packet, now: int, ok: bool)
    | FromSocket(e: SocketEvent)
    | Monitor(ms: int, kernel: Kernel, ctlOk: bool, ok: bool)
    | Sweep(now: int, timeout: int, ok: bool)
    | Disallow(ok: bool)

  predicate Closed(s: State) {
    s.Closing? || s.Close?
  }

  // ---- Windows ----

  /** A 32-bit left shift. C leaves shifts by 32 or more undefined. */
  function Shl32(x: u32, s: nat): u32 {
    Wrap(x * Pow2(s))
  }

  /** `get_send_window`. */
  function SendWindow(t: Tcp): u32 {
    var behind := if t.acked <= t.localSeq then t.localSeq - t.acked
                  else Wrap(0x10000 + t.localSeq - t.acked);
    var total := Wrap(behind + (t.unconfirmed + 1) * 40);
    if total < t.sendWindow then t.sendWindow - total else 0
  }

  /** `get_receive_buffer`. */
  function ReceiveBuffer(open: bool, k: Kernel): BufferSize {
    var sendbuf := if k.sendbuf == 0 then SEND_BUF_DEFAULT else k.sendbuf;
    if !open then 0 else if k.unsent < sendbuf then sendbuf - k.unsent else 0
  }

  /** The bytes `get_receive_window` counts as queued, without the 32-bit wrap. */
  function ToForward(q: seq<Segment>): int {
    if q == [] then 0 else |q[0].data| - q[0].sent + ToForward(q[1..])
  }

  /** `get_receive_window`. */
  function ReceiveWindow(t: Tcp, k: Kernel): u32 {
    var room := ReceiveBuffer(t.open, k);
    var max := Shl32(0xFFFF, t.recvScale);
    var window := if room > max then max else room;
    var toForward := Wrap(ToForward(t.forward));
    if toForward < window then window - toForward else 0
  }

  /** The initial sequence numbers never change. */
  predicate SameStart(a: Machine, b: Machine) {
    a.t.remoteStart == b.t.remoteStart && a.t.localStart == b.t.localStart
  }

  // ---- Writing to the tun device ----

  /** The header fields `write_tcp` sets. */
  function Outgoing(t: Tcp, data: Payload, syn: bool, ack: bool, fin: bool, rst: bool): Packet {
    Packet(t.localSeq, if ack then t.remoteSeq else 0, (t.recvWindow / Pow2(t.recvScale)) % TWO16, data,
           false, ack, false, rst, syn, fin)
  }

  /** `write_tcp`. */
  function WriteTcp(m: Machine, p: Packet, ok: bool): Machine {
    if ok then m.(log := m.log.(out := m.log.out + [p])) else m
  }

  /** `write_syn_ack`, `write_ack`, `write_data` and `write_fin_ack`. */
  function WriteOrClose(m: Machine, data: Payload, syn: bool, fin: bool, ok: bool): (r: Machine)
    ensures SameStart(m, r)
  {
    var m1 := WriteTcp(m, Outgoing(m.t, data, syn, true, fin, false), ok);
    if ok then m1 else m1.(t := m1.t.(state := Closing))
  }

  function WriteAck(m: Machine, ok: bool): Machine {
    WriteOrClose(m, [], false, false, ok)
  }

  lemma AckState(m: Machine, ok: bool)
    ensures WriteAck(m, ok).t.state == if ok then m.t.state else Closing
  {
  }

  function CountSyn(m: Machine): Machine {
    m.(t := m.t.(remoteSeq := Wrap(m.t.remoteSeq + 1)), log := m.log.(synIn := m.log.synIn + 1))
  }

  function CountFin(m: Machine): Machine {
    m.(t := m.t.(remoteSeq := Wrap(m.t.remoteSeq + 1)), log := m.log.(finIn := m.log.finIn + 1))
  }

  /** `write_rst`. */
  function WriteRst(m: Machine, ok: bool): (r: Machine)
    ensures SameStart(m, r)
  {
    var listening := m.t.state.Listen?;
    var m1 := if listening then CountSyn(m) else m;
    var m2 := WriteTcp(m1, Outgoing(m1.t, [], false, listening, false, true), ok);
    if m2.t.state.Close? then m2 else m2.(t := m2.t.(state := Closing))
  }

  // ---- handle_tcp ----

  /** The session registered for a SYN. */
  function NewSession(p: Packet, mss: u16, ws: u8, isn: u32, now: int, k: Kernel): Machine {
    var forward := if p.data == [] then [] else [Segment(p.seqno, p.data, 0, p.psh)];
    var t := Tcp(Listen, true, now, mss, ws, ws, 0, Shl32(p.window, ws), 0,
                 p.seqno, isn, p.seqno, isn, 0, 0, 0, 0, false, true, forward);
    Machine(t.(recvWindow := ReceiveWindow(t, k)), Log([], [], [], [], [], 0, 0))
  }

  /** A FIN whose acknowledgement number is current. Its sequence number is not looked at. */
  function TakeFin(m: Machine, ok: bool): (r: Machine)
    ensures SameStart(m, r)
  {
    match m.t.state
    case Established =>
      if m.t.forward == [] then
        var m1 := WriteAck(CountFin(m), ok);
        if ok then m1.(t := m1.t.(state := CloseWait)) else m1
      else m.(t := m.t.(state := CloseWait))
    case FinWait1 =>
      var m1 := WriteAck(CountFin(m), ok);
      if ok then m1.(t := m1.t.(state := Close)) else m1
    case _ => m
  }

  /** An acknowledgement of everything sent. */
  function TakeAck(m: Machine, ackno: u32): Machine {
    var t := m.t.(acked := ackno);
    m.(t := if t.state.SynRecv? then t.(state := Established)
            else if t.state.LastAck? then t.(state := Closing)
            else t)
  }

  /** An acknowledgement number other than the current one: keep alive, repeated, previous, future. */
  function TakeOtherAck(m: Machine, ackno: u32, ok: bool): (r: Machine)
    ensures SameStart(m, r)
  {
    if Wrap(ackno + 1) == m.t.localSeq then m
    else if CompareU32(ackno, m.t.localSeq) < 0 then
      if CompareU32(ackno, m.t.acked) <= 0 then m else m.(t := m.t.(acked := ackno))
    else WriteRst(m, ok)
  }

  /** Time stamp, send window and unconfirmed count, set for every packet of a live session. */
  function Refresh(m: Machine, p: Packet, now: int): Machine {
    m.(t := m.t.(time := if p.syn then m.t.time else now,
                 sendWindow := Shl32(p.window, m.t.sendScale), unconfirmed := 0))
  }

  function Enqueue(m: Machine, p: Packet): Machine {
    if p.data == [] then m
    else m.(t := m.t.(forward := QueueTcp(m.t.forward, m.t.remoteSeq, p.seqno, p.data, p.psh)))
  }

  function TakeFlags(m: Machine, p: Packet, ok: bool): (r: Machine)
    ensures SameStart(m, r)
  {
    if p.rst then m.(t := m.t.(state := Closing))
    else if !p.ack || p.ackno == m.t.localSeq then
      if p.syn then m
      else if p.fin then TakeFin(m, ok)
      else if p.ack then TakeAck(m, p.ackno)
      else m
    else TakeOtherAck(m, p.ackno, ok)
  }

  /** `handle_tcp` on a known session. */
  function HandleTcp(m: Machine, p: Packet, now: int, ok: bool): (r: Machine)
    ensures SameStart(m, r)
  {
    if p.urg then m
    else if Closed(m.t.state) then WriteRst(m, ok)
    else
      var m1 := Refresh(m, p, now);
      if p.data != [] && (!m1.t.open || m1.t.state.CloseWait?) then WriteRst(m1, ok)
      else TakeFlags(Enqueue(m1, p), p, ok)
  }

  // ---- check_tcp_socket ----

  /** The connect finished: count the SYN and answer it. */
  function Connected(m: Machine, now: int, ok: bool): (r: Machine)
    ensures SameStart(m, r)
  {
    var m1 := WriteOrClose(CountSyn(m), [], true, false, ok);
    if ok then m1.(t := m1.t.(time := now, localSeq := Wrap(m1.t.localSeq + 1), state := SynRecv)) else m1
  }

  /** m after the socket took what d says. */
  function AfterDrain(m: Machine, d: Drained): Machine {
    m.(t := m.t.(forward := d.rest, remoteSeq := d.remote, sent := m.t.sent + |d.accepted|),
       log := m.log.(accepted := m.log.accepted + d.accepted))
  }

  /** Forward queued data; the flag says whether any `send` succeeded. */
  function Forward(m: Machine, k: Kernel, sends: seq<SendResult>, ok: bool): (r: (Machine, bool))
    ensures SameStart(m, r.0)
  {
    var d := Drain(m.t.forward, m.t.remoteSeq, ReceiveBuffer(m.t.open, k), sends);
    var m1 := AfterDrain(m, d);
    (if d.broken then WriteRst(m1, ok) else m1, d.fwd)
  }

  /** Count a FIN that waited for the queue to empty. */
  function ConfirmFin(m: Machine, fwd: bool): Machine {
    if fwd && m.t.forward == [] && m.t.state.CloseWait? then CountFin(m) else m
  }

  /** Update the receive window and acknowledge what was forwarded. */
  function Acknowledge(m: Machine, fwd: bool, k: Kernel, now: int, ok: bool): (r: Machine)
    ensures SameStart(m, r)
  {
    var window := ReceiveWindow(m.t, k);
    var m1 := m.(t := m.t.(recvWindow := window));
    if fwd || (m.t.recvWindow == 0 && window > 0) then
      var m2 := WriteAck(ConfirmFin(m1, fwd), ok);
      if ok then m2.(t := m2.t.(time := now)) else m2
    else m1
  }

  function TakeEof(m: Machine, ok: bool): (r: Machine)
    ensures SameStart(m, r)
  {
    var m1 :=
      if m.t.forward == [] then
        var m0 := WriteOrClose(m, [], false, true, ok);
        var t := if ok then m0.t.(localSeq := Wrap(m0.t.localSeq + 1)) else m0.t;
        m0.(t := if t.state.Established? then t.(state := FinWait1)
                 else if t.state.CloseWait? then t.(state := LastAck)
                 else t)
      else WriteRst(m, ok);
    m1.(t := m1.t.(open := false))
  }

  /** What is passed on of the bytes of one read. */
  function Shown(b: Payload, filter: Filter): (r: Payload)
    ensures |r| == |b|
  {
    D.Shown(b, filter)
  }

  /** The bytes b were read and are passed on as shown. */
  function TakeBytes(m: Machine, b: Payload, shown: Payload, ok: bool): (r: Machine)
    ensures SameStart(m, r)
  {
    var m1 := m.(t := m.t.(received := m.t.received + |b|),
                 log := m.log.(fetched := m.log.fetched + b, shown := m.log.shown + shown));
    var m2 := WriteOrClose(m1, shown, false, false, ok);
    if ok then m2.(t := m2.t.(localSeq := Wrap(m2.t.localSeq + |b|), unconfirmed := (m2.t.unconfirmed + 1) % TWO16))
    else m2
  }

  /** Read from the socket at most what the send window and the MSS allow. */
  function Fetch(m: Machine, recv: RecvResult, filter: Filter, now: int, ok: bool): (r: Machine)
    ensures SameStart(m, r)
  {
    var window := SendWindow(m.t);
    var size := if window > m.t.mss then m.t.mss else window;
    var m1 := m.(t := m.t.(time := now));
    match recv
    case RecvError(retry) => if retry then m1 else WriteRst(m1, ok)
    case Bytes(data) =>
      var b := if |data| <= size then data else data[..size];
      if b == [] then TakeEof(m1, ok) else TakeBytes(m1, b, Shown(b, filter), ok)
  }

  predicate MayFetch(t: Tcp, readable: bool) {
    (t.state.Established? || t.state.CloseWait?) && readable && SendWindow(t) > 0
  }

  /** The part of `check_tcp_socket` for a connected socket. */
  function Transfer(m: Machine, e: SocketEvent): (r: Machine)
    ensures SameStart(m, r)
  {
    var (m1, fwd) := if e.writable then Forward(m, e.before, e.sends, e.rstOk) else (m, false);
    var m2 := Acknowledge(m1, fwd, e.after, e.now, e.ackOk);
    if MayFetch(m2.t, e.readable) then Fetch(m2, e.recv, e.filter, e.now, e.dataOk) else m2
  }

  /** `check_tcp_socket`. */
  function CheckTcpSocket(m: Machine, e: SocketEvent): (r: Machine)
    ensures SameStart(m, r)
  {
    if e.err then WriteRst(m.(t := m.t.(time := e.now)), e.rstOk)
    else if m.t.state.Listen? then if e.writable then Connected(m, e.now, e.ackOk) else m
    else Transfer(m, e)
  }

  // ---- monitor_tcp_session, check_tcp_session, check_allowed ----

  /** An acknowledgement one short of the current one makes the client repeat its window. */
  function KeepAlive(m: Machine, ms: int, ok: bool): (r: Machine)
    ensures SameStart(m, r)
  {
    if ms - m.t.lastKeepAlive > EPOLL_MIN_CHECK then
      var m1 := WriteAck(m.(t := m.t.(lastKeepAlive := ms, remoteSeq := Wrap(m.t.remoteSeq - 1))), ok);
      m1.(t := m1.t.(remoteSeq := Wrap(m1.t.remoteSeq + 1)))
    else m
  }

  /** Whether the forwarding loop would run. */
  predicate CanForward(t: Tcp, k: Kernel) {
    t.forward != [] && t.forward[0].seqno == t.remoteSeq && Fits(t.forward[0], ReceiveBuffer(t.open, k))
  }

  function SetInterest(m: Machine, wantIn: bool, wantOut: bool, ctlOk: bool): Machine {
    if wantIn == m.t.wantIn && wantOut == m.t.wantOut then m
    else
      var t := m.t.(wantIn := wantIn, wantOut := wantOut);
      m.(t := if ctlOk then t else t.(state := Closing))
  }

  /** `monitor_tcp_session`; the flag asks for a quick recheck. */
  function MonitorTcp(m: Machine, ms: int, k: Kernel, ctlOk: bool, ok: bool): (r: (Machine, bool))
    ensures SameStart(m, r.0)
  {
    if m.t.state.Listen? then (SetInterest(m, false, true, ctlOk), false)
    else if m.t.state.Established? || m.t.state.CloseWait? then
      var roomy := SendWindow(m.t) > 0;
      var m1 := if roomy then m else KeepAlive(m, ms, ok);
      var out := CanForward(m1.t, k);
      (SetInterest(m1, roomy, out, ctlOk), !roomy || (m1.t.forward != [] && !out))
    else (SetInterest(m, false, false, ctlOk), false)
  }

  /** `get_tcp_timeout`. */
  function TcpTimeout(s: State, sessions: nat, maxsessions: nat): int
    requires maxsessions > 0
  {
    var base := if s.Listen? || s.SynRecv? then TCP_INIT_TIMEOUT
                else if s.Established? then TCP_IDLE_TIMEOUT
                else TCP_CLOSE_TIMEOUT;
    Truncated(base * (100 - sessions * 100 / maxsessions))
  }

  /** C division by 100, which truncates toward zero. */
  function Truncated(x: int): int {
    if x >= 0 then x / 100 else -(-x / 100)
  }

  function Expire(m: Machine, now: int, timeout: int, ok: bool): Machine {
    if !Closed(m.t.state) && m.t.time + timeout < now then
      if m.t.state.Listen? then m.(t := m.t.(state := Closing)) else WriteRst(m, ok)
    else m
  }

  function CloseSocket(m: Machine, now: int): Machine {
    if m.t.state.Closing? then m.(t := m.t.(open := false, time := now, state := Close)) else m
  }

  function Account(m: Machine): Machine {
    if Closed(m.t.state) && (m.t.sent > 0 || m.t.received > 0) then
      Machine(m.t.(sent := 0, received := 0),
              m.log.(usage := m.log.usage + [Usage(m.t.sent, m.t.received)]))
    else m
  }

  /** `check_tcp_session`; the flag says the session is to be freed. */
  function CheckTcpSession(m: Machine, now: int, timeout: int, ok: bool): (r: (Machine, bool))
    ensures SameStart(m, r.0)
  {
    var m1 := Account(CloseSocket(Expire(m, now, timeout, ok), now));
    (m1, m1.t.state.Close? && m1.t.time + TCP_KEEP_TIMEOUT < now)
  }

  /** `check_allowed`, when the owner of the session lost its permission. */
  function DisallowTcp(m: Machine, ok: bool): (r: Machine)
    ensures SameStart(m, r)
  {
    if Closed(m.t.state) then m else WriteRst(m, ok)
  }

  // ---- Runs ----

  /** One step. The socket is polled and delivers events only while it is open. */
  function Step(m: Machine, e: Event): (r: Machine)
    ensures SameStart(m, r)
  {
    match e
    case FromTun(p, now, ok) => HandleTcp(m, p, now, ok)
    case FromSocket(ev) => if m.t.open then CheckTcpSocket(m, ev) else m
    case Monitor(ms, k, ctlOk, ok) => if m.t.open then MonitorTcp(m, ms, k, ctlOk, ok).0 else m
    case Sweep(now, timeout, ok) => CheckTcpSession(m, now, timeout, ok).0
    case Disallow(ok) => DisallowTcp(m, ok)
  }

  function Run(m: Machine, es: seq<Event>): (r: Machine)
    ensures SameStart(m, r)
    decreases |es|
  {
    if es == [] then m else Run(Step(m, es[0]), es[1..])
  }

  lemma {:induction false} RunsOn(m: Machine, xs: seq<Event>, ys: seq<Event>)
    ensures Run(m, xs + ys) == Run(Run(m, xs), ys)
    decreases |xs|
  {
    hide Step;
    if xs == [] {
      assert xs + ys == ys;
    } else {
      assert (xs + ys)[1..] == xs[1..] + ys;
      RunsOn(Step(m, xs[0]), xs[1..], ys);
    }
  }
}
