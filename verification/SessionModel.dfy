/** The sessions of session.c: one list of ICMP, UDP and TCP sessions, swept, polled and searched. */
module SessionModel {
  import opened Wrappers
  import opened Words
  import opened Reassembly
  import M = TcpModel
  import U = Udp

  const EPOLL_TIMEOUT := 3600
  const ICMP_TIMEOUT := 5

  datatype Key = Key(version: u8, saddr: Bytes, source: u16, daddr: Bytes, dest: u16)

  datatype Icmp = Icmp(version: u8, saddr: Bytes, daddr: Bytes, stop: bool, open: bool, time: int)

  /** `struct ng_session`. */
  datatype Session =
    | IcmpSession(icmp: Icmp)
    | UdpSession(key: Key, udp: U.Machine)
    | TcpSession(key: Key, tcp: M.Machine)

  /** How full the table is. */
  datatype Load = Load(sessions: nat, max: nat)

  type Full = l: Load | l.max > 0 witness Load(0, 1)

  /** The sessions that are counted, and that the wait is computed for. */
  predicate Live(s: Session) {
    match s
    case IcmpSession(icmp) => !icmp.stop
    case UdpSession(_, udp) => udp.u.state.Active?
    case TcpSession(_, tcp) => !M.Closed(tcp.t.state)
  }

  function Count(ss: seq<Session>): nat {
    if ss == [] then 0 else Count(ss[1..]) + if Live(ss[0]) then 1 else 0
  }

  // ---- Timeouts ----

  function Base(s: Session): nat {
    match s
    case IcmpSession(_) => ICMP_TIMEOUT
    case UdpSession(_, udp) => if udp.u.dest == U.DNS_PORT then U.UDP_TIMEOUT_53 else U.UDP_TIMEOUT_ANY
    case TcpSession(_, tcp) =>
      if tcp.t.state.Listen? || tcp.t.state.SynRecv? then M.TCP_INIT_TIMEOUT
      else if tcp.t.state.Established? then M.TCP_IDLE_TIMEOUT
      else M.TCP_CLOSE_TIMEOUT
  }

  /** `get_icmp_timeout`, `get_udp_timeout` and `get_tcp_timeout`. */
  function Timeout(s: Session, load: Full): int {
    match s
    case IcmpSession(_) => M.Truncated(ICMP_TIMEOUT * (100 - load.sessions * 100 / load.max))
    case UdpSession(_, udp) => U.UdpTimeout(udp.u.dest, load.sessions, load.max)
    case TcpSession(_, tcp) => M.TcpTimeout(tcp.t.state, load.sessions, load.max)
  }

  function Time(s: Session): int {
    match s
    case IcmpSession(icmp) => icmp.time
    case UdpSession(_, udp) => udp.u.time
    case TcpSession(_, tcp) => tcp.t.time
  }

  predicate Expired(s: Session, now: int, load: Full) {
    Time(s) + Timeout(s, load) < now
  }

  /** Seconds to sleep until the session is expired. */
  function Remaining(s: Session, now: int, load: Full): int {
    Time(s) + Timeout(s, load) - now + 1
  }

  // ---- One session ----

  /** `check_icmp_session`. */
  function CheckIcmp(i: Icmp, now: int, timeout: int): (Icmp, bool) {
    if i.stop || i.time + timeout < now then (i.(open := false), true) else (i, false)
  }

  /** `check_icmp_session`, `check_udp_session` or `check_tcp_session`. */
  function Check(s: Session, now: int, load: Full, ok: bool): (Session, bool) {
    var timeout := Timeout(s, load);
    match s
    case IcmpSession(icmp) => var (i, del) := CheckIcmp(icmp, now, timeout); (IcmpSession(i), del)
    case UdpSession(key, udp) => var (u, del) := U.CheckUdpSession(udp, now, timeout); (UdpSession(key, u), del)
    case TcpSession(key, tcp) => var (t, del) := M.CheckTcpSession(tcp, now, timeout, ok); (TcpSession(key, t), del)
  }

  /** What `monitor_tcp_session` asks the kernel. */
  datatype Poll = Poll(kernel: M.Kernel, ctlOk: bool, ok: bool)

  /** The part of the counting loop that watches open TCP sessions. */
  function Watch(s: Session, ms: int, p: Poll): (Session, bool) {
    if s.TcpSession? && s.tcp.t.open then
      var (t, recheck) := M.MonitorTcp(s.tcp, ms, p.kernel, p.ctlOk, p.ok);
      (TcpSession(s.key, t), recheck)
    else (s, false)
  }

  datatype Verdict = Verdict(allowed: bool, ok: bool)

  /** `check_allowed` for one session; a blocked UDP session is removed. */
  function Judge(s: Session, v: Verdict): Option<Session> {
    match s
    case IcmpSession(icmp) => Some(if !icmp.stop && !v.allowed then IcmpSession(icmp.(stop := true)) else s)
    case UdpSession(key, udp) =>
      if udp.u.state.Blocked? then None
      else Some(if v.allowed then s else UdpSession(key, U.DisallowUdp(udp)))
    case TcpSession(key, tcp) => Some(if v.allowed then s else TcpSession(key, M.DisallowTcp(tcp, v.ok)))
  }

  // ---- Loops over the list ----

  /** The values that are there, in order. */
  function Somes<T>(os: seq<Option<T>>): (r: seq<T>)
    ensures |r| <= |os|
  {
    if os == [] then []
    else
      var front, last := Somes(os[..|os| - 1]), os[|os| - 1];
      if last.Some? then front + [last.value] else front
  }

  function Outcome(s: Session, now: int, load: Full, ok: bool): Option<Session> {
    var (r, del) := Check(s, now, load, ok);
    if del then None else Some(r)
  }

  function Outcomes(ss: seq<Session>, now: int, load: Full, oks: seq<bool>): (r: seq<Option<Session>>)
    requires |oks| == |ss|
    ensures |r| == |ss| && forall i :: 0 <= i < |r| ==> r[i] == Outcome(ss[i], now, load, oks[i])
  {
    seq(|ss|, i requires 0 <= i < |ss| => Outcome(ss[i], now, load, oks[i]))
  }

  function Judged(ss: seq<Session>, vs: seq<Verdict>): (r: seq<Option<Session>>)
    requires |vs| == |ss|
    ensures |r| == |ss| && forall i :: 0 <= i < |r| ==> r[i] == Judge(ss[i], vs[i])
  {
    seq(|ss|, i requires 0 <= i < |ss| => Judge(ss[i], vs[i]))
  }

  function Watched(ss: seq<Session>, ms: int, ps: seq<Poll>): (r: seq<Session>)
    requires |ps| == |ss|
    ensures |r| == |ss| && forall i :: 0 <= i < |r| ==> r[i] == Watch(ss[i], ms, ps[i]).0
  {
    seq(|ss|, i requires 0 <= i < |ss| => Watch(ss[i], ms, ps[i]).0)
  }

  /** The list after the sweep. */
  function Swept(ss: seq<Session>, now: int, load: Full, oks: seq<bool>): seq<Session>
    requires |oks| == |ss|
  {
    Somes(Outcomes(ss, now, load, oks))
  }

  /** The queued segments of the TCP sessions that the sweep removes. */
  function Freed(ss: seq<Session>, now: int, load: Full, oks: seq<bool>): seq<Segment>
    requires |oks| == |ss|
  {
    if ss == [] then []
    else
      var (s, del) := Check(ss[0], now, load, oks[0]);
      (if s.TcpSession? && del then s.tcp.t.forward else []) + Freed(ss[1..], now, load, oks[1..])
  }

  /** The running minimum of the sweep. */
  function Shorter(wait: int, s: Session, now: int, load: Full): int {
    if Live(s) && 0 < Remaining(s, now, load) < wait then Remaining(s, now, load) else wait
  }

  /** The wait after the given kept sessions. */
  function Wait(kept: seq<Session>, now: int, load: Full): int {
    if kept == [] then EPOLL_TIMEOUT
    else Shorter(Wait(kept[..|kept| - 1], now, load), kept[|kept| - 1], now, load)
  }

  /** One more outcome at the end. */
  lemma SomesLast<T>(os: seq<Option<T>>, i: nat)
    requires i < |os|
    ensures Somes(os[..i + 1]) == if os[i].Some? then Somes(os[..i]) + [os[i].value] else Somes(os[..i])
  {
    assert os[..i + 1][..i] == os[..i];
  }

  /** The positions p hold the values r, in order, and all of them. */
  ghost predicate InOrder<T>(os: seq<Option<T>>, r: seq<T>, p: seq<nat>) {
    && |p| == |r|
    && (forall k :: 0 <= k < |p| ==> p[k] < |os| && os[p[k]] == Some(r[k]))
    && (forall j, k :: 0 <= j < k < |p| ==> p[j] < p[k])
    && (forall i :: 0 <= i < |os| && os[i].Some? ==> i in p)
  }

  lemma InOrderLast<T>(os: seq<Option<T>>, r: seq<T>, p: seq<nat>, o: Option<T>)
    requires InOrder(os, r, p)
    ensures o == None ==> InOrder(os + [o], r, p)
    ensures o.Some? ==> InOrder(os + [o], r + [o.value], p + [|os|])
  {
    var q := p + [|os|];
    assert forall i :: i in p ==> i in q;
    assert q[|p|] in q;
  }

  lemma {:induction false} SomesInOrder<T>(os: seq<Option<T>>) returns (p: seq<nat>)
    ensures InOrder(os, Somes(os), p)
  {
    if os == [] {
      p := [];
    } else {
      hide Somes, InOrder;
      var n := |os| - 1;
      p := SomesInOrder(os[..n]);
      InOrderLast(os[..n], Somes(os[..n]), p, os[n]);
      SomesLast(os, n);
      assert os[..n] + [os[n]] == os == os[..n + 1];
      if os[n].Some? {
        p := p + [n];
      }
    }
  }

  /** The swept list is the list of sessions that are not to be freed, in the original order. */
  lemma SweepIsFilter(ss: seq<Session>, now: int, load: Full, oks: seq<bool>) returns (p: seq<nat>)
    requires |oks| == |ss|
    ensures var r := Swept(ss, now, load, oks);
            && |p| == |r|
            && (forall j, k :: 0 <= j < k < |p| ==> p[j] < p[k])
            && (forall k :: 0 <= k < |p| ==> p[k] < |ss| && r[k] == Check(ss[p[k]], now, load, oks[p[k]]).0)
            && (forall i :: 0 <= i < |ss| ==> (i in p <==> !Check(ss[i], now, load, oks[i]).1))
  {
    hide Check, Somes;
    var os := Outcomes(ss, now, load, oks);
    p := SomesInOrder(os);
    forall i | 0 <= i < |ss| && i in p
      ensures !Check(ss[i], now, load, oks[i]).1
    {
      var k :| 0 <= k < |p| && p[k] == i;
      assert os[i] == Outcome(ss[i], now, load, oks[i]);
    }
  }

  // ---- Timing ----

  lemma ScaledMonotone(base: nat, a: int, b: int)
    requires a <= b
    ensures M.Truncated(base * a) <= M.Truncated(base * b)
  {
    hide M.Truncated;
    ProductGrows(base, a, b);
    TruncatedMonotone(base * a, base * b);
  }

  lemma ProductGrows(base: nat, a: int, b: int)
    requires a <= b
    ensures base * a <= base * b
  {
  }

  lemma TruncatedMonotone(x: int, y: int)
    requires x <= y
    ensures M.Truncated(x) <= M.Truncated(y)
  {
  }

  lemma Cancel(r: int, q: int, d: nat)
    requires d > 0 && r * d < (q + 1) * d
    ensures r <= q
  {
  }

  lemma DivMonotone(x: nat, y: nat, d: nat)
    requires d > 0 && x <= y
    ensures x / d <= y / d
  {
    assert x == (x / d) * d + x % d && y == (y / d) * d + y % d;
    Cancel(x / d, y / d, d);
  }

  /** How much of a timeout a table of this load leaves, in percent: less than nothing if it holds more than the
      maximum of sessions, which nothing prevents. */
  function Percent(load: Full): int {
    100 - load.sessions * 100 / load.max
  }

  lemma TimeoutIsScaled(s: Session, load: Full)
    ensures Timeout(s, load) == M.Truncated(Base(s) * Percent(load))
  {
  }

  lemma TruncatedWhole(base: nat)
    ensures M.Truncated(base * 100) == base
  {
  }

  /** A fuller table never has longer timeouts, and none is longer than its full length. A timeout is negative
      if and only if what the table is over the maximum takes a whole second of it. */
  lemma TimeoutShrinksWithLoad(s: Session, load: Full, fuller: Full)
    requires load.sessions <= fuller.sessions && load.max == fuller.max
    ensures Timeout(s, fuller) <= Timeout(s, load) <= Base(s)
    ensures Timeout(s, load) < 0 <==> Base(s) * (load.sessions * 100 / load.max - 100) >= 100
    ensures load.sessions <= load.max ==> 0 <= Timeout(s, load)
  {
    hide Timeout, Base, M.Truncated, Percent;
    TimeoutIsScaled(s, load);
    TimeoutIsScaled(s, fuller);
    PercentShrinks(load, fuller);
    ScaledMonotone(Base(s), Percent(fuller), Percent(load));
    ScaledMonotone(Base(s), Percent(load), 100);
    TruncatedWhole(Base(s));
    PercentOver(load);
    NegativeIff(Base(s), Percent(load));
    if load.sessions <= load.max {
      ScaledMonotone(Base(s), 0, Percent(load));
      TruncatedNone(Base(s));
    }
  }

  /** How long a session may be silent, in seconds, while the table is empty: what its timeout shrinks from. */
  lemma FullTimeouts(s: Session, max: nat)
    requires max > 0
    ensures Timeout(s, Load(0, max)) ==
            match s
            case IcmpSession(_) => 5
            case UdpSession(_, udp) => if udp.u.dest == 53 then 15 else 300
            case TcpSession(_, tcp) =>
              match tcp.t.state
              case Established => 3600
              case _ => 20
  {
  }

  lemma PercentShrinks(load: Full, fuller: Full)
    requires load.sessions <= fuller.sessions && load.max == fuller.max
    ensures Percent(fuller) <= Percent(load) <= 100
  {
    DivMonotone(load.sessions * 100, fuller.sessions * 100, load.max);
    DivMonotone(0, load.sessions * 100, load.max);
  }

  lemma PercentOver(load: Full)
    ensures 0 - Percent(load) == load.sessions * 100 / load.max - 100
    ensures load.sessions <= load.max ==> Percent(load) >= 0
  {
    if load.sessions <= load.max {
      DivMonotone(load.sessions * 100, load.max * 100, load.max);
    }
  }

  lemma TruncatedNone(base: nat)
    ensures M.Truncated(base * 0) == 0
  {
  }

  lemma NegativeIff(base: nat, percent: int)
    ensures M.Truncated(base * percent) < 0 <==> base * (0 - percent) >= 100
  {
    assert base * (0 - percent) == -(base * percent);
  }

  /** A session that is live after its check was not expired, and the check did not touch it. */
  lemma LiveAfterCheck(s: Session, now: int, load: Full, ok: bool)
    requires Live(Check(s, now, load, ok).0) && !Check(s, now, load, ok).1
    ensures Check(s, now, load, ok).0 == s && !Expired(s, now, load)
  {
    hide M.WriteRst, M.Truncated;
    ResetCloses(s, ok);
  }

  lemma ResetCloses(s: Session, ok: bool)
    ensures s.TcpSession? ==> M.Closed(M.WriteRst(s.tcp, ok).t.state)
  {
  }

  /** An expired session does not survive its check alive. */
  lemma ExpiredDies(s: Session, now: int, load: Full, ok: bool)
    requires Expired(s, now, load)
    ensures Check(s, now, load, ok).1 || !Live(Check(s, now, load, ok).0)
  {
    if !Check(s, now, load, ok).1 && Live(Check(s, now, load, ok).0) {
      LiveAfterCheck(s, now, load, ok);
    }
  }

  lemma {:induction false} WaitIsLeast(kept: seq<Session>, now: int, load: Full)
    requires forall s <- kept :: Live(s) ==> Remaining(s, now, load) >= 1
    ensures 1 <= Wait(kept, now, load) <= EPOLL_TIMEOUT
    ensures forall s <- kept :: Live(s) ==> Wait(kept, now, load) <= Remaining(s, now, load)
    ensures Wait(kept, now, load) < EPOLL_TIMEOUT ==>
              exists s :: s in kept && Live(s) && Remaining(s, now, load) == Wait(kept, now, load)
  {
    hide Remaining, Live;
    if kept != [] {
      var front, last := kept[..|kept| - 1], kept[|kept| - 1];
      assert forall s <- front :: s in kept;
      assert last in kept;
      WaitIsLeast(front, now, load);
      assert kept == front + [last];
      var w := Wait(front, now, load);
      if w < EPOLL_TIMEOUT && Wait(kept, now, load) == w {
        var s :| s in front && Live(s) && Remaining(s, now, load) == w;
        assert s in kept;
      }
    }
  }

  lemma SurvivorsRemain(ss: seq<Session>, now: int, load: Full, oks: seq<bool>)
    requires |oks| == |ss|
    ensures forall s <- Swept(ss, now, load, oks) :: Live(s) ==> Remaining(s, now, load) >= 1
  {
    hide Check, Live, Timeout, Swept;
    var p := SweepIsFilter(ss, now, load, oks);
    var r := Swept(ss, now, load, oks);
    forall k | 0 <= k < |r| && Live(r[k])
      ensures Remaining(r[k], now, load) >= 1
    {
      LiveAfterCheck(ss[p[k]], now, load, oks[p[k]]);
    }
  }

  /** The session stays unexpired while the loop sleeps. */
  ghost predicate Undisturbed(s: Session, now: int, wait: int, load: Full) {
    forall t :: now <= t < now + wait ==> !Expired(s, t, load)
  }

  /** Its check ends the session, whether or not the reset can be written. */
  ghost predicate Ends(s: Session, now: int, load: Full) {
    forall ok :: var (r, del) := Check(s, now, load, ok); del || !Live(r)
  }

  /** After a sweep every live session has at least a second left. The wait is the least of 3600 seconds
      and what is left of any of them: no live session expires while the loop sleeps that long, and
      unless it is 3600, the first check after that sleep at the same load ends a session. */
  lemma SleepUntilFirstExpiry(ss: seq<Session>, now: int, load: Full, oks: seq<bool>)
    requires |oks| == |ss|
    ensures var kept := Swept(ss, now, load, oks);
            var wait := Wait(kept, now, load);
            && 1 <= wait <= 3600
            && (forall s <- kept :: Live(s) ==> Remaining(s, now, load) >= 1)
            && (forall s <- kept :: Live(s) ==> Undisturbed(s, now, wait, load))
            && (wait < 3600 ==>
                  exists s :: s in kept && Live(s) && Ends(s, now + wait, load))
  {
    hide Check, Live, Timeout, Swept, Wait, Ends;
    SurvivorsRemain(ss, now, load, oks);
    var kept := Swept(ss, now, load, oks);
    WaitIsLeast(kept, now, load);
    var wait := Wait(kept, now, load);
    if wait < EPOLL_TIMEOUT {
      var s :| s in kept && Live(s) && Remaining(s, now, load) == wait;
      ExpiredEnds(s, now + wait, load);
    }
  }

  lemma ExpiredEnds(s: Session, now: int, load: Full)
    requires Expired(s, now, load)
    ensures Ends(s, now, load)
  {
    hide Check, Expired, Live;
    forall ok
      ensures var (r, del) := Check(s, now, load, ok); del || !Live(r)
    {
      ExpiredDies(s, now, load, ok);
    }
  }

  /** In a table that is too full the next sweep ends every session whose timeout is negative, however recently
      it was active, whether or not the reset can be written. */
  lemma NegativeTimeoutEnds(s: Session, now: int, load: Full)
    requires Time(s) <= now && Base(s) * (load.sessions * 100 / load.max - 100) >= 100
    ensures Ends(s, now, load)
  {
    hide Ends, Timeout, Base;
    TimeoutShrinksWithLoad(s, load, load);
    ExpiredEnds(s, now, load);
  }

  /** One session more than a maximum of 100: an established connection that was active this very second ends. */
  lemma CrowdedTableEnds(s: Session, now: int)
    requires s.TcpSession? && s.tcp.t.state.Established? && Time(s) == now
    ensures Live(s) && Ends(s, now, Load(101, 100))
  {
    hide Ends;
    NegativeTimeoutEnds(s, now, Load(101, 100));
  }

  // ---- One session more exactly ----

  /** Exactly which sessions a sweep frees, and which of the others it leaves as they are. */
  lemma FreedIff(s: Session, now: int, load: Full, ok: bool)
    ensures var (r, freed) := Check(s, now, load, ok);
            && (freed <==>
                  match s
                  case IcmpSession(icmp) => icmp.stop || Expired(s, now, load)
                  case UdpSession(_, udp) =>
                    (udp.u.state.Closed? || udp.u.state.Blocked?) && udp.u.time + 60 < now
                  case TcpSession(_, tcp) => tcp.t.state.Close? && tcp.t.time + 300 < now)
            && (s.IcmpSession? && freed ==> r == IcmpSession(s.icmp.(open := false)))
            && (!freed ==> (Live(r) <==> Live(s) && !Expired(s, now, load)))
            && (Live(s) && !Expired(s, now, load) ==> r == s)
  {
    hide M.WriteRst, M.Truncated, Timeout;
    ResetCloses(s, ok);
    ResetsToClosing(s, ok);
  }

  /** The positions of the live sessions among the first n. */
  ghost function LiveAt(ss: seq<Session>, n: nat): set<int>
    requires n <= |ss|
  {
    set i | 0 <= i < n && Live(ss[i])
  }

  lemma {:induction false} CountLast(ss: seq<Session>, s: Session)
    ensures Count(ss + [s]) == Count(ss) + if Live(s) then 1 else 0
  {
    hide Live;
    if ss != [] {
      assert (ss + [s])[1..] == ss[1..] + [s];
      CountLast(ss[1..], s);
    } else {
      assert [] + [s] == [s] && [s][1..] == [];
    }
  }

  lemma {:induction false} CountBelow(ss: seq<Session>, n: nat)
    requires n <= |ss|
    ensures Count(ss[..n]) == |LiveAt(ss, n)|
  {
    hide Live, Count;
    if n == 0 {
      NothingCounted();
      assert LiveAt(ss, 0) == {};
    } else {
      CountBelow(ss, n - 1);
      CountLast(ss[..n - 1], ss[n - 1]);
      assert ss[..n - 1] + [ss[n - 1]] == ss[..n];
      OneMoreLive(ss, n - 1);
    }
  }

  lemma OneMoreLive(ss: seq<Session>, n: nat)
    requires n < |ss|
    ensures |LiveAt(ss, n + 1)| == |LiveAt(ss, n)| + if Live(ss[n]) then 1 else 0
  {
    hide Live;
    assert n !in LiveAt(ss, n);
    if Live(ss[n]) {
      assert LiveAt(ss, n + 1) == LiveAt(ss, n) + {n};
    } else {
      assert LiveAt(ss, n + 1) == LiveAt(ss, n);
    }
  }

  lemma NothingCounted()
    ensures Count([]) == 0
  {
  }

  /** The count that the timeouts are scaled by is the number of live sessions. */
  lemma CountIsLive(ss: seq<Session>)
    ensures Count(ss) == |LiveAt(ss, |ss|)|
  {
    hide Live, Count;
    CountBelow(ss, |ss|);
    assert ss[..|ss|] == ss;
  }

  /** A recheck is asked for exactly when an open session of a connection has its window closed, or data that the
      socket has no room for or that does not continue what was taken. */
  lemma WatchAsksIff(s: Session, ms: int, p: Poll)
    ensures Watch(s, ms, p).1 <==>
            && s.TcpSession? && s.tcp.t.open && (s.tcp.t.state.Established? || s.tcp.t.state.CloseWait?)
            && (M.SendWindow(s.tcp.t) == 0 || (s.tcp.t.forward != [] && !M.CanForward(s.tcp.t, p.kernel)))
  {
    hide M.SendWindow, M.WriteAck, M.ReceiveBuffer, Fits;
    if s.TcpSession? {
      KeepAliveSame(s.tcp, ms, p.ok);
    }
  }

  lemma KeepAliveSame(m: M.Machine, ms: int, ok: bool)
    ensures var r := M.KeepAlive(m, ms, ok).t;
            r.forward == m.t.forward && r.remoteSeq == m.t.remoteSeq && r.open == m.t.open
  {
    hide M.Outgoing;
    WrapAdd(m.t.remoteSeq - 1, 1);
  }

  /** What the permission check does to one session: a blocked UDP session is removed and no other; a session that is
      live stays so exactly if its owner is allowed to use the network; and all that is allowed or not live is kept as
      it is. */
  lemma JudgedIff(s: Session, v: Verdict)
    ensures var r := Judge(s, v);
            && (r == None <==> s.UdpSession? && s.udp.u.state.Blocked?)
            && (r.Some? ==> (Live(r.value) <==> Live(s) && v.allowed))
            && (r.Some? && (v.allowed || !Live(s)) ==> r.value == s)
            && (r.Some? && !v.allowed && Live(s) ==>
                  match s
                  case IcmpSession(icmp) => r.value == IcmpSession(icmp.(stop := true))
                  case UdpSession(key, udp) => r.value == UdpSession(key, udp.(u := udp.u.(state := U.Finishing)))
                  case TcpSession(key, tcp) => r.value.TcpSession? && r.value.key == key
                                               && r.value.tcp.t.state.Closing?)
  {
    hide M.WriteRst;
    ResetCloses(s, v.ok);
    ResetsToClosing(s, v.ok);
  }

  lemma ResetsToClosing(s: Session, ok: bool)
    ensures s.TcpSession? && !s.tcp.t.state.Close? ==> M.WriteRst(s.tcp, ok).t.state.Closing?
  {
  }

  /** The list after the permission check: every session but the blocked ones, in order, as judged. */
  lemma JudgedIsFilter(ss: seq<Session>, vs: seq<Verdict>) returns (p: seq<nat>)
    requires |vs| == |ss|
    ensures var r := Somes(Judged(ss, vs));
            && |p| == |r|
            && (forall j, k :: 0 <= j < k < |p| ==> p[j] < p[k])
            && (forall k :: 0 <= k < |p| ==>
                  p[k] < |ss| && (Live(r[k]) <==> Live(ss[p[k]]) && vs[p[k]].allowed)
                  && (vs[p[k]].allowed || !Live(ss[p[k]]) ==> r[k] == ss[p[k]]))
            && (forall i :: 0 <= i < |ss| ==> (i in p <==> !(ss[i].UdpSession? && ss[i].udp.u.state.Blocked?)))
  {
    hide Judge, Somes, Live;
    var os := Judged(ss, vs);
    p := SomesInOrder(os);
    forall i | 0 <= i < |ss|
      ensures i in p <==> !(ss[i].UdpSession? && ss[i].udp.u.state.Blocked?)
    {
      JudgedIff(ss[i], vs[i]);
      if i in p {
        var k :| 0 <= k < |p| && p[k] == i;
        assert os[i] == Judge(ss[i], vs[i]);
      }
    }
    forall k | 0 <= k < |p|
      ensures p[k] < |ss|
      ensures Live(Somes(os)[k]) <==> Live(ss[p[k]]) && vs[p[k]].allowed
      ensures vs[p[k]].allowed || !Live(ss[p[k]]) ==> Somes(os)[k] == ss[p[k]]
    {
      JudgedIff(ss[p[k]], vs[p[k]]);
      assert os[p[k]] == Judge(ss[p[k]], vs[p[k]]);
    }
  }
}
