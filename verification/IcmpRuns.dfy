/** ICMP sessions over whole runs of the table: at most one that is running for each pair of addresses. */
module IcmpRuns {
  import opened Words
  import opened SessionModel
  import opened SessionRuns
  import D = DnsResponse

  /** Two running sessions of one pair of addresses. */
  predicate Twins(a: Session, b: Session) {
    && a.IcmpSession? && b.IcmpSession? && !a.icmp.stop && !b.icmp.stop
    && a.icmp.version == b.icmp.version && a.icmp.saddr == b.icmp.saddr && a.icmp.daddr == b.icmp.daddr
  }

  predicate NoTwins(ss: seq<Session>) {
    forall i, j :: 0 <= i < j < |ss| ==> !Twins(ss[i], ss[j])
  }

  /** What the session a may become: it keeps its addresses and never runs again once it is stopped. */
  predicate Fades(a: Session, b: Session) {
    b.IcmpSession? ==>
      && a.IcmpSession? && a.icmp.version == b.icmp.version && a.icmp.saddr == b.icmp.saddr
      && a.icmp.daddr == b.icmp.daddr && (a.icmp.stop ==> b.icmp.stop)
  }

  lemma FadedHasNoTwins(ss: seq<Session>, r: seq<Session>, p: seq<nat>)
    requires NoTwins(ss) && |p| == |r| && forall j, k :: 0 <= j < k < |p| ==> p[j] < p[k]
    requires forall k :: 0 <= k < |p| ==> p[k] < |ss| && Fades(ss[p[k]], r[k])
    ensures NoTwins(r)
  {
    forall i, j | 0 <= i < j < |r| ensures !Twins(r[i], r[j]) {
      assert !Twins(ss[p[i]], ss[p[j]]);
    }
  }

  lemma UpdatedHasNoTwins(ss: seq<Session>, i: nat, s: Session)
    requires NoTwins(ss) && i < |ss| && Fades(ss[i], s)
    ensures NoTwins(ss[i := s])
  {
    var p: seq<nat> := seq(|ss|, k requires 0 <= k < |ss| => k);
    FadedHasNoTwins(ss, ss[i := s], p);
  }

  lemma PushedHasNoTwins(ss: seq<Session>, s: Session)
    requires NoTwins(ss) && forall x <- ss :: !Twins(s, x)
    ensures NoTwins([s] + ss)
  {
  }

  lemma PacketKeeps(ss: seq<Session>, e: Event)
    requires NoTwins(ss)
    ensures e.TcpPacket? ==> NoTwins(TcpStep(ss, e.key, e.p, e.now, e.ok, e.opening))
    ensures e.UdpPacket? ==> NoTwins(UdpStep(ss, e.key, e.data, e.now, e.dhcp, e.sendto, e.opens))
    ensures e.IcmpPacket? ==> NoTwins(IcmpStep(ss, e.version, e.saddr, e.daddr, e.now, e.opens, e.broken))
  {
    hide NoTwins;
    match e
    case TcpPacket(key, p, now, ok, o) =>
      var i := Search(ss, s => IsTcp(s, key));
      if i < |ss| {
        UpdatedHasNoTwins(ss, i, TcpStep(ss, key, p, now, ok, o)[i]);
      } else if TcpStep(ss, key, p, now, ok, o) != ss {
        PushedHasNoTwins(ss, TcpStep(ss, key, p, now, ok, o)[0]);
      }
    case UdpPacket(key, data, now, dhcp, sendto, opens) =>
      var i := Search(ss, s => IsUdp(s, key));
      if i < |ss| {
        UpdatedHasNoTwins(ss, i, UdpStep(ss, key, data, now, dhcp, sendto, opens)[i]);
      } else if opens {
        PushedHasNoTwins(ss, UdpStep(ss, key, data, now, dhcp, sendto, opens)[0]);
      }
    case IcmpPacket(version, saddr, daddr, now, opens, broken) =>
      EchoKeeps(ss, version, saddr, daddr, now, opens, broken);
    case _ =>
  }

  lemma EchoKeeps(ss: seq<Session>, version: u8, saddr: Bytes, daddr: Bytes, now: int, opens: bool, broken: bool)
    requires NoTwins(ss)
    ensures NoTwins(IcmpStep(ss, version, saddr, daddr, now, opens, broken))
  {
    hide NoTwins;
    var i := Search(ss, s => IsIcmp(s, version, saddr, daddr));
    if i < |ss| {
      UpdatedHasNoTwins(ss, i, IcmpSession(ss[i].icmp.(time := now, stop := broken)));
    } else if opens {
      PushedHasNoTwins(ss, IcmpSession(Icmp(version, saddr, daddr, broken, true, now)));
    }
  }

  lemma LoopsKeep(ss: seq<Session>, e: Event)
    requires NoTwins(ss)
    ensures e.Monitor? && |e.polls| == |ss| ==> NoTwins(Watched(ss, e.ms, e.polls))
    ensures e.Sweep? && |e.oks| == |ss| ==> NoTwins(Swept(ss, e.clock, e.load, e.oks))
    ensures e.CheckAllowed? && |e.verdicts| == |ss| ==> NoTwins(Somes(Judged(ss, e.verdicts)))
  {
    hide NoTwins, Swept, Timeout, Somes, Judge;
    if e.Monitor? && |e.polls| == |ss| {
      var p: seq<nat> := seq(|ss|, k requires 0 <= k < |ss| => k);
      FadedHasNoTwins(ss, Watched(ss, e.ms, e.polls), p);
    } else if e.Sweep? && |e.oks| == |ss| {
      var p := SweepIsFilter(ss, e.clock, e.load, e.oks);
      FadedHasNoTwins(ss, Swept(ss, e.clock, e.load, e.oks), p);
    } else if e.CheckAllowed? && |e.verdicts| == |ss| {
      var os := Judged(ss, e.verdicts);
      var p := SomesInOrder(os);
      forall k | 0 <= k < |p| ensures p[k] < |ss| && Fades(ss[p[k]], Somes(os)[k]) {
        assert os[p[k]] == Judge(ss[p[k]], e.verdicts[p[k]]);
        JudgeFades(ss[p[k]], e.verdicts[p[k]]);
      }
      FadedHasNoTwins(ss, Somes(os), p);
    }
  }

  lemma JudgeFades(s: Session, v: Verdict)
    ensures Judge(s, v).Some? ==> Fades(s, Judge(s, v).value)
  {
  }

  lemma SocketKeeps(ss: seq<Session>, e: Event, policy: D.Policy)
    requires NoTwins(ss) && (e.TcpSocket? || e.UdpSocket? || e.IcmpSocket?)
    ensures NoTwins(Step(ss, e, policy))
  {
    hide NoTwins;
    var i := e.i;
    var r := Step(ss, e, policy);
    if r != ss {
      UpdatedHasNoTwins(ss, i, r[i]);
    }
  }

  /** After every run of the table, at most one ICMP session is running for each version and pair of addresses. */
  lemma {:induction false} OneEchoPerPair(es: seq<Event>, policy: D.Policy)
    ensures NoTwins(Run([], es, policy))
  {
    hide Step;
    if es != [] {
      OneEchoPerPair(es[..|es| - 1], policy);
      StepKeeps(Run([], es[..|es| - 1], policy), es[|es| - 1], policy);
    }
  }

  lemma StepKeeps(ss: seq<Session>, e: Event, policy: D.Policy)
    requires NoTwins(ss)
    ensures NoTwins(Step(ss, e, policy))
  {
    hide NoTwins, TcpStep, UdpStep, IcmpStep, Watched, Swept, Judged, Somes;
    PacketKeeps(ss, e);
    LoopsKeep(ss, e);
    if e.TcpSocket? || e.UdpSocket? || e.IcmpSocket? {
      SocketKeeps(ss, e, policy);
    }
  }

  predicate Running(s: Session, version: u8, saddr: Bytes, daddr: Bytes) {
    && s.IcmpSession? && !s.icmp.stop
    && s.icmp.version == version && s.icmp.saddr == saddr && s.icmp.daddr == daddr
  }

  /** An echo request renews the running session of its addresses, or opens one in front if there is none and a socket
      can be had; it runs from then on unless the request could not be sent. */
  lemma EchoRuns(ss: seq<Session>, version: u8, saddr: Bytes, daddr: Bytes, now: int, opens: bool, broken: bool)
    ensures var r := IcmpStep(ss, version, saddr, daddr, now, opens, broken);
            var known := exists s <- ss :: Running(s, version, saddr, daddr);
            && |r| == |ss| + (if !known && opens then 1 else 0)
            && (known || opens ==>
                  exists s <- r :: s.IcmpSession? && (known || s.icmp.open) && s.icmp.version == version
                    && s.icmp.saddr == saddr && s.icmp.daddr == daddr && s.icmp.time == now && s.icmp.stop == broken)
            && (!known && !opens ==> r == ss)
            && (forall j :: 0 <= j < |ss| && !Running(ss[j], version, saddr, daddr) ==> r[j + |r| - |ss|] == ss[j])
  {
    var i := Search(ss, s => IsIcmp(s, version, saddr, daddr));
    var r := IcmpStep(ss, version, saddr, daddr, now, opens, broken);
    if i < |ss| {
      assert ss[i] in ss && r[i] in r;
    } else {
      forall s | s in ss ensures !Running(s, version, saddr, daddr) {
        var j :| 0 <= j < |ss| && ss[j] == s;
      }
      if opens {
        assert r[0] in r;
      }
    }
  }

  /** What happens at the socket of an ICMP session renews it, and stops it for good after an error or the end of the
      stream; the sweep frees it then. */
  lemma EchoStops(ss: seq<Session>, i: nat, stop: bool, time: int, policy: D.Policy, now: int, load: Full, ok: bool)
    requires i < |ss| && ss[i].IcmpSession?
    ensures var r := Step(ss, IcmpSocket(i, stop, time), policy);
            && r == ss[i := r[i]] && Fades(ss[i], r[i]) && Time(r[i]) == time
            && (Live(r[i]) <==> Live(ss[i]) && !stop)
            && (stop ==> Check(r[i], now, load, ok).1)
  {
    hide Timeout;
  }
}
