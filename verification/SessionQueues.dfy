/** That the sweep loses no queued segment: each stays with its session or is freed with it, once. */
module SessionQueues {
  import opened Wrappers
  import opened Reassembly
  import opened SessionModel
  import M = TcpModel
  import U = Udp

  /** The segments that a session holds. */
  function Holds(s: Session): seq<Segment> {
    if s.TcpSession? then s.tcp.t.forward else []
  }

  /** The segments that all sessions hold. */
  function Held(ss: seq<Session>): seq<Segment> {
    if ss == [] then [] else Held(ss[..|ss| - 1]) + Holds(ss[|ss| - 1])
  }

  lemma HeldLast(ss: seq<Session>, s: Session)
    ensures Held(ss + [s]) == Held(ss) + Holds(s)
  {
    assert (ss + [s])[..|ss|] == ss;
  }

  /** The check of a session leaves its queue alone. */
  lemma CheckKeepsQueue(s: Session, now: int, load: Full, ok: bool)
    ensures Holds(Check(s, now, load, ok).0) == Holds(s)
  {
    hide M.WriteRst, Timeout, U.CheckUdpSession;
    if s.TcpSession? {
      ResetKeepsQueue(s.tcp, ok);
    }
  }

  lemma ResetKeepsQueue(m: M.Machine, ok: bool)
    ensures M.WriteRst(m, ok).t.forward == m.t.forward
  {
    hide M.Outgoing;
  }

  lemma {:induction false} FreedLast(ss: seq<Session>, now: int, load: Full, oks: seq<bool>)
    requires |oks| == |ss| > 0
    ensures var n := |ss| - 1;
            Freed(ss, now, load, oks) == Freed(ss[..n], now, load, oks[..n])
              + if Check(ss[n], now, load, oks[n]).1 then Holds(ss[n]) else []
  {
    hide Check;
    var n := |ss| - 1;
    CheckKeepsQueue(ss[0], now, load, oks[0]);
    CheckKind(ss[0], now, load, oks[0]);
    if n > 0 {
      FreedLast(ss[1..], now, load, oks[1..]);
      assert ss[1..][..n - 1] == ss[..n][1..] && oks[1..][..n - 1] == oks[..n][1..];
    } else {
      assert ss[..0] == [] && ss[1..] == [] && Freed([], now, load, []) == [];
    }
  }

  lemma CheckKind(s: Session, now: int, load: Full, ok: bool)
    ensures Check(s, now, load, ok).0.TcpSession? == s.TcpSession?
  {
    hide M.CheckTcpSession, Timeout;
  }

  /** What is queued before the sweep is what is queued after it and what is freed. */
  lemma {:induction false} NothingLeaks(ss: seq<Session>, now: int, load: Full, oks: seq<bool>)
    requires |oks| == |ss|
    ensures multiset(Held(ss)) == multiset(Held(Swept(ss, now, load, oks))) + multiset(Freed(ss, now, load, oks))
  {
    hide Check, Freed, Swept, Holds;
    if ss == [] {
      NothingHeld(now, load);
    } else {
      var n := |ss| - 1;
      NothingLeaks(ss[..n], now, load, oks[..n]);
      FreedLast(ss, now, load, oks);
      SweptLast(ss, now, load, oks);
    }
  }

  lemma SweptLast(ss: seq<Session>, now: int, load: Full, oks: seq<bool>)
    requires |oks| == |ss| > 0
    ensures var n := |ss| - 1;
            Held(Swept(ss, now, load, oks)) == Held(Swept(ss[..n], now, load, oks[..n]))
              + if Check(ss[n], now, load, oks[n]).1 then [] else Holds(ss[n])
  {
    hide Check, Somes, Held, Holds;
    var n := |ss| - 1;
    var os := Outcomes(ss, now, load, oks);
    SomesLast(os, n);
    CheckKeepsQueue(ss[n], now, load, oks[n]);
    assert os[..n + 1] == os && os[..n] == Outcomes(ss[..n], now, load, oks[..n]);
    HeldLast(Somes(os[..n]), Check(ss[n], now, load, oks[n]).0);
  }

  lemma NothingHeld(now: int, load: Full)
    ensures Swept([], now, load, []) == [] && Freed([], now, load, []) == []
  {
  }
}
