/** The linked list of sessions behind `ng_session`, searched, swept and unlinked in place. */
module SessionTable {
  import opened Wrappers
  import opened Reassembly
  import opened LinkedLists
  import opened SessionModel
  import M = TcpModel
  import U = Udp
  import R = SessionRuns

  type Sessions = LinkedList<Session>

  // ---- A loop that keeps or unlinks every session ----

  /** The loop stands at s, after sl: the first i sessions became `os`, the rest is as it was. */
  ghost predicate At(list: Sessions, was: seq<Session>, os: seq<Option<Session>>, i: nat,
                     sl: Node?<Session>, s: Node?<Session>)
    reads list, list.repr
  {
    && list.Valid() && i <= |was| == |os|
    && var k := |Somes(os[..i])|;
    && list.contents == Somes(os[..i]) + was[i..]
    && sl == Before(list.nodes, k) && s == After(list.nodes, k - 1)
  }

  lemma AtStart(list: Sessions, was: seq<Session>, os: seq<Option<Session>>)
    requires list.Valid() && list.contents == was && |os| == |was|
    ensures At(list, was, os, 0, null, list.head)
  {
    assert os[..0] == [];
    assert was == [] + was[0..];
  }

  lemma AtEnd(list: Sessions, was: seq<Session>, os: seq<Option<Session>>, i: nat, sl: Node?<Session>)
    requires At(list, was, os, i, sl, null)
    ensures i == |was| && list.contents == Somes(os)
  {
    assert os[..|os|] == os;
  }

  lemma Here(list: Sessions, was: seq<Session>, os: seq<Option<Session>>, i: nat, sl: Node?<Session>, s: Node<Session>)
    requires At(list, was, os, i, sl, s)
    ensures i < |was| && s.value == was[i]
    ensures var k := |Somes(os[..i])|; k < |list.nodes| && s == list.nodes[k] && list.contents[k] == was[i]
  {
  }

  lemma MidStep(kept: seq<Session>, rest: seq<Session>, x: Session)
    requires rest != []
    ensures (kept + rest)[|kept| := x] == kept + [x] + rest[1..]
    ensures Without((kept + rest)[|kept| := x], |kept|) == kept + rest[1..]
  {
  }

  /** Put the checked session back, and unlink it if it is not kept. */
  method Settle(list: Sessions, ghost was: seq<Session>, ghost os: seq<Option<Session>>, ghost i: nat,
                sl: Node?<Session>, s: Node<Session>, x: Session, del: bool)
    returns (before: Node?<Session>, next: Node?<Session>)
    requires At(list, was, os, i, sl, s) && os[i] == (if del then None else Some(x))
    modifies list, list.repr
    ensures list.repr == old(list.repr) && i < |was|
    ensures At(list, was, os, i + 1, before, next)
  {
    hide Distinct, Somes, Without;
    Here(list, was, os, i, sl, s);
    ghost var kept := Somes(os[..i]);
    SomesLast(os, i);
    MidStep(kept, was[i..], x);
    assert was[i..][1..] == was[i + 1..];
    list.Set(s, x, |kept|);
    next := s.next;
    before := s;
    if del {
      before := sl;
      if sl == null {
        PopIsWithout(list.contents, list.nodes);
        list.Pop();
      } else {
        list.UnlinkAfter(sl, s, |kept|);
      }
    }
  }

  lemma PopIsWithout(contents: seq<Session>, nodes: seq<Node<Session>>)
    requires contents != [] && nodes != []
    ensures Without(contents, 0) == contents[1..] && Without(nodes, 0) == nodes[1..]
  {
  }

  /** Of the sessions that were, the first i are watched. */
  ghost predicate WatchedUpTo(ss: seq<Session>, recheck: bool, was: seq<Session>, ms: int, polls: seq<Poll>, i: nat)
    requires |polls| == |was|
  {
    && |ss| == |was| && i <= |was|
    && (forall j :: 0 <= j < i ==> ss[j] == Watch(was[j], ms, polls[j]).0)
    && (forall j :: i <= j < |was| ==> ss[j] == was[j])
    && (recheck <==> exists j :: 0 <= j < i && Watch(was[j], ms, polls[j]).1)
  }

  lemma WatchedNone(was: seq<Session>, ms: int, polls: seq<Poll>)
    requires |polls| == |was|
    ensures WatchedUpTo(was, false, was, ms, polls, 0)
  {
  }

  lemma WatchedMore(ss: seq<Session>, recheck: bool, was: seq<Session>, ms: int, polls: seq<Poll>, i: nat)
    requires |polls| == |was| && i < |was| && WatchedUpTo(ss, recheck, was, ms, polls, i)
    ensures ss[i] == was[i]
    ensures var (x, again) := Watch(was[i], ms, polls[i]);
            WatchedUpTo(ss[i := x], recheck || again, was, ms, polls, i + 1)
  {
    hide Watch;
  }

  lemma WatchedAll(ss: seq<Session>, recheck: bool, was: seq<Session>, ms: int, polls: seq<Poll>)
    requires |polls| == |was| && WatchedUpTo(ss, recheck, was, ms, polls, |was|)
    ensures ss == Watched(was, ms, polls)
    ensures recheck <==> exists j :: 0 <= j < |polls| && Watch(was[j], ms, polls[j]).1
  {
    hide Watch;
  }

  class SessionTable {
    const list: Sessions

    ghost predicate Valid()
      reads this, list, list.repr
    {
      list.Valid()
    }

    constructor ()
      ensures Valid() && list.contents == [] && fresh(list) && fresh(list.repr)
    {
      list := new LinkedList<Session>();
    }

    /** Count the live sessions, and watch the open TCP sessions on the way. */
    method CountAndMonitor(ms: int, polls: seq<Poll>) returns (sessions: nat, recheck: bool)
      requires Valid() && |polls| == |list.contents|
      modifies list, list.repr
      ensures Valid() && list.repr == old(list.repr)
      ensures list.contents == Watched(old(list.contents), ms, polls)
      ensures sessions == Count(old(list.contents))
      ensures recheck <==> exists i :: 0 <= i < |polls| && Watch(old(list.contents)[i], ms, polls[i]).1
    {
      hide Distinct, Watch, Live, Count, WatchedUpTo;
      ghost var was := list.contents;
      var s, i := list.head, 0;
      sessions, recheck := 0, false;
      NoCount();
      WatchedNone(was, ms, polls);
      while s != null
        invariant Valid() && list.repr == old(list.repr)
        invariant 0 <= i <= |was| && |list.contents| == |was| && s == After(list.nodes, i - 1)
        invariant WatchedUpTo(list.contents, recheck, was, ms, polls, i)
        invariant sessions + Count(was[i..]) == Count(was)
        decreases |was| - i
      {
        CountFirst(was, i);
        if Live(s.value) {
          sessions := sessions + 1;
        }
        var (x, again) := Watch(s.value, ms, polls[i]);
        WatchedMore(list.contents, recheck, was, ms, polls, i);
        recheck := recheck || again;
        list.Set(s, x, i);
        s := s.next;
        i := i + 1;
      }
      assert was[i..] == [];
      WatchedAll(list.contents, recheck, was, ms, polls);
    }

    /** The sweep. The time stamp of the last one is left to the caller. */
    method Sweep(now: int, load: Full, oks: seq<bool>) returns (timeout: int, freed: seq<Segment>)
      requires Valid() && |oks| == |list.contents|
      modifies list, list.repr
      ensures Valid() && list.repr == old(list.repr)
      ensures list.contents == Swept(old(list.contents), now, load, oks)
      ensures timeout == Wait(list.contents, now, load)
      ensures freed == Freed(old(list.contents), now, load, oks)
    {
      hide LinkedList.Valid, Check, Live, Timeout, Wait, Freed, Somes, At;
      ghost var was := list.contents;
      ghost var os := Outcomes(was, now, load, oks);
      var sl, s, i := null, list.head, 0;
      timeout, freed := EPOLL_TIMEOUT, [];
      AtStart(list, was, os);
      NothingKept(now, load);
      NothingSwept(os, was);
      while s != null
        invariant 0 <= i <= |was| && list.repr == old(list.repr)
        invariant At(list, was, os, i, sl, s)
        invariant timeout == Wait(Somes(os[..i]), now, load)
        invariant freed + Freed(was[i..], now, load, oks[i..]) == Freed(was, now, load, oks)
        decreases |was| - i
      {
        Here(list, was, os, i, sl, s);
        var (x, del) := Check(s.value, now, load, oks[i]);
        FreedFirst(was, i, now, load, oks);
        SomesLast(os, i);
        if !del {
          WaitLast(Somes(os[..i]), x, now, load);
          if Live(x) {
            var stimeout := Time(x) + Timeout(x, load) - now + 1;
            if stimeout > 0 && stimeout < timeout {
              timeout := stimeout;
            }
          }
        } else if x.TcpSession? {
          freed := freed + x.tcp.t.forward;
        }
        sl, s := Settle(list, was, os, i, sl, s, x, del);
        i := i + 1;
      }
      AtEnd(list, was, os, i, sl);
      assert os[..i] == os;
      NothingFreed(was, i, now, load, oks);
      AtIsValid(list, was, os, i, sl, s);
    }

    /** `check_allowed`. */
    method CheckAllowed(verdicts: seq<Verdict>)
      requires Valid() && |verdicts| == |list.contents|
      modifies list, list.repr
      ensures Valid() && list.repr == old(list.repr)
      ensures list.contents == Somes(Judged(old(list.contents), verdicts))
    {
      hide LinkedList.Valid, Judge, Somes, At;
      ghost var was := list.contents;
      ghost var os := Judged(was, verdicts);
      var l, s, i := null, list.head, 0;
      AtStart(list, was, os);
      while s != null
        invariant 0 <= i <= |was| && list.repr == old(list.repr)
        invariant At(list, was, os, i, l, s)
        decreases |was| - i
      {
        Here(list, was, os, i, l, s);
        var o := Judge(s.value, verdicts[i]);
        l, s := Settle(list, was, os, i, l, s, if o.Some? then o.value else s.value, o.None?);
        i := i + 1;
      }
      AtEnd(list, was, os, i, l);
      AtIsValid(list, was, os, i, l, s);
    }

    /** The loop that searches for a session. */
    method Search(wanted: Session -> bool) returns (cur: Node?<Session>, ghost i: nat)
      requires Valid()
      ensures i == R.Search(list.contents, wanted)
      ensures cur == After(list.nodes, i - 1)
    {
      hide Distinct;
      cur, i := list.head, 0;
      while cur != null && !wanted(cur.value)
        invariant 0 <= i <= |list.contents| && cur == After(list.nodes, i - 1)
        invariant forall j :: 0 <= j < i ==> !wanted(list.contents[j])
        decreases |list.contents| - i
      {
        cur := cur.next;
        i := i + 1;
      }
      var j := R.Search(list.contents, wanted);
      assert j < i ==> false;
    }

    /** `handle_tcp`: find the session of a packet, or register one. */
    method HandleTcp(key: Key, p: M.Packet, now: int, ok: bool, o: R.Opening)
      requires Valid()
      modifies list, list.repr
      ensures Valid() && fresh(list.repr - old(list.repr))
      ensures list.contents == R.TcpStep(old(list.contents), key, p, now, ok, o)
    {
      hide LinkedList.Valid, M.HandleTcp, M.NewSession;
      var cur, i := Search(s => R.IsTcp(s, key));
      ValidLengths(list);
      if p.urg && cur != null {
        UrgentIgnored(list.contents[i].tcp, p, now, ok);
        assert list.contents[i := list.contents[i]] == list.contents;
      }
      if p.urg {
        return;
      }
      if cur == null {
        if p.syn && o.opens {
          list.Push(TcpSession(key, M.NewSession(p, o.mss, o.ws, o.isn, now, o.kernel)));
        }
      } else {
        NodeValue(list, i);
        list.Set(cur, TcpSession(key, M.HandleTcp(cur.value.tcp, p, now, ok)), i);
      }
    }

    /** `handle_udp`: find the session of a datagram, or register one. */
    method HandleUdp(key: Key, data: Payload, now: int, dhcp: bool, sendto: U.SendTo, opens: bool)
      requires Valid()
      modifies list, list.repr
      ensures Valid() && fresh(list.repr - old(list.repr))
      ensures list.contents == R.UdpStep(old(list.contents), key, data, now, dhcp, sendto, opens)
    {
      hide LinkedList.Valid, U.HandleUdp, U.NewSession;
      var cur, i := Search(s => R.IsUdp(s, key));
      ValidLengths(list);
      if cur == null {
        if opens {
          list.Push(UdpSession(key, U.HandleUdp(U.NewSession(key.version, key.dest, now), data, now, dhcp, sendto)));
        }
      } else {
        NodeValue(list, i);
        list.Set(cur, UdpSession(key, U.HandleUdp(cur.value.udp, data, now, dhcp, sendto)), i);
      }
    }

    /** `clear`: every session is freed, and the segments of the TCP sessions with them. */
    method Clear() returns (freed: seq<Segment>)
      requires Valid()
      modifies list
      ensures Valid() && list.contents == []
      ensures freed == Segments(old(list.contents))
    {
      hide LinkedList.Valid, Segments;
      freed := [];
      ghost var was := list.contents;
      while !list.Empty()
        invariant Valid() && list.repr == old(list.repr)
        invariant freed + Segments(list.contents) == Segments(was)
        decreases |list.contents|
      {
        FirstFreed(freed, list.contents);
        var s := list.First();
        if s.TcpSession? {
          freed := freed + s.tcp.t.forward;
        }
        list.Pop();
      }
      NoSegments();
    }
  }

  /** The segments queued in a list of sessions. */
  function Segments(ss: seq<Session>): seq<Segment> {
    if ss == [] then [] else (if ss[0].TcpSession? then ss[0].tcp.t.forward else []) + Segments(ss[1..])
  }

  lemma NoSegments()
    ensures Segments([]) == []
  {
  }

  lemma FirstFreed(freed: seq<Segment>, ss: seq<Session>)
    requires ss != []
    ensures freed + Segments(ss) ==
            (if ss[0].TcpSession? then freed + ss[0].tcp.t.forward else freed) + Segments(ss[1..])
  {
    FirstSegments(ss);
    var head := if ss[0].TcpSession? then ss[0].tcp.t.forward else [];
    Associate(freed, head, Segments(ss[1..]));
  }

  lemma FirstSegments(ss: seq<Session>)
    requires ss != []
    ensures Segments(ss) == (if ss[0].TcpSession? then ss[0].tcp.t.forward else []) + Segments(ss[1..])
  {
  }

  lemma Associate(a: seq<Segment>, b: seq<Segment>, c: seq<Segment>)
    ensures a + (b + c) == (a + b) + c
    ensures a + [] == a
  {
  }

  lemma UrgentIgnored(m: M.Machine, p: M.Packet, now: int, ok: bool)
    requires p.urg
    ensures M.HandleTcp(m, p, now, ok) == m
  {
  }

  lemma ValidLengths(list: Sessions)
    requires list.Valid()
    ensures |list.nodes| == |list.contents|
  {
  }

  lemma NodeValue(list: Sessions, i: nat)
    requires list.Valid() && i < |list.nodes|
    ensures list.nodes[i].value == list.contents[i]
  {
  }

  lemma AtIsValid(list: Sessions, was: seq<Session>, os: seq<Option<Session>>, i: nat,
                  sl: Node?<Session>, s: Node?<Session>)
    requires At(list, was, os, i, sl, s)
    ensures list.Valid()
  {
  }

  lemma NoCount()
    ensures Count([]) == 0
  {
  }

  lemma CountFirst(ss: seq<Session>, i: nat)
    requires i < |ss|
    ensures Count(ss[i..]) == Count(ss[i + 1..]) + if Live(ss[i]) then 1 else 0
  {
    assert ss[i..][1..] == ss[i + 1..];
  }

  lemma NothingKept(now: int, load: Full)
    ensures Wait([], now, load) == EPOLL_TIMEOUT
  {
  }

  lemma NothingSwept(os: seq<Option<Session>>, was: seq<Session>)
    requires |os| == |was|
    ensures Somes(os[..0]) == []
  {
  }

  lemma WaitLast(kept: seq<Session>, x: Session, now: int, load: Full)
    ensures Wait(kept + [x], now, load) == Shorter(Wait(kept, now, load), x, now, load)
  {
    assert (kept + [x])[..|kept|] == kept;
  }

  lemma FreedFirst(ss: seq<Session>, i: nat, now: int, load: Full, oks: seq<bool>)
    requires |oks| == |ss| && i < |ss|
    ensures Freed(ss[i..], now, load, oks[i..]) ==
            (var (x, del) := Check(ss[i], now, load, oks[i]); if x.TcpSession? && del then x.tcp.t.forward else [])
            + Freed(ss[i + 1..], now, load, oks[i + 1..])
  {
    assert ss[i..][1..] == ss[i + 1..] && oks[i..][1..] == oks[i + 1..];
  }

  lemma NothingFreed(ss: seq<Session>, i: nat, now: int, load: Full, oks: seq<bool>)
    requires |oks| == |ss| == i
    ensures Freed(ss[i..], now, load, oks[i..]) == []
  {
  }
}
