/** The operations of tcp.c on the linked list behind `forward`. */
module SegmentList {
  import opened Words
  import opened Serial
  import opened Reassembly
  import opened TcpModel
  import opened LinkedLists

  type Segments = LinkedList<Segment>

  /** Insertion walks past all smaller sequence numbers and acts on what follows. */
  lemma {:induction false} InsertAt(q: seq<Segment>, k: nat, seqno: u32, data: Payload, psh: bool)
    requires k <= |q| && forall i :: 0 <= i < k ==> CompareU32(q[i].seqno, seqno) < 0
    requires k < |q| ==> CompareU32(q[k].seqno, seqno) >= 0
    ensures Insert(q, seqno, data, psh)
            == if k < |q| && q[k].seqno == seqno then q[k := Refill(q[k], data)]
               else Spliced(q, k, Segment(seqno, data, 0, psh))
  {
    hide CompareU32, Refill, Spliced, Insert;
    if k == 0 {
      InsertHere(q, seqno, data, psh);
    } else {
      InsertAt(q[1..], k - 1, seqno, data, psh);
      SplicedBehind(q, k, Segment(seqno, data, 0, psh));
      InsertBehind(q, seqno, data, psh);
      if k < |q| {
        UpdatedBehind(q, k, Refill(q[k], data));
      }
    }
  }

  lemma InsertHere(q: seq<Segment>, seqno: u32, data: Payload, psh: bool)
    requires q != [] ==> CompareU32(q[0].seqno, seqno) >= 0
    ensures Insert(q, seqno, data, psh)
            == if q != [] && q[0].seqno == seqno then q[0 := Refill(q[0], data)]
               else Spliced(q, 0, Segment(seqno, data, 0, psh))
  {
    hide CompareU32, Refill;
    assert Spliced(q, 0, Segment(seqno, data, 0, psh)) == [Segment(seqno, data, 0, psh)] + q;
  }

  lemma InsertBehind(q: seq<Segment>, seqno: u32, data: Payload, psh: bool)
    requires q != [] && CompareU32(q[0].seqno, seqno) < 0
    ensures Insert(q, seqno, data, psh) == [q[0]] + Insert(q[1..], seqno, data, psh)
  {
    hide CompareU32;
  }

  lemma SplicedBehind(q: seq<Segment>, k: nat, x: Segment)
    requires 0 < k <= |q|
    ensures Spliced(q, k, x) == [q[0]] + Spliced(q[1..], k - 1, x)
  {
  }

  lemma UpdatedBehind(q: seq<Segment>, k: nat, x: Segment)
    requires 0 < k < |q|
    ensures q[k := x] == [q[0]] + q[1..][k - 1 := x]
  {
  }

  /** The first node that is not before seqno, and the one in front of it. */
  method FindPlace(forward: Segments, seqno: u32)
    returns (prev: Node?<Segment>, s: Node?<Segment>, ghost k: nat)
    requires forward.Valid()
    ensures k <= |forward.nodes|
    ensures forall i :: 0 <= i < k ==> CompareU32(forward.contents[i].seqno, seqno) < 0
    ensures prev == Before(forward.nodes, k) && s == After(forward.nodes, k - 1)
    ensures s != null ==> CompareU32(s.value.seqno, seqno) >= 0
  {
    hide CompareU32, Distinct;
    prev, s, k := null, forward.head, 0;
    while s != null && CompareU32(s.value.seqno, seqno) < 0
      invariant 0 <= k <= |forward.nodes|
      invariant prev == Before(forward.nodes, k) && s == After(forward.nodes, k - 1)
      invariant forall i :: 0 <= i < k ==> CompareU32(forward.contents[i].seqno, seqno) < 0
      decreases |forward.nodes| - k
    {
      prev := s;
      s := s.next;
      k := k + 1;
    }
  }

  /** The list part of `queue_tcp`: insert a new segment or refill the one with the same number. */
  method Add(forward: Segments, seqno: u32, data: Payload, psh: bool)
    requires forward.Valid()
    modifies forward, forward.repr
    ensures forward.Valid() && fresh(forward.repr - old(forward.repr))
    ensures forward.contents == Insert(old(forward.contents), seqno, data, psh)
  {
    hide CompareU32, Distinct, Insert;
    var prev, s, k := FindPlace(forward, seqno);
    InsertAt(forward.contents, k, seqno, data, psh);
    if s == null || CompareU32(s.value.seqno, seqno) > 0 {
      if prev == null {
        forward.Push(Segment(seqno, data, 0, psh));
      } else {
        forward.LinkAfter(prev, Segment(seqno, data, 0, psh), k);
      }
    } else if |s.value.data| != |data| {
      forward.Set(s, s.value.(data := data), k);
    }
  }

  /** The loop of `get_receive_window` that adds up what waits to be forwarded. */
  method Waiting(forward: Segments) returns (total: u32)
    requires forward.Valid()
    ensures total == Wrap(ToForward(forward.contents))
  {
    hide Distinct;
    ghost var q := forward.contents;
    var s := forward.head;
    ghost var k := 0;
    total := 0;
    while s != null
      invariant 0 <= k <= |q| && s == After(forward.nodes, k - 1)
      invariant Wrap(total + ToForward(q[k..])) == Wrap(ToForward(q))
      decreases |q| - k
    {
      AddWaiting(q[k..], total);
      assert q[k..][1..] == q[k + 1..];
      total := Wrap(total + |s.value.data| - s.value.sent);
      s := s.next;
      k := k + 1;
    }
    assert ToForward(q[k..]) == 0;
  }

  lemma AddWaiting(q: seq<Segment>, total: u32)
    requires q != []
    ensures Wrap(Wrap(total + |q[0].data| - q[0].sent) + ToForward(q[1..])) == Wrap(total + ToForward(q))
  {
    WrapAdd(total + |q[0].data| - q[0].sent, ToForward(q[1..]));
  }

  /** `clear_tcp_data`: every segment is freed, in order. */
  method Clear(forward: Segments) returns (freed: seq<Segment>)
    requires forward.Valid()
    modifies forward
    ensures forward.Valid() && forward.contents == []
    ensures freed == old(forward.contents)
  {
    hide LinkedList.Valid;
    freed := [];
    ghost var q := forward.contents;
    while !forward.Empty()
      invariant forward.Valid() && freed + forward.contents == q && forward.repr == old(forward.repr)
      decreases |forward.contents|
    {
      ghost var left := forward.contents;
      assert freed + left == freed + [left[0]] + left[1..];
      freed := freed + [forward.First()];
      forward.Pop();
    }
  }
}
