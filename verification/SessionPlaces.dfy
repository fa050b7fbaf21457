/** Finding the session of one connection again, whatever happens to the list around it. */
module SessionPlaces {
  import opened Wrappers
  import opened SessionModel
  import opened SessionRuns
  import D = DnsResponse

  /** A connection that at most one session belongs to. */
  datatype Connection = Tcp(key: Key) | Udp(key: Key)

  predicate Belongs(s: Session, c: Connection) {
    if c.Tcp? then IsTcp(s, c.key) else IsUdp(s, c.key)
  }

  /** The position of the session of a connection, or the length of the list. */
  function Place(ss: seq<Session>, c: Connection): (i: nat)
    ensures i <= |ss| && (i < |ss| ==> Belongs(ss[i], c))
    ensures forall j :: 0 <= j < i ==> !Belongs(ss[j], c)
  {
    Search(ss, s => Belongs(s, c))
  }

  function Find(ss: seq<Session>, c: Connection): Option<Session> {
    var i := Place(ss, c);
    if i < |ss| then Some(ss[i]) else None
  }

  lemma PlaceIs(ss: seq<Session>, c: Connection, i: nat)
    requires i <= |ss| && (i < |ss| ==> Belongs(ss[i], c)) && forall j :: 0 <= j < i ==> !Belongs(ss[j], c)
    ensures Place(ss, c) == i
  {
    hide Belongs;
  }

  lemma FindUpdated(ss: seq<Session>, j: nat, s: Session, c: Connection)
    requires j < |ss| && (Belongs(s, c) <==> Belongs(ss[j], c))
    ensures var i := Place(ss, c);
            Find(ss[j := s], c) == if i < |ss| && j == i then Some(s) else Find(ss, c)
  {
    hide Place;
    PlaceIs(ss[j := s], c, Place(ss, c));
  }

  lemma FindPushed(ss: seq<Session>, s: Session, c: Connection)
    ensures Find([s] + ss, c) == if Belongs(s, c) then Some(s) else Find(ss, c)
  {
    hide Place;
    if Belongs(s, c) {
      PlaceIs([s] + ss, c, 0);
    } else {
      PlaceIs([s] + ss, c, Place(ss, c) + 1);
    }
  }

  predicate AtMostOne(ss: seq<Session>, c: Connection) {
    forall i, j :: 0 <= i < j < |ss| ==> !(Belongs(ss[i], c) && Belongs(ss[j], c))
  }

  lemma GoodHasOne(ss: seq<Session>, c: Connection, policy: D.Policy)
    requires Good(ss, policy)
    ensures AtMostOne(ss, c)
  {
    hide Lived;
    forall i, j | 0 <= i < j < |ss|
      ensures !(Belongs(ss[i], c) && Belongs(ss[j], c))
    {
      assert !Same(ss[i], ss[j]);
    }
  }

  /** r has the sessions at the ascending positions p of ss, each as before or at a later state. */
  predicate Picked(ss: seq<Session>, r: seq<Session>, p: seq<nat>, c: Connection) {
    && |p| == |r|
    && (forall j, k :: 0 <= j < k < |p| ==> p[j] < p[k])
    && (forall k :: 0 <= k < |p| ==> p[k] < |ss| && (Belongs(r[k], c) <==> Belongs(ss[p[k]], c)))
  }

  lemma FindPicked(ss: seq<Session>, r: seq<Session>, p: seq<nat>, c: Connection) returns (k: nat)
    requires AtMostOne(ss, c) && Picked(ss, r, p, c)
    ensures k <= |r| && Place(r, c) == k
    ensures k < |r| <==> Place(ss, c) in p
    ensures k < |r| ==> p[k] == Place(ss, c)
  {
    hide Place, Belongs;
    var i := Place(ss, c);
    if i in p {
      k :| 0 <= k < |p| && p[k] == i;
      assert Belongs(r[k], c);
    } else {
      k := |r|;
      forall j | 0 <= j < |r| ensures !Belongs(r[j], c) {
        OnlyAt(ss, c, p[j]);
      }
    }
    PlaceIs(r, c, k);
  }

  lemma OnlyAt(ss: seq<Session>, c: Connection, j: nat)
    requires AtMostOne(ss, c) && j < |ss|
    ensures Belongs(ss[j], c) <==> j == Place(ss, c)
  {
    hide Belongs;
  }
}
