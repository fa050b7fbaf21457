/** What `get_uid` answers when nothing is cached, by protocol, table and version. */
module UidLookups {
  import opened Wrappers
  import opened Words
  import opened ProcNet
  import opened UidCache

  /** TCP and UDP have tables for both versions, and each version of IP has one for its own ICMP. */
  predicate HasTable(q: Query) {
    q.protocol == 6 || q.protocol == 17 || (q.protocol == 1 && q.version == 4) || (q.protocol == 58 && q.version == 6)
  }

  /** The last row that fits carries the uid, or none fits and it is -1. */
  ghost predicate FromLast(rows: seq<Row>, q: Query, uid: int) {
    || (uid == -1 && forall r <- rows :: !Fits(r, q))
    || exists i :: 0 <= i < |rows| && LastAt(rows, q, i) && uid == rows[i].uid
  }

  predicate LastAt(rows: seq<Row>, q: Query, i: nat)
    requires i < |rows|
  {
    Fits(rows[i], q) && forall j :: i < j < |rows| ==> !Fits(rows[j], q)
  }

  lemma LastAtTail(rows: seq<Row>, q: Query, i: nat)
    requires rows != [] && i < |rows| - 1 && LastAt(rows[1..], q, i)
    ensures LastAt(rows, q, i + 1)
  {
    hide Fits;
    forall j | i + 1 < j < |rows| ensures !Fits(rows[j], q) {
      assert rows[j] == rows[1..][j - 1];
    }
  }

  lemma {:induction false} LastFitIsLast(rows: seq<Row>, q: Query, uid: int)
    ensures || (LastFit(rows, q, uid) == uid && forall r <- rows :: !Fits(r, q))
            || exists i :: 0 <= i < |rows| && LastAt(rows, q, i) && LastFit(rows, q, uid) == rows[i].uid
  {
    hide Fits, LastAt;
    if rows != [] {
      var next := if Fits(rows[0], q) then rows[0].uid else uid;
      LastFitIsLast(rows[1..], q, next);
      if exists i :: 0 <= i < |rows| - 1 && LastAt(rows[1..], q, i) && LastFit(rows, q, uid) == rows[1..][i].uid {
        var i :| 0 <= i < |rows| - 1 && LastAt(rows[1..], q, i) && LastFit(rows, q, uid) == rows[1..][i].uid;
        LastAtTail(rows, q, i);
        assert LastAt(rows, q, i + 1) && rows[i + 1] == rows[1..][i];
      } else if Fits(rows[0], q) {
        OnlyFirst(rows, q);
      } else {
        assert forall r <- rows :: r == rows[0] || r in rows[1..];
      }
    }
  }

  lemma OnlyFirst(rows: seq<Row>, q: Query)
    requires rows != [] && Fits(rows[0], q) && forall r <- rows[1..] :: !Fits(r, q)
    ensures LastAt(rows, q, 0)
  {
    hide Fits;
    forall j | 0 < j < |rows| ensures !Fits(rows[j], q) {
      assert rows[j] == rows[1..][j - 1];
    }
  }

  /** Without an answer in the cache: -1 if there is no table for the protocol, -2 if it cannot be opened or one of its
      lines cannot be read, and otherwise the uid of its last row that fits, or -1 if there is none. */
  lemma AnswerIs(es: seq<Entry>, q: Query, now: int, file: Option<seq<Line>>)
    requires Lookup(es, q, now) == None
    ensures var uid := Answer(es, q, now, file);
            if !HasTable(q) then uid == -1
            else if file.None? then uid == -2
            else if exists l <- Body(file.value) :: !Readable(l, Ws(q.version)) then uid == -2
            else FromLast(Rows(Body(file.value), Ws(q.version)), q, uid)
  {
    hide Fits, Readable, LastAt;
    if HasTable(q) && file.Some? {
      var lines, ws := Body(file.value), Ws(q.version);
      if exists l <- lines :: !Readable(l, ws) {
        SomeUnreadable(lines, ws);
      } else {
        AllReadable(lines, ws);
        LastFitIsLast(Rows(lines, ws), q, -1);
      }
    }
  }

  lemma {:induction false} SomeUnreadable(lines: seq<Line>, ws: nat)
    requires exists l <- lines :: !Readable(l, ws)
    ensures |Rows(lines, ws)| < |lines|
  {
    hide Readable;
    if Readable(lines[0], ws) {
      var l :| l in lines && !Readable(l, ws);
      assert l in lines[1..];
      SomeUnreadable(lines[1..], ws);
    }
  }

  // ---- Both versions ----

  /** The line that the kernel prints for a connection. */
  function LineOf(saddr: Bytes, sport: u16, daddr: Bytes, dport: u16, uid: int): Line
    requires |saddr| % 4 == 0 && |daddr| % 4 == 0
  {
    Fields(KernelHex(saddr), sport, KernelHex(daddr), dport, uid)
  }

  /** The IPv6 address ::ffff:a.b.c.d that stands for an IPv4 address, section 2.5.5.2 of RFC 4291. */
  function Mapped4(address: Bytes): Bytes {
    [0, 0, 0, 0] + [0, 0, 0, 0] + [0, 0, 0xFF, 0xFF] + address
  }

  /** A connection over IPv4 that the kernel lists in the IPv6 table is found there, whatever the IPv4 table says; and
      if the IPv6 table is empty, one that is listed in the IPv4 table is found there. */
  lemma FoundInEitherTable(q: Query, now: int, uid: int, heading: Line, any: Option<seq<Line>>)
    requires q.version == 4 && (q.protocol == 6 || q.protocol == 17) && |q.saddr| == |q.daddr| == 4 && uid != -1
    ensures var six := LineOf(Mapped4(q.saddr), q.sport, Mapped4(q.daddr), q.dport, uid);
            var four := LineOf(q.saddr, q.sport, q.daddr, q.dport, uid);
            && Resolve([], q, now, Some([heading, six]), any).0 == uid
            && Resolve([], q, now, Some([heading]), Some([heading, four])).0 == uid
  {
    hide KernelHex, Fits, AddressOf;
    var q6 := Mapped(q);
    assert q6.saddr == Mapped4(q.saddr) && q6.daddr == Mapped4(q.daddr);
    OnlyRowIff(q6, now, heading, q6.saddr, q.sport, q6.daddr, q.dport, uid);
    OnlyRowIff(q, now, heading, q.saddr, q.sport, q.daddr, q.dport, uid);
    NoRow(q6, now, heading);
  }

  /** A single row of a table is found exactly for its own connection, and for those that it listens for: its remote
      port is zero, or one of its addresses is. */
  lemma OnlyRowIff(q: Query, now: int, heading: Line, saddr: Bytes, sport: u16, daddr: Bytes, dport: u16, uid: int)
    requires (q.version == 4 || q.version == 6) && (q.protocol == 6 || q.protocol == 17) && uid != -1
    requires |saddr| == |daddr| == if q.version == 4 then 4 else 16
    ensures var zero := Zero(|saddr|);
            Answer([], q, now, Some([heading, LineOf(saddr, sport, daddr, dport, uid)])) ==
            if && sport == q.sport && (dport == q.dport || dport == 0) && (saddr == q.saddr || saddr == zero)
               && (daddr == q.daddr || daddr == zero)
            then uid else -1
  {
    hide KernelHex, AddressOf, Fits;
    var line, row := LineOf(saddr, sport, daddr, dport, uid), Row(saddr, sport, daddr, dport, uid);
    AddressRoundTrip(saddr);
    AddressRoundTrip(daddr);
    assert [heading, line][1..] == [line] && [line][1..] == [];
    assert Rows([line], Ws(q.version)) == [row] + Rows([], Ws(q.version)) == [row];
    assert [row][1..] == [];
    FitsMeans(row, q);
    ZeroIff(saddr);
    ZeroIff(daddr);
    assert LastFit([row], q, -1) == LastFit([], q, if Fits(row, q) then uid else -1);
  }

  function Zero(n: nat): (b: Bytes)
    ensures |b| == n
  {
    if n == 0 then [] else [0] + Zero(n - 1)
  }

  lemma {:induction false} ZeroIff(b: Bytes)
    ensures IsZero(b) <==> b == Zero(|b|)
  {
    if b != [] {
      var zero := Zero(|b|);
      ZeroIff(b[1..]);
      IsZeroSplits(b);
      assert zero[0] == 0 && zero[1..] == Zero(|b| - 1);
      if b[0] == 0 && b[1..] == zero[1..] {
        assert b == [b[0]] + b[1..] == zero;
      }
    }
  }

  lemma IsZeroSplits(b: Bytes)
    requires b != []
    ensures IsZero(b) <==> b[0] == 0 && IsZero(b[1..])
  {
    assert forall x <- b :: x == b[0] || x in b[1..];
    assert forall x <- b[1..] :: x in b;
    assert b[0] in b;
  }

  lemma NoRow(q: Query, now: int, heading: Line)
    requires q.protocol == 6 || q.protocol == 17
    ensures Answer([], q, now, Some([heading])) == -1
    ensures Remembered([], q, now, Some([heading])) == []
  {
    assert [heading][1..] == [];
  }

  // ---- What is remembered ----

  /** All rows of a table are cached for the version and protocol. */
  ghost predicate Caches(es: seq<Entry>, q: Query, now: int, rows: seq<Row>) {
    forall row <- rows :: Entry(q.version, q.protocol, row, now) in es
  }

  /** An IPv4 query that the cache cannot answer leaves all rows of the IPv6 table in it, up to the first line that
      cannot be read; and if that has no answer, those of the IPv4 table too. */
  lemma BothTablesRemembered(es: seq<Entry>, q: Query, now: int, file6: seq<Line>, file: seq<Line>)
    requires q.version == 4 && (q.protocol == 6 || q.protocol == 17)
    requires Lookup(es, Mapped(q), now) == None
    ensures var r := Resolve(es, q, now, Some(file6), Some(file)).1;
            var six := Remembered(es, Mapped(q), now, Some(file6));
            && Caches(r, Mapped(q), now, Rows(Body(file6), 4))
            && (Answer(es, Mapped(q), now, Some(file6)) == -1 && Lookup(six, q, now) == None ==>
                  Caches(r, q, now, Rows(Body(file), 1)))
  {
    hide Rows, Lookup, Fill, Answer;
    var q6 := Mapped(q);
    var six := Remembered(es, q6, now, Some(file6));
    RowsCached(es, q6, now, Rows(Body(file6), 4));
    var rows := Scanned(six, q, now, Some(file));
    RowsCached(six, q, now, rows);
    var p := ScanKeepsFresh(six, rows, q, now);
    var r := Remembered(six, q, now, Some(file));
    forall row | row in Rows(Body(file6), 4)
      ensures Entry(6, q.protocol, row, now) in r
    {
      var i :| 0 <= i < |six| && six[i] == Entry(6, q.protocol, row, now);
      assert r[i] == six[i];
    }
  }

  lemma RowsCached(es: seq<Entry>, q: Query, now: int, rows: seq<Row>)
    ensures Caches(Fill(es, 0, rows, q, now), q, now, rows)
  {
    hide Fill;
    var p := ScanKeepsFresh(es, rows, q, now);
    var r := Fill(es, 0, rows, q, now);
    forall row | row in rows ensures Entry(q.version, q.protocol, row, now) in r {
      var k :| 0 <= k < |rows| && rows[k] == row;
      assert r[p[k]] == Entry(q.version, q.protocol, row, now);
    }
  }

  /** A query that is answered from the cache, has no table, or whose table cannot be opened leaves the cache alone. */
  lemma NothingRemembered(es: seq<Entry>, q: Query, now: int, file: Option<seq<Line>>)
    requires Lookup(es, q, now).Some? || !HasTable(q) || file.None?
    ensures Remembered(es, q, now, file) == es
    ensures Lookup(es, q, now).Some? ==> Answer(es, q, now, file) == Lookup(es, q, now).value
  {
    hide Lookup, Rows;
  }
}
