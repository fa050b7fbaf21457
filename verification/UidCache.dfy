/** The cache of `get_uid_sub` over the tables under /proc/net. */
module UidCache {
  import opened Wrappers
  import opened Words
  import opened PacketCodec
  import opened ProcNet

  const UID_MAX_AGE := 30000
  const IPPROTO_ICMP: u8 := 1
  const IPPROTO_ICMPV6: u8 := 58

  datatype Query = Query(version: u8, protocol: u8, saddr: Bytes, sport: u16, daddr: Bytes, dport: u16)

  datatype Row = Row(saddr: Bytes, sport: u16, daddr: Bytes, dport: u16, uid: int)

  /** `struct uid_cache_entry`. */
  datatype Entry = Entry(version: u8, protocol: u8, row: Row, time: int)

  /** A line of the table: five fields, or not. */
  datatype Line = Fields(shex: string, sport: u16, dhex: string, dport: u16, uid: int) | Garbled

  function Ws(version: u8): nat {
    if version == 4 then 1 else 4
  }

  predicate IsZero(address: Bytes) {
    forall b <- address :: b == 0
  }

  predicate Matches(address: Bytes, asked: Bytes) {
    address == asked || IsZero(address)
  }

  /** The row is for the asked connection, or listens for it. */
  predicate Fits(r: Row, q: Query) {
    && r.sport == q.sport && (r.dport == q.dport || r.dport == 0)
    && Matches(r.saddr, q.saddr) && Matches(r.daddr, q.daddr)
  }

  predicate Fresh(e: Entry, now: int) {
    now - e.time <= UID_MAX_AGE
  }

  predicate Hits(e: Entry, q: Query, now: int) {
    Fresh(e, now) && e.version == q.version && e.protocol == q.protocol && Fits(e.row, q)
  }

  /** The first entry that hits. */
  function Lookup(es: seq<Entry>, q: Query, now: int): Option<int> {
    if es == [] then None else if Hits(es[0], q, now) then Some(es[0].row.uid) else Lookup(es[1..], q, now)
  }

  /** The next slot that may be written: the first stale one from c, or the one behind the last. */
  function Slot(es: seq<Entry>, c: nat, now: int): (s: nat)
    requires c <= |es|
    ensures c <= s <= |es| && (s < |es| ==> !Fresh(es[s], now))
    ensures forall i :: c <= i < s ==> Fresh(es[i], now)
    decreases |es| - c
  {
    if c == |es| || !Fresh(es[c], now) then c else Slot(es, c + 1, now)
  }

  function Store(es: seq<Entry>, s: nat, e: Entry): (r: seq<Entry>)
    requires s <= |es|
    ensures |r| == (if s < |es| then |es| else |es| + 1) && r[s] == e
    ensures forall i :: 0 <= i < |es| && i != s ==> r[i] == es[i]
  {
    if s < |es| then es[s := e] else es + [e]
  }

  /** Storing rows one after the other, the slot moving on from c. */
  function Fill(es: seq<Entry>, c: nat, rows: seq<Row>, q: Query, now: int): seq<Entry>
    requires c <= |es|
    decreases |rows|
  {
    if rows == [] then es
    else
      var s := Slot(es, c, now);
      Fill(Store(es, s, Entry(q.version, q.protocol, rows[0], now)), s, rows[1..], q, now)
  }

  function FirstFit(rows: seq<Row>, q: Query): Option<int> {
    if rows == [] then None else if Fits(rows[0], q) then Some(rows[0].uid) else FirstFit(rows[1..], q)
  }

  /** The uid the scan ends with. */
  function LastFit(rows: seq<Row>, q: Query, uid: int): int {
    if rows == [] then uid else LastFit(rows[1..], q, if Fits(rows[0], q) then rows[0].uid else uid)
  }

  predicate Readable(l: Line, ws: nat) {
    l.Fields? && |l.shex| == ws * 8 && |l.dhex| == ws * 8
  }

  function RowOf(l: Line): Row
    requires l.Fields?
  {
    Row(AddressOf(l.shex), l.sport, AddressOf(l.dhex), l.dport, l.uid)
  }

  /** The rows up to the first line that cannot be read. */
  function Rows(lines: seq<Line>, ws: nat): seq<Row> {
    if lines == [] || !Readable(lines[0], ws) then [] else [RowOf(lines[0])] + Rows(lines[1..], ws)
  }

  predicate KnownProtocol(q: Query) {
    || (q.protocol == IPPROTO_ICMP && q.version == 4) || (q.protocol == IPPROTO_ICMPV6 && q.version == 6)
    || q.protocol == IPPROTO_TCP || q.protocol == IPPROTO_UDP
  }

  /** The lines behind the heading. */
  function Body(lines: seq<Line>): seq<Line> {
    if lines == [] then [] else lines[1..]
  }

  /** The rows a query stores: none when it is answered from the cache. */
  function Scanned(es: seq<Entry>, q: Query, now: int, file: Option<seq<Line>>): seq<Row> {
    if Lookup(es, q, now).Some? || !KnownProtocol(q) || file.None? then [] else Rows(Body(file.value), Ws(q.version))
  }

  /** The answer of `get_uid_sub`; file is the table, or none when it cannot be opened. */
  function Answer(es: seq<Entry>, q: Query, now: int, file: Option<seq<Line>>): int {
    if Lookup(es, q, now).Some? then Lookup(es, q, now).value
    else if !KnownProtocol(q) then -1
    else if file.None? then -2
    else
      var rows := Rows(Body(file.value), Ws(q.version));
      if |rows| < |Body(file.value)| then -2 else LastFit(rows, q, -1)
  }

  /** The query with its addresses as IPv4-mapped IPv6 addresses. */
  function Mapped(q: Query): Query {
    var prefix: Bytes := [0, 0, 0, 0, 0, 0, 0, 0, 0, 0, 0xFF, 0xFF];
    q.(version := 6, saddr := prefix + q.saddr, daddr := prefix + q.daddr)
  }

  /** The cache after `get_uid_sub`. */
  function Remembered(es: seq<Entry>, q: Query, now: int, file: Option<seq<Line>>): seq<Entry> {
    Fill(es, 0, Scanned(es, q, now, file), q, now)
  }

  /** The answer of `get_uid`, and the cache after it. */
  function Resolve(es: seq<Entry>, q: Query, now: int, file6: Option<seq<Line>>, file: Option<seq<Line>>)
    : (int, seq<Entry>)
  {
    var q6 := Mapped(q);
    var first := if q.version == 4 then Answer(es, q6, now, file6) else -1;
    var after := if q.version == 4 then Remembered(es, q6, now, file6) else es;
    if first != -1 then (first, after) else (Answer(after, q, now, file), Remembered(after, q, now, file))
  }

  // ---- In place ----

  lemma SlotUnique(es: seq<Entry>, c: nat, now: int, s: nat)
    requires c <= s <= |es| && (s < |es| ==> !Fresh(es[s], now)) && forall i :: c <= i < s ==> Fresh(es[i], now)
    ensures s == Slot(es, c, now)
  {
  }

  class UidCache {
    var entries: seq<Entry>

    constructor ()
      ensures entries == []
    {
      entries := [];
    }

    method Find(q: Query, now: int) returns (uid: Option<int>)
      ensures uid == Lookup(entries, q, now)
    {
      for i := 0 to |entries|
        invariant Lookup(entries[i..], q, now) == Lookup(entries, q, now)
      {
        var e := entries[i];
        if && now - e.time <= UID_MAX_AGE && e.version == q.version && e.protocol == q.protocol
           && e.row.sport == q.sport && (e.row.dport == q.dport || e.row.dport == 0)
           && (e.row.saddr == q.saddr || IsZero(e.row.saddr)) && (e.row.daddr == q.daddr || IsZero(e.row.daddr)) {
          return Some(e.row.uid);
        }
        assert entries[i..][1..] == entries[i + 1..];
      }
      uid := None;
    }

    /** Move the slot on and write one row. */
    method StoreRow(c: nat, row: Row, q: Query, now: int) returns (s: nat)
      requires c <= |entries|
      modifies this
      ensures s == Slot(old(entries), c, now) && s < |entries|
      ensures entries == Store(old(entries), s, Entry(q.version, q.protocol, row, now))
    {
      s := c;
      while s < |entries| && !(now - entries[s].time > UID_MAX_AGE)
        invariant c <= s <= |entries|
        invariant forall i :: c <= i < s ==> Fresh(entries[i], now)
      {
        s := s + 1;
      }
      SlotUnique(entries, c, now, s);
      var e := Entry(q.version, q.protocol, row, now);
      if s >= |entries| {
        entries := entries + [e];
      } else {
        entries := entries[s := e];
      }
    }

    /** The loop over the lines of the table. */
    method Scan(q: Query, now: int, lines: seq<Line>) returns (uid: int)
      modifies this
      ensures var rows := Rows(lines, Ws(q.version));
              && entries == Fill(old(entries), 0, rows, q, now)
              && uid == if |rows| < |lines| then -2 else LastFit(rows, q, -1)
    {
      hide Fits, Fill, Store, Slot, AddressOf;
      ghost var rows := Rows(lines, Ws(q.version));
      ghost var all := Fill(entries, 0, rows, q, now);
      uid := -1;
      var c: nat := 0;
      for l := 0 to |lines|
        invariant c <= |entries| && l <= |rows|
        invariant Rows(lines[l..], Ws(q.version)) == rows[l..]
        invariant Fill(entries, c, rows[l..], q, now) == all
        invariant LastFit(rows[l..], q, uid) == LastFit(rows, q, -1)
      {
        if !Readable(lines[l], Ws(q.version)) {
          assert rows[l..] == [];
          NothingToFill(entries, c, q, now);
          return -2;
        }
        assert lines[l..][1..] == lines[l + 1..];
        assert rows[l..] == [RowOf(lines[l])] + Rows(lines[l + 1..], Ws(q.version));
        assert rows[l..][1..] == rows[l + 1..];
        FillStep(entries, c, rows[l..], q, now);
        var saddr := ReadAddress(lines[l].shex, Ws(q.version));
        var daddr := ReadAddress(lines[l].dhex, Ws(q.version));
        var row := Row(saddr, lines[l].sport, daddr, lines[l].dport, lines[l].uid);
        FitsMeans(row, q);
        if && row.sport == q.sport && (row.dport == q.dport || row.dport == 0)
           && (saddr == q.saddr || IsZero(saddr)) && (daddr == q.daddr || IsZero(daddr)) {
          uid := row.uid;
        }
        c := StoreRow(c, row, q, now);
      }
      assert lines[|lines|..] == [] && rows[|lines|..] == [];
      NothingToFill(entries, c, q, now);
    }

    /** `get_uid_sub`. */
    method GetUidSub(q: Query, now: int, file: Option<seq<Line>>) returns (uid: int)
      modifies this
      ensures uid == Answer(old(entries), q, now, file)
      ensures entries == Remembered(old(entries), q, now, file)
    {
      hide Lookup, LastFit, Rows;
      var found := Find(q, now);
      if found.Some? {
        return found.value;
      }
      if !KnownProtocol(q) {
        return -1;
      }
      if file.None? {
        return -2;
      }
      uid := Scan(q, now, if file.value == [] then [] else file.value[1..]);
    }

    /** `get_uid`: an IPv4 query asks the IPv6 table first, with the addresses mapped. */
    method GetUid(q: Query, now: int, file6: Option<seq<Line>>, file: Option<seq<Line>>) returns (uid: int)
      modifies this
      ensures (uid, entries) == Resolve(old(entries), q, now, file6, file)
    {
      hide Answer, Fill, Scanned;
      uid := -1;
      if q.version == 4 {
        uid := GetUidSub(Mapped(q), now, file6);
      }
      if uid == -1 {
        uid := GetUidSub(q, now, file);
      }
    }
  }

  lemma FitsMeans(r: Row, q: Query)
    ensures Fits(r, q) <==>
            && r.sport == q.sport && (r.dport == q.dport || r.dport == 0)
            && (r.saddr == q.saddr || IsZero(r.saddr)) && (r.daddr == q.daddr || IsZero(r.daddr))
  {
  }

  lemma NothingToFill(es: seq<Entry>, c: nat, q: Query, now: int)
    requires c <= |es|
    ensures Fill(es, c, [], q, now) == es
  {
  }

  lemma FillStep(es: seq<Entry>, c: nat, rows: seq<Row>, q: Query, now: int)
    requires c <= |es| && rows != []
    ensures var s := Slot(es, c, now);
            s <= |es| && s < |Store(es, s, Entry(q.version, q.protocol, rows[0], now))| &&
            var mid := Store(es, s, Entry(q.version, q.protocol, rows[0], now));
            Fill(es, c, rows, q, now) == Fill(mid, s, rows[1..], q, now)
  {
  }

  // ---- Every row its own slot ----

  lemma SlotMovesOn(es: seq<Entry>, s: nat, e: Entry, rows: seq<Row>, q: Query, now: int)
    requires s < |es| && es[s] == e && e.time == now
    ensures Fill(es, s, rows, q, now) == Fill(es, s + 1, rows, q, now)
  {
    if rows != [] {
      assert Slot(es, s, now) == Slot(es, s + 1, now);
    }
  }

  ghost predicate InSlots(es: seq<Entry>, c: nat, rows: seq<Row>, p: seq<nat>, q: Query, now: int) {
    && |p| == |rows|
    && (forall k :: 0 <= k < |p| ==> c <= p[k] < |es| && es[p[k]] == Entry(q.version, q.protocol, rows[k], now))
    && (forall j, k :: 0 <= j < k < |p| ==> p[j] < p[k])
  }

  ghost predicate OthersKept(was: seq<Entry>, es: seq<Entry>, p: seq<nat>) {
    && |was| <= |es|
    && (forall i :: 0 <= i < |was| && i !in p ==> es[i] == was[i])
    && (forall i :: |was| <= i < |es| ==> i in p)
  }

  ghost predicate OnlyStale(was: seq<Entry>, p: seq<nat>, now: int) {
    forall k :: 0 <= k < |p| && p[k] < |was| ==> !Fresh(was[p[k]], now)
  }

  /** The list grew only when no stale slot was left from c on. */
  ghost predicate GrownWhenFull(was: seq<Entry>, es: seq<Entry>, c: nat, now: int) {
    |was| < |es| ==> forall i :: c <= i < |es| ==> Fresh(es[i], now)
  }

  /** Where the rows went. */
  ghost predicate Placed(was: seq<Entry>, es: seq<Entry>, c: nat, rows: seq<Row>, p: seq<nat>, q: Query, now: int) {
    && InSlots(es, c, rows, p, q, now) && OthersKept(was, es, p) && OnlyStale(was, p, now)
    && GrownWhenFull(was, es, c, now)
  }

  lemma InSlotsFirst(es: seq<Entry>, c: nat, s: nat, rows: seq<Row>, p: seq<nat>, q: Query, now: int)
    requires rows != [] && c <= s < |es| && es[s] == Entry(q.version, q.protocol, rows[0], now)
    requires InSlots(es, s + 1, rows[1..], p, q, now)
    ensures InSlots(es, c, rows, [s] + p, q, now)
  {
  }

  lemma OthersKeptFirst(was: seq<Entry>, s: nat, e: Entry, es: seq<Entry>, p: seq<nat>)
    requires s <= |was| && OthersKept(Store(was, s, e), es, p) && s !in p
    ensures OthersKept(was, es, [s] + p) && es[s] == e
  {
    forall i | 0 <= i < |was| && i !in [s] + p
      ensures es[i] == was[i]
    {
      assert i != s && i !in p;
    }
    assert s in [s] + p;
  }

  lemma OnlyStaleFirst(was: seq<Entry>, s: nat, e: Entry, p: seq<nat>, now: int)
    requires s <= |was| && (s < |was| ==> !Fresh(was[s], now)) && s !in p
    requires OnlyStale(Store(was, s, e), p, now)
    ensures OnlyStale(was, [s] + p, now)
  {
    forall k | 0 <= k < |[s] + p| && ([s] + p)[k] < |was|
      ensures !Fresh(was[([s] + p)[k]], now)
    {
      if k > 0 {
        assert !Fresh(Store(was, s, e)[p[k - 1]], now);
      }
    }
  }

  lemma GrownFirst(was: seq<Entry>, s: nat, e: Entry, es: seq<Entry>, c: nat, p: seq<nat>, now: int)
    requires c <= s <= |was| && (forall i :: c <= i < s ==> Fresh(was[i], now)) && Fresh(e, now)
    requires OthersKept(Store(was, s, e), es, p) && (forall i <- p :: i > s)
    requires GrownWhenFull(Store(was, s, e), es, s + 1, now)
    ensures GrownWhenFull(was, es, c, now)
  {
    if |was| < |es| {
      forall i | c <= i < |es|
        ensures Fresh(es[i], now)
      {
        if i <= s {
          assert i !in p;
        }
      }
    }
  }

  lemma PlacedFirst(was: seq<Entry>, es: seq<Entry>, c: nat, rows: seq<Row>, p: seq<nat>, q: Query, now: int)
    requires rows != [] && c <= |was|
    requires var s := Slot(was, c, now);
             Placed(Store(was, s, Entry(q.version, q.protocol, rows[0], now)), es, s + 1, rows[1..], p, q, now)
    ensures Placed(was, es, c, rows, [Slot(was, c, now)] + p, q, now)
  {
    hide OthersKept, OnlyStale, GrownWhenFull, Slot, Store;
    var s, e := Slot(was, c, now), Entry(q.version, q.protocol, rows[0], now);
    assert forall i <- p :: i > s;
    OthersKeptFirst(was, s, e, es, p);
    Longer(Store(was, s, e), es, p);
    InSlotsFirst(es, c, s, rows, p, q, now);
    OnlyStaleFirst(was, s, e, p, now);
    GrownFirst(was, s, e, es, c, p, now);
  }

  lemma Longer(was: seq<Entry>, es: seq<Entry>, p: seq<nat>)
    requires OthersKept(was, es, p)
    ensures |was| <= |es|
  {
  }

  lemma {:induction false} FillPlaces(es: seq<Entry>, c: nat, rows: seq<Row>, q: Query, now: int)
    returns (p: seq<nat>)
    requires c <= |es|
    ensures Placed(es, Fill(es, c, rows, q, now), c, rows, p, q, now)
    decreases |rows|
  {
    hide Placed, Fill, Store, Slot;
    if rows == [] {
      p := [];
      PlacedNothing(es, c, q, now);
      return;
    }
    FillStep(es, c, rows, q, now);
    var s := Slot(es, c, now);
    var e := Entry(q.version, q.protocol, rows[0], now);
    var mid := Store(es, s, e);
    SlotMovesOn(mid, s, e, rows[1..], q, now);
    var rest := FillPlaces(mid, s + 1, rows[1..], q, now);
    PlacedFirst(es, Fill(es, c, rows, q, now), c, rows, rest, q, now);
    p := [s] + rest;
  }

  lemma PlacedNothing(es: seq<Entry>, c: nat, q: Query, now: int)
    requires c <= |es|
    ensures Placed(es, Fill(es, c, [], q, now), c, [], [], q, now)
  {
  }

  /** A scan gives each of its rows a slot of its own, in order; no fresh entry is overwritten; and the
      cache grows only when no stale slot is left. */
  lemma ScanKeepsFresh(es: seq<Entry>, rows: seq<Row>, q: Query, now: int) returns (p: seq<nat>)
    ensures var r := Fill(es, 0, rows, q, now);
            && |p| == |rows| && |es| <= |r|
            && (forall j, k :: 0 <= j < k < |p| ==> p[j] < p[k])
            && (forall k :: 0 <= k < |p| ==> p[k] < |r| && r[p[k]] == Entry(q.version, q.protocol, rows[k], now))
            && (forall i :: 0 <= i < |es| && Fresh(es[i], now) ==> r[i] == es[i])
            && (forall i :: 0 <= i < |r| && i !in p ==> i < |es| && r[i] == es[i])
            && (|es| < |r| ==> forall e <- r :: Fresh(e, now))
  {
    hide Fill;
    p := FillPlaces(es, 0, rows, q, now);
  }

  // ---- Asking again ----

  lemma {:induction false} FillKeepsFront(es: seq<Entry>, c: nat, rows: seq<Row>, q: Query, now: int)
    requires c <= |es|
    ensures |es| <= |Fill(es, c, rows, q, now)| && Fill(es, c, rows, q, now)[..c] == es[..c]
    decreases |rows|
  {
    if rows != [] {
      var s := Slot(es, c, now);
      FillKeepsFront(Store(es, s, Entry(q.version, q.protocol, rows[0], now)), s, rows[1..], q, now);
    }
  }

  lemma {:induction false} FirstHit(es: seq<Entry>, s: nat, q: Query, now: int)
    requires s < |es| && Hits(es[s], q, now) && forall i :: 0 <= i < s ==> !Hits(es[i], q, now)
    ensures Lookup(es, q, now) == Some(es[s].row.uid)
  {
    if s > 0 {
      FirstHit(es[1..], s - 1, q, now);
    }
  }

  lemma {:induction false} NoHit(es: seq<Entry>, q: Query, now: int)
    ensures Lookup(es, q, now) == None <==> forall e <- es :: !Hits(e, q, now)
  {
    if es != [] {
      NoHit(es[1..], q, now);
      assert es == [es[0]] + es[1..];
    }
  }

  lemma {:induction false} FoundAmongRows(es: seq<Entry>, c: nat, rows: seq<Row>, q: Query, now: int, later: int)
    requires c <= |es| && now <= later <= now + 30000
    requires forall e <- es :: !Hits(e, q, later)
    ensures Lookup(Fill(es, c, rows, q, now), q, later) == FirstFit(rows, q)
    decreases |rows|
  {
    hide Fits, Slot, Fill, Lookup;
    if rows == [] {
      NothingToFill(es, c, q, now);
      NoHit(es, q, later);
      return;
    }
    FillStep(es, c, rows, q, now);
    var s := Slot(es, c, now);
    var e := Entry(q.version, q.protocol, rows[0], now);
    var mid := Store(es, s, e);
    if Fits(rows[0], q) {
      SlotMovesOn(mid, s, e, rows[1..], q, now);
      FillKeepsFront(mid, s + 1, rows[1..], q, now);
      var r := Fill(mid, s + 1, rows[1..], q, now);
      assert forall i :: 0 <= i <= s ==> r[i] == r[..s + 1][i] == mid[i];
      FirstHit(r, s, q, later);
    } else {
      FoundAmongRows(mid, s, rows[1..], q, now, later);
    }
  }

  /** A query that was not in the cache is scanned for; asked again within 30 seconds it gets the uid
      of the first row that fits, if there is one. */
  lemma RepeatedQuery(es: seq<Entry>, q: Query, now: int, rows: seq<Row>, later: int)
    requires Lookup(es, q, now) == None && now <= later <= now + 30000
    ensures Lookup(Fill(es, 0, rows, q, now), q, later) == FirstFit(rows, q)
  {
    NoHit(es, q, now);
    FoundAmongRows(es, 0, rows, q, now, later);
  }

  lemma {:induction false} LastAmong(rows: seq<Row>, q: Query, uid: int)
    ensures FirstFit(rows, q).None? ==> LastFit(rows, q, uid) == uid
    ensures FirstFit(rows, q).Some? ==> exists r :: r in rows && Fits(r, q) && LastFit(rows, q, uid) == r.uid
  {
    hide Fits;
    if rows != [] {
      var now := if Fits(rows[0], q) then rows[0].uid else uid;
      LastAmong(rows[1..], q, now);
      if FirstFit(rows, q).Some? {
        if FirstFit(rows[1..], q).Some? {
          var r :| r in rows[1..] && Fits(r, q) && LastFit(rows[1..], q, now) == r.uid;
          assert r in rows && LastFit(rows, q, uid) == r.uid;
        } else {
          assert rows[0] in rows && Fits(rows[0], q) && LastFit(rows, q, uid) == rows[0].uid;
        }
      }
    }
  }

  lemma {:induction false} FirstAmong(rows: seq<Row>, q: Query)
    ensures FirstFit(rows, q).Some? ==> exists r :: r in rows && Fits(r, q) && FirstFit(rows, q).value == r.uid
    ensures FirstFit(rows, q).None? ==> forall r <- rows :: !Fits(r, q)
  {
    hide Fits;
    if rows != [] {
      FirstAmong(rows[1..], q);
      assert rows == [rows[0]] + rows[1..];
      if FirstFit(rows, q).Some? && !Fits(rows[0], q) {
        var r :| r in rows[1..] && Fits(r, q) && FirstFit(rows[1..], q).value == r.uid;
        assert r in rows;
      }
    }
  }

  /** The scan answers with the last row that fits and the cache with the first. So the answer stays
      the same iff these two carry one uid, and it does when all rows that fit carry one. */
  lemma CacheAgreesWithScan(es: seq<Entry>, q: Query, now: int, lines: seq<Line>, later: int, file: Option<seq<Line>>)
    requires Lookup(es, q, now) == None && KnownProtocol(q) && now <= later <= now + 30000
    requires forall l <- Body(lines) :: Readable(l, Ws(q.version))
    ensures var rows := Rows(Body(lines), Ws(q.version));
            var first, after := Answer(es, q, now, Some(lines)), Remembered(es, q, now, Some(lines));
            && first == LastFit(rows, q, -1)
            && (FirstFit(rows, q).Some? ==>
                  && Answer(after, q, later, file) == FirstFit(rows, q).value
                  && (Answer(after, q, later, file) == first <==> FirstFit(rows, q).value == LastFit(rows, q, -1))
                  && ((forall r, s :: r in rows && s in rows && Fits(r, q) && Fits(s, q) ==> r.uid == s.uid) ==>
                        Answer(after, q, later, file) == first))
  {
    hide Fits, Lookup, FirstFit, LastFit, Fill, Readable;
    var rows := Rows(Body(lines), Ws(q.version));
    AllReadable(Body(lines), Ws(q.version));
    RepeatedQuery(es, q, now, rows, later);
    FirstAmong(rows, q);
    LastAmong(rows, q, -1);
  }

  lemma {:induction false} AllReadable(lines: seq<Line>, ws: nat)
    requires forall l <- lines :: Readable(l, ws)
    ensures |Rows(lines, ws)| == |lines|
  {
    if lines != [] {
      assert lines[0] in lines;
      AllReadable(lines[1..], ws);
    }
  }

  /** Rows that differ: the second answer is not the first. */
  lemma CacheDiffersFromScan()
    ensures var q := Query(4, IPPROTO_TCP, [10, 0, 0, 1], 80, [10, 0, 0, 2], 443);
            var listening := Row([0, 0, 0, 0], 80, [0, 0, 0, 0], 0, 1000);
            var connected := Row(q.saddr, 80, q.daddr, 443, 10001);
            var rows := [listening, connected];
            LastFit(rows, q, -1) == 10001 && Lookup(Fill([], 0, rows, q, 0), q, 1) == Some(1000)
  {
    var q := Query(4, IPPROTO_TCP, [10, 0, 0, 1], 80, [10, 0, 0, 2], 443);
    var listening, connected := Row([0, 0, 0, 0], 80, [0, 0, 0, 0], 0, 1000), Row(q.saddr, 80, q.daddr, 443, 10001);
    var rows := [listening, connected];
    assert Fits(listening, q) && Fits(connected, q);
    assert rows[1..] == [connected] && rows[1..][1..] == [];
    assert LastFit(rows, q, -1) == LastFit([connected], q, 1000) == LastFit([], q, 10001);
    RepeatedQuery([], q, 0, rows, 1);
  }

  // ---- Over whole runs ----

  datatype Ask = Ask(q: Query, now: int, file: Option<seq<Line>>)

  function After(asks: seq<Ask>): seq<Entry> {
    if asks == [] then []
    else
      var es, a := After(asks[..|asks| - 1]), asks[|asks| - 1];
      Fill(es, 0, Scanned(es, a.q, a.now, a.file), a.q, a.now)
  }

  /** The entry holds a row that the table had when that query was asked. */
  ghost predicate SeenBy(e: Entry, a: Ask) {
    && e.version == a.q.version && e.protocol == a.q.protocol && e.time == a.now && a.file.Some?
    && e.row in Rows(Body(a.file.value), Ws(a.q.version))
  }

  ghost predicate SeenIn(e: Entry, asks: seq<Ask>) {
    exists a :: a in asks && SeenBy(e, a)
  }

  lemma {:induction false} EntriesSeen(asks: seq<Ask>)
    ensures forall e <- After(asks) :: SeenIn(e, asks)
  {
    hide Fill, Rows, Lookup;
    if asks != [] {
      var earlier, a := asks[..|asks| - 1], asks[|asks| - 1];
      assert a in asks;
      EntriesSeen(earlier);
      var es := After(earlier);
      var rows := Scanned(es, a.q, a.now, a.file);
      var p := ScanKeepsFresh(es, rows, a.q, a.now);
      var r := Fill(es, 0, rows, a.q, a.now);
      forall i | 0 <= i < |r|
        ensures SeenIn(r[i], asks)
      {
        if i in p {
          var k :| 0 <= k < |p| && p[k] == i;
          assert rows[k] in rows;
          assert SeenBy(r[i], a);
        } else {
          assert SeenIn(es[i], earlier);
        }
      }
    }
  }

  /** After any run of queries, an answer from the cache is the uid of a row that fits and that a query
      of the same version and protocol saw in the table at most 30 seconds before. */
  lemma CachedAnswersAreSeen(asks: seq<Ask>, q: Query, now: int)
    requires Lookup(After(asks), q, now).Some?
    ensures exists e, a :: a in asks && SeenBy(e, a) && now - a.now <= 30000 && Fits(e.row, q)
                       && a.q.version == q.version && a.q.protocol == q.protocol
                       && e.row.uid == Lookup(After(asks), q, now).value
  {
    hide After, Rows, Fits;
    EntriesSeen(asks);
    var e := Hit(After(asks), q, now);
    assert SeenIn(e, asks);
  }

  lemma {:induction false} Hit(es: seq<Entry>, q: Query, now: int) returns (e: Entry)
    requires Lookup(es, q, now).Some?
    ensures e in es && Hits(e, q, now) && e.row.uid == Lookup(es, q, now).value
  {
    if Hits(es[0], q, now) {
      e := es[0];
    } else {
      e := Hit(es[1..], q, now);
    }
  }
}
