/** The app table and the three sorted uid lists, updated in place. Every method does exactly what
    AppTable says of the table and the sets. */
module Firewall {
  import opened Wrappers
  import opened SortedLists
  import A = AppTable

  type App = A.App

  // ---- Grouping installed packages ----

  lemma UidsCons(a: App, s: seq<App>)
    ensures A.Uids([a] + s) == [a.uid] + A.Uids(s) && multiset([a] + s) == multiset{a} + multiset(s)
  {
  }

  /** An app in its place, behind all with a smaller or the same uid. */
  function Place(s: seq<App>, a: App): (r: seq<App>)
    ensures A.Uids(r) == Insert(A.Uids(s), a.uid) && multiset(r) == multiset(s) + multiset{a}
  {
    hide A.Uids;
    if s == [] || a.uid < s[0].uid then
      UidsCons(a, s);
      [a] + s
    else
      assert s == [s[0]] + s[1..];
      UidsCons(s[0], s[1..]);
      var rest := Place(s[1..], a);
      UidsCons(s[0], rest);
      assert A.Uids(s)[1..] == A.Uids(s[1..]);
      [s[0]] + rest
  }

  /** Sorting by uid, stable as `Collections.sort` is. */
  function SortApps(s: seq<App>): (r: seq<App>)
    ensures A.Uids(r) == Sort(A.Uids(s)) && multiset(r) == multiset(s)
  {
    if s == [] then []
    else
      var n := |s| - 1;
      assert s == s[..n] + [s[n]] && A.Uids(s)[..n] == A.Uids(s[..n]);
      Place(SortApps(s[..n]), s[n])
  }

  /** `getPackagesInternetPermission`: the uids and the apps, sorted the same way. */
  method GetPackagesInternetPermission(ps: seq<A.Package>, myUid: int) returns (allUid: seq<int>, result: seq<App>)
    ensures allUid == A.Uids(result) && Ascending(allUid)
    ensures multiset(result) == multiset(A.Collected(ps, myUid))
  {
    hide A.Groups;
    allUid, result := [], [];
    for i := 0 to |ps|
      invariant result == A.Collected(ps[..i], myUid)
      invariant allUid == A.Uids(result)
    {
      var p := ps[i];
      assert ps[..i + 1][..i] == ps[..i];
      if p.uid != myUid && p.internet {
        var index := A.IndexOf(result, p.uid);
        if index >= |result| {
          allUid := allUid + [p.uid];
          result := result + [A.NewApp(p)];
        } else {
          result := result[index := A.WithPackage(result[index], p)];
        }
      }
    }
    assert ps[..|ps|] == ps;
    A.CollectedGroups(ps, myUid);
    GroupsDistinct(result, ps, myUid);
    SortAscending(allUid);
    allUid := Sort(allUid);
    result := SortApps(result);
  }

  lemma GroupsDistinct(apps: seq<App>, ps: seq<A.Package>, myUid: int)
    requires A.Groups(apps, ps, myUid)
    ensures Distinct(A.Uids(apps))
  {
  }

  // ---- The loop over the rows ----

  /** The rows as a query lists them, each once. */
  ghost predicate Lists(rows: seq<App>, t: A.Table) {
    && Distinct(A.Uids(rows))
    && (forall a <- rows :: a.uid in t && t[a.uid] == a)
    && (forall u <- t :: t[u] in rows && t[u].uid == u)
  }

  /** The uids of the first i rows. */
  ghost function Done(rows: seq<App>, i: nat): set<int>
    requires i <= |rows|
  {
    set j | 0 <= j < i :: rows[j].uid
  }

  /** The two parallel lists, without what is done. */
  ghost predicate Aligned(uids: seq<int>, apps: seq<App>, all: seq<App>, done: set<int>) {
    && Ascending(uids) && uids == A.Uids(apps)
    && (forall a :: a in apps <==> a in all && a.uid !in done)
  }

  /** A list of the first i rows that are installed and have a flag. */
  ghost predicate Noted(list: seq<int>, rows: seq<App>, i: nat, all: seq<App>, flag: A.Flag)
    requires i <= |rows|
  {
    && Distinct(list)
    && (forall u :: u in list <==> exists j :: 0 <= j < i && IsNoted(rows[j], u, all, flag))
  }

  predicate IsNoted(row: App, uid: int, all: seq<App>, flag: A.Flag) {
    row.uid == uid && uid in A.Uids(all) && A.Has(row, flag)
  }

  /** The table without the rows that are done and gone. */
  function Remaining(t: A.Table, done: set<int>, uids: seq<int>): A.Table {
    map u | u in t && (u !in done || u in uids) :: t[u]
  }

  lemma StartAligned(apps: seq<App>, rows: seq<App>)
    requires Ascending(A.Uids(apps))
    ensures Aligned(A.Uids(apps), apps, apps, Done(rows, 0))
  {
  }

  lemma StartNoted(rows: seq<App>, all: seq<App>, flag: A.Flag)
    ensures Noted([], rows, 0, all, flag)
  {
  }

  lemma StartRemaining(t: A.Table, rows: seq<App>, uids: seq<int>)
    ensures Remaining(t, Done(rows, 0), uids) == t
  {
  }

  lemma IsAligned(uids: seq<int>, apps: seq<App>, all: seq<App>, done: set<int>)
    requires Aligned(uids, apps, all, done)
    ensures Ascending(uids) && uids == A.Uids(apps)
    ensures forall u :: u !in done ==> (u in uids <==> u in A.Uids(all))
  {
    forall u | u !in done
      ensures u in uids <==> u in A.Uids(all)
    {
      if u in uids {
        var i :| 0 <= i < |uids| && uids[i] == u;
        assert apps[i] in all;
        InUids(all, apps[i]);
      }
      if u in A.Uids(all) {
        var i :| 0 <= i < |all| && A.Uids(all)[i] == u;
        assert all[i] in apps;
        InUids(apps, all[i]);
      }
    }
  }

  lemma InUids(apps: seq<App>, a: App)
    requires a in apps
    ensures a.uid in A.Uids(apps)
  {
    var i :| 0 <= i < |apps| && apps[i] == a;
    assert A.Uids(apps)[i] == a.uid;
  }

  /** The next row is listed once, and is as in the table. */
  lemma NextRow(rows: seq<App>, t: A.Table, i: nat)
    requires Lists(rows, t) && i < |rows|
    ensures var u := rows[i].uid;
            u in t && t[u] == rows[i] && u !in Done(rows, i) && Done(rows, i + 1) == Done(rows, i) + {u}
  {
    assert rows[i] in rows;
    assert forall j :: 0 <= j < i ==> A.Uids(rows)[j] != A.Uids(rows)[i];
  }

  lemma AllDone(rows: seq<App>, t: A.Table)
    requires Lists(rows, t)
    ensures Done(rows, |rows|) == t.Keys
  {
    forall u | u in t
      ensures u in Done(rows, |rows|)
    {
      var j :| 0 <= j < |rows| && rows[j] == t[u];
    }
  }

  lemma SkipAligned(uids: seq<int>, apps: seq<App>, all: seq<App>, done: set<int>, uid: int)
    requires Aligned(uids, apps, all, done) && uid !in uids
    ensures Aligned(uids, apps, all, done + {uid})
  {
    forall a | a in apps
      ensures a.uid != uid
    {
      InUids(apps, a);
    }
  }

  lemma DropUids(apps: seq<App>, k: nat)
    requires k < |apps|
    ensures A.Uids(apps[..k] + apps[k + 1..]) == A.Uids(apps)[..k] + A.Uids(apps)[k + 1..]
  {
  }

  lemma DropApp(apps: seq<App>, k: nat, a: App)
    requires Ascending(A.Uids(apps)) && k < |apps|
    ensures a in apps[..k] + apps[k + 1..] <==> a in apps && a.uid != apps[k].uid
  {
    hide A.Uids;
    var r := apps[..k] + apps[k + 1..];
    if a in apps && a.uid != apps[k].uid {
      var i :| 0 <= i < |apps| && apps[i] == a;
      assert r[if i < k then i else i - 1] == a;
    }
    if a in r {
      var i :| 0 <= i < |r| && r[i] == a;
      var j := if i < k then i else i + 1;
      assert apps[j] == a && A.Uids(apps)[j] != A.Uids(apps)[k];
    }
  }

  /** Removing one index from both lists keeps them aligned. */
  lemma DropAligned(uids: seq<int>, apps: seq<App>, all: seq<App>, done: set<int>, k: nat)
    requires Aligned(uids, apps, all, done) && k < |uids|
    ensures |apps| == |uids|
    ensures Aligned(uids[..k] + uids[k + 1..], apps[..k] + apps[k + 1..], all, done + {uids[k]})
  {
    hide A.Uids, Ascending, Elements;
    AscendingParts(uids, k);
    DropUids(apps, k);
    forall a
      ensures a in apps[..k] + apps[k + 1..] <==> a in apps && a.uid != uids[k]
    {
      DropApp(apps, k, a);
    }
  }

  lemma RemainingStep(t: A.Table, done: set<int>, uids: seq<int>, uid: int)
    ensures Remaining(t, done + {uid}, uids) ==
            if uid in uids then Remaining(t, done, uids) else Remaining(t, done, uids) - {uid}
  {
  }

  function Note(list: seq<int>, row: App, installed: bool, flag: A.Flag): seq<int> {
    if installed && A.Has(row, flag) && row.uid !in list then list + [row.uid] else list
  }

  lemma NoteKeeps(list: seq<int>, rows: seq<App>, i: nat, all: seq<App>, flag: A.Flag)
    requires i < |rows| && Noted(list, rows, i, all, flag)
    ensures Noted(Note(list, rows[i], rows[i].uid in A.Uids(all), flag), rows, i + 1, all, flag)
  {
    var r := Note(list, rows[i], rows[i].uid in A.Uids(all), flag);
    forall u
      ensures u in r <==> exists j :: 0 <= j < i + 1 && IsNoted(rows[j], u, all, flag)
    {
      if u in r {
        if u in list {
          var j :| 0 <= j < i && IsNoted(rows[j], u, all, flag);
        } else {
          assert IsNoted(rows[i], u, all, flag);
        }
      } else {
        assert u !in list;
      }
    }
  }

  // ---- The table after the loop ----

  /** The first i apps were added to a table that had none of them. */
  ghost predicate WithRows(t: A.Table, kept: A.Table, apps: seq<App>, i: nat)
    requires i <= |apps|
  {
    && (forall u :: u in t <==> u in kept || u in A.Uids(apps[..i]))
    && (forall u <- kept :: t[u] == kept[u])
    && (forall j :: 0 <= j < i ==> apps[j].uid in t && t[apps[j].uid] == apps[j])
  }

  lemma WithNoRows(t: A.Table, apps: seq<App>)
    ensures WithRows(t, t, apps, 0)
  {
  }

  lemma WithNextRow(t: A.Table, kept: A.Table, apps: seq<App>, i: nat)
    requires i < |apps| && WithRows(t, kept, apps, i)
    requires Ascending(A.Uids(apps)) && apps[i].uid !in kept
    ensures WithRows(A.InsertRow(t, apps[i]), kept, apps, i + 1)
  {
    assert A.Uids(apps[..i + 1]) == A.Uids(apps[..i]) + [apps[i].uid];
    forall j | 0 <= j < i
      ensures apps[j].uid != apps[i].uid && A.Uids(apps[..i])[j] != apps[i].uid
    {
      assert A.Uids(apps)[j] < A.Uids(apps)[i];
    }
  }

  lemma SameUids(a: seq<App>, b: seq<App>)
    requires multiset(a) == multiset(b)
    ensures forall x :: x in a <==> x in b
    ensures forall u :: u in A.Uids(a) <==> u in A.Uids(b)
  {
    assert forall x :: x in a <==> x in multiset(a);
    assert forall x :: x in b <==> x in multiset(b);
    forall u
      ensures u in A.Uids(a) <==> u in A.Uids(b)
    {
      if u in A.Uids(a) {
        var i :| 0 <= i < |a| && A.Uids(a)[i] == u;
        InUids(b, a[i]);
      }
      if u in A.Uids(b) {
        var i :| 0 <= i < |b| && A.Uids(b)[i] == u;
        InUids(a, b[i]);
      }
    }
  }

  lemma DistinctAt(s: seq<int>, i: nat, j: nat)
    requires Distinct(s) && i <= j < |s| && s[i] == s[j]
    ensures i == j
  {
  }

  lemma OneOfUid(apps: seq<App>, a: App)
    requires Distinct(A.Uids(apps)) && a in apps
    ensures A.IndexOf(apps, a.uid) < |apps| && apps[A.IndexOf(apps, a.uid)] == a
  {
    hide A.Uids, A.IndexOf, Distinct;
    var i :| 0 <= i < |apps| && apps[i] == a;
    var k := A.IndexOf(apps, a.uid);
    DistinctAt(A.Uids(apps), k, i);
  }

  /** What the two loops leave is the table that loading promises. */
  lemma LoadedSame(t: A.Table, r: A.Table, apps: seq<App>, all: seq<App>, rest: seq<App>)
    requires Distinct(A.Uids(apps)) && multiset(all) == multiset(apps)
    requires Aligned(A.Uids(rest), rest, all, t.Keys)
    requires WithRows(r, map u | u in t && u in A.Uids(all) :: t[u], rest, |rest|)
    ensures r == A.Loaded(t, apps)
  {
    hide Ascending;
    SameUids(all, apps);
    IsAligned(A.Uids(rest), rest, all, t.Keys);
    assert rest[..|rest|] == rest;
    forall a | a in rest
      ensures a.uid in r && r[a.uid] == a && apps[A.IndexOf(apps, a.uid)] == a
    {
      var j :| 0 <= j < |rest| && rest[j] == a;
      OneOfUid(apps, a);
    }
    var l := A.Loaded(t, apps);
    forall u
      ensures u in r <==> u in l
      ensures u in r ==> r[u] == l[u]
    {
      if u in A.Uids(rest) {
        var j :| 0 <= j < |rest| && A.Uids(rest)[j] == u;
        assert rest[j] in rest;
      }
    }
  }

  /** The noted uids are those whose row has the flag after loading: new rows have none. */
  lemma NotedAreHaving(list: seq<int>, rows: seq<App>, all: seq<App>, t: A.Table, ps: seq<A.Package>, myUid: int,
                       flag: A.Flag)
    requires Lists(rows, t) && Noted(list, rows, |rows|, all, flag)
    requires multiset(all) == multiset(A.Collected(ps, myUid))
    ensures Distinct(list) && Elements(list) == A.Having(A.Loaded(t, A.Collected(ps, myUid)), flag)
  {
    hide A.Collected, A.Loaded;
    var apps := A.Collected(ps, myUid);
    SameUids(all, apps);
    A.LoadedRows(t, apps);
    A.CollectedGroups(ps, myUid);
    var l := A.Loaded(t, apps);
    forall u
      ensures u in list <==> u in l && A.Has(l[u], flag)
    {
      if u in list {
        var j :| 0 <= j < |rows| && IsNoted(rows[j], u, all, flag);
        assert rows[j] in rows;
      }
      if u in l && A.Has(l[u], flag) {
        assert u in t;
        var j :| 0 <= j < |rows| && rows[j] == t[u];
        assert IsNoted(rows[j], u, all, flag);
      }
    }
  }

  class Firewall {
    var table: A.Table
    var allowed: seq<int>
    var notified: seq<int>
    var interact: seq<int>
    const myUid: int

    ghost predicate Valid()
      reads this
    {
      Ascending(allowed) && Ascending(notified) && Ascending(interact)
    }

    ghost function Index(): A.Index
      reads this
    {
      A.Index(table, Elements(allowed), Elements(notified), Elements(interact))
    }

    constructor (table: A.Table, myUid: int)
      ensures Valid() && Index() == A.Index(table, {}, {}, {}) && this.myUid == myUid
    {
      this.table, this.myUid := table, myUid;
      allowed, notified, interact := [], [], [];
    }

    method HasAccess(uid: int) returns (r: bool)
      requires Valid()
      ensures r <==> uid in Index().allowed
    {
      var index := BinarySearch(allowed, uid);
      r := 0 <= index < |allowed|;
    }

    method IsBlockedUid(uid: int) returns (blocked: bool)
      requires Valid()
      ensures blocked == A.IsBlockedUid(Index(), uid, myUid)
    {
      if uid == myUid {
        return false;
      }
      if uid > 0 {
        var access := HasAccess(uid);
        return !access;
      }
      blocked := uid != 0;
    }

    /** `updateApplicationData`. */
    method UpdateApplicationData(uid: int, app: App)
      requires Valid()
      modifies this
      ensures Valid() && Index() == A.Update(old(Index()), uid, app)
    {
      hide Ascending;
      var (t, updated) := A.UpdateRow(table, uid, app);
      table := t;
      if updated {
        if app.internet {
          allowed := AddTo(allowed, uid);
        } else {
          allowed := RemoveFrom(allowed, uid);
        }
        if app.interact {
          interact := AddTo(interact, uid);
        } else {
          interact := RemoveFrom(interact, uid);
        }
        if app.notified {
          notified := AddTo(notified, uid);
        } else {
          notified := RemoveFrom(notified, uid);
        }
      }
    }

    method AddApplicationData(app: App)
      requires Valid()
      modifies `table
      ensures Index() == A.Add(old(Index()), app)
    {
      table := A.InsertRow(table, app);
    }

    method DeleteApplicationData(uid: int) returns (deleted: bool)
      modifies `table
      ensures table == old(table) - {uid}
      ensures deleted <==> uid in old(table)
    {
      deleted := uid in table;
      table := table - {uid};
    }

    method RemoveFromMapsIfExist(uid: int)
      requires Valid()
      modifies `allowed, `notified, `interact
      ensures Valid()
      ensures Elements(allowed) == Elements(old(allowed)) - {uid}
      ensures Elements(notified) == Elements(old(notified)) - {uid}
      ensures Elements(interact) == Elements(old(interact)) - {uid}
    {
      hide Ascending, Elements;
      notified := RemoveFrom(notified, uid);
      interact := RemoveFrom(interact, uid);
      allowed := RemoveFrom(allowed, uid);
    }

    /** `getOnlyInternetApps`. */
    method GetOnlyInternetApps(uid: int, found: seq<A.Found>) returns (app: App)
      ensures app == A.Gathered(uid, found)
    {
      app := A.Fresh(uid);
      for i := 0 to |found|
        invariant app == A.Gathered(uid, found[..i])
      {
        assert found[..i + 1][..i] == found[..i];
        app := A.Gather(app, found[i]);
      }
      assert found[..|found|] == found;
    }

    /** `onReceive`. */
    method OnReceive(action: A.Action, uid: int, found: Option<seq<A.Found>>)
      requires Valid()
      modifies this
      ensures Valid() && Index() == A.Receive(old(Index()), action, uid, found)
    {
      hide Ascending, A.Gathered, A.Update, Elements;
      if uid <= 0 {
        return;
      }
      match action
      case FullyRemoved =>
        var deleted := DeleteApplicationData(uid);
        if deleted {
          RemoveFromMapsIfExist(uid);
        } else {
          assert table == old(table);
        }
      case Added =>
        if found.Some? {
          var app := GetOnlyInternetApps(uid, found.value);
          AddApplicationData(app);
        }
      case Replaced =>
        if found.Some? {
          var app := GetOnlyInternetApps(uid, found.value);
          if uid in table {
            UpdateApplicationData(uid, A.WithFlagsOf(app, table[uid]));
          } else {
            AddApplicationData(app);
          }
        }
      case OtherAction =>
    }

    /** `notifyUid`. */
    method NotifyUid(uid: int)
      requires Valid()
      modifies this
      ensures Valid() && Index() == A.Notify(old(Index()), uid)
    {
      hide A.Update;
      var index := BinarySearch(interact, uid);
      if index < 0 && uid in table {
        UpdateApplicationData(uid, table[uid].(notified := true));
      }
    }

    /** The loop over the rows: delete those that are gone, note the flags of the others. */
    method LoadRows(rows: seq<App>, all: seq<App>) returns (apps: seq<App>)
      requires Lists(rows, table) && Ascending(A.Uids(all))
      modifies this
      ensures Aligned(A.Uids(apps), apps, all, old(table).Keys)
      ensures table == map u | u in old(table) && u in A.Uids(all) :: old(table)[u]
      ensures Noted(allowed, rows, |rows|, all, A.Internet)
      ensures Noted(notified, rows, |rows|, all, A.Notified)
      ensures Noted(interact, rows, |rows|, all, A.Interact)
    {
      hide Noted, Aligned, Ascending, Lists, A.Uids, Done, Remaining;
      notified, allowed, interact := [], [], [];
      var uids := A.Uids(all);
      var allUid := uids;
      apps := all;
      ghost var t := table;
      StartAligned(all, rows);
      StartRemaining(t, rows, uids);
      StartNoted(rows, all, A.Internet);
      StartNoted(rows, all, A.Notified);
      StartNoted(rows, all, A.Interact);
      for i := 0 to |rows|
        invariant Aligned(allUid, apps, all, Done(rows, i))
        invariant table == Remaining(t, Done(rows, i), uids)
        invariant Noted(allowed, rows, i, all, A.Internet)
        invariant Noted(notified, rows, i, all, A.Notified)
        invariant Noted(interact, rows, i, all, A.Interact)
      {
        var app := rows[i];
        NextRow(rows, t, i);
        IsAligned(allUid, apps, all, Done(rows, i));
        RemainingStep(t, Done(rows, i), uids, app.uid);
        NoteKeeps(allowed, rows, i, all, A.Internet);
        NoteKeeps(notified, rows, i, all, A.Notified);
        NoteKeeps(interact, rows, i, all, A.Interact);
        var indexSearch := BinarySearch(allUid, app.uid);
        if indexSearch < 0 {
          SkipAligned(allUid, apps, all, Done(rows, i), app.uid);
          var _ := DeleteApplicationData(app.uid);
        } else {
          DropAligned(allUid, apps, all, Done(rows, i), indexSearch);
          allUid := allUid[..indexSearch] + allUid[indexSearch + 1..];
          apps := apps[..indexSearch] + apps[indexSearch + 1..];
          if app.internet && app.uid !in allowed {
            allowed := allowed + [app.uid];
          }
          if app.notified && app.uid !in notified {
            notified := notified + [app.uid];
          }
          if app.interact && app.uid !in interact {
            interact := interact + [app.uid];
          }
        }
      }
      AllDone(rows, t);
      IsAligned(allUid, apps, all, t.Keys);
      AllRemaining(t, uids);
    }

    /** `loadAppData`; rows is what the query lists. */
    method LoadAppData(ps: seq<A.Package>, rows: seq<App>)
      requires Lists(rows, table)
      modifies this
      ensures Valid() && Index() == A.Load(old(table), ps, myUid)
    {
      hide Lists, A.Collected, A.Groups, Aligned, Noted, Ascending, A.Loaded, Elements, WithRows, A.Uids, Sort;
      hide Distinct;
      ghost var t := table;
      var allUid, allApps := GetPackagesInternetPermission(ps, myUid);
      var rest := LoadRows(rows, allApps);
      ghost var kept := table;
      ghost var lists := (allowed, notified, interact);
      WithNoRows(kept, rest);
      IsAligned(A.Uids(rest), rest, allApps, t.Keys);
      for i := 0 to |rest|
        invariant WithRows(table, kept, rest, i)
        invariant lists == (allowed, notified, interact)
      {
        NewToKept(rest, allApps, t, kept, i);
        WithNextRow(table, kept, rest, i);
        table := A.InsertRow(table, rest[i]);
      }
      A.CollectedGroups(ps, myUid);
      GroupsDistinct(A.Collected(ps, myUid), ps, myUid);
      LoadedSame(t, table, A.Collected(ps, myUid), allApps, rest);
      SortNoted(allowed, rows, allApps, t, ps, myUid, A.Internet);
      SortNoted(notified, rows, allApps, t, ps, myUid, A.Notified);
      SortNoted(interact, rows, allApps, t, ps, myUid, A.Interact);
      allowed := Sort(allowed);
      notified := Sort(notified);
      interact := Sort(interact);
    }
  }

  lemma AllRemaining(t: A.Table, uids: seq<int>)
    ensures Remaining(t, t.Keys, uids) == map u | u in t && u in uids :: t[u]
  {
  }

  lemma NewToKept(rest: seq<App>, all: seq<App>, t: A.Table, kept: A.Table, i: nat)
    requires Aligned(A.Uids(rest), rest, all, t.Keys) && i < |rest| && kept.Keys <= t.Keys
    ensures rest[i].uid !in kept
  {
    assert rest[i] in rest;
  }

  lemma SortNoted(list: seq<int>, rows: seq<App>, all: seq<App>, t: A.Table, ps: seq<A.Package>, myUid: int,
                  flag: A.Flag)
    requires Lists(rows, t) && Noted(list, rows, |rows|, all, flag)
    requires multiset(all) == multiset(A.Collected(ps, myUid))
    ensures Ascending(Sort(list)) && Elements(Sort(list)) == A.Having(A.Loaded(t, A.Collected(ps, myUid)), flag)
  {
    hide Lists, Noted, A.Collected, A.Loaded, Elements, A.Having;
    NotedAreHaving(list, rows, all, t, ps, myUid, flag);
    SortAscending(list);
  }
}
