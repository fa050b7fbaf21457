/** The table of apps, the installed packages, and the sets of uids that have a flag. */
module AppTable {
  import opened Wrappers
  import opened SortedLists

  /** `ApplicationDetails`, and a row of the table. */
  datatype App = App(uid: int, count: nat, principal: string, packages: string, names: string,
                     internet: bool, notified: bool, interact: bool, txBytes: int, rxBytes: int)

  /** An installed package, and whether it may use the internet. */
  datatype Package = Package(uid: int, name: string, title: string, internet: bool)

  type Table = map<int, App>

  /** The table and the three lists, as sets. */
  datatype Index = Index(table: Table, allowed: set<int>, notified: set<int>, interact: set<int>)

  /** The lists hold exactly the uids whose row has the flag. */
  ghost predicate Agrees(x: Index) {
    && (forall u <- x.table :: x.table[u].uid == u)
    && (forall u :: u in x.allowed <==> u in x.table && x.table[u].internet)
    && (forall u :: u in x.notified <==> u in x.table && x.table[u].notified)
    && (forall u :: u in x.interact <==> u in x.table && x.table[u].interact)
  }

  // ---- The table ----

  /** SQL insert: a row whose key exists is refused. */
  function InsertRow(t: Table, app: App): Table {
    if app.uid in t then t else t[app.uid := app]
  }

  /** SQL update of all columns, the key included: refused when the new key belongs to another row. */
  function UpdateRow(t: Table, uid: int, app: App): (r: (Table, bool)) {
    if uid !in t then (t, false)
    else if app.uid != uid && app.uid in t then (t, false)
    else ((t - {uid})[app.uid := app], true)
  }

  function Flagged(s: set<int>, uid: int, flag: bool): set<int> {
    if flag then s + {uid} else s - {uid}
  }

  /** `updateApplicationData`. */
  function Update(x: Index, uid: int, app: App): Index {
    var (t, updated) := UpdateRow(x.table, uid, app);
    if updated then
      Index(t, Flagged(x.allowed, uid, app.internet), Flagged(x.notified, uid, app.notified),
            Flagged(x.interact, uid, app.interact))
    else x
  }

  /** `addApplicationData`. */
  function Add(x: Index, app: App): Index {
    x.(table := InsertRow(x.table, app))
  }

  // ---- Broadcasts ----

  datatype Action = FullyRemoved | Added | Replaced | OtherAction

  /** The packages of a uid, with the title of those that are still known. */
  datatype Found = Found(name: string, internet: bool, title: Option<string>)

  function Joined(text: string, more: string): string {
    (if text == "" then "" else text + ", ") + more
  }

  /** One turn of the loop of `getOnlyInternetApps`. */
  function Gather(app: App, f: Found): App {
    if !f.internet then app
    else if f.title.None? then app.(count := app.count + 1)
    else app.(count := app.count + 1,
              principal := if app.principal == "" then f.name else app.principal,
              names := Joined(app.names, f.title.value), packages := Joined(app.packages, f.name))
  }

  function Fresh(uid: int): App {
    App(uid, 0, "", "", "", false, false, false, 0, 0)
  }

  function Gathered(uid: int, fs: seq<Found>): (r: App)
    ensures r.uid == uid && !r.internet && !r.notified && !r.interact && r.txBytes == 0 && r.rxBytes == 0
  {
    if fs == [] then Fresh(uid) else Gather(Gathered(uid, fs[..|fs| - 1]), fs[|fs| - 1])
  }

  /** Parts with a comma between them. */
  function Listed(parts: seq<string>): string {
    if parts == [] then ""
    else if |parts| == 1 then parts[0]
    else Listed(parts[..|parts| - 1]) + ", " + parts[|parts| - 1]
  }

  /** The packages that may use the internet, and those of them that are still known. */
  function Online(fs: seq<Found>, known: bool): seq<Found> {
    if fs == [] then []
    else
      var front, last := Online(fs[..|fs| - 1], known), fs[|fs| - 1];
      if last.internet && (known ==> last.title.Some?) then front + [last] else front
  }

  function FoundNames(fs: seq<Found>): seq<string> {
    seq(|fs|, i requires 0 <= i < |fs| => fs[i].name)
  }

  function FoundTitles(fs: seq<Found>): seq<string>
    requires forall f <- fs :: f.title.Some?
  {
    seq(|fs|, i requires 0 <= i < |fs| => fs[i].title.value)
  }

  lemma {:induction false} OnlineKnown(fs: seq<Found>)
    ensures forall f <- Online(fs, true) :: f.title.Some? && f in fs
  {
    if fs != [] {
      OnlineKnown(fs[..|fs| - 1]);
    }
  }

  /** The parts from the first non-empty one on. */
  function FromFirst(parts: seq<string>): (r: seq<string>)
    ensures r != [] ==> r[0] != ""
  {
    if parts == [] then [] else if parts[0] == "" then FromFirst(parts[1..]) else parts
  }

  /** Only empty parts are left out, and none if the first is not empty. */
  lemma {:induction false} FromFirstIs(parts: seq<string>)
    ensures var n := |parts| - |FromFirst(parts)|;
            n >= 0 && FromFirst(parts) == parts[n..] && forall i :: 0 <= i < n ==> parts[i] == ""
  {
    if parts != [] && parts[0] == "" {
      FromFirstIs(parts[1..]);
      var n := |parts| - |FromFirst(parts)|;
      assert parts[n..] == parts[1..][n - 1..];
      assert forall i :: 1 <= i < n ==> parts[i] == parts[1..][i - 1];
    }
  }

  function FirstOf(parts: seq<string>): string {
    if parts == [] then "" else parts[0]
  }

  /** `getOnlyInternetApps` counts the packages with internet permission, lists those that are still
      known from the first non-empty name and the first non-empty title on, and names the app after the
      first name that is not empty. */
  lemma {:induction false} GatheredLists(uid: int, fs: seq<Found>)
    ensures var g, known := Gathered(uid, fs), Online(fs, true);
            && g.count == |Online(fs, false)|
            && (forall f <- known :: f.title.Some?)
            && g.packages == Listed(FromFirst(FoundNames(known)))
            && g.names == Listed(FromFirst(FoundTitles(known)))
            && g.principal == FirstOf(FromFirst(FoundNames(known)))
  {
    hide FromFirst, Listed, Joined, FirstOf;
    OnlineKnown(fs);
    if fs == [] {
      NothingListed();
      assert FoundNames([]) == [] && FoundTitles([]) == [];
    } else {
      var front, last := fs[..|fs| - 1], fs[|fs| - 1];
      assert last in fs;
      OnlineKnown(front);
      GatheredLists(uid, front);
      var known := Online(front, true);
      if last.internet && last.title.Some? {
        assert FoundNames(known + [last]) == FoundNames(known) + [last.name];
        assert FoundTitles(known + [last]) == FoundTitles(known) + [last.title.value];
        JoinedMore(FoundNames(known), last.name);
        JoinedMore(FoundTitles(known), last.title.value);
      }
    }
  }

  lemma NothingListed()
    ensures Listed(FromFirst([])) == "" && FirstOf(FromFirst([])) == ""
  {
  }

  lemma JoinedMore(parts: seq<string>, part: string)
    ensures Listed(FromFirst(parts + [part])) == Joined(Listed(FromFirst(parts)), part)
    ensures FirstOf(FromFirst(parts + [part])) ==
            if FirstOf(FromFirst(parts)) == "" then part else FirstOf(FromFirst(parts))
  {
    hide FromFirst, Listed;
    FromFirstMore(parts, part);
    ListedMore(FromFirst(parts), part);
    ListedEmpty(FromFirst(parts));
  }

  lemma {:induction false} FromFirstMore(parts: seq<string>, part: string)
    ensures FromFirst(parts + [part]) ==
            if FromFirst(parts) == [] && part == "" then [] else FromFirst(parts) + [part]
  {
    if parts != [] && parts[0] == "" {
      assert (parts + [part])[1..] == parts[1..] + [part];
      FromFirstMore(parts[1..], part);
    }
  }

  lemma {:induction false} ListedEmpty(parts: seq<string>)
    requires parts != [] ==> parts[0] != ""
    ensures Listed(parts) == "" <==> parts == []
  {
    if |parts| > 1 {
      ListedEmpty(parts[..|parts| - 1]);
    }
  }

  lemma ListedMore(parts: seq<string>, part: string)
    ensures Listed(parts + [part]) == if parts == [] then part else Listed(parts) + ", " + part
  {
    assert (parts + [part])[..|parts|] == parts;
  }

  /** The details a replaced app keeps. */
  function WithFlagsOf(app: App, row: App): App {
    app.(interact := row.interact, internet := row.internet, notified := row.notified,
         txBytes := row.txBytes, rxBytes := row.rxBytes)
  }

  /** `onReceive`; found are the packages of the uid, if it has any. */
  function Receive(x: Index, action: Action, uid: int, found: Option<seq<Found>>): Index {
    if uid <= 0 then x
    else
      match action
      case FullyRemoved =>
        if uid in x.table then
          Index(x.table - {uid}, x.allowed - {uid}, x.notified - {uid}, x.interact - {uid})
        else x
      case Added => if found.Some? then Add(x, Gathered(uid, found.value)) else x
      case Replaced =>
        if found.None? then x
        else if uid in x.table then Update(x, uid, WithFlagsOf(Gathered(uid, found.value), x.table[uid]))
        else Add(x, Gathered(uid, found.value))
      case OtherAction => x
  }

  /** `notifyUid`: an app the user has not decided about is marked. */
  function Notify(x: Index, uid: int): Index {
    if uid !in x.interact && uid in x.table then Update(x, uid, x.table[uid].(notified := true)) else x
  }

  // ---- Loading ----

  function Uids(apps: seq<App>): (r: seq<int>)
    ensures |r| == |apps| && forall i :: 0 <= i < |r| ==> r[i] == apps[i].uid
  {
    seq(|apps|, i requires 0 <= i < |apps| => apps[i].uid)
  }

  predicate Counts(p: Package, myUid: int) {
    p.uid != myUid && p.internet
  }

  /** The first app with the uid, or the length of the list. */
  function IndexOf(apps: seq<App>, uid: int): (k: nat)
    ensures k <= |apps| && (k < |apps| ==> apps[k].uid == uid)
    ensures forall j :: 0 <= j < k ==> apps[j].uid != uid
  {
    if apps == [] || apps[0].uid == uid then 0 else IndexOf(apps[1..], uid) + 1
  }

  /** `addPackageAndName`. */
  function WithPackage(app: App, p: Package): App {
    app.(names := app.names + ", " + p.title, packages := app.packages + ", " + p.name, count := app.count + 1)
  }

  function NewApp(p: Package): App {
    App(p.uid, 1, p.name, p.name, p.title, false, false, false, 0, 0)
  }

  /** One turn of the loop of `getPackagesInternetPermission`. */
  function Collect(apps: seq<App>, p: Package, myUid: int): seq<App> {
    var k := IndexOf(apps, p.uid);
    if !Counts(p, myUid) then apps
    else if k < |apps| then apps[k := WithPackage(apps[k], p)]
    else apps + [NewApp(p)]
  }

  function Collected(ps: seq<Package>, myUid: int): seq<App> {
    if ps == [] then [] else Collect(Collected(ps[..|ps| - 1], myUid), ps[|ps| - 1], myUid)
  }

  /** The packages with internet permission that share the uid. */
  function Of(ps: seq<Package>, uid: int, myUid: int): seq<Package> {
    if ps == [] then []
    else
      var front, last := Of(ps[..|ps| - 1], uid, myUid), ps[|ps| - 1];
      if Counts(last, myUid) && last.uid == uid then front + [last] else front
  }

  function Names(ps: seq<Package>): seq<string> {
    seq(|ps|, i requires 0 <= i < |ps| => ps[i].name)
  }

  function Titles(ps: seq<Package>): seq<string> {
    seq(|ps|, i requires 0 <= i < |ps| => ps[i].title)
  }

  /** The app of a group of packages: named after the first, listing and counting all of them. */
  predicate IsGroup(a: App, group: seq<Package>) {
    && group != [] && a.count == |group| && a.principal == group[0].name
    && a.packages == Listed(Names(group)) && a.names == Listed(Titles(group))
    && !a.internet && !a.notified && !a.interact && a.txBytes == 0 && a.rxBytes == 0
  }

  /** The packages are grouped by uid: every uid with such a package has exactly one app. */
  ghost predicate Groups(apps: seq<App>, ps: seq<Package>, myUid: int) {
    && Distinct(Uids(apps))
    && (forall u :: u in Uids(apps) <==> Of(ps, u, myUid) != [])
    && (forall a <- apps :: IsGroup(a, Of(ps, a.uid, myUid)))
  }

  lemma GroupGrows(a: App, group: seq<Package>, p: Package)
    ensures IsGroup(a, group) ==> IsGroup(WithPackage(a, p), group + [p])
    ensures group == [] ==> IsGroup(NewApp(p), group + [p])
  {
    assert Names(group + [p]) == Names(group) + [p.name];
    assert Titles(group + [p]) == Titles(group) + [p.title];
    ListedMore(Names(group), p.name);
    ListedMore(Titles(group), p.title);
  }

  lemma OthersSame(ps: seq<Package>, uid: int, myUid: int)
    requires ps != [] && (ps[|ps| - 1].uid != uid || !Counts(ps[|ps| - 1], myUid))
    ensures Of(ps, uid, myUid) == Of(ps[..|ps| - 1], uid, myUid)
  {
  }

  /** From ps to qs only the packages of one uid change. */
  ghost predicate OnlyOf(uid: int, ps: seq<Package>, qs: seq<Package>, myUid: int) {
    && Of(qs, uid, myUid) != []
    && forall u :: u != uid ==> Of(qs, u, myUid) == Of(ps, u, myUid)
  }

  lemma GroupReplaced(apps: seq<App>, k: nat, a: App, ps: seq<Package>, qs: seq<Package>, myUid: int)
    requires Groups(apps, ps, myUid) && k < |apps| && a.uid == apps[k].uid
    requires OnlyOf(a.uid, ps, qs, myUid) && IsGroup(a, Of(qs, a.uid, myUid))
    ensures Groups(apps[k := a], qs, myUid)
  {
    hide IsGroup, Of;
    var r := apps[k := a];
    assert Uids(r) == Uids(apps);
    assert Uids(apps)[k] == a.uid;
    forall j | 0 <= j < |r|
      ensures IsGroup(r[j], Of(qs, r[j].uid, myUid))
    {
      assert apps[j] in apps;
      assert j != k ==> Uids(apps)[j] != Uids(apps)[k];
    }
  }

  lemma GroupAdded(apps: seq<App>, a: App, ps: seq<Package>, qs: seq<Package>, myUid: int)
    requires Groups(apps, ps, myUid) && a.uid !in Uids(apps)
    requires OnlyOf(a.uid, ps, qs, myUid) && IsGroup(a, Of(qs, a.uid, myUid))
    ensures Groups(apps + [a], qs, myUid)
  {
    hide IsGroup, Of;
    var r := apps + [a];
    assert Uids(r) == Uids(apps) + [a.uid];
    forall j | 0 <= j < |r|
      ensures IsGroup(r[j], Of(qs, r[j].uid, myUid))
    {
      if j < |apps| {
        assert apps[j] in apps;
        assert Uids(apps)[j] in Uids(apps);
      }
    }
  }

  lemma CollectGroups(apps: seq<App>, ps: seq<Package>, myUid: int)
    requires ps != [] && Groups(apps, ps[..|ps| - 1], myUid)
    ensures Groups(Collect(apps, ps[|ps| - 1], myUid), ps, myUid)
  {
    hide IsGroup, Of, WithPackage, NewApp, Groups, IndexOf;
    var front, p := ps[..|ps| - 1], ps[|ps| - 1];
    var k := IndexOf(apps, p.uid);
    forall u | u != p.uid || !Counts(p, myUid)
      ensures Of(ps, u, myUid) == Of(front, u, myUid)
    {
      OthersSame(ps, u, myUid);
    }
    if !Counts(p, myUid) {
      GroupsKept(apps, front, ps, myUid);
    } else {
      OfLast(ps, myUid);
      UidsKept(p);
      if k < |apps| {
        GroupAt(apps, k, front, myUid);
        GroupGrows(apps[k], Of(front, p.uid, myUid), p);
        WithPackageUid(apps[k], p);
        GroupReplaced(apps, k, WithPackage(apps[k], p), front, ps, myUid);
      } else {
        NoGroupAt(apps, p.uid, front, myUid);
        GroupGrows(NewApp(p), Of(front, p.uid, myUid), p);
        GroupAdded(apps, NewApp(p), front, ps, myUid);
      }
    }
  }

  lemma GroupsKept(apps: seq<App>, ps: seq<Package>, qs: seq<Package>, myUid: int)
    requires Groups(apps, ps, myUid) && forall u :: Of(qs, u, myUid) == Of(ps, u, myUid)
    ensures Groups(apps, qs, myUid)
  {
    hide IsGroup, Of;
  }

  lemma GroupAt(apps: seq<App>, k: nat, ps: seq<Package>, myUid: int)
    requires Groups(apps, ps, myUid) && k < |apps|
    ensures IsGroup(apps[k], Of(ps, apps[k].uid, myUid))
  {
    assert apps[k] in apps;
  }

  lemma NoGroupAt(apps: seq<App>, uid: int, ps: seq<Package>, myUid: int)
    requires Groups(apps, ps, myUid) && forall j :: 0 <= j < |apps| ==> apps[j].uid != uid
    ensures uid !in Uids(apps) && Of(ps, uid, myUid) == []
  {
    hide Of;
  }

  lemma OfLast(ps: seq<Package>, myUid: int)
    requires ps != [] && Counts(ps[|ps| - 1], myUid)
    ensures var p := ps[|ps| - 1]; Of(ps, p.uid, myUid) == Of(ps[..|ps| - 1], p.uid, myUid) + [p]
  {
  }

  lemma UidsKept(p: Package)
    ensures NewApp(p).uid == p.uid
  {
  }

  lemma WithPackageUid(a: App, p: Package)
    ensures WithPackage(a, p).uid == a.uid
  {
  }

  /** `getPackagesInternetPermission` groups the installed packages. */
  lemma {:induction false} CollectedGroups(ps: seq<Package>, myUid: int)
    ensures Groups(Collected(ps, myUid), ps, myUid)
  {
    hide Collect, Groups;
    if ps == [] {
      NoGroups(myUid);
    } else {
      CollectedGroups(ps[..|ps| - 1], myUid);
      CollectGroups(Collected(ps[..|ps| - 1], myUid), ps, myUid);
    }
  }

  lemma NoGroups(myUid: int)
    ensures Groups([], [], myUid)
  {
  }

  /** The rows of the apps that are not in the table yet. */
  function NewRows(apps: seq<App>, t: Table): Table {
    map u | u in Uids(apps) && u !in t :: apps[IndexOf(apps, u)]
  }

  datatype Flag = Internet | Notified | Interact

  predicate Has(app: App, flag: Flag) {
    match flag
    case Internet => app.internet
    case Notified => app.notified
    case Interact => app.interact
  }

  function Having(t: Table, flag: Flag): set<int> {
    set u | u in t && Has(t[u], flag)
  }

  /** The table after loading. */
  function Loaded(t: Table, apps: seq<App>): Table {
    (map u | u in t && u in Uids(apps) :: t[u]) + NewRows(apps, t)
  }

  /** `loadAppData`: rows of uids that are gone are deleted, the others stay, new apps are added. */
  function Load(t: Table, ps: seq<Package>, myUid: int): Index {
    var table := Loaded(t, Collected(ps, myUid));
    Index(table, Having(table, Internet), Having(table, Notified), Having(table, Interact))
  }

  lemma NewRowsAre(apps: seq<App>, t: Table)
    ensures forall u :: u in NewRows(apps, t) <==> u in Uids(apps) && u !in t
    ensures forall u <- NewRows(apps, t) :: NewRows(apps, t)[u] in apps && NewRows(apps, t)[u].uid == u
  {
  }

  /** The sets that belong to a table agree with it. */
  lemma HavingAgrees(t: Table)
    requires forall u <- t :: t[u].uid == u
    ensures Agrees(Index(t, Having(t, Internet), Having(t, Notified), Having(t, Interact)))
  {
  }

  lemma LoadedRows(t: Table, apps: seq<App>)
    requires forall u <- t :: t[u].uid == u
    ensures var r := Loaded(t, apps);
            && (forall u :: u in r <==> u in Uids(apps))
            && (forall u <- r :: r[u].uid == u)
            && (forall u <- r :: if u in t then r[u] == t[u] else r[u] in apps)
  {
    hide NewRows, Uids;
    NewRowsAre(apps, t);
  }

  /** After loading, the table holds exactly the installed uids with internet permission, surviving rows
      are unchanged, a new row has no flag and lists the packages of its uid, and the lists agree. */
  lemma LoadAgrees(t: Table, ps: seq<Package>, myUid: int)
    requires forall u <- t :: t[u].uid == u
    ensures var x := Load(t, ps, myUid);
            && Agrees(x)
            && (forall u :: u in x.table <==> exists p :: p in ps && p.uid == u && p.internet && u != myUid)
            && (forall u <- x.table :: u in t ==> x.table[u] == t[u])
            && (forall u <- x.table :: u !in t ==> IsGroup(x.table[u], Of(ps, u, myUid)))
  {
    hide Collected, Of, IsGroup, Loaded, Uids, Agrees, Having;
    var apps := Collected(ps, myUid);
    CollectedGroups(ps, myUid);
    LoadedRows(t, apps);
    HavingAgrees(Loaded(t, apps));
    forall u
      ensures Of(ps, u, myUid) != [] <==> exists p :: p in ps && p.uid == u && p.internet && u != myUid
    {
      SomePackage(ps, u, myUid);
    }
  }

  lemma {:induction false} SomePackage(ps: seq<Package>, uid: int, myUid: int)
    ensures Of(ps, uid, myUid) != [] <==> exists p :: p in ps && p.uid == uid && p.internet && uid != myUid
  {
    if ps != [] {
      var front, last := ps[..|ps| - 1], ps[|ps| - 1];
      SomePackage(front, uid, myUid);
      assert ps == front + [last];
      assert last in ps;
      assert forall p <- front :: p in ps;
    }
  }

  // ---- Keeping the lists in step ----

  /** Updating a row under its own uid keeps the lists in step. Under another uid it does iff nothing is
      updated, or no flag is set: the lists keep the old uid while the row moves to the new one. */
  lemma UpdateAgrees(x: Index, uid: int, app: App)
    requires Agrees(x)
    ensures Agrees(Update(x, uid, app)) <==>
            || app.uid == uid || uid !in x.table || app.uid in x.table
            || !(app.internet || app.notified || app.interact)
  {
    var r := Update(x, uid, app);
    if uid in x.table && app.uid != uid && app.uid !in x.table {
      assert uid !in r.table;
      if app.internet {
        assert uid in r.allowed;
      } else if app.notified {
        assert uid in r.notified;
      } else if app.interact {
        assert uid in r.interact;
      }
    }
  }

  /** A row moved under a new uid is blocked although it may use the internet. */
  lemma MovedRowIsBlocked()
    ensures var app := App(10001, 1, "a", "a", "A", true, false, true, 0, 0);
            var x := Index(map[10000 := app.(uid := 10000)], {10000}, {}, {10000});
            && Agrees(x)
            && 10001 in Update(x, 10000, app).table && 10001 !in Update(x, 10000, app).allowed
            && 10000 !in Update(x, 10000, app).table && 10000 in Update(x, 10000, app).allowed
  {
  }

  lemma AddAgrees(x: Index, app: App)
    requires Agrees(x) && (app.uid in x.table || !(app.internet || app.notified || app.interact))
    ensures Agrees(Add(x, app))
  {
  }

  lemma ReceiveAgrees(x: Index, action: Action, uid: int, found: Option<seq<Found>>)
    requires Agrees(x)
    ensures Agrees(Receive(x, action, uid, found))
  {
    hide Agrees, Update, Gathered;
    if uid > 0 && found.Some? && action.Added? {
      AddAgrees(x, Gathered(uid, found.value));
    } else if uid > 0 && found.Some? && action.Replaced? {
      if uid in x.table {
        UpdateAgrees(x, uid, WithFlagsOf(Gathered(uid, found.value), x.table[uid]));
      } else {
        AddAgrees(x, Gathered(uid, found.value));
      }
    } else if uid in x.table && action.FullyRemoved? {
      RemoveAgrees(x, uid);
    }
  }

  lemma RemoveAgrees(x: Index, uid: int)
    requires Agrees(x)
    ensures Agrees(Index(x.table - {uid}, x.allowed - {uid}, x.notified - {uid}, x.interact - {uid}))
  {
  }

  lemma NotifyAgrees(x: Index, uid: int)
    requires Agrees(x)
    ensures Agrees(Notify(x, uid))
  {
    if uid !in x.interact && uid in x.table {
      UpdateAgrees(x, uid, x.table[uid].(notified := true));
    }
  }

  datatype Event =
    | Reload(packages: seq<Package>)
    | Decide(app: App)
    | Broadcast(action: Action, uid: int, found: Option<seq<Found>>)
    | Refused(uid: int)

  /** One step: loading, a decision of the user, a broadcast, or a blocked packet that is notified. */
  function Step(x: Index, e: Event, myUid: int): Index {
    match e
    case Reload(packages) => Load(x.table, packages, myUid)
    case Decide(app) => Update(x, app.uid, app)
    case Broadcast(action, uid, found) => Receive(x, action, uid, found)
    case Refused(uid) => Notify(x, uid)
  }

  function Run(x: Index, es: seq<Event>, myUid: int): Index {
    if es == [] then x else Step(Run(x, es[..|es| - 1], myUid), es[|es| - 1], myUid)
  }

  lemma {:induction false} RunAgrees(x: Index, es: seq<Event>, myUid: int)
    requires Agrees(x)
    ensures Agrees(Run(x, es, myUid))
  {
    hide Agrees, Update, Receive, Notify, Load;
    if es != [] {
      RunAgrees(x, es[..|es| - 1], myUid);
      var y := Run(x, es[..|es| - 1], myUid);
      match es[|es| - 1]
      case Reload(packages) =>
        RowsKeyed(y);
        LoadAgrees(y.table, packages, myUid);
      case Decide(app) => UpdateAgrees(y, app.uid, app);
      case Broadcast(action, uid, found) => ReceiveAgrees(y, action, uid, found);
      case Refused(uid) => NotifyAgrees(y, uid);
    }
  }

  lemma RowsKeyed(x: Index)
    requires Agrees(x)
    ensures forall u <- x.table :: x.table[u].uid == u
  {
  }

  /** `isBlockedUid`, on the list of allowed uids. */
  predicate IsBlockedUid(x: Index, uid: int, myUid: int) {
    uid != myUid && (if uid > 0 then uid !in x.allowed else uid != 0)
  }

  /** From the first load on, whatever happens, an app is blocked iff it has no row or its row has no
      internet; the firewall itself and the root user never are, and an unknown uid always is. */
  lemma BlockedIffNotAllowed(t: Table, ps: seq<Package>, es: seq<Event>, uid: int, myUid: int)
    requires forall u <- t :: t[u].uid == u
    requires myUid > 0
    ensures var x := Run(Load(t, ps, myUid), es, myUid);
            && Agrees(x)
            && (uid > 0 && uid != myUid ==>
                  (IsBlockedUid(x, uid, myUid) <==> uid !in x.table || !x.table[uid].internet))
            && !IsBlockedUid(x, myUid, myUid) && !IsBlockedUid(x, 0, myUid)
            && (uid < 0 ==> IsBlockedUid(x, uid, myUid))
  {
    hide Load, Run;
    LoadAgrees(t, ps, myUid);
    RunAgrees(Load(t, ps, myUid), es, myUid);
  }

  /** Replacing a package changes neither the flags nor the byte counts of its row. */
  lemma ReplaceKeepsDecisions(x: Index, uid: int, found: Option<seq<Found>>)
    requires Agrees(x) && uid > 0 && uid in x.table
    ensures var r := Receive(x, Replaced, uid, found);
            && r.allowed == x.allowed && r.notified == x.notified && r.interact == x.interact
            && r.table.Keys == x.table.Keys && (forall u <- x.table :: u != uid ==> r.table[u] == x.table[u])
            && WithFlagsOf(r.table[uid], x.table[uid]) == r.table[uid]
  {
    hide Gathered;
  }

  // ---- Rows without a package that may use the internet ----

  /** Every row belongs to a uid of which some package may use the internet. */
  ghost predicate Entitled(t: Table, may: int -> bool) {
    forall u <- t :: may(u)
  }

  /** What a broadcast finds is what the packages may do. */
  predicate Tells(found: Option<seq<Found>>, internet: bool) {
    internet <==> found.Some? && Online(found.value, false) != []
  }

  /** When the other rows are entitled, a broadcast leaves every row entitled exactly if its uid may use
      the internet, or its row is removed, or it has no row and gets none. An app that is added gets its
      row whatever its packages may do. */
  lemma EntitledIff(x: Index, action: Action, uid: int, found: Option<seq<Found>>, may: int -> bool)
    requires forall u <- x.table :: u != uid ==> may(u)
    requires Tells(found, may(uid))
    ensures Entitled(Receive(x, action, uid, found).table, may) <==>
            || may(uid)
            || (if uid in x.table then uid > 0 && action.FullyRemoved?
                else uid <= 0 || found.None? || !(action.Added? || action.Replaced?))
  {
    hide Gathered, Online;
    var t := Receive(x, action, uid, found).table;
    if uid in t {
      assert Entitled(t, may) ==> may(uid);
    }
  }

  /** Packages without the permission get a row, which only the next loading removes. */
  lemma AddedWithoutInternet(x: Index, action: Action, uid: int, fs: seq<Found>, ps: seq<Package>, myUid: int)
    requires uid > 0 && uid !in x.table && (action.Added? || action.Replaced?)
    requires Online(fs, false) == [] && Of(ps, uid, myUid) == []
    requires forall u <- x.table :: x.table[u].uid == u
    ensures var r := Receive(x, action, uid, Some(fs));
            && uid in r.table && r.table[uid].count == 0
            && uid !in Load(r.table, ps, myUid).table
  {
    hide Receive, Online, Of, IsGroup, Load, Listed, FromFirst, FirstOf;
    RowAdded(x, action, uid, fs);
    GatheredLists(uid, fs);
    NotLoaded(Receive(x, action, uid, Some(fs)).table, ps, uid, myUid);
  }

  lemma RowAdded(x: Index, action: Action, uid: int, fs: seq<Found>)
    requires uid > 0 && uid !in x.table && (action.Added? || action.Replaced?)
    ensures Receive(x, action, uid, Some(fs)).table == x.table[uid := Gathered(uid, fs)]
  {
    hide Gathered;
  }

  lemma NotLoaded(t: Table, ps: seq<Package>, uid: int, myUid: int)
    requires forall u <- t :: t[u].uid == u
    requires Of(ps, uid, myUid) == []
    ensures uid !in Load(t, ps, myUid).table
  {
    hide Of, Load, Agrees, IsGroup;
    LoadAgrees(t, ps, myUid);
    SomePackage(ps, uid, myUid);
  }
}
