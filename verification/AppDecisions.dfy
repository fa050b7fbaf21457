/** What the user decided about an app takes effect, and stays in effect over every run. */
module AppDecisions {
  import opened Wrappers
  import opened AppTable

  // ---- One step ----

  predicate Present(ps: seq<Package>, uid: int, myUid: int) {
    uid != myUid && exists p <- ps :: p.uid == uid && p.internet
  }

  /** A decision about an app with a row replaces this row and nothing else, and decides whether the app is blocked; one
      about an app without a row does nothing. */
  lemma DecisionTakesEffect(x: Index, app: App, myUid: int)
    requires Agrees(x)
    ensures var r := Step(x, Decide(app), myUid);
            && r.table == (if app.uid in x.table then x.table[app.uid := app] else x.table)
            && (app.uid !in x.table ==> r == x)
            && (app.uid in x.table && app.uid > 0 && app.uid != myUid ==>
                  (IsBlockedUid(r, app.uid, myUid) <==> !app.internet))
            && (forall u :: u != app.uid ==>
                  && (IsBlockedUid(r, u, myUid) <==> IsBlockedUid(x, u, myUid))
                  && (u in r.notified <==> u in x.notified) && (u in r.interact <==> u in x.interact))
            && (app.uid in x.table ==>
                  (app.uid in r.notified <==> app.notified) && (app.uid in r.interact <==> app.interact))
  {
  }

  /** Exactly which apps have a row after each event. */
  lemma RowsIff(x: Index, e: Event, myUid: int, uid: int)
    requires Agrees(x)
    ensures uid in Step(x, e, myUid).table <==>
            match e
            case Reload(ps) => Present(ps, uid, myUid)
            case Broadcast(action, u, found) =>
              if u != uid || uid <= 0 || action.OtherAction? then uid in x.table
              else !action.FullyRemoved? && (uid in x.table || found.Some?)
            case _ => uid in x.table
  {
    hide Gathered, Load, Of, IsGroup;
    if e.Reload? {
      LoadAgrees(x.table, e.packages, myUid);
    }
  }

  /** A package that is replaced gets the count, the names, the titles and the principal of what is installed now. */
  lemma ReplacedIsRefreshed(x: Index, uid: int, fs: seq<Found>)
    requires Agrees(x) && uid > 0 && uid in x.table
    ensures var r, known := Receive(x, Replaced, uid, Some(fs)).table[uid], Online(fs, true);
            && r.uid == uid && r.count == |Online(fs, false)|
            && (forall f <- known :: f.title.Some?)
            && r.packages == Listed(FromFirst(FoundNames(known)))
            && r.names == Listed(FromFirst(FoundTitles(known)))
            && r.principal == FirstOf(FromFirst(FoundNames(known)))
  {
    hide Gathered, Online, Listed, FromFirst, FirstOf;
    GatheredLists(uid, fs);
  }

  /** An app that is added and has no row gets one with no flag; if it has one, that is kept. */
  lemma AddedRow(x: Index, action: Action, uid: int, fs: seq<Found>)
    requires Agrees(x) && uid > 0 && (action.Added? || (action.Replaced? && uid !in x.table))
    ensures var r := Receive(x, action, uid, Some(fs));
            && r == x.(table := r.table)
            && r.table == if uid in x.table then x.table else x.table[uid := Gathered(uid, fs)]
  {
    hide Gathered;
  }

  /** A removed app loses its row and every flag; the others keep theirs. */
  lemma RemovedRow(x: Index, uid: int, found: Option<seq<Found>>, u: int)
    requires Agrees(x) && uid > 0
    ensures var r := Receive(x, FullyRemoved, uid, found);
            if u == uid then u !in r.table && u !in r.allowed && u !in r.notified && u !in r.interact
            else
              && (u in r.table <==> u in x.table) && (u in x.table ==> r.table[u] == x.table[u])
              && (u in r.allowed <==> u in x.allowed) && (u in r.notified <==> u in x.notified)
              && (u in r.interact <==> u in x.interact)
  {
  }

  /** A blocked packet marks exactly the app that it came from, if the user has not decided about it, and changes
      nothing else of it. */
  lemma MarkedIff(x: Index, uid: int)
    requires Agrees(x)
    ensures var r := Notify(x, uid);
            && r.allowed == x.allowed && r.interact == x.interact && r.table.Keys == x.table.Keys
            && forall u <- x.table ::
                 r.table[u] == x.table[u].(notified := x.table[u].notified || (u == uid && !x.table[u].interact))
  {
  }

  // ---- Runs ----

  /** What an app may do, whether a mark is set for it, and whether the user decided about it. */
  datatype Flags = Flags(internet: bool, notified: bool, interact: bool)

  const NONE := Flags(false, false, false)

  function FlagsOf(app: App): Flags {
    Flags(app.internet, app.notified, app.interact)
  }

  /** The flags of an app with a row after the events, told from them alone: those of the last decision since the row
      was made, or none if there was none, and a mark if a packet was blocked while the user had not decided. */
  function Told(t: Table, es: seq<Event>, uid: int, myUid: int): Option<Flags> {
    if es == [] then if uid in t then Some(FlagsOf(t[uid])) else None
    else
      var f := Told(t, es[..|es| - 1], uid, myUid);
      match es[|es| - 1]
      case Reload(ps) => if !Present(ps, uid, myUid) then None else if f.Some? then f else Some(NONE)
      case Decide(app) => if f.Some? && app.uid == uid then Some(FlagsOf(app)) else f
      case Broadcast(action, u, found) =>
        if u != uid || uid <= 0 || action.OtherAction? then f
        else if action.FullyRemoved? then None
        else if f.None? && found.Some? then Some(NONE)
        else f
      case Refused(u) => if f.Some? && u == uid && !f.value.interact then Some(f.value.(notified := true)) else f
  }

  /** The flags in the row of an app, if it has one. */
  function Row(t: Table, uid: int): Option<Flags> {
    if uid in t then Some(FlagsOf(t[uid])) else None
  }

  lemma StepTells(x: Index, e: Event, uid: int, myUid: int)
    requires Agrees(x)
    ensures var f := Row(x.table, uid);
            Row(Step(x, e, myUid).table, uid) ==
            match e
            case Reload(ps) => if !Present(ps, uid, myUid) then None else if f.Some? then f else Some(NONE)
            case Decide(app) => if f.Some? && app.uid == uid then Some(FlagsOf(app)) else f
            case Broadcast(action, u, found) =>
              if u != uid || uid <= 0 || action.OtherAction? then f
              else if action.FullyRemoved? then None
              else if f.None? && found.Some? then Some(NONE)
              else f
            case Refused(u) => if f.Some? && u == uid && !f.value.interact then Some(f.value.(notified := true)) else f
  {
    hide Gathered, Load, Of;
    match e
    case Reload(ps) => LoadAgrees(x.table, ps, myUid);
    case Broadcast(action, u, found) => BroadcastTells(x, action, u, found, uid);
    case _ =>
  }

  lemma BroadcastTells(x: Index, action: Action, u: int, found: Option<seq<Found>>, uid: int)
    requires Agrees(x)
    ensures var f := Row(x.table, uid);
            Row(Receive(x, action, u, found).table, uid) ==
            if u != uid || uid <= 0 || action.OtherAction? then f
            else if action.FullyRemoved? then None
            else if f.None? && found.Some? then Some(NONE)
            else f
  {
    hide Gathered;
  }

  lemma {:induction false} RunTells(x: Index, es: seq<Event>, uid: int, myUid: int)
    requires Agrees(x)
    ensures Row(Run(x, es, myUid).table, uid) == Told(x.table, es, uid, myUid)
  {
    hide Agrees, Step, Present;
    if es != [] {
      var front := es[..|es| - 1];
      RunTells(x, front, uid, myUid);
      RunAgrees(x, front, myUid);
      StepTells(Run(x, front, myUid), es[|es| - 1], uid, myUid);
    }
  }

  /** From the first load on, over every run: an app is blocked exactly unless it has a row and the last decision about
      it since the row was made, or the row itself if there was none, gives it the internet; and the two other lists
      hold exactly the apps that are marked and those that were decided about. */
  lemma DecisionsRule(t: Table, ps: seq<Package>, es: seq<Event>, uid: int, myUid: int)
    requires forall u <- t :: t[u].uid == u
    requires uid > 0 && uid != myUid
    ensures var x := Run(Load(t, ps, myUid), es, myUid);
            var f := Told(t, [Reload(ps)] + es, uid, myUid);
            && (IsBlockedUid(x, uid, myUid) <==> f.None? || !f.value.internet)
            && (uid in x.notified <==> f.Some? && f.value.notified)
            && (uid in x.interact <==> f.Some? && f.value.interact)
  {
    hide Load, Run, Told, Step, Agrees;
    var x := Load(t, ps, myUid);
    LoadAgrees(t, ps, myUid);
    RunTells(x, es, uid, myUid);
    ToldAfter(t, ps, es, uid, myUid);
    RunAgrees(x, es, myUid);
    FlagsAgree(Run(x, es, myUid), uid, myUid);
  }

  lemma FlagsAgree(x: Index, uid: int, myUid: int)
    requires Agrees(x) && uid > 0 && uid != myUid
    ensures var f := Row(x.table, uid);
            && (IsBlockedUid(x, uid, myUid) <==> f.None? || !f.value.internet)
            && (uid in x.notified <==> f.Some? && f.value.notified)
            && (uid in x.interact <==> f.Some? && f.value.interact)
  {
  }

  /** Loading and what is told after it is what is told of both. */
  lemma {:induction false} ToldAfter(t: Table, ps: seq<Package>, es: seq<Event>, uid: int, myUid: int)
    requires forall u <- t :: t[u].uid == u
    ensures Told(Load(t, ps, myUid).table, es, uid, myUid) == Told(t, [Reload(ps)] + es, uid, myUid)
  {
    hide Load, Present;
    var all := [Reload(ps)] + es;
    if es == [] {
      assert all[..|all| - 1] == [];
      RowLoaded(t, ps, uid, myUid);
    } else {
      assert all[..|all| - 1] == [Reload(ps)] + es[..|es| - 1];
      ToldAfter(t, ps, es[..|es| - 1], uid, myUid);
    }
  }

  lemma RowLoaded(t: Table, ps: seq<Package>, uid: int, myUid: int)
    requires forall u <- t :: t[u].uid == u
    ensures var f := Row(t, uid);
            Row(Load(t, ps, myUid).table, uid)
            == if !Present(ps, uid, myUid) then None else if f.Some? then f else Some(NONE)
  {
    hide Load, Of;
    LoadAgrees(t, ps, myUid);
  }
}
