/**
 Provisioning a tenant that nobody has provisioned before: what is there afterwards is exactly what was asked for, and
 running the request again leaves it alone exactly when it asks for at most a hundred of each kind.
 */
module FreshTenants {
  import opened Prelude
  import opened Stores
  import opened DeviceWorkers
  import opened WorkerRuns
  import opened Bootstrap
  import opened Provisioning
  import opened Reruns

  // ----- owners that own nothing yet -----

  ghost predicate OwnersBelow(table: Table, n: nat) {
    forall i | 0 <= i < |table| :: table[i].owner < n
  }

  lemma {:induction false} OwnsNothing(table: Table, owner: nat)
    requires OwnersBelow(table, owner)
    ensures Owned(table, owner) == []
  {
    if table != [] {
      OwnsNothing(table[..|table| - 1], owner);
    }
  }

  /** Nobody has this tenant, and no record belongs to an id that the server has not handed out. */
  ghost predicate Fresh(w: World, req: Request) {
    && IdOf(w.tables.tenants, 0, req.org).None?
    && OwnersBelow(w.tables.profiles, w.nextId) && OwnersBelow(w.tables.applications, w.nextId)
    && OwnersBelow(w.tables.devices, w.nextId)
  }

  lemma GrownIsAsked(before: Table, now: Table, owner: nat, names: seq<string>)
    requires Grown(before, now, owner, names) && OwnersBelow(before, owner)
    ensures OnlyAsked(now, owner, names)
  {
    assert forall i | 0 <= i < |before| :: now[..|before|][i] == before[i];
  }

  // ----- the tenant and its profiles -----

  lemma NewTenant(w: World, fails: Oracle, req: Request)
    requires IdOf(w.tables.tenants, 0, req.org).None?
    ensures var r := EnsuredNames(w, fails, Tenants, 0, [req.org]);
            r.1.Some? ==> && r.1.value == [w.nextId] && r.0.nextId == w.nextId + 1
                          && r.0.tables == w.tables.(tenants := w.tables.tenants + [Record(w.nextId, 0, req.org)])
  {
    var page := Page(w, fails, Tenants, 0);
    if Lookup(page, req.org).Some? {
      ShownIsKnown(page, w.tables.tenants, 0, req.org);
    }
    assert [req.org][..0] == [];
    assert EnsuredEach(AfterList(w, fails, Tenants, 0), fails, Tenants, 0, page, []).1 == Some([]);
    assert [] + [w.nextId] == [w.nextId];
  }

  lemma {:induction false} IdsGrow(w: World, fails: Oracle, kind: Kind, owner: nat, page: Table, names: seq<string>)
    ensures EnsuredEach(w, fails, kind, owner, page, names).0.nextId >= w.nextId
  {
    if names != [] {
      IdsGrow(w, fails, kind, owner, page, names[..|names| - 1]);
    }
  }

  /** The tenant and its profiles are all that the first phases add. */
  lemma NewProfiles(w: World, fails: Oracle, req: Request)
    requires req.Valid() && Fresh(w, req) && AllUnique(w.tables) && TenantPhase(w, fails, req).1.Some?
    ensures var r := TenantPhase(w, fails, req);
            && r.1.value.0 == w.nextId < r.0.nextId
            && r.0.tables.tenants == w.tables.tenants + [Record(w.nextId, 0, req.org)]
            && r.0.tables.applications == w.tables.applications && r.0.tables.devices == w.tables.devices
            && Unique(r.0.tables.profiles) && OnlyAsked(r.0.tables.profiles, w.nextId, req.Profiles())
            && AllKnown(r.0.tables.profiles, w.nextId, req.Profiles())
  {
    NewTenant(w, fails, req);
    var t := EnsuredNames(w, fails, Tenants, 0, [req.org]).0;
    var names, page := req.Profiles(), Page(t, fails, Profiles, w.nextId);
    OwnsNothing(w.tables.profiles, w.nextId);
    AllNamesDistinct(req.org, req.dpPrefix, req.dpCount);
    var ids := NamesPhase(t, fails, Profiles, w.nextId, names);
    var p := EnsuredNames(t, fails, Profiles, w.nextId, names);
    PhaseMeans(w.tables.profiles, p.0.tables.profiles, w.nextId, page, names, ids);
    GrownIsAsked(w.tables.profiles, p.0.tables.profiles, w.nextId, names);
    IdsGrow(AfterList(t, fails, Profiles, w.nextId), fails, Profiles, w.nextId, page, names);
  }

  // ----- the applications -----

  /** The applications made so far are different ones that hold nothing but what is asked for. */
  ghost predicate OwnApps(v: World, req: Request, ids: seq<nat>)
    requires req.Valid()
  {
    && |ids| <= req.appCount && OwnersBelow(v.tables.devices, v.nextId) && Unique(v.tables.devices)
    && forall i | 0 <= i < |ids| :: ids[i] < v.nextId && OnlyAsked(v.tables.devices, ids[i], req.DevicesOf(req.Apps()[i]))
  }

  lemma NewDevices(v: World, fails: Oracle, app: nat, names: seq<string>, schedule: seq<Event>)
    requires Distinct(names) && OwnersBelow(v.tables.devices, app) && Unique(v.tables.devices)
    ensures var r := EnsuredDevices(v, fails, app, names, schedule);
            && r.0.nextId == v.nextId && Grown(v.tables.devices, r.0.tables.devices, app, names)
            && Unique(r.0.tables.devices) && OnlyAsked(r.0.tables.devices, app, names)
  {
    OwnsNothing(v.tables.devices, app);
    var c := Setting(app, names, Page(v, fails, Kind.Devices, app));
    SuccessMeans(c, v.tables.devices, v.keys, schedule);
    GrownIsAsked(v.tables.devices, EnsuredDevices(v, fails, app, names, schedule).0.tables.devices, app, names);
  }

  lemma NewApp(v: World, fails: Oracle, tenant: nat, req: Request, ids: seq<nat>, schedule: seq<Event>)
    requires req.Valid() && OwnApps(v, req, ids) && |ids| < req.appCount
    ensures var r := AppTurn(v, fails, tenant, [], req, |ids|, schedule);
            r.1.Ran? ==> OwnApps(r.0, req, ids + [r.1.id])
  {
    var name := req.Apps()[|ids|];
    var app := Ensured(v, fails, Applications, tenant, [], name);
    AllNamesDistinct(name, req.devPrefix, req.devCount);
    if app.1.Some? {
      NewDevices(app.0, fails, app.1.value, req.DevicesOf(name), schedule);
      var before, now := v.tables.devices, AppTurn(v, fails, tenant, [], req, |ids|, schedule).0.tables.devices;
      forall i | 0 <= i < |ids| ensures OnlyAsked(now, ids[i], req.DevicesOf(req.Apps()[i])) {
        OthersStay(before, now, app.1.value, req.DevicesOf(name), ids[i], req.DevicesOf(req.Apps()[i]));
      }
      assert forall i | 0 <= i < |now| && i < |before| :: now[i] == before[i];
    }
  }

  lemma OthersStay(before: Table, now: Table, owner: nat, names: seq<string>, other: nat, asked: seq<string>)
    requires Grown(before, now, owner, names) && other != owner && OnlyAsked(before, other, asked)
    ensures OnlyAsked(now, other, asked)
  {
    forall i | 0 <= i < |now| && now[i].owner == other ensures now[i].name in asked {
      assert i < |before| && now[i] == before[i];
    }
  }

  lemma {:induction false} NewApps(w: World, fails: Oracle, tenant: nat, req: Request, schedules: nat -> seq<Event>, k: nat)
    requires req.Valid() && k <= req.appCount && OwnApps(w, req, [])
    ensures var r := AppsRun(w, fails, tenant, [], req, schedules, k);
            r.1.Going? ==> |r.1.ids| == k && OwnApps(r.0, req, r.1.ids)
  {
    if k > 0 {
      NewApps(w, fails, tenant, req, schedules, k - 1);
      var r := AppsRun(w, fails, tenant, [], req, schedules, k - 1);
      if r.1.Going? {
        NewApp(r.0, fails, tenant, req, r.1.ids, schedules(k - 1));
      }
    }
  }

  /** The phase of the applications, for a tenant without any. */
  lemma AllNew(w: World, fails: Oracle, tenant: nat, req: Request, schedules: nat -> seq<Event>)
    requires req.Valid() && OwnersBelow(w.tables.applications, tenant) && OwnersBelow(w.tables.devices, w.nextId)
    requires Unique(w.tables.applications) && Unique(w.tables.devices)
    requires var r := AppsPhase(w, fails, tenant, req, schedules); r.1.Going? && Trusted(r.0, req)
    ensures var t := AppsPhase(w, fails, tenant, req, schedules).0.tables;
            && t.tenants == w.tables.tenants && t.profiles == w.tables.profiles
            && Unique(t.applications) && Unique(t.devices) && OnlyAsked(t.applications, tenant, req.Apps())
            && forall i | 0 <= i < req.appCount ::
                 AppComplete(t.applications, t.devices, tenant, req, i) && OwnApp(t.applications, t.devices, tenant, req, i)
  {
    OwnsNothing(w.tables.applications, tenant);
    var v := AfterList(w, fails, Applications, tenant);
    var ids := AppsRunState(v, fails, tenant, [], req, schedules, req.appCount);
    NewApps(v, fails, tenant, req, schedules, req.appCount);
    var t := AppsRun(v, fails, tenant, [], req, schedules, req.appCount).0.tables;
    PhaseMeans(w.tables.applications, t.applications, tenant, [], req.Apps(), ids);
    GrownIsAsked(w.tables.applications, t.applications, tenant, req.Apps());
    forall i | 0 <= i < req.appCount
      ensures AppComplete(t.applications, t.devices, tenant, req, i) && OwnApp(t.applications, t.devices, tenant, req, i)
    {
      assert FoundAt(w.tables.applications, t.applications, tenant, [], req.Apps()[i], ids[i]);
      assert AllKnown(t.devices, ids[i], req.DevicesOf(req.Apps()[i]));
    }
  }

  // ----- the request -----

  /**
   A fresh tenant, whatever fails and whatever the listings show: after an accepted run without a refusal everything asked
   for is there once, and the tenant and its applications hold nothing else.
   */
  lemma ExactlyWhatWasAsked(w: World, fails: Oracle, req: Request, schedules: nat -> seq<Event>)
    requires Fresh(w, req) && AllUnique(w.tables)
    requires var r := Handled(w, fails, req, schedules); r.1.Accepted? && Trusted(r.0, req)
    ensures req.Valid()
    ensures var t := Handled(w, fails, req, schedules).0.tables;
            && Complete(t, req) && AllUnique(t) && Own(t, req)
            && t.tenants == w.tables.tenants + [Record(w.nextId, 0, req.org)]
  {
    AcceptedPhases(w, fails, req, schedules);
    var p := TenantPhase(w, fails, req).0;
    NewProfiles(w, fails, req);
    var r := Record(w.nextId, 0, req.org);
    IdAppend(w.tables.tenants, r, 0, req.org);
    UniqueAppend(w.tables.tenants, r);
    AllNew(p, fails, w.nextId, req, schedules);
  }

  /** The request asks for at most a hundred of each kind, and there are less than a hundred tenants. */
  predicate RoomFor(w: World, req: Request) {
    req.dpCount <= 100 && req.appCount <= 100 && req.devCount <= 100 && |Owned(w.tables.tenants, 0)| < 100
  }

  /** Rerunning such a request of a fresh tenant creates nothing, as long as the listings of the rerun are answered. */
  lemma FreshIsIdempotent(w: World, fails: Oracle, req: Request, schedules: nat -> seq<Event>, again: Oracle, later: nat -> seq<Event>)
    requires Fresh(w, req) && AllUnique(w.tables) && RoomFor(w, req)
    requires var r := Handled(w, fails, req, schedules);
             r.1.Accepted? && Trusted(r.0, req) && Answered(again, r.0.calls, 3 + req.appCount)
    ensures var r := Handled(w, fails, req, schedules); Handled(r.0, again, req, later).0.tables == r.0.tables
  {
    ExactlyWhatWasAsked(w, fails, req, schedules);
    var r := Handled(w, fails, req, schedules);
    OwnedAppend(w.tables.tenants, Record(w.nextId, 0, req.org), 0);
    SmallIsShown(r.0.tables, req);
    LeftAlone(r.0, again, req, later);
  }

  /** A tenant added behind a hundred others is not shown. */
  lemma TenantBeyond(tenants: Table, r: Record, t: Tables, req: Request)
    requires req.Valid() && |Owned(tenants, 0)| >= LIST_LIMIT && IdOf(tenants, 0, req.org).None? && t.tenants == tenants + [r]
    ensures !Shows(t, req)
  {
    OwnedAppend(tenants, r, 0);
    var page := FirstPage(Owned(tenants, 0));
    assert FirstPage(Owned(t.tenants, 0)) == page;
    if Lookup(page, req.org).Some? {
      ShownIsKnown(page, tenants, 0, req.org);
    }
  }

  /**
   Otherwise some accepted first run for a fresh tenant is complete with unique names, and some rerun creates names a
   second time.
   */
  lemma RerunDuplicates(w: World, req: Request) returns (first: nat -> seq<Event>, second: nat -> seq<Event>)
    requires req.Valid() && !RoomFor(w, req) && Fresh(w, req) && AllUnique(w.tables) && !w.refused
    ensures var one := Handled(w, Never, req, first);
            && one.1.Accepted? && Trusted(one.0, req) && Complete(one.0.tables, req) && AllUnique(one.0.tables)
            && !AllUnique(Handled(one.0, Never, req, second).0.tables)
  {
    first := GoodRequest(w, req);
    ExactlyWhatWasAsked(w, Never, req, first);
    var v := Handled(w, Never, req, first).0;
    if Small(req) {
      TenantBeyond(w.tables.tenants, Record(w.nextId, 0, req.org), v.tables, req);
    } else {
      TooManyToShow(v.tables, req);
    }
    second := GoodRequest(v, req);
    TouchedTwice(v, Never, req, second);
  }

  /** In every first run that is accepted without a refusal and every interleaving of a rerun, the rerun creates nothing. */
  ghost predicate AlwaysIdempotent(w: World, req: Request) {
    forall first, second | Handled(w, Never, req, first).1.Accepted? && Trusted(Handled(w, Never, req, first).0, req) ::
      Handled(Handled(w, Never, req, first).0, Never, req, second).0.tables == Handled(w, Never, req, first).0.tables
  }

  /**
   For a fresh tenant, with every call answered: a rerun creates nothing exactly when at most a hundred of each kind are
   asked for and there were less than a hundred tenants.
   */
  lemma FreshIdempotentIff(w: World, req: Request)
    requires req.Valid() && Fresh(w, req) && AllUnique(w.tables) && !w.refused
    ensures AlwaysIdempotent(w, req) <==> RoomFor(w, req)
  {
    if RoomFor(w, req) {
      forall first, second | Handled(w, Never, req, first).1.Accepted? && Trusted(Handled(w, Never, req, first).0, req)
        ensures Handled(Handled(w, Never, req, first).0, Never, req, second).0.tables == Handled(w, Never, req, first).0.tables
      {
        FreshIsIdempotent(w, Never, req, first, Never, second);
      }
    } else {
      var first, second := RerunDuplicates(w, req);
      assert Handled(Handled(w, Never, req, first).0, Never, req, second).0.tables != Handled(w, Never, req, first).0.tables;
    }
  }
}
