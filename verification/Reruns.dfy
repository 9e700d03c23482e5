/**
 When a provisioning request leaves the server's records alone: exactly when the first page of each listing shows every
 name it asks for. Elsewhere a rerun creates records a second time.
 */
module Reruns {
  import opened Prelude
  import opened Stores
  import opened DeviceWorkers
  import opened WorkerRuns
  import opened Bootstrap
  import opened Provisioning
  import Names

  // ----- what the first pages show -----

  /** The page shows application i, and the first page of its devices shows all of them. */
  ghost predicate ShowsApp(page: Table, devices: Table, req: Request, i: nat)
    requires req.Valid() && i < req.appCount
  {
    var id := Lookup(page, req.Apps()[i]);
    id.Some? && Shown(FirstPage(Owned(devices, id.value)), req.DevicesOf(req.Apps()[i]))
  }

  ghost predicate ShowsApps(page: Table, devices: Table, req: Request, k: nat)
    requires req.Valid() && k <= req.appCount
  {
    forall i | 0 <= i < k :: ShowsApp(page, devices, req, i)
  }

  /** The first page of each listing shows every name that the request asks for there. */
  ghost predicate Shows(t: Tables, req: Request)
    requires req.Valid()
  {
    var tenant := Lookup(FirstPage(Owned(t.tenants, 0)), req.org);
    && tenant.Some?
    && Shown(FirstPage(Owned(t.profiles, tenant.value)), req.Profiles())
    && ShowsApps(FirstPage(Owned(t.applications, tenant.value)), t.devices, req, req.appCount)
  }

  // ----- shown names are left alone -----

  /** Calls number `from` to `from` + n - 1 are answered. */
  ghost predicate Answered(fails: Oracle, from: nat, n: nat) {
    forall i: nat | from <= i < from + n :: !fails(i)
  }

  lemma {:induction false} AppsLeftAlone(w: World, fails: Oracle, tenant: nat, page: Table, req: Request,
                                         schedules: nat -> seq<Event>, k: nat)
    requires req.Valid() && k <= req.appCount && ShowsApps(page, w.tables.devices, req, k) && Answered(fails, w.calls, k)
    ensures var r := AppsRun(w, fails, tenant, page, req, schedules, k);
            r.0.tables == w.tables && (r.1.Going? ==> r.0.calls == w.calls + k)
  {
    if k > 0 {
      AppsLeftAlone(w, fails, tenant, page, req, schedules, k - 1);
      var r := AppsRun(w, fails, tenant, page, req, schedules, k - 1);
      if r.1.Going? {
        TurnLeftAlone(r.0, fails, tenant, page, req, k - 1, schedules(k - 1));
      }
    }
  }

  lemma TurnLeftAlone(v: World, fails: Oracle, tenant: nat, page: Table, req: Request, i: nat, schedule: seq<Event>)
    requires req.Valid() && i < req.appCount && ShowsApp(page, v.tables.devices, req, i) && !fails(v.calls)
    ensures var r := AppTurn(v, fails, tenant, page, req, i, schedule); r.0.tables == v.tables && r.0.calls == v.calls + 1
  {
    var name := req.Apps()[i];
    AllNamesDistinct(name, req.devPrefix, req.devCount);
    DevicesMean(v, fails, Lookup(page, name).value, req.DevicesOf(name), schedule);
  }

  lemma NamesLeftAlone(w: World, fails: Oracle, kind: Kind, owner: nat, names: seq<string>)
    requires Distinct(names) && !fails(w.calls) && Shown(FirstPage(Owned(w.tables.Get(kind), owner)), names)
    ensures var r := EnsuredNames(w, fails, kind, owner, names);
            && r.0 == AfterList(w, fails, kind, owner) && r.1.Some?
            && forall j | 0 <= j < |names| :: Some(r.1.value[j]) == Lookup(FirstPage(Owned(w.tables.Get(kind), owner)), names[j])
  {
    var ids := NamesPhase(w, fails, kind, owner, names);
    forall j | 0 <= j < |names| ensures Some(ids[j]) == Lookup(FirstPage(Owned(w.tables.Get(kind), owner)), names[j]) {
      assert FoundAt(w.tables.Get(kind), w.tables.Get(kind), owner, Page(w, fails, kind, owner), names[j], ids[j]);
    }
  }

  /** The tenant and the profiles, when both are shown. */
  lemma TenantLeftAlone(w: World, fails: Oracle, req: Request)
    requires req.Valid() && !fails(w.calls) && !fails(w.calls + 1)
    requires var tenant := Lookup(FirstPage(Owned(w.tables.tenants, 0)), req.org);
             tenant.Some? && Shown(FirstPage(Owned(w.tables.profiles, tenant.value)), req.Profiles())
    ensures var r := TenantPhase(w, fails, req);
            && r.0.tables == w.tables && r.0.calls == w.calls + 2
            && r.1.Some? && r.1.value.0 == Lookup(FirstPage(Owned(w.tables.tenants, 0)), req.org).value
  {
    OneName(req.org);
    assert [req.org][0] == req.org;
    NamesLeftAlone(w, fails, Tenants, 0, [req.org]);
    AllNamesDistinct(req.org, req.dpPrefix, req.dpCount);
    var t := EnsuredNames(w, fails, Tenants, 0, [req.org]);
    assert t.1.value[0] == Lookup(FirstPage(Owned(w.tables.tenants, 0)), req.org).value;
    NamesLeftAlone(t.0, fails, Profiles, t.1.value[0], req.Profiles());
  }

  /** When the first pages show everything and the listings are answered, no interleaving creates anything. */
  lemma LeftAlone(w: World, fails: Oracle, req: Request, schedules: nat -> seq<Event>)
    requires req.Valid() && Shows(w.tables, req) && Answered(fails, w.calls, 3 + req.appCount)
    ensures Handled(w, fails, req, schedules).0.tables == w.tables
  {
    TenantLeftAlone(w, fails, req);
    var t := TenantPhase(w, fails, req);
    var tenant := t.1.value.0;
    var v := AfterList(t.0, fails, Applications, tenant);
    AppsLeftAlone(v, fails, tenant, Page(t.0, fails, Applications, tenant), req, schedules, req.appCount);
  }

  // ----- an interleaving in which all goes well -----

  predicate Never(n: nat) {
    false
  }

  function Size(t: Tables): nat {
    |t.tenants| + |t.profiles| + |t.applications| + |t.devices|
  }

  lemma SameSize(t: Tables, u: Tables)
    requires AllExtend(t, u) && Size(u) <= Size(t)
    ensures u == t
  {
    assert u.tenants[..|t.tenants|] == t.tenants && u.profiles[..|t.profiles|] == t.profiles;
    assert u.applications[..|t.applications|] == t.applications && u.devices[..|t.devices|] == t.devices;
  }

  lemma {:induction false} AppsAgree(w: World, fails: Oracle, tenant: nat, page: Table, req: Request,
                                     one: nat -> seq<Event>, two: nat -> seq<Event>, k: nat)
    requires req.Valid() && k <= req.appCount && forall i: nat | i < k :: one(i) == two(i)
    ensures AppsRun(w, fails, tenant, page, req, one, k) == AppsRun(w, fails, tenant, page, req, two, k)
  {
    if k > 0 {
      AppsAgree(w, fails, tenant, page, req, one, two, k - 1);
    }
  }

  /** One turn that goes well: the devices that are not shown are created. */
  lemma GoodTurn(v: World, tenant: nat, page: Table, req: Request, i: nat) returns (schedule: seq<Event>)
    requires req.Valid() && i < req.appCount
    ensures var r := AppTurn(v, Never, tenant, page, req, i, schedule);
            && r.1.Ran? && r.1.jobs.Succeeded() && r.0.refused == v.refused && AllExtend(v.tables, r.0.tables)
            && (ShowsApp(page, v.tables.devices, req, i) || Size(r.0.tables) > Size(v.tables))
  {
    var name := req.Apps()[i];
    EnsuredMeans(v, Never, Applications, tenant, page, name);
    var app := Ensured(v, Never, Applications, tenant, page, name);
    var id, names := app.1.value, req.DevicesOf(name);
    AllNamesDistinct(name, req.devPrefix, req.devCount);
    var c := Setting(id, names, Page(app.0, Never, Kind.Devices, id));
    schedule := GoodRun(c, v.tables.devices, v.keys);
    DevicesMean(app.0, Never, id, names, schedule);
    var r := EnsuredDevices(app.0, Never, id, names, schedule);
    assert v.tables.devices <= r.0.tables.devices;
    if Lookup(page, name).Some? && !Shown(c.page, names) {
      var j :| 0 <= j < |names| && !Lookup(c.page, names[j]).Some?;
      assert !Listed(c, j);
      assert AddedAfter(v.tables.devices, r.0.tables.devices, id, names[j]);
    }
  }

  function Extended(schedules: nat -> seq<Event>, k: nat, schedule: seq<Event>): nat -> seq<Event> {
    (i: nat) => if i == k then schedule else schedules(i)
  }

  lemma AppsExtended(w: World, tenant: nat, page: Table, req: Request, schedules: nat -> seq<Event>, schedule: seq<Event>, k: nat)
    requires req.Valid() && 0 < k <= req.appCount
    requires AppsRun(w, Never, tenant, page, req, schedules, k - 1).1.Going?
    ensures AppsRun(w, Never, tenant, page, req, Extended(schedules, k - 1, schedule), k)
         == Advanced(AppsRun(w, Never, tenant, page, req, schedules, k - 1), Never, tenant, page, req, k - 1, schedule)
  {
    var more := Extended(schedules, k - 1, schedule);
    assert more(k - 1) == schedule;
    AppsAgree(w, Never, tenant, page, req, schedules, more, k - 1);
  }

  lemma {:induction false} GoodApps(w: World, tenant: nat, page: Table, req: Request, k: nat) returns (schedules: nat -> seq<Event>)
    requires req.Valid() && k <= req.appCount
    ensures GoodSoFar(w, AppsRun(w, Never, tenant, page, req, schedules, k), page, req, k)
  {
    if k == 0 {
      schedules := (i: nat) => [];
    } else {
      var before := GoodApps(w, tenant, page, req, k - 1);
      var r := AppsRun(w, Never, tenant, page, req, before, k - 1);
      var schedule := GoodTurn(r.0, tenant, page, req, k - 1);
      schedules := Extended(before, k - 1, schedule);
      AppsExtended(w, tenant, page, req, before, schedule, k);
      GoodMore(w, r, AppTurn(r.0, Never, tenant, page, req, k - 1, schedule), page, req, k);
    }
  }

  ghost predicate GoodSoFar(w: World, r: (World, Progress), page: Table, req: Request, k: nat)
    requires req.Valid() && k <= req.appCount
  {
    && r.1.Going? && r.0.refused == w.refused && AllExtend(w.tables, r.0.tables)
    && (ShowsApps(page, w.tables.devices, req, k) || Size(r.0.tables) > Size(w.tables))
  }

  lemma GoodMore(w: World, r: (World, Progress), turn: (World, Turn), page: Table, req: Request, k: nat)
    requires req.Valid() && 0 < k <= req.appCount && GoodSoFar(w, r, page, req, k - 1)
    requires turn.1.Ran? && turn.1.jobs.Succeeded() && turn.0.refused == r.0.refused && AllExtend(r.0.tables, turn.0.tables)
    requires ShowsApp(page, r.0.tables.devices, req, k - 1) || Size(turn.0.tables) > Size(r.0.tables)
    ensures GoodSoFar(w, (turn.0, After(r.1, turn.1)), page, req, k)
  {
    if Size(r.0.tables) <= Size(w.tables) {
      SameSize(w.tables, r.0.tables);
    }
  }

  lemma {:induction false} NeverStops(w: World, kind: Kind, owner: nat, page: Table, names: seq<string>)
    ensures EnsuredEach(w, Never, kind, owner, page, names).1.Some?
  {
    if names != [] {
      NeverStops(w, kind, owner, page, names[..|names| - 1]);
    }
  }

  /** The tenant and the profiles when every call is answered; what is not shown is created. */
  lemma GoodTenant(w: World, req: Request)
    requires req.Valid()
    ensures var r := TenantPhase(w, Never, req);
            && r.1.Some? && AllExtend(w.tables, r.0.tables) && r.0.refused == w.refused
            && (Size(r.0.tables) > Size(w.tables)
                || (r.0.tables == w.tables && Lookup(FirstPage(Owned(w.tables.tenants, 0)), req.org) == Some(r.1.value.0)
                    && Shown(FirstPage(Owned(w.tables.profiles, r.1.value.0)), req.Profiles())))
  {
    OneName(req.org);
    var ids := NamesPhase(w, Never, Tenants, 0, [req.org]);
    var page := Page(w, Never, Tenants, 0);
    NeverStops(AfterList(w, Never, Tenants, 0), Tenants, 0, page, [req.org]);
    var t := EnsuredNames(w, Never, Tenants, 0, [req.org]);
    PhaseMeans(w.tables.tenants, t.0.tables.tenants, 0, page, [req.org], ids);
    assert FoundAt(w.tables.tenants, t.0.tables.tenants, 0, page, [req.org][0], ids[0]);
    AllNamesDistinct(req.org, req.dpPrefix, req.dpCount);
    var ps := NamesPhase(t.0, Never, Profiles, ids[0], req.Profiles());
    var p := EnsuredNames(t.0, Never, Profiles, ids[0], req.Profiles());
    NeverStops(AfterList(t.0, Never, Profiles, ids[0]), Profiles, ids[0], Page(t.0, Never, Profiles, ids[0]), req.Profiles());
    PhaseMeans(t.0.tables.profiles, p.0.tables.profiles, ids[0], Page(t.0, Never, Profiles, ids[0]), req.Profiles(), ps);
    if Size(p.0.tables) <= Size(w.tables) {
      SameSize(w.tables, p.0.tables);
      assert [req.org][0] == req.org;
    }
  }

  /** With every call answered, a request can always be accepted with no device refused; what is not shown is created. */
  lemma GoodRequest(w: World, req: Request) returns (schedules: nat -> seq<Event>)
    requires req.Valid()
    ensures var r := Handled(w, Never, req, schedules);
            && r.1.Accepted? && r.0.refused == w.refused
            && (Shows(w.tables, req) || Size(r.0.tables) > Size(w.tables))
  {
    GoodTenant(w, req);
    var t := TenantPhase(w, Never, req);
    var tenant := t.1.value.0;
    var v, page := AfterList(t.0, Never, Applications, tenant), Page(t.0, Never, Applications, tenant);
    schedules := GoodApps(v, tenant, page, req, req.appCount);
  }

  /**
   A request whose calls are all answered leaves the records alone in every interleaving exactly when the first page of
   each listing shows every name it asks for.
   */
  lemma LeftAloneIff(w: World, req: Request)
    requires req.Valid()
    ensures (forall schedules :: Handled(w, Never, req, schedules).0.tables == w.tables) <==> Shows(w.tables, req)
  {
    if Shows(w.tables, req) {
      forall schedules ensures Handled(w, Never, req, schedules).0.tables == w.tables {
        LeftAlone(w, Never, req, schedules);
      }
    } else {
      var schedules := GoodRequest(w, req);
      assert Handled(w, Never, req, schedules).0.tables != w.tables;
    }
  }

  // ----- what is created on a complete store is there twice -----

  lemma UniqueOfPrefix(t: Table, u: Table)
    requires t <= u && Unique(u)
    ensures Unique(t)
  {
    forall i | 0 <= i < |t| ensures t[i] == u[i] {}
  }

  lemma GrownTwice(before: Table, now: Table, owner: nat, names: seq<string>)
    requires Grown(before, now, owner, names) && AllKnown(before, owner, names)
    ensures now == before || !Unique(now)
  {
    if |now| > |before| {
      var name := now[|before|].name;
      var k :| 0 <= k < |names| && names[k] == name;
      assert IdOf(before, owner, names[k]).Some?;
      assert now[|before|].owner == owner;
      AddedTwice(before, now, owner, name);
    } else {
      assert now == before;
    }
  }

  /** Names that are not unique stay so. */
  lemma NotUniqueForGood(t: Tables, u: Tables)
    requires AllExtend(t, u) && !AllUnique(t)
    ensures !AllUnique(u)
  {
    if AllUnique(u) {
      UniqueOfPrefix(t.tenants, u.tenants);
      UniqueOfPrefix(t.profiles, u.profiles);
      UniqueOfPrefix(t.applications, u.applications);
      UniqueOfPrefix(t.devices, u.devices);
    }
  }

  lemma TurnExtends(v: World, fails: Oracle, tenant: nat, page: Table, req: Request, i: nat, schedule: seq<Event>)
    requires req.Valid() && i < req.appCount
    ensures AllExtend(v.tables, AppTurn(v, fails, tenant, page, req, i, schedule).0.tables)
  {
    var name := req.Apps()[i];
    EnsuredMeans(v, fails, Applications, tenant, page, name);
    var app := Ensured(v, fails, Applications, tenant, page, name);
    if app.1.Some? {
      AllNamesDistinct(name, req.devPrefix, req.devCount);
      DevicesMean(app.0, fails, app.1.value, req.DevicesOf(name), schedule);
      assert v.tables.devices <= AppTurn(v, fails, tenant, page, req, i, schedule).0.tables.devices;
    }
  }

  lemma TurnTwice(v: World, fails: Oracle, tenant: nat, page: Table, req: Request, i: nat, schedule: seq<Event>)
    requires req.Valid() && i < req.appCount && PageOf(page, v.tables.applications, tenant)
    requires AppComplete(v.tables.applications, v.tables.devices, tenant, req, i)
    ensures var r := AppTurn(v, fails, tenant, page, req, i, schedule); r.0.tables == v.tables || !AllUnique(r.0.tables)
  {
    var name := req.Apps()[i];
    EnsuredMeans(v, fails, Applications, tenant, page, name);
    var app := Ensured(v, fails, Applications, tenant, page, name);
    if Lookup(page, name).Some? {
      ShownIsKnown(page, v.tables.applications, tenant, name);
      AllNamesDistinct(name, req.devPrefix, req.devCount);
      DevicesMean(v, fails, app.1.value, req.DevicesOf(name), schedule);
      GrownTwice(v.tables.devices, AppTurn(v, fails, tenant, page, req, i, schedule).0.tables.devices, app.1.value, req.DevicesOf(name));
    } else if app.1.Some? {
      var apps := app.0.tables.applications;
      assert apps[|apps| - 1].owner == tenant && apps[|apps| - 1].name == name;
      AddedTwice(v.tables.applications, apps, tenant, name);
      AllNamesDistinct(name, req.devPrefix, req.devCount);
      DevicesMean(app.0, fails, app.1.value, req.DevicesOf(name), schedule);
    }
  }

  /** Either nothing was created so far, or some name is there twice. */
  ghost predicate SameOrTwice(t: Tables, u: Tables) {
    AllExtend(t, u) && (u == t || !AllUnique(u))
  }

  lemma TwiceMore(t: Tables, v: World, fails: Oracle, tenant: nat, page: Table, req: Request, i: nat, schedule: seq<Event>)
    requires req.Valid() && i < req.appCount && PageOf(page, t.applications, tenant)
    requires AppComplete(t.applications, t.devices, tenant, req, i) && SameOrTwice(t, v.tables)
    ensures SameOrTwice(t, AppTurn(v, fails, tenant, page, req, i, schedule).0.tables)
  {
    TurnExtends(v, fails, tenant, page, req, i, schedule);
    var u := AppTurn(v, fails, tenant, page, req, i, schedule).0.tables;
    if v.tables == t {
      TurnTwice(v, fails, tenant, page, req, i, schedule);
    } else {
      NotUniqueForGood(v.tables, u);
    }
  }

  lemma {:induction false} AppsTwice(w: World, fails: Oracle, tenant: nat, page: Table, req: Request,
                                     schedules: nat -> seq<Event>, k: nat)
    requires req.Valid() && k <= req.appCount && PageOf(page, w.tables.applications, tenant)
    requires AppsComplete(w.tables.applications, w.tables.devices, tenant, req)
    ensures SameOrTwice(w.tables, AppsRun(w, fails, tenant, page, req, schedules, k).0.tables)
  {
    if k > 0 {
      AppsTwice(w, fails, tenant, page, req, schedules, k - 1);
      var r := AppsRun(w, fails, tenant, page, req, schedules, k - 1);
      if r.1.Going? {
        assert AppComplete(w.tables.applications, w.tables.devices, tenant, req, k - 1);
        TwiceMore(w.tables, r.0, fails, tenant, page, req, k - 1, schedules(k - 1));
      }
    }
  }

  /** The tenant and the profiles of a complete store. */
  lemma TenantTwice(w: World, fails: Oracle, req: Request)
    requires req.Valid() && Complete(w.tables, req)
    ensures var r := TenantPhase(w, fails, req);
            && AllExtend(w.tables, r.0.tables)
            && (!AllUnique(r.0.tables)
                || (r.0.tables == w.tables && (r.1.Some? ==> Some(r.1.value.0) == IdOf(w.tables.tenants, 0, req.org))))
  {
    OneName(req.org);
    var ids := NamesPhase(w, fails, Tenants, 0, [req.org]);
    var page, t := Page(w, fails, Tenants, 0), EnsuredNames(w, fails, Tenants, 0, [req.org]);
    PhaseMeans(w.tables.tenants, t.0.tables.tenants, 0, page, [req.org], ids);
    assert AllKnown(w.tables.tenants, 0, [req.org]);
    GrownTwice(w.tables.tenants, t.0.tables.tenants, 0, [req.org]);
    if t.1.Some? {
      var tenant := ids[0];
      if t.0.tables.tenants == w.tables.tenants {
        TenantShown(w.tables.tenants, page, req.org, tenant, ids);
      }
      AllNamesDistinct(req.org, req.dpPrefix, req.dpCount);
      var ps := NamesPhase(t.0, fails, Profiles, tenant, req.Profiles());
      var p := EnsuredNames(t.0, fails, Profiles, tenant, req.Profiles());
      PhaseMeans(t.0.tables.profiles, p.0.tables.profiles, tenant, Page(t.0, fails, Profiles, tenant), req.Profiles(), ps);
      if t.0.tables.tenants == w.tables.tenants {
        GrownTwice(w.tables.profiles, p.0.tables.profiles, tenant, req.Profiles());
      }
    }
  }

  lemma TenantShown(tenants: Table, page: Table, org: string, tenant: nat, ids: seq<nat>)
    requires PageOf(page, tenants, 0) && Phase(tenants, tenants, 0, page, [org], ids) && ids == [tenant]
    ensures Some(tenant) == IdOf(tenants, 0, org)
  {
    assert FirstShown(page, [org], 1);
    assert [org][0] == org && Lookup(page, [org][0]).Some?;
    assert FoundAt(tenants, tenants, 0, page, [org][0], ids[0]);
    ShownIsKnown(page, tenants, 0, org);
  }

  /** On a complete store, whatever fails: a run that creates anything creates a name a second time. */
  lemma TouchedTwice(w: World, fails: Oracle, req: Request, schedules: nat -> seq<Event>)
    requires req.Valid() && Complete(w.tables, req)
    ensures var r := Handled(w, fails, req, schedules); r.0.tables == w.tables || !AllUnique(r.0.tables)
  {
    TenantTwice(w, fails, req);
    var t := TenantPhase(w, fails, req);
    if t.1.Some? {
      if t.0.tables == w.tables && Some(t.1.value.0) == IdOf(w.tables.tenants, 0, req.org) {
        AppsTwice(AfterList(t.0, fails, Applications, t.1.value.0), fails, t.1.value.0,
                  Page(t.0, fails, Applications, t.1.value.0), req, schedules, req.appCount);
      } else {
        AppsMean(t.0, fails, t.1.value.0, req, schedules);
        NotUniqueForGood(t.0.tables, Handled(w, fails, req, schedules).0.tables);
      }
    }
  }

  /**
   Rerunning a request on a store of unique names that has everything: names stay unique in every interleaving exactly
   when the first page of each listing shows every name.
   */
  lemma RerunUniqueIff(w: World, req: Request)
    requires req.Valid() && Complete(w.tables, req) && AllUnique(w.tables)
    ensures (forall schedules :: AllUnique(Handled(w, Never, req, schedules).0.tables)) <==> Shows(w.tables, req)
  {
    if Shows(w.tables, req) {
      forall schedules ensures AllUnique(Handled(w, Never, req, schedules).0.tables) {
        LeftAlone(w, Never, req, schedules);
      }
    } else {
      var schedules := GoodRequest(w, req);
      TouchedTwice(w, Never, req, schedules);
      assert !AllUnique(Handled(w, Never, req, schedules).0.tables);
    }
  }

  // ----- when everything is shown -----

  /** A listing that fits shows what is known. */
  lemma FitsShows(table: Table, owner: nat, names: seq<string>)
    requires Fits(table, owner) && AllKnown(table, owner, names)
    ensures Shown(FirstPage(Owned(table, owner)), names)
  {
  }

  /** The listings of the tenants, of this tenant and of its applications fit. */
  ghost predicate AllFit(t: Tables, req: Request)
    requires req.Valid()
  {
    var tenant := IdOf(t.tenants, 0, req.org);
    && tenant.Some?
    && Fits(t.tenants, 0) && Fits(t.profiles, tenant.value) && Fits(t.applications, tenant.value)
    && forall i | 0 <= i < req.appCount ::
         var app := IdOf(t.applications, tenant.value, req.Apps()[i]); app.Some? && Fits(t.devices, app.value)
  }

  /** A complete store whose listings fit is shown in full. */
  lemma FittingIsShown(t: Tables, req: Request)
    requires req.Valid() && Complete(t, req) && AllFit(t, req)
    ensures Shows(t, req)
  {
    var tenant := IdOf(t.tenants, 0, req.org).value;
    FitsShows(t.profiles, tenant, req.Profiles());
    var page := FirstPage(Owned(t.applications, tenant));
    forall i | 0 <= i < req.appCount ensures ShowsApp(page, t.devices, req, i) {
      assert AppComplete(t.applications, t.devices, tenant, req, i);
      FitsShows(t.devices, IdOf(t.applications, tenant, req.Apps()[i]).value, req.DevicesOf(req.Apps()[i]));
    }
  }

  function NamesIn(records: Table): set<string> {
    set i | 0 <= i < |records| :: records[i].name
  }

  lemma NamesAppend(some: Table, last: Record)
    ensures NamesIn(some + [last]) == NamesIn(some) + {last.name}
  {
    var all := some + [last];
    forall n | n in NamesIn(all) ensures n in NamesIn(some) + {last.name} {
      var i :| 0 <= i < |all| && all[i].name == n;
      assert i < |some| ==> some[i].name == n;
    }
    forall n | n in NamesIn(some) ensures n in NamesIn(all) {
      var i :| 0 <= i < |some| && some[i].name == n;
      assert all[i].name == n;
    }
    assert all[|some|].name == last.name;
  }

  lemma {:induction false} AtMost(records: Table)
    ensures |NamesIn(records)| <= |records|
  {
    if records != [] {
      var front := records[..|records| - 1];
      AtMost(front);
      NamesAppend(front, records[|records| - 1]);
      assert records == front + [records[|records| - 1]];
    }
  }

  lemma ListedNames(records: Table, names: seq<string>)
    requires Shown(records, names) && Distinct(names)
    ensures |names| <= |records|
  {
    forall n | n in Asked(names) ensures n in NamesIn(records) {
      LookupHolds(records, n);
    }
    SubsetSize(Asked(names), NamesIn(records));
    AtMost(records);
    DistinctCount(names);
  }

  lemma {:induction false} SubsetSize(a: set<string>, b: set<string>)
    requires a <= b
    ensures |a| <= |b|
  {
    if a != {} {
      var x :| x in a;
      SubsetSize(a - {x}, b - {x});
    }
  }

  function Asked(names: seq<string>): set<string> {
    set k | 0 <= k < |names| :: names[k]
  }

  lemma AskedAppend(some: seq<string>, last: string)
    ensures Asked(some + [last]) == Asked(some) + {last}
  {
    var all := some + [last];
    forall n | n in Asked(all) ensures n in Asked(some) + {last} {
      var k :| 0 <= k < |all| && all[k] == n;
      assert k < |some| ==> some[k] == n;
    }
    forall n | n in Asked(some) ensures n in Asked(all) {
      var k :| 0 <= k < |some| && some[k] == n;
      assert all[k] == n;
    }
    assert all[|some|] == last;
  }

  lemma {:induction false} DistinctCount(names: seq<string>)
    ensures |Asked(names)| <= |names|
    ensures Distinct(names) ==> |Asked(names)| == |names|
  {
    if names != [] {
      var front, last := names[..|names| - 1], names[|names| - 1];
      assert names == front + [last];
      DistinctCount(front);
      AskedAppend(front, last);
    }
  }

  /** More than a hundred of anything is never shown, so a rerun of such a request always can create records. */
  lemma TooManyToShow(t: Tables, req: Request)
    requires req.Valid() && !Small(req)
    ensures !Shows(t, req)
  {
    if Shows(t, req) {
      var tenant := Lookup(FirstPage(Owned(t.tenants, 0)), req.org).value;
      var page := FirstPage(Owned(t.applications, tenant));
      AllNamesDistinct(req.org, req.dpPrefix, req.dpCount);
      ListedNames(FirstPage(Owned(t.profiles, tenant)), req.Profiles());
      AllNamesDistinct(req.org, req.appPrefix, req.appCount);
      forall i | 0 <= i < |req.Apps()| ensures Lookup(page, req.Apps()[i]).Some? {
        assert ShowsApp(page, t.devices, req, i);
      }
      ListedNames(page, req.Apps());
      var name := req.Apps()[0];
      AllNamesDistinct(name, req.devPrefix, req.devCount);
      assert ShowsApp(page, t.devices, req, 0);
      ListedNames(FirstPage(Owned(t.devices, Lookup(page, name).value)), req.DevicesOf(name));
    }
  }

  /** An owner all of whose records bear one of at most a hundred names, each once, has a listing that fits. */
  lemma OnlyAskedFits(table: Table, owner: nat, names: seq<string>)
    requires Unique(table) && |names| <= LIST_LIMIT && OnlyAsked(table, owner, names)
    ensures Fits(table, owner)
  {
    OwnedDistinct(table, owner);
    var owned := Owned(table, owner);
    forall n | n in NamesIn(owned) ensures n in Asked(names) {
      var i :| 0 <= i < |owned| && owned[i].name == n;
      OwnedAreThere(table, owner, owned[i]);
      var k :| 0 <= k < |names| && names[k] == n;
    }
    SubsetSize(NamesIn(owned), Asked(names));
    DistinctCount(names);
  }

  lemma NewName(front: Table, last: Record)
    requires Unique(front + [last])
    ensures last.name !in NamesIn(Owned(front, last.owner))
  {
    var table, some := front + [last], Owned(front, last.owner);
    forall i | 0 <= i < |some| ensures some[i].name != last.name {
      OwnedAreThere(front, last.owner, some[i]);
      var k :| 0 <= k < |front| && front[k] == some[i];
      assert table[k] == some[i] && table[|front|] == last;
    }
  }

  /** In a table of unique names an owner's records have as many names as there are records. */
  lemma {:induction false} OwnedDistinct(table: Table, owner: nat)
    requires Unique(table)
    ensures |NamesIn(Owned(table, owner))| == |Owned(table, owner)|
  {
    if table != [] {
      var front, last := table[..|table| - 1], table[|table| - 1];
      UniqueOfPrefix(front, table);
      OwnedDistinct(front, owner);
      if last.owner == owner {
        var some, all := Owned(front, owner), Owned(table, owner);
        assert all == some + [last];
        NamesAppend(some, last);
        NewName(front, last);
        assert table == front + [last];
      } else {
        assert Owned(table, owner) == Owned(front, owner);
      }
    }
  }

  /** All records of this owner bear names that the request asks for. */
  ghost predicate OnlyAsked(table: Table, owner: nat, names: seq<string>) {
    forall i | 0 <= i < |table| && table[i].owner == owner :: table[i].name in names
  }

  predicate Small(req: Request) {
    req.dpCount <= LIST_LIMIT && req.appCount <= LIST_LIMIT && req.devCount <= LIST_LIMIT
  }

  /** Application i holds nothing but what the request asks for. */
  ghost predicate OwnApp(apps: Table, devices: Table, tenant: nat, req: Request, i: nat)
    requires req.Valid() && i < req.appCount
  {
    var app := IdOf(apps, tenant, req.Apps()[i]);
    app.Some? && OnlyAsked(devices, app.value, req.DevicesOf(req.Apps()[i]))
  }

  /** The tenant and its applications hold nothing but what the request asks for. */
  ghost predicate Own(t: Tables, req: Request)
    requires req.Valid()
  {
    var tenant := IdOf(t.tenants, 0, req.org);
    && tenant.Some?
    && OnlyAsked(t.profiles, tenant.value, req.Profiles()) && OnlyAsked(t.applications, tenant.value, req.Apps())
    && forall i | 0 <= i < req.appCount :: OwnApp(t.applications, t.devices, tenant.value, req, i)
  }

  /** Such a store of unique names is shown in full when at most a hundred of each are asked for and there are not too many tenants. */
  lemma SmallIsShown(t: Tables, req: Request)
    requires req.Valid() && Complete(t, req) && AllUnique(t) && Small(req) && Own(t, req) && Fits(t.tenants, 0)
    ensures Shows(t, req)
  {
    var tenant := IdOf(t.tenants, 0, req.org).value;
    OnlyAskedFits(t.profiles, tenant, req.Profiles());
    OnlyAskedFits(t.applications, tenant, req.Apps());
    forall i | 0 <= i < req.appCount
      ensures var app := IdOf(t.applications, tenant, req.Apps()[i]); app.Some? && Fits(t.devices, app.value)
    {
      assert OwnApp(t.applications, t.devices, tenant, req, i);
      OnlyAskedFits(t.devices, IdOf(t.applications, tenant, req.Apps()[i]).value, req.DevicesOf(req.Apps()[i]));
    }
    FittingIsShown(t, req);
  }

  /**
   Provisioning twice is the same as provisioning once: after an accepted run with full listings and no refusal, a rerun
   whose listings are answered creates nothing, in any interleaving, as long as the listings still fit.
   */
  lemma Idempotent(w: World, fails: Oracle, req: Request, schedules: nat -> seq<Event>, again: Oracle, later: nat -> seq<Event>)
    requires var r := Handled(w, fails, req, schedules);
             && r.1.Accepted? && r.0.full && Trusted(r.0, req)
             && req.Valid() && AllFit(r.0.tables, req) && Answered(again, r.0.calls, 3 + req.appCount)
    ensures var r := Handled(w, fails, req, schedules); Handled(r.0, again, req, later).0.tables == r.0.tables
  {
    FullIsComplete(w, fails, req, schedules);
    var r := Handled(w, fails, req, schedules);
    FittingIsShown(r.0.tables, req);
    LeftAlone(r.0, again, req, later);
  }

  // ----- a request that hides a refusal -----

  lemma {:induction false} DecimalHasNoHyphen(n: nat)
    ensures '-' !in Decimal(n)
  {
    if n >= 10 {
      DecimalHasNoHyphen(n / 10);
    }
  }

  /** The first device of the first application has a name of its own. */
  lemma FirstIsApart(req: Request, i: nat)
    requires req.Valid() && 0 < i < req.appCount
    ensures req.DevicesOf(req.Apps()[0])[0] !in req.DevicesOf(req.Apps()[i])
  {
    var name, names := req.DevicesOf(req.Apps()[0])[0], req.DevicesOf(req.Apps()[i]);
    var head := req.org + "-" + req.appPrefix + "-";
    if j: nat :| j < |names| && names[j] == name {
      var one, other := req.devPrefix + "-" + Decimal(1), req.devPrefix + "-" + Decimal(j + 1);
      assert name == head + (Decimal(1) + "-" + one) && names[j] == head + (Decimal(i + 1) + "-" + other);
      assert name[|head|..] == Decimal(1) + "-" + one && names[j][|head|..] == Decimal(i + 1) + "-" + other;
      DecimalHasNoHyphen(1);
      DecimalHasNoHyphen(i + 1);
      Names.FirstHyphen(Decimal(1), one, Decimal(i + 1), other);
      DecimalInjective(1, i + 1);
    }
  }

  ghost predicate NobodyHas(devices: Table, name: string) {
    forall app: nat :: IdOf(devices, app, name).None?
  }

  lemma StillNobody(before: Table, after: Table, owner: nat, names: seq<string>, name: string)
    requires Grown(before, after, owner, names) && NobodyHas(before, name)
    requires name !in names || IdOf(after, owner, name).None?
    ensures NobodyHas(after, name)
  {
    forall app: nat ensures IdOf(after, app, name).None? {
      GrownKeepsIds(before, after, owner, names, app, name);
    }
  }

  /**
   A whole request in which a refusal is hidden: with two devices or more to an application, when no application has the
   first device, some interleaving of an accepted request reports the full count and no application has it afterwards.
   */
  lemma RequestHidesRefusal(w: World, req: Request) returns (schedules: nat -> seq<Event>)
    requires req.Valid() && req.devCount >= 2 && NobodyHas(w.tables.devices, req.DevicesOf(req.Apps()[0])[0])
    ensures var r := Handled(w, Never, req, schedules);
            && r.1.Accepted? && r.1.devices == req.appCount * req.devCount
            && NobodyHas(r.0.tables.devices, req.DevicesOf(req.Apps()[0])[0])
  {
    GoodTenant(w, req);
    var t := TenantPhase(w, Never, req);
    var tenant := t.1.value.0;
    TenantMeans(w, Never, req);
    var v, page := AfterList(t.0, Never, Applications, tenant), Page(t.0, Never, Applications, tenant);
    schedules := HiddenApps(v, tenant, page, req, req.appCount);
    AcceptedMeans(w, Never, req, schedules);
  }

  lemma {:induction false} HiddenApps(v: World, tenant: nat, page: Table, req: Request, k: nat) returns (schedules: nat -> seq<Event>)
    requires req.Valid() && req.devCount >= 2 && 0 < k <= req.appCount
    requires NobodyHas(v.tables.devices, req.DevicesOf(req.Apps()[0])[0])
    ensures var r := AppsRun(v, Never, tenant, page, req, schedules, k);
            r.1.Going? && NobodyHas(r.0.tables.devices, req.DevicesOf(req.Apps()[0])[0])
  {
    if k == 1 {
      var schedule := HiddenTurn(v, tenant, page, req);
      schedules := (i: nat) => schedule;
      assert AppsRun(v, Never, tenant, page, req, schedules, 0) == (v, Going([], 0));
    } else {
      var before := HiddenApps(v, tenant, page, req, k - 1);
      var r := AppsRun(v, Never, tenant, page, req, before, k - 1);
      var schedule := GoodTurn(r.0, tenant, page, req, k - 1);
      FirstIsApart(req, k - 1);
      OtherTurn(r.0, tenant, page, req, k - 1, schedule);
      schedules := Extended(before, k - 1, schedule);
      AppsExtended(v, tenant, page, req, before, schedule, k);
    }
  }

  lemma OtherTurn(v: World, tenant: nat, page: Table, req: Request, i: nat, schedule: seq<Event>)
    requires req.Valid() && i < req.appCount
    requires req.DevicesOf(req.Apps()[0])[0] !in req.DevicesOf(req.Apps()[i])
    requires NobodyHas(v.tables.devices, req.DevicesOf(req.Apps()[0])[0])
    ensures NobodyHas(AppTurn(v, Never, tenant, page, req, i, schedule).0.tables.devices, req.DevicesOf(req.Apps()[0])[0])
  {
    var name := req.Apps()[i];
    EnsuredMeans(v, Never, Applications, tenant, page, name);
    var app := Ensured(v, Never, Applications, tenant, page, name);
    AllNamesDistinct(name, req.devPrefix, req.devCount);
    DevicesMean(app.0, Never, app.1.value, req.DevicesOf(name), schedule);
    StillNobody(v.tables.devices, AppTurn(v, Never, tenant, page, req, i, schedule).0.tables.devices, app.1.value,
                req.DevicesOf(name), req.DevicesOf(req.Apps()[0])[0]);
  }

  lemma HiddenTurn(v: World, tenant: nat, page: Table, req: Request) returns (schedule: seq<Event>)
    requires req.Valid() && req.devCount >= 2 && NobodyHas(v.tables.devices, req.DevicesOf(req.Apps()[0])[0])
    ensures var r := AppTurn(v, Never, tenant, page, req, 0, schedule);
            && r.1.Ran? && r.1.jobs.Succeeded() && r.1.jobs.count == req.devCount
            && NobodyHas(r.0.tables.devices, req.DevicesOf(req.Apps()[0])[0])
  {
    var name := req.Apps()[0];
    var names := req.DevicesOf(name);
    EnsuredMeans(v, Never, Applications, tenant, page, name);
    var app := Ensured(v, Never, Applications, tenant, page, name);
    var id := app.1.value;
    AllNamesDistinct(name, req.devPrefix, req.devCount);
    var c := Setting(id, names, Page(app.0, Never, Kind.Devices, id));
    schedule := RefusalHidden(c, v.tables.devices, v.keys, 0, 1);
    DevicesMean(app.0, Never, id, names, schedule);
    StillNobody(v.tables.devices, AppTurn(v, Never, tenant, page, req, 0, schedule).0.tables.devices, id, names, names[0]);
  }
}
