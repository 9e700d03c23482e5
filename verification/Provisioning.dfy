/**
 What batch provisioning guarantees: counts, completeness and uniqueness of an accepted request, and exactly when
 running a request leaves the server's records alone.
 */
module Provisioning {
  import opened Prelude
  import opened Stores
  import opened DeviceWorkers
  import opened WorkerRuns
  import opened Bootstrap

  // ----- one kind of record -----

  ghost predicate Shown(page: Table, names: seq<string>) {
    forall k | 0 <= k < |names| :: Lookup(page, names[k]).Some?
  }

  /** A listing that failed, or the first page. */
  ghost predicate PageOf(page: Table, table: Table, owner: nat) {
    page == [] || page == FirstPage(Owned(table, owner))
  }

  /** No name exists that the listing does not show. */
  ghost predicate NoneHidden(page: Table, table: Table, owner: nat, names: seq<string>) {
    forall k | 0 <= k < |names| :: Lookup(page, names[k]).Some? || IdOf(table, owner, names[k]).None?
  }

  lemma ShownIsKnown(page: Table, table: Table, owner: nat, name: string)
    requires PageOf(page, table, owner) && Lookup(page, name).Some?
    ensures IdOf(table, owner, name) == Lookup(page, name)
    ensures Holds(table, owner, name, Lookup(page, name).value)
  {
    var all := Owned(table, owner);
    assert all[..|all|] == all;
    LookupPrefix(all, |page|, name);
    LookupHolds(page, name);
    var i :| 0 <= i < |page| && page[i].name == name && page[i].id == Lookup(page, name).value;
    assert page[i] in all;
    OwnedAreThere(table, owner, page[i]);
  }

  /** A record of this name is there under this id; with a full listing it is the one a lookup finds. */
  ghost predicate FoundAt(before: Table, now: Table, owner: nat, page: Table, name: string, id: nat) {
    && Holds(now, owner, name, id)
    && (page == Owned(before, owner) ==> IdOf(now, owner, name) == Some(id))
    && (Lookup(page, name).Some? ==> id == Lookup(page, name).value)
  }

  ghost predicate FirstShown(page: Table, names: seq<string>, n: nat)
    requires n <= |names|
  {
    forall j | 0 <= j < n :: Lookup(page, names[j]).Some?
  }

  /** What find-or-create has done for the first names, now that they have these ids. */
  ghost predicate Phase(before: Table, now: Table, owner: nat, page: Table, names: seq<string>, ids: seq<nat>) {
    && |ids| <= |names|
    && Grown(before, now, owner, names[..|ids|])
    && (forall j | 0 <= j < |ids| :: FoundAt(before, now, owner, page, names[j], ids[j]))
    && (NoneHidden(page, before, owner, names) && Unique(before) ==> Unique(now))
    && (now == before <==> FirstShown(page, names, |ids|))
  }

  lemma FoundReused(before: Table, now: Table, owner: nat, page: Table, names: seq<string>, name: string)
    requires PageOf(page, before, owner) && Lookup(page, name).Some? && Grown(before, now, owner, names) && name !in names
    ensures FoundAt(before, now, owner, page, name, Lookup(page, name).value)
  {
    ShownIsKnown(page, before, owner, name);
    assert before <= now;
    HoldsMore(before, now, owner, name, Lookup(page, name).value);
    GrownKeepsIds(before, now, owner, names, owner, name);
  }

  lemma FoundCreated(before: Table, now: Table, owner: nat, page: Table, names: seq<string>, name: string, id: nat)
    requires Lookup(page, name).None? && Grown(before, now, owner, names) && name !in names
    ensures FoundAt(before, now + [Record(id, owner, name)], owner, page, name, id)
  {
    var r := Record(id, owner, name);
    assert (now + [r])[|now|] == r;
    GrownKeepsIds(before, now, owner, names, owner, name);
    IdAppend(now, r, owner, name);
  }

  lemma FoundKept(before: Table, now: Table, owner: nat, page: Table, name: string, id: nat, r: Record)
    requires FoundAt(before, now, owner, page, name, id)
    ensures FoundAt(before, now + [r], owner, page, name, id)
  {
    HoldsMore(now, now + [r], owner, name, id);
    IdAppend(now, r, owner, name);
  }

  lemma PhaseReused(before: Table, now: Table, owner: nat, page: Table, names: seq<string>, ids: seq<nat>)
    requires Phase(before, now, owner, page, names, ids) && |ids| < |names| && Distinct(names) && PageOf(page, before, owner)
    requires Lookup(page, names[|ids|]).Some?
    ensures Phase(before, now, owner, page, names, ids + [Lookup(page, names[|ids|]).value])
  {
    FoundReused(before, now, owner, page, names[..|ids|], names[|ids|]);
  }

  lemma PhaseCreated(before: Table, now: Table, owner: nat, page: Table, names: seq<string>, ids: seq<nat>, id: nat)
    requires Phase(before, now, owner, page, names, ids) && |ids| < |names| && Distinct(names)
    requires Lookup(page, names[|ids|]).None?
    ensures Phase(before, now + [Record(id, owner, names[|ids|])], owner, page, names, ids + [id])
  {
    var r, i := Record(id, owner, names[|ids|]), |ids|;
    FoundCreated(before, now, owner, page, names[..i], names[i], id);
    forall j | 0 <= j < i ensures FoundAt(before, now + [r], owner, page, names[j], ids[j]) {
      FoundKept(before, now, owner, page, names[j], ids[j], r);
    }
    GrownKeepsIds(before, now, owner, names[..i], owner, names[i]);
    UniqueAppendIf(now, r);
  }

  lemma AddGet(t: Tables, kind: Kind, r: Record)
    ensures t.Add(kind, r).Get(kind) == t.Get(kind) + [r] && SameBut(t, t.Add(kind, r), kind)
  {
  }

  /** What one find-or-create does to the records. */
  lemma EnsuredMeans(w: World, fails: Oracle, kind: Kind, owner: nat, page: Table, name: string)
    ensures var r := Ensured(w, fails, kind, owner, page, name);
            && SameBut(w.tables, r.0.tables, kind) && SameHistory(w, r.0)
            && (r.1.None? ==> r.0.tables == w.tables && fails(w.calls))
            && (Lookup(page, name).Some? ==> r == (w, Lookup(page, name)))
            && (Lookup(page, name).None? && r.1.Some? ==>
                  r.0.tables.Get(kind) == w.tables.Get(kind) + [Record(r.1.value, owner, name)])
  {
    AddGet(w.tables, kind, Record(w.nextId, owner, name));
  }

  /** Find-or-create of one name carries the phase on, unless the creation failed, and then it changes no table. */
  lemma EnsuredPhase(w: World, fails: Oracle, kind: Kind, owner: nat, page: Table, before: Table, names: seq<string>, ids: seq<nat>)
    requires |ids| < |names| && Distinct(names) && PageOf(page, before, owner)
    requires Phase(before, w.tables.Get(kind), owner, page, names, ids)
    ensures var r := Ensured(w, fails, kind, owner, page, names[|ids|]);
            r.1.Some? ==> Phase(before, r.0.tables.Get(kind), owner, page, names, ids + [r.1.value])
  {
    EnsuredMeans(w, fails, kind, owner, page, names[|ids|]);
    var r, now := Ensured(w, fails, kind, owner, page, names[|ids|]), w.tables.Get(kind);
    if Lookup(page, names[|ids|]).Some? {
      PhaseReused(before, now, owner, page, names, ids);
    } else if r.1.Some? {
      PhaseCreated(before, now, owner, page, names, ids, r.1.value);
    }
  }

  predicate SameBut(t: Tables, u: Tables, kind: Kind) {
    && (kind == Tenants || t.tenants == u.tenants)
    && (kind == Profiles || t.profiles == u.profiles)
    && (kind == Applications || t.applications == u.applications)
    && (kind == Kind.Devices || t.devices == u.devices)
  }

  predicate SameHistory(w: World, v: World) {
    w.keys == v.keys && w.full == v.full && w.refused == v.refused
  }

  /** Where find-or-create stands after n names: the ids found, all of them unless a creation failed. */
  ghost predicate EachState(w: World, r: (World, Option<seq<nat>>), fails: Oracle, kind: Kind, owner: nat, page: Table,
                            names: seq<string>, ids: seq<nat>, n: nat)
    requires n <= |names|
  {
    && SameBut(w.tables, r.0.tables, kind) && SameHistory(w, r.0)
    && Phase(w.tables.Get(kind), r.0.tables.Get(kind), owner, page, names, ids)
    && (r.1.Some? ==> ids == r.1.value && |ids| == n)
    && (r.1.None? ==> |ids| < n && exists k: nat :: fails(k))
    && (FirstShown(page, names, n) ==> r.0 == w)
  }

  lemma EachMore(w: World, r: (World, Option<seq<nat>>), fails: Oracle, kind: Kind, owner: nat, page: Table,
                 names: seq<string>, ids: seq<nat>, n: nat)
    returns (more: seq<nat>)
    requires n < |names| && Distinct(names) && PageOf(page, w.tables.Get(kind), owner) && r.1.Some?
    requires EachState(w, r, fails, kind, owner, page, names, ids, n)
    ensures var last := Ensured(r.0, fails, kind, owner, page, names[n]);
            EachState(w, (last.0, if last.1.None? then None else Some(ids + [last.1.value])), fails, kind, owner, page, names, more, n + 1)
  {
    EnsuredPhase(r.0, fails, kind, owner, page, w.tables.Get(kind), names, ids);
    EnsuredMeans(r.0, fails, kind, owner, page, names[n]);
    var last := Ensured(r.0, fails, kind, owner, page, names[n]);
    more := if last.1.Some? then ids + [last.1.value] else ids;
  }

  lemma EachUnfolds(w: World, fails: Oracle, kind: Kind, owner: nat, page: Table, names: seq<string>, n: nat)
    requires 0 < n <= |names|
    ensures var r := EnsuredEach(w, fails, kind, owner, page, names[..n - 1]);
            EnsuredEach(w, fails, kind, owner, page, names[..n])
              == if r.1.None? then r
                 else
                   var last := Ensured(r.0, fails, kind, owner, page, names[n - 1]);
                   (last.0, if last.1.None? then None else Some(r.1.value + [last.1.value]))
  {
    assert names[..n][..n - 1] == names[..n - 1] && names[..n][n - 1] == names[n - 1];
  }

  lemma {:induction false} EachPhase(w: World, fails: Oracle, kind: Kind, owner: nat, page: Table, names: seq<string>, n: nat)
    returns (ids: seq<nat>)
    requires n <= |names| && Distinct(names) && PageOf(page, w.tables.Get(kind), owner)
    ensures EachState(w, EnsuredEach(w, fails, kind, owner, page, names[..n]), fails, kind, owner, page, names, ids, n)
  {
    if n == 0 {
      ids := [];
    } else {
      ids := EachPhase(w, fails, kind, owner, page, names, n - 1);
      EachUnfolds(w, fails, kind, owner, page, names, n);
      var r := EnsuredEach(w, fails, kind, owner, page, names[..n - 1]);
      if r.1.Some? {
        ids := EachMore(w, r, fails, kind, owner, page, names, ids, n - 1);
      }
    }
  }

  /** A whole phase, its listing included. */
  lemma NamesPhase(w: World, fails: Oracle, kind: Kind, owner: nat, names: seq<string>) returns (ids: seq<nat>)
    requires Distinct(names)
    ensures var r, page := EnsuredNames(w, fails, kind, owner, names), Page(w, fails, kind, owner);
            && SameBut(w.tables, r.0.tables, kind) && r.0.keys == w.keys && r.0.refused == w.refused
            && (r.0.full ==> w.full && page == Owned(w.tables.Get(kind), owner))
            && PageOf(page, w.tables.Get(kind), owner)
            && Phase(w.tables.Get(kind), r.0.tables.Get(kind), owner, page, names, ids)
            && (r.1.Some? ==> ids == r.1.value)
            && (r.1.None? ==> exists k: nat :: fails(k))
            && (Shown(page, names) ==> r.0 == AfterList(w, fails, kind, owner) && r.1.Some?)
  {
    assert names[..|names|] == names;
    ids := EachPhase(AfterList(w, fails, kind, owner), fails, kind, owner, Page(w, fails, kind, owner), names, |names|);
    if Shown(Page(w, fails, kind, owner), names) {
      ShownGoesThrough(AfterList(w, fails, kind, owner), fails, kind, owner, Page(w, fails, kind, owner), names);
    }
  }

  lemma {:induction false} ShownGoesThrough(w: World, fails: Oracle, kind: Kind, owner: nat, page: Table, names: seq<string>)
    requires Shown(page, names)
    ensures EnsuredEach(w, fails, kind, owner, page, names).0 == w && EnsuredEach(w, fails, kind, owner, page, names).1.Some?
  {
    if names != [] {
      ShownGoesThrough(w, fails, kind, owner, page, names[..|names| - 1]);
    }
  }

  /** What a finished phase means for the table. */
  lemma PhaseMeans(before: Table, now: Table, owner: nat, page: Table, names: seq<string>, ids: seq<nat>)
    requires Phase(before, now, owner, page, names, ids)
    ensures before <= now && Grown(before, now, owner, names)
    ensures page == Owned(before, owner) && Unique(before) ==> Unique(now)
    ensures |ids| == |names| ==> AllKnown(now, owner, names) && (now == before <==> Shown(page, names))
  {
    forall j | 0 <= j < |ids| ensures IdOf(now, owner, names[j]).Some? {
      assert FoundAt(before, now, owner, page, names[j], ids[j]);
      HoldsKnown(now, owner, names[j], ids[j]);
    }
  }

  // ----- the devices of one application -----

  lemma DevicesMean(w: World, fails: Oracle, app: nat, names: seq<string>, schedule: seq<Event>)
    requires Distinct(names)
    ensures var r, page := EnsuredDevices(w, fails, app, names, schedule), Page(w, fails, Kind.Devices, app);
            && SameBut(w.tables, r.0.tables, Kind.Devices)
            && Grown(w.tables.devices, r.0.tables.devices, app, names)
            && (r.0.full ==> w.full && page == Owned(w.tables.devices, app))
            && (r.0.full && Unique(w.tables.devices) ==> Unique(r.0.tables.devices))
            && (w.refused || r.1.refused ==> r.0.refused)
            && (r.1.Succeeded() ==> r.1.count == |names|)
            && (r.1.Succeeded() && (!r.1.refused || |names| <= 1) ==> AllKnown(r.0.tables.devices, app, names))
            && (Shown(page, names) ==> r.0.tables == w.tables)
  {
    SuccessMeans(Setting(app, names, Page(w, fails, Kind.Devices, app)), w.tables.devices, w.keys, schedule);
  }

  lemma KnownKept(before: Table, after: Table, o: nat, added: seq<string>, app: nat, names: seq<string>)
    requires Grown(before, after, o, added)
    ensures AllKnown(before, app, names) ==> AllKnown(after, app, names)
  {
    if AllKnown(before, app, names) {
      forall k | 0 <= k < |names| ensures IdOf(after, app, names[k]).Some? {
        assert IdOf(before, app, names[k]).Some?;
        GrownKeepsIds(before, after, o, added, app, names[k]);
      }
    }
  }

  // ----- the applications -----

  /** From `w` to `v` the first applications were found or created under `ids`, and devices were added. */
  ghost predicate AppsState(w: World, v: World, tenant: nat, page: Table, req: Request, ids: seq<nat>)
    requires req.Valid()
  {
    && v.tables.tenants == w.tables.tenants && v.tables.profiles == w.tables.profiles
    && Phase(w.tables.applications, v.tables.applications, tenant, page, req.Apps(), ids)
    && w.tables.devices <= v.tables.devices
    && (v.full ==> w.full) && (w.refused ==> v.refused)
    && (v.full && Unique(w.tables.devices) ==> Unique(v.tables.devices))
  }

  /** The devices of the first applications exist. */
  ghost predicate Served(devices: Table, ids: seq<nat>, req: Request)
    requires req.Valid() && |ids| <= req.appCount
  {
    forall j | 0 <= j < |ids| :: AllKnown(devices, ids[j], req.DevicesOf(req.Apps()[j]))
  }

  predicate Trusted(v: World, req: Request) {
    !v.refused || req.devCount == 1
  }

  /** The application of one turn. */
  lemma TurnApp(w: World, v: World, fails: Oracle, tenant: nat, page: Table, req: Request, ids: seq<nat>)
    requires req.Valid() && PageOf(page, w.tables.applications, tenant)
    requires AppsState(w, v, tenant, page, req, ids) && |ids| < req.appCount
    ensures var r := Ensured(v, fails, Applications, tenant, page, req.Apps()[|ids|]);
            && r.0.tables.devices == v.tables.devices && SameHistory(v, r.0)
            && AppsState(w, r.0, tenant, page, req, if r.1.Some? then ids + [r.1.value] else ids)
  {
    AllNamesDistinct(req.org, req.appPrefix, req.appCount);
    EnsuredMeans(v, fails, Applications, tenant, page, req.Apps()[|ids|]);
    EnsuredPhase(v, fails, Applications, tenant, page, w.tables.applications, req.Apps(), ids);
  }

  /** The devices of one turn leave the state of the applications alone. */
  lemma TurnDevices(w: World, v: World, fails: Oracle, tenant: nat, page: Table, req: Request, ids: seq<nat>,
                    app: nat, names: seq<string>, schedule: seq<Event>)
    requires req.Valid() && AppsState(w, v, tenant, page, req, ids) && Distinct(names)
    ensures AppsState(w, EnsuredDevices(v, fails, app, names, schedule).0, tenant, page, req, ids)
  {
    DevicesMean(v, fails, app, names, schedule);
    assert v.tables.devices <= EnsuredDevices(v, fails, app, names, schedule).0.tables.devices;
  }

  /** One more application has its devices, and the others keep theirs. */
  lemma ServedMore(v: World, fails: Oracle, req: Request, ids: seq<nat>, app: nat, schedule: seq<Event>)
    requires req.Valid() && |ids| < req.appCount
    requires var r := EnsuredDevices(v, fails, app, req.DevicesOf(req.Apps()[|ids|]), schedule);
             r.1.Succeeded() && Trusted(r.0, req)
    requires Trusted(v, req) ==> Served(v.tables.devices, ids, req)
    ensures Served(EnsuredDevices(v, fails, app, req.DevicesOf(req.Apps()[|ids|]), schedule).0.tables.devices, ids + [app], req)
  {
    var name := req.Apps()[|ids|];
    var names := req.DevicesOf(name);
    var r := EnsuredDevices(v, fails, app, names, schedule);
    AllNamesDistinct(name, req.devPrefix, req.devCount);
    DevicesMean(v, fails, app, names, schedule);
    forall j | 0 <= j < |ids| ensures AllKnown(r.0.tables.devices, ids[j], req.DevicesOf(req.Apps()[j])) {
      KnownKept(v.tables.devices, r.0.tables.devices, app, names, ids[j], req.DevicesOf(req.Apps()[j]));
    }
  }

  lemma TurnState(w: World, v: World, fails: Oracle, tenant: nat, page: Table, req: Request, ids: seq<nat>, schedule: seq<Event>)
    requires req.Valid() && PageOf(page, w.tables.applications, tenant)
    requires AppsState(w, v, tenant, page, req, ids) && |ids| < req.appCount
    ensures var r := AppTurn(v, fails, tenant, page, req, |ids|, schedule);
            AppsState(w, r.0, tenant, page, req, if r.1.Ran? then ids + [r.1.id] else ids)
  {
    var name := req.Apps()[|ids|];
    var app := Ensured(v, fails, Applications, tenant, page, name);
    TurnApp(w, v, fails, tenant, page, req, ids);
    if app.1.Some? {
      AllNamesDistinct(name, req.devPrefix, req.devCount);
      TurnDevices(w, app.0, fails, tenant, page, req, ids + [app.1.value], app.1.value, req.DevicesOf(name), schedule);
    }
  }

  /** A turn that went well adds its devices to the count and to what exists. */
  lemma TurnServes(v: World, fails: Oracle, tenant: nat, page: Table, req: Request, ids: seq<nat>, schedule: seq<Event>)
    requires req.Valid() && |ids| < req.appCount && (Trusted(v, req) ==> Served(v.tables.devices, ids, req))
    ensures var r := AppTurn(v, fails, tenant, page, req, |ids|, schedule);
            r.1.Ran? && r.1.jobs.Succeeded() ==>
              r.1.jobs.count == req.devCount && (Trusted(r.0, req) ==> Served(r.0.tables.devices, ids + [r.1.id], req))
  {
    var name := req.Apps()[|ids|];
    var app := Ensured(v, fails, Applications, tenant, page, name);
    EnsuredMeans(v, fails, Applications, tenant, page, name);
    if app.1.Some? {
      AllNamesDistinct(name, req.devPrefix, req.devCount);
      DevicesMean(app.0, fails, app.1.value, req.DevicesOf(name), schedule);
      var r := EnsuredDevices(app.0, fails, app.1.value, req.DevicesOf(name), schedule);
      if r.1.Succeeded() && Trusted(r.0, req) {
        ServedMore(app.0, fails, req, ids, app.1.value, schedule);
      }
    }
  }

  /** The state of the loop after its first k turns, or after the turn that stopped it. */
  ghost predicate LoopState(w: World, v: World, p: Progress, tenant: nat, page: Table, req: Request, ids: seq<nat>, k: nat)
    requires req.Valid()
  {
    && |ids| <= k <= req.appCount && AppsState(w, v, tenant, page, req, ids)
    && (p.Going? ==> ids == p.ids && |ids| == k && p.count == k * req.devCount
                     && (Trusted(v, req) ==> Served(v.tables.devices, ids, req)))
  }

  /** A turn that ends in `u` carries the loop on. */
  lemma LoopNext(w: World, p: Progress, u: World, t: Turn, tenant: nat, page: Table, req: Request, ids: seq<nat>, k: nat)
    requires req.Valid() && k < req.appCount && p.Going? && ids == p.ids && |ids| == k && p.count == k * req.devCount
    requires AppsState(w, u, tenant, page, req, if t.Ran? then ids + [t.id] else ids)
    requires t.Ran? && t.jobs.Succeeded() ==>
               t.jobs.count == req.devCount && (Trusted(u, req) ==> Served(u.tables.devices, ids + [t.id], req))
    ensures LoopState(w, u, After(p, t), tenant, page, req, if t.Ran? then ids + [t.id] else ids, k + 1)
  {
    CountNext(k, req.devCount);
    if After(p, t).Going? {
      assert After(p, t).count == k * req.devCount + req.devCount;
    }
  }

  lemma CountNext(k: nat, n: int)
    ensures (k + 1) * n == k * n + n
  {
  }

  lemma LoopStep(w: World, v: World, p: Progress, fails: Oracle, tenant: nat, page: Table, req: Request, ids: seq<nat>, k: nat,
                 schedule: seq<Event>)
    returns (more: seq<nat>)
    requires req.Valid() && PageOf(page, w.tables.applications, tenant) && k < req.appCount
    requires LoopState(w, v, p, tenant, page, req, ids, k) && p.Going?
    ensures var r := AppTurn(v, fails, tenant, page, req, k, schedule);
            LoopState(w, r.0, After(p, r.1), tenant, page, req, more, k + 1)
  {
    TurnState(w, v, fails, tenant, page, req, ids, schedule);
    TurnServes(v, fails, tenant, page, req, ids, schedule);
    var r := AppTurn(v, fails, tenant, page, req, k, schedule);
    LoopNext(w, p, r.0, r.1, tenant, page, req, ids, k);
    more := if r.1.Ran? then ids + [r.1.id] else ids;
  }

  lemma LoopStarts(w: World, tenant: nat, page: Table, req: Request)
    requires req.Valid()
    ensures LoopState(w, w, Going([], 0), tenant, page, req, [], 0)
  {
  }

  lemma AdvancedState(w: World, r: (World, Progress), fails: Oracle, tenant: nat, page: Table, req: Request, ids: seq<nat>,
                      k: nat, schedule: seq<Event>)
    returns (more: seq<nat>)
    requires req.Valid() && PageOf(page, w.tables.applications, tenant) && k < req.appCount
    requires LoopState(w, r.0, r.1, tenant, page, req, ids, k)
    ensures var t := Advanced(r, fails, tenant, page, req, k, schedule); LoopState(w, t.0, t.1, tenant, page, req, more, k + 1)
  {
    if r.1.Going? {
      more := LoopStep(w, r.0, r.1, fails, tenant, page, req, ids, k, schedule);
    } else {
      more := ids;
    }
  }

  lemma {:induction false} AppsRunState(w: World, fails: Oracle, tenant: nat, page: Table, req: Request,
                                        schedules: nat -> seq<Event>, k: nat) returns (ids: seq<nat>)
    requires req.Valid() && k <= req.appCount && PageOf(page, w.tables.applications, tenant)
    ensures var r := AppsRun(w, fails, tenant, page, req, schedules, k);
            LoopState(w, r.0, r.1, tenant, page, req, ids, k)
  {
    if k == 0 {
      ids := [];
      LoopStarts(w, tenant, page, req);
    } else {
      ids := AppsRunState(w, fails, tenant, page, req, schedules, k - 1);
      var r := AppsRun(w, fails, tenant, page, req, schedules, k - 1);
      ids := AdvancedState(w, r, fails, tenant, page, req, ids, k - 1, schedules(k - 1));
    }
  }

  // ----- the request -----

  ghost predicate AllUnique(t: Tables) {
    Unique(t.tenants) && Unique(t.profiles) && Unique(t.applications) && Unique(t.devices)
  }

  predicate AllExtend(t: Tables, u: Tables) {
    t.tenants <= u.tenants && t.profiles <= u.profiles && t.applications <= u.applications && t.devices <= u.devices
  }

  /** Application i exists under some id that has all its devices. */
  ghost predicate AppProvided(apps: Table, devices: Table, tenant: nat, req: Request, i: nat)
    requires req.Valid() && i < req.appCount
  {
    exists a: nat :: Holds(apps, tenant, req.Apps()[i], a) && AllKnown(devices, a, req.DevicesOf(req.Apps()[i]))
  }

  /** Everything asked for exists, though not necessarily once. */
  ghost predicate Provided(t: Tables, req: Request, tenant: nat)
    requires req.Valid()
  {
    && Holds(t.tenants, 0, req.org, tenant)
    && AllKnown(t.profiles, tenant, req.Profiles())
    && forall i | 0 <= i < req.appCount :: AppProvided(t.applications, t.devices, tenant, req, i)
  }

  /** The application that a lookup finds has all its devices. */
  ghost predicate AppComplete(apps: Table, devices: Table, tenant: nat, req: Request, i: nat)
    requires req.Valid() && i < req.appCount
  {
    var id := IdOf(apps, tenant, req.Apps()[i]);
    id.Some? && AllKnown(devices, id.value, req.DevicesOf(req.Apps()[i]))
  }

  ghost predicate AppsComplete(apps: Table, devices: Table, tenant: nat, req: Request)
    requires req.Valid()
  {
    forall i | 0 <= i < req.appCount :: AppComplete(apps, devices, tenant, req, i)
  }

  /** Everything asked for is found by looking up the names. */
  ghost predicate Complete(t: Tables, req: Request)
    requires req.Valid()
  {
    var tenant := IdOf(t.tenants, 0, req.org);
    && tenant.Some?
    && AllKnown(t.profiles, tenant.value, req.Profiles())
    && AppsComplete(t.applications, t.devices, tenant.value, req)
  }

  lemma OneName(org: string)
    ensures Distinct([org])
  {
  }

  lemma TenantMeans(w: World, fails: Oracle, req: Request)
    requires req.Valid()
    ensures var r := TenantPhase(w, fails, req);
            && r.0.tables.applications == w.tables.applications && r.0.tables.devices == w.tables.devices
            && w.tables.tenants <= r.0.tables.tenants && w.tables.profiles <= r.0.tables.profiles
            && r.0.keys == w.keys && r.0.refused == w.refused && (r.0.full ==> w.full)
            && (r.0.full && Unique(w.tables.tenants) ==> Unique(r.0.tables.tenants))
            && (r.0.full && Unique(w.tables.profiles) ==> Unique(r.0.tables.profiles))
            && (r.1.None? ==> exists n: nat :: fails(n))
            && (r.1.Some? ==>
                  && Holds(r.0.tables.tenants, 0, req.org, r.1.value.0)
                  && AllKnown(r.0.tables.profiles, r.1.value.0, req.Profiles())
                  && (r.0.full ==> IdOf(r.0.tables.tenants, 0, req.org) == Some(r.1.value.0)))
  {
    OneName(req.org);
    var ids := NamesPhase(w, fails, Tenants, 0, [req.org]);
    var t := EnsuredNames(w, fails, Tenants, 0, [req.org]);
    PhaseMeans(w.tables.tenants, t.0.tables.tenants, 0, Page(w, fails, Tenants, 0), [req.org], ids);
    if t.1.Some? {
      assert FoundAt(w.tables.tenants, t.0.tables.tenants, 0, Page(w, fails, Tenants, 0), [req.org][0], ids[0]);
      var tenant := t.1.value[0];
      AllNamesDistinct(req.org, req.dpPrefix, req.dpCount);
      var ps := NamesPhase(t.0, fails, Profiles, tenant, req.Profiles());
      var p := EnsuredNames(t.0, fails, Profiles, tenant, req.Profiles());
      PhaseMeans(t.0.tables.profiles, p.0.tables.profiles, tenant, Page(t.0, fails, Profiles, tenant), req.Profiles(), ps);
    }
  }

  lemma AppsMean(w: World, fails: Oracle, tenant: nat, req: Request, schedules: nat -> seq<Event>)
    requires req.Valid()
    ensures var r := AppsPhase(w, fails, tenant, req, schedules);
            && r.0.tables.tenants == w.tables.tenants && r.0.tables.profiles == w.tables.profiles
            && w.tables.applications <= r.0.tables.applications && w.tables.devices <= r.0.tables.devices
            && (r.0.full ==> w.full) && (w.refused ==> r.0.refused)
            && (r.0.full && Unique(w.tables.applications) ==> Unique(r.0.tables.applications))
            && (r.0.full && Unique(w.tables.devices) ==> Unique(r.0.tables.devices))
            && (r.1.Going? ==> r.1.count == req.appCount * req.devCount)
            && (r.1.Going? && Trusted(r.0, req) ==>
                  && (forall i | 0 <= i < req.appCount :: AppProvided(r.0.tables.applications, r.0.tables.devices, tenant, req, i))
                  && (r.0.full ==> AppsComplete(r.0.tables.applications, r.0.tables.devices, tenant, req)))
  {
    var page, v := Page(w, fails, Applications, tenant), AfterList(w, fails, Applications, tenant);
    var ids := AppsRunState(v, fails, tenant, page, req, schedules, req.appCount);
    var r := AppsRun(v, fails, tenant, page, req, schedules, req.appCount);
    PhaseMeans(w.tables.applications, r.0.tables.applications, tenant, page, req.Apps(), ids);
    if r.1.Going? && Trusted(r.0, req) {
      forall i | 0 <= i < req.appCount
        ensures AppProvided(r.0.tables.applications, r.0.tables.devices, tenant, req, i)
        ensures r.0.full ==> AppComplete(r.0.tables.applications, r.0.tables.devices, tenant, req, i)
      {
        assert FoundAt(w.tables.applications, r.0.tables.applications, tenant, page, req.Apps()[i], ids[i]);
        assert AllKnown(r.0.tables.devices, ids[i], req.DevicesOf(req.Apps()[i]));
      }
    }
  }

  /**
   Whatever fails and whatever the listings show: an invalid request changes nothing, records are only ever added, and an
   accepted request reports devCount devices for each application. If no device was refused, or there is only one to an
   application, everything asked for exists.
   */
  lemma AcceptedMeans(w: World, fails: Oracle, req: Request, schedules: nat -> seq<Event>)
    ensures var r := Handled(w, fails, req, schedules);
            && (r.1.BadRequest? <==> req.org == "" || req.appCount < 1 || req.appPrefix == "" || req.dpCount < 1
                                     || req.dpPrefix == "" || req.devCount < 1 || req.devPrefix == "")
            && (r.1.BadRequest? ==> r.0 == w)
            && AllExtend(w.tables, r.0.tables)
            && (r.1.Accepted? ==> r.1.devices == req.appCount * req.devCount && |r.1.profiles| == req.dpCount)
            && (r.1.Accepted? && Trusted(r.0, req) ==> Provided(r.0.tables, req, r.1.tenant))
  {
    if req.Valid() {
      TenantMeans(w, fails, req);
      var t := TenantPhase(w, fails, req);
      if t.1.Some? {
        AppsMean(t.0, fails, t.1.value.0, req, schedules);
        if AppsPhase(t.0, fails, t.1.value.0, req, schedules).1.Stopped? {
          StoppedIsNoAcceptance(AfterList(t.0, fails, Applications, t.1.value.0), fails, t.1.value.0,
                                Page(t.0, fails, Applications, t.1.value.0), req, schedules, req.appCount);
        }
      }
    }
  }

  lemma {:induction false} StoppedIsNoAcceptance(w: World, fails: Oracle, tenant: nat, page: Table, req: Request,
                                                 schedules: nat -> seq<Event>, k: nat)
    requires req.Valid() && k <= req.appCount && AppsRun(w, fails, tenant, page, req, schedules, k).1.Stopped?
    ensures var p := AppsRun(w, fails, tenant, page, req, schedules, k).1; p.reply.Failed? || p.reply.Pending?
  {
    if AppsRun(w, fails, tenant, page, req, schedules, k - 1).1.Stopped? {
      StoppedIsNoAcceptance(w, fails, tenant, page, req, schedules, k - 1);
    }
  }

  /** An accepted request went through all its phases. */
  lemma AcceptedPhases(w: World, fails: Oracle, req: Request, schedules: nat -> seq<Event>)
    requires Handled(w, fails, req, schedules).1.Accepted?
    ensures req.Valid() && TenantPhase(w, fails, req).1.Some?
    ensures var r, t := Handled(w, fails, req, schedules), TenantPhase(w, fails, req);
            var a := AppsPhase(t.0, fails, t.1.value.0, req, schedules);
            r.0 == a.0 && a.1.Going? && r.1 == Accepted(t.1.value.0, t.1.value.1, a.1.ids, a.1.count)
  {
    var t := TenantPhase(w, fails, req);
    if t.1.Some? && AppsPhase(t.0, fails, t.1.value.0, req, schedules).1.Stopped? {
      StoppedIsNoAcceptance(AfterList(t.0, fails, Applications, t.1.value.0), fails, t.1.value.0,
                            Page(t.0, fails, Applications, t.1.value.0), req, schedules, req.appCount);
    }
  }

  /** When every listing is answered in full, names stay unique. */
  lemma FullKeepsUnique(w: World, fails: Oracle, req: Request, schedules: nat -> seq<Event>)
    ensures var r := Handled(w, fails, req, schedules);
            r.0.full && AllUnique(w.tables) ==> AllUnique(r.0.tables)
  {
    if req.Valid() {
      TenantMeans(w, fails, req);
      var t := TenantPhase(w, fails, req);
      if t.1.Some? {
        AppsMean(t.0, fails, t.1.value.0, req, schedules);
      }
    }
  }

  /** When every listing is answered in full, a trusted success is complete. */
  lemma FullIsComplete(w: World, fails: Oracle, req: Request, schedules: nat -> seq<Event>)
    requires var r := Handled(w, fails, req, schedules);
             r.1.Accepted? && r.0.full && Trusted(r.0, req)
    ensures req.Valid()
    ensures var r := Handled(w, fails, req, schedules);
            Complete(r.0.tables, req) && IdOf(r.0.tables.tenants, 0, req.org) == Some(r.1.tenant)
  {
    AcceptedPhases(w, fails, req, schedules);
    TenantMeans(w, fails, req);
    var t := TenantPhase(w, fails, req);
    AppsMean(t.0, fails, t.1.value.0, req, schedules);
  }

  /** Exactly one record of this owner has the name. */
  ghost predicate Once(table: Table, owner: nat, name: string) {
    exists i :: 0 <= i < |table| && OnlyAt(table, owner, name, i)
  }

  ghost predicate OnlyAt(table: Table, owner: nat, name: string, i: nat)
    requires i < |table|
  {
    && table[i].owner == owner && table[i].name == name
    && forall j | 0 <= j < |table| && table[j].owner == owner && table[j].name == name :: j == i
  }

  lemma KnownOnce(table: Table, owner: nat, name: string)
    requires Unique(table) && IdOf(table, owner, name).Some?
    ensures Once(table, owner, name)
  {
    KnownIffPresent(table, owner, name);
    var i :| 0 <= i < |table| && table[i].owner == owner && table[i].name == name;
    assert OnlyAt(table, owner, name, i);
  }

  /** Application i and its device j exist exactly once. */
  ghost predicate DeviceOnce(t: Tables, tenant: nat, req: Request, i: nat, j: nat)
    requires req.Valid() && i < req.appCount && j < req.devCount
  {
    var app := IdOf(t.applications, tenant, req.Apps()[i]);
    app.Some? && Once(t.applications, tenant, req.Apps()[i]) && Once(t.devices, app.value, req.DevicesOf(req.Apps()[i])[j])
  }

  /**
   Starting from unique names, with full listings and a trusted success: the tenant, every profile, every application and
   every device name exists exactly once, and the reported number is that of the device names.
   */
  lemma AcceptedOnce(w: World, fails: Oracle, req: Request, schedules: nat -> seq<Event>)
    requires var r := Handled(w, fails, req, schedules);
             r.1.Accepted? && r.0.full && Trusted(r.0, req) && AllUnique(w.tables)
    ensures var r := Handled(w, fails, req, schedules);
            && req.Valid() && r.1.devices == req.appCount * req.devCount
            && Once(r.0.tables.tenants, 0, req.org)
            && (forall p | 0 <= p < req.dpCount :: Once(r.0.tables.profiles, r.1.tenant, req.Profiles()[p]))
            && forall i, j | 0 <= i < req.appCount && 0 <= j < req.devCount :: DeviceOnce(r.0.tables, r.1.tenant, req, i, j)
  {
    AcceptedMeans(w, fails, req, schedules);
    FullIsComplete(w, fails, req, schedules);
    FullKeepsUnique(w, fails, req, schedules);
    var r := Handled(w, fails, req, schedules);
    var t := r.0.tables;
    KnownOnce(t.tenants, 0, req.org);
    forall p | 0 <= p < req.dpCount ensures Once(t.profiles, r.1.tenant, req.Profiles()[p]) {
      KnownOnce(t.profiles, r.1.tenant, req.Profiles()[p]);
    }
    forall i, j | 0 <= i < req.appCount && 0 <= j < req.devCount
      ensures DeviceOnce(t, r.1.tenant, req, i, j)
    {
      assert AppComplete(t.applications, t.devices, r.1.tenant, req, i);
      KnownOnce(t.applications, r.1.tenant, req.Apps()[i]);
      KnownOnce(t.devices, IdOf(t.applications, r.1.tenant, req.Apps()[i]).value, req.DevicesOf(req.Apps()[i])[j]);
    }
  }
}
