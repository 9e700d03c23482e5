/**
 Batch provisioning: find or create a tenant, its device profiles, its applications and their devices. What each
 method does is a function of the server's records, of the answers to its calls and of the interleavings of the device
 goroutines; the theorems about it are in the module Provisioning.
 */
module Bootstrap {
  import opened Prelude
  import opened Stores
  import opened DeviceWorkers

  // ----- what the steps do -----

  /** Reuses a listed record, else creates one. */
  function Ensured(w: World, fails: Oracle, kind: Kind, owner: nat, page: Table, name: string): (World, Option<nat>) {
    if Lookup(page, name).Some? then (w, Lookup(page, name)) else AfterCreate(w, fails, kind, owner, name)
  }

  /** One name after the other, up to the first that cannot be created. */
  function EnsuredEach(w: World, fails: Oracle, kind: Kind, owner: nat, page: Table, names: seq<string>): (r: (World, Option<seq<nat>>))
    ensures r.1.Some? ==> |r.1.value| == |names|
  {
    if names == [] then (w, Some([]))
    else
      var before := EnsuredEach(w, fails, kind, owner, page, names[..|names| - 1]);
      if before.1.None? then before
      else
        var last := Ensured(before.0, fails, kind, owner, page, names[|names| - 1]);
        (last.0, if last.1.None? then None else Some(before.1.value + [last.1.value]))
  }

  function EnsuredNames(w: World, fails: Oracle, kind: Kind, owner: nat, names: seq<string>): (r: (World, Option<seq<nat>>))
    ensures r.1.Some? ==> |r.1.value| == |names|
  {
    EnsuredEach(AfterList(w, fails, kind, owner), fails, kind, owner, Page(w, fails, kind, owner), names)
  }

  /** The devices of one application, under one interleaving of its goroutines. */
  function EnsuredDevices(w: World, fails: Oracle, app: nat, names: seq<string>, schedule: seq<Event>): (World, Jobs) {
    var c := Setting(app, names, Page(w, fails, Kind.Devices, app));
    var jobs := Exec(c, Start(c, w.tables.devices, w.keys), schedule);
    (AfterList(w, fails, Kind.Devices, app).(tables := w.tables.(devices := jobs.devices), keys := jobs.keys,
                                             refused := w.refused || jobs.refused),
     jobs)
  }

  datatype Request = Request(org: string, appPrefix: string, appCount: int, dpPrefix: string, dpCount: int,
                             devPrefix: string, devCount: int)
  {
    predicate Valid() {
      && org != "" && appPrefix != "" && dpPrefix != "" && devPrefix != ""
      && appCount >= 1 && dpCount >= 1 && devCount >= 1
    }

    function Profiles(): seq<string>
      requires Valid()
    {
      AllNames(org, dpPrefix, dpCount)
    }

    function Apps(): seq<string>
      requires Valid()
    {
      AllNames(org, appPrefix, appCount)
    }

    function DevicesOf(app: string): (r: seq<string>)
      requires Valid()
      ensures |r| == devCount
    {
      AllNames(app, devPrefix, devCount)
    }
  }

  /** `Pending`: some goroutine has not returned, so the handler still waits. */
  datatype Reply =
    | BadRequest
    | Failed
    | Pending
    | Accepted(tenant: nat, profiles: seq<nat>, applications: seq<nat>, devices: nat)

  /** One turn of the loop over the applications: the id found or created, and how its devices went. */
  datatype Turn = NoApp | Ran(id: nat, jobs: Jobs)

  function AppTurn(w: World, fails: Oracle, tenant: nat, page: Table, req: Request, i: nat, schedule: seq<Event>): (World, Turn)
    requires req.Valid() && i < req.appCount
  {
    var name := req.Apps()[i];
    var app := Ensured(w, fails, Applications, tenant, page, name);
    if app.1.None? then (app.0, NoApp)
    else
      var run := EnsuredDevices(app.0, fails, app.1.value, req.DevicesOf(name), schedule);
      (run.0, Ran(app.1.value, run.1))
  }

  datatype Progress = Stopped(reply: Reply) | Going(ids: seq<nat>, count: nat)

  function After(p: Progress, t: Turn): Progress
    requires p.Going?
  {
    if t.NoApp? then Stopped(Failed)
    else if !t.jobs.Finished() then Stopped(Pending)
    else if t.jobs.failed then Stopped(Failed)
    else Going(p.ids + [t.id], p.count + t.jobs.count)
  }

  /** The loop goes through one more application, unless it has stopped. */
  function Advanced(r: (World, Progress), fails: Oracle, tenant: nat, page: Table, req: Request, i: nat, schedule: seq<Event>)
    : (World, Progress)
    requires req.Valid() && i < req.appCount
  {
    if r.1.Stopped? then r
    else
      var turn := AppTurn(r.0, fails, tenant, page, req, i, schedule);
      (turn.0, After(r.1, turn.1))
  }

  /** The first k applications. `schedules(i)` is the interleaving of the goroutines of application i. */
  function AppsRun(w: World, fails: Oracle, tenant: nat, page: Table, req: Request, schedules: nat -> seq<Event>, k: nat)
    : (World, Progress)
    requires req.Valid() && k <= req.appCount
  {
    if k == 0 then (w, Going([], 0))
    else Advanced(AppsRun(w, fails, tenant, page, req, schedules, k - 1), fails, tenant, page, req, k - 1, schedules(k - 1))
  }

  function AppsPhase(w: World, fails: Oracle, tenant: nat, req: Request, schedules: nat -> seq<Event>): (World, Progress)
    requires req.Valid()
  {
    AppsRun(AfterList(w, fails, Applications, tenant), fails, tenant, Page(w, fails, Applications, tenant), req, schedules,
            req.appCount)
  }

  /** The tenant and then its profiles. */
  function TenantPhase(w: World, fails: Oracle, req: Request): (r: (World, Option<(nat, seq<nat>)>))
    requires req.Valid()
    ensures r.1.Some? ==> |r.1.value.1| == req.dpCount
  {
    var tenant := EnsuredNames(w, fails, Tenants, 0, [req.org]);
    if tenant.1.None? then (tenant.0, None)
    else
      var profiles := EnsuredNames(tenant.0, fails, Profiles, tenant.1.value[0], req.Profiles());
      (profiles.0, if profiles.1.None? then None else Some((tenant.1.value[0], profiles.1.value)))
  }

  function Handled(w: World, fails: Oracle, req: Request, schedules: nat -> seq<Event>): (World, Reply) {
    if !req.Valid() then (w, BadRequest)
    else
      var tenant := TenantPhase(w, fails, req);
      if tenant.1.None? then (tenant.0, Failed)
      else
        var apps := AppsPhase(tenant.0, fails, tenant.1.value.0, req, schedules);
        (apps.0, if apps.1.Stopped? then apps.1.reply
                 else Accepted(tenant.1.value.0, tenant.1.value.1, apps.1.ids, apps.1.count))
  }

  // ----- the methods -----

  method FindOrCreate(cs: ChirpStack, kind: Kind, owner: nat, page: Table, name: string) returns (id: Option<nat>)
    modifies cs`calls, cs`tables, cs`nextId
    ensures (cs.Now(), id) == Ensured(old(cs.Now()), cs.fails, kind, owner, page, name)
  {
    for i := 0 to |page|
      invariant Lookup(page, name) == Lookup(page[i..], name)
      invariant cs.Now() == old(cs.Now())
    {
      assert page[i..][1..] == page[i + 1..];
      if page[i].name == name {
        return Some(page[i].id);
      }
    }
    id := cs.Create(kind, owner, name);
  }

  /** Tenants (one name) and device profiles: one listing, then each name in turn. */
  method EnsureNames(cs: ChirpStack, kind: Kind, owner: nat, names: seq<string>) returns (ids: Option<seq<nat>>)
    modifies cs`calls, cs`tables, cs`nextId, cs`full
    ensures (cs.Now(), ids) == EnsuredNames(old(cs.Now()), cs.fails, kind, owner, names)
  {
    var page := cs.List(kind, owner);
    ghost var w := cs.Now();
    var found: seq<nat> := [];
    for i := 0 to |names|
      invariant (cs.Now(), Some(found)) == EnsuredEach(w, cs.fails, kind, owner, page, names[..i])
    {
      assert names[..i + 1][..i] == names[..i];
      var id := FindOrCreate(cs, kind, owner, page, names[i]);
      if id.None? {
        StopsAt(w, cs.fails, kind, owner, page, names, i + 1);
        return None;
      }
      found := found + [id.value];
    }
    assert names[..|names|] == names;
    ids := Some(found);
  }

  /** After the first name that cannot be created nothing more is done. */
  lemma {:induction false} StopsAt(w: World, fails: Oracle, kind: Kind, owner: nat, page: Table, names: seq<string>, i: nat)
    requires i <= |names| && EnsuredEach(w, fails, kind, owner, page, names[..i]).1.None?
    ensures EnsuredEach(w, fails, kind, owner, page, names) == EnsuredEach(w, fails, kind, owner, page, names[..i])
  {
    if i < |names| {
      var front := names[..|names| - 1];
      assert front[..i] == names[..i];
      StopsAt(w, fails, kind, owner, page, front, i);
    } else {
      assert names[..i] == names;
    }
  }

  method RunWorkers(c: Setting, start: Jobs, schedule: seq<Event>) returns (jobs: Jobs)
    requires |start.workers| == |c.names|
    ensures jobs == Exec(c, start, schedule)
  {
    jobs := start;
    for i := 0 to |schedule|
      invariant jobs == Exec(c, start, schedule[..i])
    {
      Last(c, start, schedule[..i], schedule[i]);
      assert schedule[..i + 1] == schedule[..i] + [schedule[i]];
      jobs := Step(c, jobs, schedule[i]);
    }
    assert schedule[..|schedule|] == schedule;
  }

  /** `schedule` is the interleaving of the goroutines up to the moment the handler looks at the result. */
  method EnsureDevices(cs: ChirpStack, app: nat, names: seq<string>, schedule: seq<Event>) returns (jobs: Jobs)
    modifies cs`calls, cs`tables, cs`keys, cs`full, cs`refused
    ensures (cs.Now(), jobs) == EnsuredDevices(old(cs.Now()), cs.fails, app, names, schedule)
  {
    var page := cs.List(Kind.Devices, app);
    var c := Setting(app, names, page);
    jobs := RunWorkers(c, Start(c, cs.tables.devices, cs.keys), schedule);
    cs.tables := cs.tables.(devices := jobs.devices);
    cs.keys := jobs.keys;
    cs.refused := cs.refused || jobs.refused;
  }

  /** One turn of the loop over the applications; None when the application cannot be created. */
  method EnsureApplication(cs: ChirpStack, tenant: nat, req: Request, page: Table, i: nat, schedule: seq<Event>)
    returns (turn: Turn)
    requires req.Valid() && i < req.appCount
    modifies cs`calls, cs`tables, cs`nextId, cs`keys, cs`full, cs`refused
    ensures (cs.Now(), turn) == AppTurn(old(cs.Now()), cs.fails, tenant, page, req, i, schedule)
  {
    var name := Numbered(req.org, req.appPrefix, i + 1);
    var app := FindOrCreate(cs, Applications, tenant, page, name);
    if app.None? {
      return NoApp;
    }
    var jobs := EnsureDevices(cs, app.value, req.DevicesOf(name), schedule);
    turn := Ran(app.value, jobs);
  }

  method EnsureApplications(cs: ChirpStack, tenant: nat, req: Request, schedules: nat -> seq<Event>) returns (progress: Progress)
    requires req.Valid()
    modifies cs`calls, cs`tables, cs`nextId, cs`keys, cs`full, cs`refused
    ensures (cs.Now(), progress) == AppsPhase(old(cs.Now()), cs.fails, tenant, req, schedules)
  {
    var page := cs.List(Applications, tenant);
    ghost var w := cs.Now();
    progress := Going([], 0);
    for i := 0 to req.appCount
      invariant progress.Going? && (cs.Now(), progress) == AppsRun(w, cs.fails, tenant, page, req, schedules, i)
    {
      var turn := EnsureApplication(cs, tenant, req, page, i, schedules(i));
      progress := After(progress, turn);
      if progress.Stopped? {
        StopsAfter(w, cs.fails, tenant, page, req, schedules, i + 1, req.appCount);
        return;
      }
    }
  }

  lemma {:induction false} StopsAfter(w: World, fails: Oracle, tenant: nat, page: Table, req: Request,
                                      schedules: nat -> seq<Event>, i: nat, k: nat)
    requires req.Valid() && i <= k <= req.appCount && AppsRun(w, fails, tenant, page, req, schedules, i).1.Stopped?
    ensures AppsRun(w, fails, tenant, page, req, schedules, k) == AppsRun(w, fails, tenant, page, req, schedules, i)
  {
    if i < k {
      StopsAfter(w, fails, tenant, page, req, schedules, i, k - 1);
    }
  }

  method EnsureTenant(cs: ChirpStack, req: Request) returns (tenant: Option<(nat, seq<nat>)>)
    requires req.Valid()
    modifies cs`calls, cs`tables, cs`nextId, cs`full
    ensures (cs.Now(), tenant) == TenantPhase(old(cs.Now()), cs.fails, req)
  {
    var tenants := EnsureNames(cs, Tenants, 0, [req.org]);
    if tenants.None? {
      return None;
    }
    var ids := EnsureNames(cs, Profiles, tenants.value[0], req.Profiles());
    tenant := if ids.None? then None else Some((tenants.value[0], ids.value));
  }

  method HandleBootstrap(cs: ChirpStack, req: Request, schedules: nat -> seq<Event>) returns (reply: Reply)
    modifies cs`calls, cs`tables, cs`nextId, cs`keys, cs`full, cs`refused
    ensures (cs.Now(), reply) == Handled(old(cs.Now()), cs.fails, req, schedules)
  {
    if !req.Valid() {
      return BadRequest;
    }
    var tenant := EnsureTenant(cs, req);
    if tenant.None? {
      return Failed;
    }
    var progress := EnsureApplications(cs, tenant.value.0, req, schedules);
    reply := if progress.Stopped? then progress.reply
             else Accepted(tenant.value.0, tenant.value.1, progress.ids, progress.count);
  }
}
