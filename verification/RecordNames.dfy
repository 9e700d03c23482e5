/**
 The names that provisioning gives to records, spelled out: organization, prefix and a decimal number that counts from one,
 joined by hyphens, and for a device the name of its application in place of the organization.
 */
module RecordNames {
  import opened Prelude
  import opened Decimals
  import opened Stores
  import opened DeviceWorkers
  import opened WorkerRuns
  import opened Bootstrap
  import opened Provisioning

  /** `base`, `prefix` and the numeral of i, joined by hyphens. */
  ghost predicate Named(name: string, base: string, prefix: string, i: nat) {
    exists digits: string :: Says(digits, i) && name == base + "-" + prefix + "-" + digits
  }

  /** The same for some number from 1 to n. */
  ghost predicate NamedUpTo(name: string, base: string, prefix: string, n: int) {
    exists i: nat :: 1 <= i <= n && Named(name, base, prefix, i)
  }

  lemma DigitSays(d: nat)
    requires d < 10
    ensures var c := "0123456789"[d]; '0' <= c <= '9' && (c - '0') as nat == d
  {
  }

  lemma SaysMore(s: string, m: nat, d: nat)
    requires Says(s, m) && m > 0 && d < 10
    ensures Says(s + ["0123456789"[d]], 10 * m + d)
  {
    DigitSays(d);
    ZeroSays();
    assert (s + ["0123456789"[d]])[..|s|] == s;
  }

  lemma ZeroSays()
    ensures ReadDecimal("0") == 0
  {
    assert "0"[..0] == "";
  }

  lemma {:induction false} DecimalSays(n: nat)
    ensures Says(Decimal(n), n)
  {
    if n < 10 {
      DigitSays(n);
      assert Decimal(n)[..0] == "";
    } else {
      DecimalSays(n / 10);
      SaysMore(Decimal(n / 10), n / 10, n % 10);
    }
  }

  lemma NumberedIsNamed(base: string, prefix: string, i: nat)
    ensures Named(Numbered(base, prefix, i), base, prefix, i)
  {
    DecimalSays(i);
  }

  lemma AllNamed(base: string, prefix: string, n: nat, name: string)
    requires name in AllNames(base, prefix, n)
    ensures NamedUpTo(name, base, prefix, n)
  {
    var k :| 0 <= k < n && AllNames(base, prefix, n)[k] == name;
    NumberedIsNamed(base, prefix, k + 1);
  }

  // ----- the records that a request adds -----

  ghost predicate TenantsNamed(before: Table, after: Table, req: Request) {
    forall i | |before| <= i < |after| :: after[i].owner == 0 && after[i].name == req.org
  }

  /** Added profiles (or applications) belong to a tenant of the organization's name and are numbered after it. */
  ghost predicate OwnedNamed(tenants: Table, before: Table, after: Table, req: Request, prefix: string, count: int) {
    forall i | |before| <= i < |after| ::
      Holds(tenants, 0, req.org, after[i].owner) && NamedUpTo(after[i].name, req.org, prefix, count)
  }

  /** The device belongs to an application of the request, and is numbered after it. */
  ghost predicate DeviceNamed(apps: Table, d: Record, req: Request) {
    exists a | 0 <= a < |apps| ::
      apps[a].id == d.owner && NamedUpTo(apps[a].name, req.org, req.appPrefix, req.appCount)
      && NamedUpTo(d.name, apps[a].name, req.devPrefix, req.devCount)
  }

  ghost predicate DevicesNamed(apps: Table, before: Table, after: Table, req: Request) {
    forall i | |before| <= i < |after| :: DeviceNamed(apps, after[i], req)
  }

  ghost predicate AddedNamed(t: Tables, u: Tables, req: Request) {
    && TenantsNamed(t.tenants, u.tenants, req)
    && OwnedNamed(u.tenants, t.profiles, u.profiles, req, req.dpPrefix, req.dpCount)
    && OwnedNamed(u.tenants, t.applications, u.applications, req, req.appPrefix, req.appCount)
    && DevicesNamed(u.applications, t.devices, u.devices, req)
  }

  lemma GrownNamed(tenants: Table, before: Table, after: Table, owner: nat, names: seq<string>, some: nat, req: Request,
                   prefix: string, count: nat)
    requires names == AllNames(req.org, prefix, count) && some <= |names|
    requires Grown(before, after, owner, names[..some]) && Holds(tenants, 0, req.org, owner)
    ensures OwnedNamed(tenants, before, after, req, prefix, count)
  {
    forall i | |before| <= i < |after|
      ensures Holds(tenants, 0, req.org, after[i].owner) && NamedUpTo(after[i].name, req.org, prefix, count)
    {
      assert after[i].name in names[..some];
      AllNamed(req.org, prefix, count, after[i].name);
    }
  }

  /** The tenant, and the profiles made under it. */
  lemma TenantRecords(w: World, fails: Oracle, req: Request)
    requires req.Valid()
    ensures var r := TenantPhase(w, fails, req);
            && TenantsNamed(w.tables.tenants, r.0.tables.tenants, req)
            && OwnedNamed(r.0.tables.tenants, w.tables.profiles, r.0.tables.profiles, req, req.dpPrefix, req.dpCount)
            && r.0.tables.applications == w.tables.applications && r.0.tables.devices == w.tables.devices
            && (r.1.Some? ==>
                  && Holds(r.0.tables.tenants, 0, req.org, r.1.value.0)
                  && |r.1.value.1| == req.dpCount
                  && forall p | 0 <= p < req.dpCount ::
                       Holds(r.0.tables.profiles, r.1.value.0, req.Profiles()[p], r.1.value.1[p]))
  {
    OneName(req.org);
    var ids := NamesPhase(w, fails, Tenants, 0, [req.org]);
    var t := EnsuredNames(w, fails, Tenants, 0, [req.org]);
    if t.1.Some? {
      assert FoundAt(w.tables.tenants, t.0.tables.tenants, 0, Page(w, fails, Tenants, 0), [req.org][0], ids[0]);
      var tenant := t.1.value[0];
      AllNamesDistinct(req.org, req.dpPrefix, req.dpCount);
      var ps := NamesPhase(t.0, fails, Profiles, tenant, req.Profiles());
      var p := EnsuredNames(t.0, fails, Profiles, tenant, req.Profiles());
      GrownNamed(t.0.tables.tenants, w.tables.profiles, p.0.tables.profiles, tenant, req.Profiles(), |ps|, req, req.dpPrefix, req.dpCount);
      if p.1.Some? {
        forall k | 0 <= k < req.dpCount ensures Holds(p.0.tables.profiles, tenant, req.Profiles()[k], ps[k]) {
          assert FoundAt(w.tables.profiles, p.0.tables.profiles, tenant, Page(t.0, fails, Profiles, tenant), req.Profiles()[k], ps[k]);
        }
      }
    }
  }

  lemma DevicesNamedMore(apps: Table, more: Table, before: Table, now: Table, after: Table, app: Record, names: seq<string>, req: Request)
    requires req.Valid() && apps <= more && before <= now && DevicesNamed(apps, before, now, req)
    requires app in more && NamedUpTo(app.name, req.org, req.appPrefix, req.appCount)
    requires names == req.DevicesOf(app.name) && Grown(now, after, app.id, names)
    ensures DevicesNamed(more, before, after, req)
  {
    forall i | |before| <= i < |after| ensures DeviceNamed(more, after[i], req) {
      if i < |now| {
        assert after[i] == now[i] && DeviceNamed(apps, now[i], req);
        var a :| 0 <= a < |apps| && apps[a].id == now[i].owner && NamedUpTo(apps[a].name, req.org, req.appPrefix, req.appCount)
                 && NamedUpTo(now[i].name, apps[a].name, req.devPrefix, req.devCount);
        assert more[a] == apps[a];
      } else {
        var a :| 0 <= a < |more| && more[a] == app;
        AllNamed(app.name, req.devPrefix, req.devCount, after[i].name);
      }
    }
  }

  /** One turn of the loop over the applications. */
  lemma TurnRecords(w: World, v: World, fails: Oracle, tenant: nat, page: Table, req: Request, i: nat, schedule: seq<Event>)
    requires req.Valid() && i < req.appCount && PageOf(page, w.tables.applications, tenant)
    requires w.tables.applications <= v.tables.applications && w.tables.devices <= v.tables.devices
    requires DevicesNamed(v.tables.applications, w.tables.devices, v.tables.devices, req)
    ensures var r := AppTurn(v, fails, tenant, page, req, i, schedule);
            && v.tables.applications <= r.0.tables.applications && v.tables.devices <= r.0.tables.devices
            && DevicesNamed(r.0.tables.applications, w.tables.devices, r.0.tables.devices, req)
  {
    var name := req.Apps()[i];
    EnsuredMeans(v, fails, Applications, tenant, page, name);
    var app := Ensured(v, fails, Applications, tenant, page, name);
    var apps, more := v.tables.applications, app.0.tables.applications;
    if app.1.Some? {
      var r := Record(app.1.value, tenant, name);
      AppThere(w.tables.applications, apps, more, tenant, page, r);
      NumberedIsNamed(req.org, req.appPrefix, i + 1);
      AllNamesDistinct(name, req.devPrefix, req.devCount);
      DevicesMean(app.0, fails, app.1.value, req.DevicesOf(name), schedule);
      DevicesNamedMore(apps, more, w.tables.devices, v.tables.devices,
                       AppTurn(v, fails, tenant, page, req, i, schedule).0.tables.devices, r, req.DevicesOf(name), req);
    }
  }

  /** The application of a turn is one that was listed, or the one just added. */
  lemma AppThere(before: Table, apps: Table, more: Table, tenant: nat, page: Table, r: Record)
    requires PageOf(page, before, tenant) && before <= apps
    requires if Lookup(page, r.name).Some? then more == apps && r.id == Lookup(page, r.name).value else more == apps + [r]
    requires r.owner == tenant
    ensures apps <= more && r in more
  {
    if Lookup(page, r.name).Some? {
      ShownIsKnown(page, before, tenant, r.name);
      HoldsMore(before, apps, tenant, r.name, r.id);
    } else {
      assert more[|apps|] == r;
    }
  }

  lemma {:induction false} AppsRecords(w: World, fails: Oracle, tenant: nat, page: Table, req: Request,
                                       schedules: nat -> seq<Event>, k: nat)
    requires req.Valid() && k <= req.appCount && PageOf(page, w.tables.applications, tenant)
    ensures var r := AppsRun(w, fails, tenant, page, req, schedules, k);
            && w.tables.applications <= r.0.tables.applications && w.tables.devices <= r.0.tables.devices
            && DevicesNamed(r.0.tables.applications, w.tables.devices, r.0.tables.devices, req)
  {
    if k > 0 {
      AppsRecords(w, fails, tenant, page, req, schedules, k - 1);
      var r := AppsRun(w, fails, tenant, page, req, schedules, k - 1);
      if r.1.Going? {
        TurnRecords(w, r.0, fails, tenant, page, req, k - 1, schedules(k - 1));
      }
    }
  }

  /** The applications and devices of a tenant of the organization's name. */
  lemma PhaseRecords(w: World, fails: Oracle, tenant: nat, req: Request, schedules: nat -> seq<Event>)
    requires req.Valid() && Holds(w.tables.tenants, 0, req.org, tenant)
    ensures var r := AppsPhase(w, fails, tenant, req, schedules);
            && r.0.tables.tenants == w.tables.tenants && r.0.tables.profiles == w.tables.profiles
            && OwnedNamed(w.tables.tenants, w.tables.applications, r.0.tables.applications, req, req.appPrefix, req.appCount)
            && DevicesNamed(r.0.tables.applications, w.tables.devices, r.0.tables.devices, req)
            && (r.1.Going? ==>
                  && |r.1.ids| == req.appCount
                  && (forall i | 0 <= i < req.appCount :: Holds(r.0.tables.applications, tenant, req.Apps()[i], r.1.ids[i]))
                  && (Trusted(r.0, req) ==> Served(r.0.tables.devices, r.1.ids, req)))
  {
    var page, v := Page(w, fails, Applications, tenant), AfterList(w, fails, Applications, tenant);
    var ids := AppsRunState(v, fails, tenant, page, req, schedules, req.appCount);
    AppsRecords(v, fails, tenant, page, req, schedules, req.appCount);
    var r := AppsRun(v, fails, tenant, page, req, schedules, req.appCount);
    GrownNamed(w.tables.tenants, w.tables.applications, r.0.tables.applications, tenant, req.Apps(), |ids|, req, req.appPrefix, req.appCount);
    if r.1.Going? {
      forall i | 0 <= i < req.appCount ensures Holds(r.0.tables.applications, tenant, req.Apps()[i], ids[i]) {
        assert FoundAt(w.tables.applications, r.0.tables.applications, tenant, page, req.Apps()[i], ids[i]);
      }
    }
  }

  /**
   Whatever fails and whatever the listings show: every record that a request adds is a tenant of the organization's
   name, a profile or an application numbered after it, or a device numbered after its application.
   */
  lemma AddedRecordsAreNamed(w: World, fails: Oracle, req: Request, schedules: nat -> seq<Event>)
    ensures AddedNamed(w.tables, Handled(w, fails, req, schedules).0.tables, req)
  {
    if req.Valid() {
      TenantRecords(w, fails, req);
      var t := TenantPhase(w, fails, req);
      if t.1.Some? {
        PhaseRecords(t.0, fails, t.1.value.0, req, schedules);
      }
    }
  }

  /** This id is that of the record numbered i after `base`, and, with `full`, it owns devices numbered 1 to devCount after it. */
  ghost predicate AppReported(t: Tables, tenant: nat, req: Request, i: nat, id: nat, full: bool) {
    exists name: string ::
      Named(name, req.org, req.appPrefix, i) && Holds(t.applications, tenant, name, id)
      && (full ==> forall j: nat | 1 <= j <= req.devCount :: DeviceThere(t.devices, id, name, req.devPrefix, j))
  }

  ghost predicate DeviceThere(devices: Table, app: nat, appName: string, prefix: string, j: nat) {
    exists name: string :: Named(name, appName, prefix, j) && IdOf(devices, app, name).Some?
  }

  ghost predicate ProfileReported(t: Tables, tenant: nat, req: Request, i: nat, id: nat) {
    exists name: string :: Named(name, req.org, req.dpPrefix, i) && Holds(t.profiles, tenant, name, id)
  }

  /**
   The reply of an accepted request lists the tenant, each profile and each application under its number; with no device
   refused, or one to an application, each application has devices of all numbers.
   */
  lemma ReplyNamesRecords(w: World, fails: Oracle, req: Request, schedules: nat -> seq<Event>)
    requires Handled(w, fails, req, schedules).1.Accepted?
    ensures var r := Handled(w, fails, req, schedules);
            && Holds(r.0.tables.tenants, 0, req.org, r.1.tenant)
            && |r.1.profiles| == req.dpCount && |r.1.applications| == req.appCount
            && (forall p | 0 <= p < |r.1.profiles| :: ProfileReported(r.0.tables, r.1.tenant, req, p + 1, r.1.profiles[p]))
            && forall i | 0 <= i < |r.1.applications| ::
                 AppReported(r.0.tables, r.1.tenant, req, i + 1, r.1.applications[i], Trusted(r.0, req))
  {
    AcceptedPhases(w, fails, req, schedules);
    TenantRecords(w, fails, req);
    var t := TenantPhase(w, fails, req);
    PhaseRecords(t.0, fails, t.1.value.0, req, schedules);
    var r := Handled(w, fails, req, schedules);
    forall p | 0 <= p < |r.1.profiles| ensures ProfileReported(r.0.tables, r.1.tenant, req, p + 1, r.1.profiles[p]) {
      NumberedIsNamed(req.org, req.dpPrefix, p + 1);
    }
    forall i | 0 <= i < |r.1.applications|
      ensures AppReported(r.0.tables, r.1.tenant, req, i + 1, r.1.applications[i], Trusted(r.0, req))
    {
      ReportedApp(r.0, req, r.1.tenant, r.1.applications, i);
    }
  }

  lemma ReportedApp(v: World, req: Request, tenant: nat, ids: seq<nat>, i: nat)
    requires req.Valid() && i < |ids| == req.appCount && Holds(v.tables.applications, tenant, req.Apps()[i], ids[i])
    requires Trusted(v, req) ==> Served(v.tables.devices, ids, req)
    ensures AppReported(v.tables, tenant, req, i + 1, ids[i], Trusted(v, req))
  {
    var name := req.Apps()[i];
    NumberedIsNamed(req.org, req.appPrefix, i + 1);
    if Trusted(v, req) {
      assert AllKnown(v.tables.devices, ids[i], req.DevicesOf(name));
      forall j: nat | 1 <= j <= req.devCount ensures DeviceThere(v.tables.devices, ids[i], name, req.devPrefix, j) {
        NumberedIsNamed(name, req.devPrefix, j);
        assert IdOf(v.tables.devices, ids[i], req.DevicesOf(name)[j - 1]).Some?;
      }
    }
  }
}
