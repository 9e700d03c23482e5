/**
 Interleavings of the device goroutines, constructed for any application, any names and any listing: one in which all
 goes well, and those in which one worker's outcome hides another's. They show that the conditions are exact.
 */
module WorkerRuns {
  import opened Prelude
  import opened Stores
  import opened DeviceWorkers

  function From(c: Setting, before: Table, keys: map<nat, nat>, es: seq<Event>): (s: Jobs)
    ensures |s.workers| == |c.names|
  {
    Exec(c, Start(c, before, keys), es)
  }

  lemma Next(c: Setting, before: Table, keys: map<nat, nat>, es: seq<Event>, e: Event)
    ensures From(c, before, keys, es + [e]) == Step(c, From(c, before, keys, es), e)
    ensures Draws(es + [e]) == Draws(es) + if e.Begin? && e.eui.Some? then [e.eui.value] else []
  {
    Last(c, Start(c, before, keys), es, e);
    assert (es + [e])[..|es|] == es;
  }

  /** The EUIs that were drawn, in their order. No draw is made for a listed device. */
  function Draws(es: seq<Event>): seq<nat> {
    if es == [] then []
    else
      var last := es[|es| - 1];
      Draws(es[..|es| - 1]) + if last.Begin? && last.eui.Some? then [last.eui.value] else []
  }

  /** An EUI that no device has. */
  function NextEui(devices: Table): (e: nat)
    ensures forall i | 0 <= i < |devices| :: devices[i].id < e
  {
    if devices == [] then 0
    else
      var e, last := NextEui(devices[..|devices| - 1]), devices[|devices| - 1].id;
      if last < e then e else last + 1
  }

  lemma {:induction false} NextEuiGrows(before: Table, devices: Table)
    requires before <= devices
    ensures NextEui(before) <= NextEui(devices)
    decreases |devices|
  {
    if |before| < |devices| {
      NextEuiGrows(before, devices[..|devices| - 1]);
    } else {
      assert devices == before;
    }
  }

  lemma NextEuiAfter(devices: Table, r: Record)
    requires NextEui(devices) <= r.id
    ensures NextEui(devices + [r]) == r.id + 1
  {
    assert (devices + [r])[..|devices|] == devices;
  }

  /** Drawn in increasing order below n, and above the EUIs of `before`. */
  ghost predicate InOrder(before: Table, draws: seq<nat>, n: nat) {
    && (forall i | 0 <= i < |draws| :: NextEui(before) <= draws[i] < n)
    && forall i, j | 0 <= i < j < |draws| :: draws[i] < draws[j]
  }

  predicate Listed(c: Setting, j: nat)
    requires j < |c.names|
  {
    Lookup(c.page, c.names[j]).Some?
  }

  // ----- one worker by itself -----

  /** The EUI worker j works with when it draws an unused one. */
  function EuiOf(c: Setting, s: Jobs, j: nat): nat
    requires j < |c.names|
  {
    if Listed(c, j) then Lookup(c.page, c.names[j]).value else NextEui(s.devices)
  }

  function DevicesWith(c: Setting, s: Jobs, j: nat): Table
    requires j < |c.names|
  {
    if Listed(c, j) then s.devices else s.devices + [Record(EuiOf(c, s, j), c.app, c.names[j])]
  }

  /** Worker j has its device and has deleted the old keys. */
  function AtKeying(c: Setting, s: Jobs, j: nat): Jobs
    requires j < |c.names| == |s.workers|
  {
    var e := EuiOf(c, s, j);
    s.(workers := s.workers[j := Keying(e, 0)], inFlight := s.inFlight + 1, devices := DevicesWith(c, s, j),
       keys := s.keys - {e}, err := if Listed(c, j) then s.err else false)
  }

  /** Worker j is done. */
  function AtCounted(c: Setting, s: Jobs, j: nat): Jobs
    requires j < |c.names| == |s.workers|
  {
    var e := EuiOf(c, s, j);
    s.(workers := s.workers[j := Counted(e, 0)], devices := DevicesWith(c, s, j),
       keys := (s.keys - {e})[e := 0], err := false, count := s.count + 1)
  }

  function DrawnFor(c: Setting, s: Jobs, j: nat): seq<nat>
    requires j < |c.names|
  {
    if Listed(c, j) then [] else [EuiOf(c, s, j)]
  }

  /** A worker by itself draws above all EUIs in use. */
  lemma DrawsOn(c: Setting, before: Table, s: Jobs, j: nat, draws: seq<nat>)
    requires j < |c.names| && before <= s.devices && InOrder(before, draws, NextEui(s.devices))
    ensures InOrder(before, draws + DrawnFor(c, s, j), NextEui(DevicesWith(c, s, j)))
  {
    NextEuiGrows(before, s.devices);
    if !Listed(c, j) {
      NextEuiAfter(s.devices, Record(EuiOf(c, s, j), c.app, c.names[j]));
    }
  }

  ghost predicate CanBegin(c: Setting, before: Table, s: Jobs, j: nat) {
    Honest(c, before) && j < |c.names| == |s.workers| && s.workers[j].Waiting? && !s.failed && s.inFlight < MAX_IN_FLIGHT
    && before <= s.devices
  }

  lemma HoldsEui(devices: Table, app: nat, name: string, eui: nat)
    requires Holds(devices, app, name, eui)
    ensures HasEui(devices, eui)
  {
    var i :| 0 <= i < |devices| && devices[i] == Record(eui, app, name);
    assert devices[i].id == eui;
  }

  /** The device of worker j is there, under its name. */
  lemma DeviceThere(c: Setting, before: Table, s: Jobs, j: nat)
    requires Honest(c, before) && j < |c.names| && before <= s.devices
    ensures Holds(DevicesWith(c, s, j), c.app, c.names[j], EuiOf(c, s, j))
    ensures HasEui(DevicesWith(c, s, j), EuiOf(c, s, j))
  {
    if Listed(c, j) {
      ListedHolds(c, before, c.names[j]);
    }
    HoldsEui(DevicesWith(c, s, j), c.app, c.names[j], EuiOf(c, s, j));
  }

  /** Worker j found its device listed, or created it. */
  function AtClearing(c: Setting, s: Jobs, j: nat): Jobs
    requires j < |c.names| == |s.workers|
  {
    s.(workers := s.workers[j := Clearing(EuiOf(c, s, j), 0)], inFlight := s.inFlight + 1, devices := DevicesWith(c, s, j),
       err := if Listed(c, j) then s.err else false)
  }

  lemma ToClearing(c: Setting, before: Table, keys: map<nat, nat>, es: seq<Event>, j: nat) returns (more: seq<Event>)
    requires CanBegin(c, before, From(c, before, keys, es), j)
    ensures From(c, before, keys, more) == AtClearing(c, From(c, before, keys, es), j)
    ensures Draws(more) == Draws(es) + DrawnFor(c, From(c, before, keys, es), j)
  {
    if Listed(c, j) {
      Next(c, before, keys, es, Begin(j, None, Some(0)));
      more := es + [Begin(j, None, Some(0))];
    } else {
      more := ToCreated(c, before, keys, es, j);
    }
  }

  lemma ToCreated(c: Setting, before: Table, keys: map<nat, nat>, es: seq<Event>, j: nat) returns (more: seq<Event>)
    requires CanBegin(c, before, From(c, before, keys, es), j) && !Listed(c, j)
    ensures From(c, before, keys, more) == AtClearing(c, From(c, before, keys, es), j)
    ensures Draws(more) == Draws(es) + [EuiOf(c, From(c, before, keys, es), j)]
  {
    var e := EuiOf(c, From(c, before, keys, es), j);
    Next(c, before, keys, es, Begin(j, Some(e), Some(0)));
    more := es + [Begin(j, Some(e), Some(0))];
    Next(c, before, keys, more, CallCreate(j, true));
    more := more + [CallCreate(j, true)];
    Next(c, before, keys, more, ReadCreate(j));
    more := more + [ReadCreate(j)];
  }

  lemma ToKeying(c: Setting, before: Table, keys: map<nat, nat>, es: seq<Event>, j: nat) returns (more: seq<Event>)
    requires CanBegin(c, before, From(c, before, keys, es), j)
    ensures From(c, before, keys, more) == AtKeying(c, From(c, before, keys, es), j)
    ensures Draws(more) == Draws(es) + DrawnFor(c, From(c, before, keys, es), j)
  {
    more := ToClearing(c, before, keys, es, j);
    Next(c, before, keys, more, CallDelete(j, true));
    more := more + [CallDelete(j, true)];
  }

  lemma Solo(c: Setting, before: Table, keys: map<nat, nat>, es: seq<Event>, j: nat) returns (more: seq<Event>)
    requires CanBegin(c, before, From(c, before, keys, es), j)
    ensures From(c, before, keys, more) == AtCounted(c, From(c, before, keys, es), j)
    ensures Draws(more) == Draws(es) + DrawnFor(c, From(c, before, keys, es), j)
  {
    DeviceThere(c, before, From(c, before, keys, es), j);
    more := ToKeying(c, before, keys, es, j);
    Next(c, before, keys, more, CallKeys(j, true));
    more := more + [CallKeys(j, true)];
    Next(c, before, keys, more, ReadKeys(j));
    more := more + [ReadKeys(j)];
  }

  // ----- the rest, one after the other -----

  /** Everybody is launched, and each worker either waits or is done. */
  ghost predicate Ready(c: Setting, before: Table, s: Jobs) {
    && |s.workers| == |c.names| == s.launched && !s.failed && !s.broke && s.inFlight == 0 && before <= s.devices
    && forall j | 0 <= j < |s.workers| :: s.workers[j].Waiting? || s.workers[j].Counted?
  }

  ghost predicate AddedAfter(devices: Table, after: Table, app: nat, name: string) {
    exists i :: |devices| <= i < |after| && after[i].owner == app && after[i].name == name
  }

  /** Those that were done stay as they were, with their devices and keys; the others get their devices. */
  ghost predicate Finishing(c: Setting, s: Jobs, t: Jobs)
    requires |s.workers| == |t.workers| == |c.names|
  {
    && t.Succeeded() && s.devices <= t.devices && t.refused == s.refused && t.keyless == s.keyless
    && (forall j | 0 <= j < |c.names| ::
          if s.workers[j].Counted? then
            t.workers[j] == s.workers[j] && IdOf(t.devices, c.app, c.names[j]) == IdOf(s.devices, c.app, c.names[j])
          else
            IdOf(t.devices, c.app, c.names[j]).Some? && (!Listed(c, j) ==> AddedAfter(s.devices, t.devices, c.app, c.names[j])))
    && (UniqueIds(s.devices) ==>
          forall j, e: nat | 0 <= j < |c.names| && s.workers[j].Counted? && Holds(s.devices, c.app, c.names[j], e) ::
            SameKey(t.keys, s.keys, e))
  }

  /** What one worker by itself leaves alone and what it adds. */
  lemma SoloEffect(c: Setting, before: Table, s: Jobs, k: nat, j: nat)
    requires Honest(c, before) && k < |c.names| == |s.workers| && before <= s.devices && j < |c.names|
    ensures var u := AtCounted(c, s, k);
            && (IdOf(s.devices, c.app, c.names[j]).Some? || j != k ==>
                  IdOf(u.devices, c.app, c.names[j]) == IdOf(s.devices, c.app, c.names[j]))
            && IdOf(u.devices, c.app, c.names[k]).Some?
            && (!Listed(c, k) ==> AddedAfter(s.devices, u.devices, c.app, c.names[k]))
            && (UniqueIds(s.devices) ==> UniqueIds(u.devices))
  {
    var u := AtCounted(c, s, k);
    if Listed(c, k) {
      DeviceThere(c, before, s, k);
      HoldsKnown(s.devices, c.app, c.names[k], EuiOf(c, s, k));
    } else {
      IdAppend(s.devices, Record(EuiOf(c, s, k), c.app, c.names[k]), c.app, c.names[j]);
      IdAppend(s.devices, Record(EuiOf(c, s, k), c.app, c.names[k]), c.app, c.names[k]);
      assert u.devices[|s.devices|].name == c.names[k];
    }
  }

  lemma HoldsKnown(devices: Table, app: nat, name: string, eui: nat)
    requires Holds(devices, app, name, eui)
    ensures IdOf(devices, app, name).Some?
  {
    KnownIffPresent(devices, app, name);
    var i :| 0 <= i < |devices| && devices[i] == Record(eui, app, name);
    assert devices[i].owner == app && devices[i].name == name;
  }

  lemma SoloKeys(c: Setting, before: Table, s: Jobs, k: nat, j: nat, e: nat)
    requires Honest(c, before) && k < |c.names| == |s.workers| && before <= s.devices && j < |c.names| && j != k
    requires UniqueIds(s.devices) && Holds(s.devices, c.app, c.names[j], e)
    ensures SameKey(AtCounted(c, s, k).keys, s.keys, e)
  {
    var u := AtCounted(c, s, k);
    DeviceThere(c, before, s, k);
    SoloEffect(c, before, s, k, j);
    assert Holds(u.devices, c.app, c.names[j], e);
    OwnEui(c, u.devices, j, k, e);
  }

  lemma FinishingStep(c: Setting, before: Table, s: Jobs, k: nat, t: Jobs)
    requires Honest(c, before) && Ready(c, before, s) && k < |c.names| && s.workers[k].Waiting?
    requires |t.workers| == |c.names| && Finishing(c, AtCounted(c, s, k), t)
    ensures Finishing(c, s, t)
  {
    var u := AtCounted(c, s, k);
    forall j | 0 <= j < |c.names|
      ensures if s.workers[j].Counted? then
                t.workers[j] == s.workers[j] && IdOf(t.devices, c.app, c.names[j]) == IdOf(s.devices, c.app, c.names[j])
              else
                IdOf(t.devices, c.app, c.names[j]).Some? && (!Listed(c, j) ==> AddedAfter(s.devices, t.devices, c.app, c.names[j]))
    {
      SoloEffect(c, before, s, k, j);
      if !s.workers[j].Counted? && !Listed(c, j) {
        AddedStays(s.devices, u.devices, t.devices, c.app, c.names[j]);
      }
    }
    if UniqueIds(s.devices) {
      SoloEffect(c, before, s, k, k);
      forall j, e: nat | 0 <= j < |c.names| && s.workers[j].Counted? && Holds(s.devices, c.app, c.names[j], e)
        ensures SameKey(t.keys, s.keys, e)
      {
        SoloKeys(c, before, s, k, j, e);
        assert u.workers[j].Counted? && Holds(u.devices, c.app, c.names[j], e);
        assert SameKey(t.keys, u.keys, e);
      }
    }
  }

  lemma AddedStays(s: Table, u: Table, t: Table, app: nat, name: string)
    requires s <= u <= t && (AddedAfter(s, u, app, name) || AddedAfter(u, t, app, name))
    ensures AddedAfter(s, t, app, name)
  {
    if AddedAfter(s, u, app, name) {
      var i :| |s| <= i < |u| && u[i].owner == app && u[i].name == name;
      assert t[i] == u[i];
    } else {
      var i :| |u| <= i < |t| && t[i].owner == app && t[i].name == name;
      assert |s| <= i;
    }
  }

  /** From a ready state on, the workers k, k + 1, ... that wait run one after the other. */
  lemma {:induction false} SoloRest(c: Setting, before: Table, keys: map<nat, nat>, es: seq<Event>, k: nat)
    returns (more: seq<Event>)
    requires Honest(c, before) && k <= |c.names| && Ready(c, before, From(c, before, keys, es))
    requires forall j | 0 <= j < k :: From(c, before, keys, es).workers[j].Counted?
    ensures Finishing(c, From(c, before, keys, es), From(c, before, keys, more))
    ensures InOrder(before, Draws(es), NextEui(From(c, before, keys, es).devices))
            ==> InOrder(before, Draws(more), NextEui(From(c, before, keys, more).devices))
    decreases |c.names| - k
  {
    var s := From(c, before, keys, es);
    if k == |c.names| {
      more := es;
    } else if s.workers[k].Counted? {
      more := SoloRest(c, before, keys, es, k + 1);
    } else {
      more := Solo(c, before, keys, es, k);
      if InOrder(before, Draws(es), NextEui(s.devices)) {
        DrawsOn(c, before, s, k, Draws(es));
      }
      more := SoloRest(c, before, keys, more, k + 1);
      FinishingStep(c, before, s, k, From(c, before, keys, more));
    }
  }

  lemma {:induction false} LaunchAll(c: Setting, before: Table, keys: map<nat, nat>, k: nat) returns (es: seq<Event>)
    requires k <= |c.names|
    ensures From(c, before, keys, es)
         == Start(c, before, keys).(launched := k, workers := seq(|c.names|, j => if j < k then Waiting else Unlaunched))
    ensures Draws(es) == []
  {
    if k == 0 {
      es := [];
      assert Start(c, before, keys).workers == seq(|c.names|, j => if j < k then Waiting else Unlaunched);
    } else {
      es := LaunchAll(c, before, keys, k - 1);
      Next(c, before, keys, es, Launch);
      var was := From(c, before, keys, es).workers;
      es := es + [Launch];
      assert was[k - 1 := Waiting] == seq(|c.names|, j => if j < k then Waiting else Unlaunched);
    }
  }

  /** All goes well: nothing is refused, and every name gets a device of its own unless the listing shows one. */
  lemma GoodRun(c: Setting, before: Table, keys: map<nat, nat>) returns (es: seq<Event>)
    requires Honest(c, before)
    ensures var s := From(c, before, keys, es);
            && s.Succeeded() && !s.refused && !s.keyless && AllKnown(s.devices, c.app, c.names)
            && forall j | 0 <= j < |c.names| && !Listed(c, j) :: AddedAfter(before, s.devices, c.app, c.names[j])
    ensures FreshDraws(before, es)
  {
    es := LaunchAll(c, before, keys, |c.names|);
    es := SoloRest(c, before, keys, es, 0);
    InOrderIsFresh(before, es, NextEui(From(c, before, keys, es).devices));
  }

  // ----- one outcome hides another -----

  /** Workers a and b wait, and a's name is not in the listing. */
  ghost predicate Pair(c: Setting, before: Table, s: Jobs, a: nat, b: nat) {
    && Honest(c, before) && Ready(c, before, s) && a < |c.names| && b < |c.names| && a != b && !Listed(c, a)
    && s.workers[a].Waiting? && s.workers[b].Waiting?
  }

  /** b's new device beside a refused one; a drew the EUI before it. */
  function BesideRefused(c: Setting, s: Jobs, b: nat): Table
    requires b < |c.names|
  {
    if Listed(c, b) then s.devices else s.devices + [Record(NextEui(s.devices) + 1, c.app, c.names[b])]
  }

  /** Both are done, though a has no device. */
  ghost predicate BothDone(c: Setting, before: Table, s: Jobs, t: Jobs, a: nat, b: nat)
    requires |s.workers| == |t.workers| == |c.names| && a < |c.names| && b < |c.names|
  {
    && Ready(c, before, t) && t.workers == s.workers[a := t.workers[a]][b := t.workers[b]]
    && t.workers[a].Counted? && t.workers[b].Counted?
    && t.devices == BesideRefused(c, s, b)
  }

  /** b is new too. The server refuses a's device, and b's answer comes before a looks. */
  lemma RefusedBesideNew(c: Setting, before: Table, keys: map<nat, nat>, es: seq<Event>, a: nat, b: nat)
    returns (more: seq<Event>)
    requires Pair(c, before, From(c, before, keys, es), a, b) && !Listed(c, b)
    ensures var s, e := From(c, before, keys, es), NextEui(From(c, before, keys, es).devices);
            From(c, before, keys, more) ==
              s.(workers := s.workers[a := Created(e, 0)][b := Created(e + 1, 0)], inFlight := 2, err := false, refused := true,
                 devices := BesideRefused(c, s, b))
    ensures var e := NextEui(From(c, before, keys, es).devices); Draws(more) == Draws(es) + [e, e + 1]
  {
    var e := NextEui(From(c, before, keys, es).devices);
    Next(c, before, keys, es, Begin(a, Some(e), Some(0)));
    more := es + [Begin(a, Some(e), Some(0))];
    Next(c, before, keys, more, Begin(b, Some(e + 1), Some(0)));
    more := more + [Begin(b, Some(e + 1), Some(0))];
    Next(c, before, keys, more, CallCreate(a, false));
    more := more + [CallCreate(a, false)];
    Next(c, before, keys, more, CallCreate(b, true));
    more := more + [CallCreate(b, true)];
  }

  lemma BothToKeying(c: Setting, before: Table, keys: map<nat, nat>, es: seq<Event>, a: nat, b: nat) returns (more: seq<Event>)
    requires Pair(c, before, From(c, before, keys, es), a, b) && !Listed(c, b)
    ensures var s, e := From(c, before, keys, es), NextEui(From(c, before, keys, es).devices);
            From(c, before, keys, more) ==
              s.(workers := s.workers[a := Keying(e, 0)][b := Keying(e + 1, 0)], inFlight := 2, err := false, refused := true,
                 devices := BesideRefused(c, s, b), keys := s.keys - {e} - {e + 1})
    ensures var e := NextEui(From(c, before, keys, es).devices); Draws(more) == Draws(es) + [e, e + 1]
  {
    more := RefusedBesideNew(c, before, keys, es, a, b);
    Next(c, before, keys, more, ReadCreate(a));
    more := more + [ReadCreate(a)];
    Next(c, before, keys, more, ReadCreate(b));
    more := more + [ReadCreate(b)];
    Next(c, before, keys, more, CallDelete(a, true));
    more := more + [CallDelete(a, true)];
    Next(c, before, keys, more, CallDelete(b, true));
    more := more + [CallDelete(b, true)];
  }

  lemma BothToKeyed(c: Setting, before: Table, keys: map<nat, nat>, es: seq<Event>, a: nat, b: nat) returns (more: seq<Event>)
    requires Pair(c, before, From(c, before, keys, es), a, b) && !Listed(c, b)
    ensures var s, t, e := From(c, before, keys, es), From(c, before, keys, more), NextEui(From(c, before, keys, es).devices);
            t == s.(workers := s.workers[a := Keyed(e, 0)][b := Keyed(e + 1, 0)], inFlight := 2, err := false, refused := true,
                    keyless := true, devices := BesideRefused(c, s, b), keys := t.keys)
    ensures var e := NextEui(From(c, before, keys, es).devices); Draws(more) == Draws(es) + [e, e + 1]
  {
    more := OneToKeyed(c, before, keys, es, a, b);
    var s := From(c, before, keys, es);
    assert BesideRefused(c, s, b)[|s.devices|].id == NextEui(s.devices) + 1;
    Next(c, before, keys, more, CallKeys(b, true));
    more := more + [CallKeys(b, true)];
  }

  lemma OneToKeyed(c: Setting, before: Table, keys: map<nat, nat>, es: seq<Event>, a: nat, b: nat) returns (more: seq<Event>)
    requires Pair(c, before, From(c, before, keys, es), a, b) && !Listed(c, b)
    ensures var s, e := From(c, before, keys, es), NextEui(From(c, before, keys, es).devices);
            From(c, before, keys, more) ==
              s.(workers := s.workers[a := Keyed(e, 0)][b := Keying(e + 1, 0)], inFlight := 2, err := true, refused := true,
                 keyless := true, devices := BesideRefused(c, s, b), keys := s.keys - {e} - {e + 1})
    ensures var e := NextEui(From(c, before, keys, es).devices); Draws(more) == Draws(es) + [e, e + 1]
  {
    more := BothToKeying(c, before, keys, es, a, b);
    Next(c, before, keys, more, CallKeys(a, false));
    more := more + [CallKeys(a, false)];
  }

  /** The keys of a's device are refused as well, and hidden in the same way. */
  lemma HiddenBesideNew(c: Setting, before: Table, keys: map<nat, nat>, es: seq<Event>, a: nat, b: nat) returns (more: seq<Event>)
    requires Pair(c, before, From(c, before, keys, es), a, b) && !Listed(c, b)
    ensures BothDone(c, before, From(c, before, keys, es), From(c, before, keys, more), a, b)
    ensures var e := NextEui(From(c, before, keys, es).devices); Draws(more) == Draws(es) + [e, e + 1]
  {
    more := BothToKeyed(c, before, keys, es, a, b);
    Next(c, before, keys, more, ReadKeys(a));
    more := more + [ReadKeys(a)];
    Next(c, before, keys, more, ReadKeys(b));
    more := more + [ReadKeys(b)];
  }

  /** b is listed. a draws the EUI of b's device, the server refuses it, and b's key call succeeds before a looks. */
  lemma RefusedBesideListed(c: Setting, before: Table, keys: map<nat, nat>, es: seq<Event>, a: nat, b: nat)
    returns (more: seq<Event>)
    requires Pair(c, before, From(c, before, keys, es), a, b) && Listed(c, b)
    ensures var s, e := From(c, before, keys, es), EuiOf(c, From(c, before, keys, es), b);
            From(c, before, keys, more) ==
              s.(workers := s.workers[a := Clearing(e, 0)][b := Keyed(e, 0)], inFlight := 2, err := false, refused := true,
                 keys := (s.keys - {e})[e := 0])
  {
    var e := EuiOf(c, From(c, before, keys, es), b);
    DeviceThere(c, before, From(c, before, keys, es), b);
    more := ToKeying(c, before, keys, es, b);
    Next(c, before, keys, more, Begin(a, Some(e), Some(0)));
    more := more + [Begin(a, Some(e), Some(0))];
    Next(c, before, keys, more, CallCreate(a, false));
    more := more + [CallCreate(a, false)];
    Next(c, before, keys, more, CallKeys(b, true));
    more := more + [CallKeys(b, true)];
    Next(c, before, keys, more, ReadCreate(a));
    more := more + [ReadCreate(a)];
  }

  lemma HiddenBesideListed(c: Setting, before: Table, keys: map<nat, nat>, es: seq<Event>, a: nat, b: nat)
    returns (more: seq<Event>)
    requires Pair(c, before, From(c, before, keys, es), a, b) && Listed(c, b)
    ensures BothDone(c, before, From(c, before, keys, es), From(c, before, keys, more), a, b)
  {
    DeviceThere(c, before, From(c, before, keys, es), b);
    more := RefusedBesideListed(c, before, keys, es, a, b);
    Next(c, before, keys, more, ReadKeys(b));
    more := more + [ReadKeys(b)];
    Next(c, before, keys, more, CallDelete(a, true));
    more := more + [CallDelete(a, true)];
    Next(c, before, keys, more, CallKeys(a, true));
    more := more + [CallKeys(a, true)];
    Next(c, before, keys, more, ReadKeys(a));
    more := more + [ReadKeys(a)];
  }

  /** A success is reported although the device of a does not exist: nobody knew the name before, and nobody knows it now. */
  lemma RefusalHidden(c: Setting, before: Table, keys: map<nat, nat>, a: nat, b: nat) returns (es: seq<Event>)
    requires Honest(c, before) && a < |c.names| && b < |c.names| && a != b && IdOf(before, c.app, c.names[a]).None?
    ensures var s := From(c, before, keys, es);
            s.Succeeded() && s.count == |c.names| && IdOf(s.devices, c.app, c.names[a]).None?
  {
    es := LaunchAll(c, before, keys, |c.names|);
    if Listed(c, a) {
      ListedIsKnown(c, before, c.names[a]);
    }
    if Listed(c, b) {
      es := HiddenBesideListed(c, before, keys, es, a, b);
      es := SoloRest(c, before, keys, es, 0);
    } else {
      es := FreshBesideNew(c, before, keys, es, a, b);
    }
    SuccessMeans(c, before, keys, es);
  }

  /** The key of a's device is refused, and b's answer comes before a looks. */
  lemma KeyHidden(c: Setting, before: Table, keys: map<nat, nat>, a: nat, b: nat) returns (es: seq<Event>)
    requires Honest(c, before) && UniqueIds(before) && a < |c.names| && b < |c.names| && a != b
    ensures var s := From(c, before, keys, es);
            && s.Succeeded() && s.count == |c.names| && !s.refused
            && s.workers[a].Counted? && Holds(s.devices, c.app, c.names[a], s.workers[a].eui) && s.workers[a].eui !in s.keys
  {
    es := LaunchAll(c, before, keys, |c.names|);
    es := TwoToKeying(c, before, keys, es, a, b);
    es := KeyRefused(c, before, keys, es, a, b);
    var t := From(c, before, keys, es);
    es := SoloRest(c, before, keys, es, 0);
    var u := From(c, before, keys, es);
    assert t.workers[a].Counted?;
    assert SameKey(u.keys, t.keys, t.workers[a].eui);
    var i :| 0 <= i < |t.devices| && t.devices[i] == Record(t.workers[a].eui, c.app, c.names[a]);
    assert u.devices[i] == t.devices[i];
    SuccessMeans(c, before, keys, es);
  }

  /** Both are about to store their keys. */
  ghost predicate BothKeying(c: Setting, before: Table, s: Jobs, a: nat, b: nat) {
    && |s.workers| == |c.names| == s.launched && a < |c.names| && b < |c.names| && a != b
    && !s.failed && !s.broke && s.inFlight == 2 && before <= s.devices && UniqueIds(s.devices)
    && s.workers[a].Keying? && s.workers[b].Keying? && s.workers[a].eui != s.workers[b].eui
    && s.workers[a].eui !in s.keys && s.workers[b].eui !in s.keys
    && Holds(s.devices, c.app, c.names[a], s.workers[a].eui) && Holds(s.devices, c.app, c.names[b], s.workers[b].eui)
    && forall j | 0 <= j < |s.workers| && j != a && j != b :: s.workers[j].Waiting? || s.workers[j].Counted?
  }

  /** The devices of two workers, one after the other, are two. */
  lemma TwoDevices(c: Setting, before: Table, s: Jobs, a: nat, b: nat)
    requires Honest(c, before) && a < |c.names| == |s.workers| && b < |c.names| && a != b && before <= s.devices
    requires UniqueIds(s.devices)
    ensures var u := AtKeying(c, s, a);
            var e, f, devices := EuiOf(c, s, a), EuiOf(c, u, b), DevicesWith(c, u, b);
            && before <= u.devices <= devices && UniqueIds(devices) && e != f
            && Holds(devices, c.app, c.names[a], e) && Holds(devices, c.app, c.names[b], f)
  {
    var u := AtKeying(c, s, a);
    var e, devices := EuiOf(c, s, a), DevicesWith(c, u, b);
    DeviceThere(c, before, s, a);
    SoloEffect(c, before, s, a, a);
    DeviceThere(c, before, u, b);
    SoloEffect(c, before, u, b, b);
    HoldsMore(u.devices, devices, c.app, c.names[a], e);
    OwnEui(c, devices, a, b, e);
  }

  lemma TwoToKeying(c: Setting, before: Table, keys: map<nat, nat>, es: seq<Event>, a: nat, b: nat) returns (more: seq<Event>)
    requires Honest(c, before) && Ready(c, before, From(c, before, keys, es)) && UniqueIds(From(c, before, keys, es).devices)
    requires a < |c.names| && b < |c.names| && a != b
    requires From(c, before, keys, es).workers[a].Waiting? && From(c, before, keys, es).workers[b].Waiting?
    ensures From(c, before, keys, more).refused == From(c, before, keys, es).refused
    ensures BothKeying(c, before, From(c, before, keys, more), a, b)
  {
    TwoDevices(c, before, From(c, before, keys, es), a, b);
    more := ToKeying(c, before, keys, es, a);
    more := ToKeying(c, before, keys, more, b);
  }

  lemma KeyRefused(c: Setting, before: Table, keys: map<nat, nat>, es: seq<Event>, a: nat, b: nat) returns (more: seq<Event>)
    requires BothKeying(c, before, From(c, before, keys, es), a, b)
    ensures var s, t := From(c, before, keys, es), From(c, before, keys, more);
            && Ready(c, before, t) && t.refused == s.refused && UniqueIds(t.devices)
            && t.workers[a].Counted? && Holds(t.devices, c.app, c.names[a], t.workers[a].eui) && t.workers[a].eui !in t.keys
  {
    HoldsEui(From(c, before, keys, es).devices, c.app, c.names[b], From(c, before, keys, es).workers[b].eui);
    Next(c, before, keys, es, CallKeys(a, false));
    more := es + [CallKeys(a, false)];
    Next(c, before, keys, more, CallKeys(b, true));
    more := more + [CallKeys(b, true)];
    Next(c, before, keys, more, ReadKeys(a));
    more := more + [ReadKeys(a)];
    Next(c, before, keys, more, ReadKeys(b));
    more := more + [ReadKeys(b)];
  }

  lemma HoldsMore(devices: Table, more: Table, app: nat, name: string, eui: nat)
    requires devices <= more && Holds(devices, app, name, eui)
    ensures Holds(more, app, name, eui)
  {
    var i :| 0 <= i < |devices| && devices[i] == Record(eui, app, name);
    assert more[i] == devices[i];
  }

  // ----- when the draws are fresh -----

  /** No EUI is drawn that a device had before, and none twice. */
  ghost predicate FreshDraws(before: Table, es: seq<Event>) {
    var draws := Draws(es);
    && (forall i | 0 <= i < |draws| :: !HasEui(before, draws[i]))
    && forall i, j | 0 <= i < j < |draws| :: draws[i] != draws[j]
  }

  lemma InOrderIsFresh(before: Table, es: seq<Event>, n: nat)
    requires InOrder(before, Draws(es), n)
    ensures FreshDraws(before, es)
  {
  }

  /** Workers a, b and d wait; a's name is not in the listing, those of b and d are. */
  ghost predicate Triple(c: Setting, before: Table, s: Jobs, a: nat, b: nat, d: nat) {
    && Pair(c, before, s, a, b) && Pair(c, before, s, a, d) && b != d && Listed(c, b) && Listed(c, d)
  }

  /** The server refuses a's device. */
  lemma JustRefused(c: Setting, before: Table, keys: map<nat, nat>, es: seq<Event>, a: nat) returns (more: seq<Event>)
    requires CanBegin(c, before, From(c, before, keys, es), a) && !Listed(c, a)
    ensures var s := From(c, before, keys, es);
            From(c, before, keys, more) ==
              s.(workers := s.workers[a := Created(NextEui(s.devices), 0)], inFlight := s.inFlight + 1, err := true, refused := true)
    ensures Draws(more) == Draws(es) + [NextEui(From(c, before, keys, es).devices)]
  {
    var e := NextEui(From(c, before, keys, es).devices);
    Next(c, before, keys, es, Begin(a, Some(e), Some(0)));
    more := es + [Begin(a, Some(e), Some(0))];
    Next(c, before, keys, more, CallCreate(a, false));
    more := more + [CallCreate(a, false)];
  }

  /** The server refuses a's device, and b's key call succeeds before a looks. */
  lemma RefusedBesideTwo(c: Setting, before: Table, keys: map<nat, nat>, es: seq<Event>, a: nat, b: nat)
    returns (more: seq<Event>)
    requires Pair(c, before, From(c, before, keys, es), a, b) && Listed(c, b)
    ensures var s, e := From(c, before, keys, es), NextEui(From(c, before, keys, es).devices);
            var f := EuiOf(c, s, b);
            From(c, before, keys, more) ==
              s.(workers := s.workers[a := Clearing(e, 0)][b := Keyed(f, 0)], inFlight := 2, err := false, refused := true,
                 keys := (s.keys - {f})[f := 0])
    ensures Draws(more) == Draws(es) + [NextEui(From(c, before, keys, es).devices)]
  {
    DeviceThere(c, before, From(c, before, keys, es), b);
    more := JustRefused(c, before, keys, es, a);
    more := ToKeying(c, before, keys, more, b);
    Next(c, before, keys, more, CallKeys(b, true));
    more := more + [CallKeys(b, true)];
    Next(c, before, keys, more, ReadCreate(a));
    more := more + [ReadCreate(a)];
  }

  /** a's keys are refused too. */
  lemma KeysRefusedBesideTwo(c: Setting, before: Table, keys: map<nat, nat>, es: seq<Event>, a: nat, b: nat)
    returns (more: seq<Event>)
    requires Pair(c, before, From(c, before, keys, es), a, b) && Listed(c, b)
    ensures var s, t := From(c, before, keys, es), From(c, before, keys, more);
            t == s.(workers := s.workers[a := Keyed(NextEui(s.devices), 0)][b := Keyed(EuiOf(c, s, b), 0)], inFlight := 2,
                    err := true, refused := true, keyless := true, keys := t.keys)
    ensures Draws(more) == Draws(es) + [NextEui(From(c, before, keys, es).devices)]
  {
    more := RefusedBesideTwo(c, before, keys, es, a, b);
    Next(c, before, keys, more, CallDelete(a, true));
    more := more + [CallDelete(a, true)];
    Next(c, before, keys, more, CallKeys(a, false));
    more := more + [CallKeys(a, false)];
  }

  /** d's key call succeeds before a looks. */
  lemma KeysBesideTwo(c: Setting, before: Table, keys: map<nat, nat>, es: seq<Event>, a: nat, b: nat, d: nat)
    returns (more: seq<Event>)
    requires Triple(c, before, From(c, before, keys, es), a, b, d)
    ensures var s, t := From(c, before, keys, es), From(c, before, keys, more);
            var e, f, g := NextEui(s.devices), EuiOf(c, s, b), EuiOf(c, s, d);
            t == s.(workers := s.workers[a := Keyed(e, 0)][b := Keyed(f, 0)][d := Keyed(g, 0)], inFlight := 3, err := false,
                    refused := true, keyless := true, keys := t.keys)
    ensures Draws(more) == Draws(es) + [NextEui(From(c, before, keys, es).devices)]
  {
    DeviceThere(c, before, From(c, before, keys, es), d);
    more := KeysRefusedBesideTwo(c, before, keys, es, a, b);
    more := ToKeying(c, before, keys, more, d);
    Next(c, before, keys, more, CallKeys(d, true));
    more := more + [CallKeys(d, true)];
  }

  lemma HiddenBesideTwo(c: Setting, before: Table, keys: map<nat, nat>, es: seq<Event>, a: nat, b: nat, d: nat)
    returns (more: seq<Event>)
    requires Triple(c, before, From(c, before, keys, es), a, b, d)
    ensures Ready(c, before, From(c, before, keys, more))
    ensures From(c, before, keys, more).devices == From(c, before, keys, es).devices
    ensures From(c, before, keys, more).workers[a].Counted?
    ensures Draws(more) == Draws(es) + [NextEui(From(c, before, keys, es).devices)]
  {
    more := KeysBesideTwo(c, before, keys, es, a, b, d);
    Next(c, before, keys, more, ReadKeys(a));
    more := more + [ReadKeys(a)];
    Next(c, before, keys, more, ReadKeys(b));
    more := more + [ReadKeys(b)];
    Next(c, before, keys, more, ReadKeys(d));
    more := more + [ReadKeys(d)];
  }

  /** With fresh draws a refusal is hidden by the answer to one other new name, or by those to two listed ones. */
  lemma FreshRefusalHidden(c: Setting, before: Table, keys: map<nat, nat>, a: nat) returns (es: seq<Event>)
    requires Honest(c, before) && a < |c.names| && IdOf(before, c.app, c.names[a]).None?
    requires |c.names| >= 2 && !BesideOneListed(c)
    ensures FreshDraws(before, es)
    ensures var s := From(c, before, keys, es); s.Succeeded() && IdOf(s.devices, c.app, c.names[a]).None?
  {
    es := LaunchAll(c, before, keys, |c.names|);
    if Listed(c, a) {
      ListedIsKnown(c, before, c.names[a]);
    }
    if b :| 0 <= b < |c.names| && b != a && !Listed(c, b) {
      es := FreshBesideNew(c, before, keys, es, a, b);
    } else {
      es := FreshBesideTwo(c, before, keys, es, a, if a == 0 then 1 else 0, if a <= 1 then 2 else 1);
    }
  }

  lemma FreshBesideNew(c: Setting, before: Table, keys: map<nat, nat>, es: seq<Event>, a: nat, b: nat) returns (more: seq<Event>)
    requires Pair(c, before, From(c, before, keys, es), a, b) && !Listed(c, b)
    requires From(c, before, keys, es).devices == before && Draws(es) == [] && IdOf(before, c.app, c.names[a]).None?
    ensures FreshDraws(before, more)
    ensures var s := From(c, before, keys, more); s.Succeeded() && IdOf(s.devices, c.app, c.names[a]).None?
  {
    var r := Record(NextEui(before) + 1, c.app, c.names[b]);
    IdAppend(before, r, c.app, c.names[a]);
    NextEuiAfter(before, r);
    more := HiddenBesideNew(c, before, keys, es, a, b);
    assert From(c, before, keys, more).devices == before + [r] && From(c, before, keys, more).workers[a].Counted?;
    assert InOrder(before, Draws(more), NextEui(before + [r]));
    more := SoloRest(c, before, keys, more, 0);
    InOrderIsFresh(before, more, NextEui(From(c, before, keys, more).devices));
  }

  lemma FreshBesideTwo(c: Setting, before: Table, keys: map<nat, nat>, es: seq<Event>, a: nat, b: nat, d: nat)
    returns (more: seq<Event>)
    requires Triple(c, before, From(c, before, keys, es), a, b, d)
    requires forall j | 0 <= j < |c.names| && j != a :: Listed(c, j)
    requires From(c, before, keys, es).devices == before && Draws(es) == [] && IdOf(before, c.app, c.names[a]).None?
    ensures FreshDraws(before, more)
    ensures var s := From(c, before, keys, more); s.Succeeded() && IdOf(s.devices, c.app, c.names[a]).None?
  {
    more := HiddenBesideTwo(c, before, keys, es, a, b, d);
    more := ListedRest(c, before, keys, more, 0);
    assert Draws(more) == [NextEui(before)];
  }

  /** When all others are listed, nothing more is drawn and no device is created. */
  lemma {:induction false} ListedRest(c: Setting, before: Table, keys: map<nat, nat>, es: seq<Event>, k: nat)
    returns (more: seq<Event>)
    requires Honest(c, before) && k <= |c.names| && Ready(c, before, From(c, before, keys, es))
    requires forall j | 0 <= j < |c.names| :: j < k ==> From(c, before, keys, es).workers[j].Counted?
    requires forall j | 0 <= j < |c.names| :: Listed(c, j) || From(c, before, keys, es).workers[j].Counted?
    ensures From(c, before, keys, more).Succeeded() && Draws(more) == Draws(es)
    ensures From(c, before, keys, more).devices == From(c, before, keys, es).devices
    decreases |c.names| - k
  {
    if k == |c.names| {
      more := es;
    } else if From(c, before, keys, es).workers[k].Counted? {
      more := ListedRest(c, before, keys, es, k + 1);
    } else {
      more := Solo(c, before, keys, es, k);
      more := ListedRest(c, before, keys, more, k + 1);
    }
  }

  /** There are two names, and the listing shows one of them. */
  predicate BesideOneListed(c: Setting) {
    |c.names| == 2 && (Listed(c, 0) || Listed(c, 1))
  }

  /** Worker b has made its only call whose outcome is looked at. */
  predicate HasCalled(w: Worker) {
    w.Keyed? || w.Counted?
  }

  /** After a refusal: a's EUI is nobody's, and b can hide one outcome of a's but not the next. */
  ghost predicate CannotHide(before: Table, s: Jobs, a: nat, b: nat)
    requires s.At(a) && s.At(b)
  {
    var v, w := s.workers[a], s.workers[b];
    && s.devices == before
    && (v.Created? || v.Clearing? || v.Keying? || v.Keyed?) && !HasEui(before, v.eui)
    && (v.Created? ==> s.err || HasCalled(w))
    && (v.Clearing? || v.Keying? ==> HasCalled(w))
    && (v.Keyed? ==> s.err && HasCalled(w))
  }

  ghost predicate TwoInv(before: Table, s: Jobs, a: nat, b: nat)
    requires s.At(a) && s.At(b)
  {
    var v, w := s.workers[a], s.workers[b];
    && !w.Creating? && !w.Created?
    && (v.Early() ==> s.devices == before && !s.refused)
    && (v.Creating? ==> !HasEui(before, v.eui))
    && (s.refused ==> s.failed || CannotHide(before, s, a, b))
  }

  lemma TwoStep(c: Setting, before: Table, s: Jobs, a: nat, b: nat, e: Event)
    requires |s.workers| == |c.names| == 2 && a < 2 && b < 2 && a != b && !Listed(c, a) && Listed(c, b)
    requires Orderly(s) && TwoInv(before, s, a, b)
    requires e.Begin? && e.eui.Some? ==> !HasEui(before, e.eui.value)
    ensures TwoInv(before, Step(c, s, e), a, b)
  {
    if e.Launch? || e.Begin? {
      TwoBegins(c, before, s, a, b, e);
    } else if e.CallCreate? || e.ReadCreate? {
      TwoCreates(c, before, s, a, b, e);
    } else {
      TwoKeys(c, before, s, a, b, e);
    }
  }

  lemma TwoBegins(c: Setting, before: Table, s: Jobs, a: nat, b: nat, e: Event)
    requires |s.workers| == |c.names| == 2 && a < 2 && b < 2 && a != b && !Listed(c, a) && Listed(c, b)
    requires Orderly(s) && TwoInv(before, s, a, b) && (e.Launch? || e.Begin?)
    requires e.Begin? && e.eui.Some? ==> !HasEui(before, e.eui.value)
    ensures TwoInv(before, Step(c, s, e), a, b)
  {
  }

  lemma TwoCreates(c: Setting, before: Table, s: Jobs, a: nat, b: nat, e: Event)
    requires |s.workers| == |c.names| == 2 && a < 2 && b < 2 && a != b
    requires TwoInv(before, s, a, b) && (e.CallCreate? || e.ReadCreate?)
    ensures TwoInv(before, Step(c, s, e), a, b)
  {
  }

  lemma TwoKeys(c: Setting, before: Table, s: Jobs, a: nat, b: nat, e: Event)
    requires |s.workers| == |c.names| == 2 && a < 2 && b < 2 && a != b
    requires TwoInv(before, s, a, b) && (e.CallDelete? || e.CallKeys? || e.ReadKeys?)
    ensures TwoInv(before, Step(c, s, e), a, b)
  {
  }

  lemma {:induction false} TwoExec(c: Setting, before: Table, keys: map<nat, nat>, es: seq<Event>, a: nat, b: nat)
    requires Honest(c, before) && |c.names| == 2 && a < 2 && b < 2 && a != b && !Listed(c, a) && Listed(c, b)
    requires FreshDraws(before, es)
    ensures TwoInv(before, From(c, before, keys, es), a, b)
  {
    if es != [] {
      var front, last := es[..|es| - 1], es[|es| - 1];
      assert es == front + [last];
      Next(c, before, keys, front, last);
      var draws, some := Draws(es), Draws(front);
      assert forall i | 0 <= i < |some| :: some[i] == draws[i];
      if last.Begin? && last.eui.Some? {
        assert draws[|some|] == last.eui.value;
      }
      TwoExec(c, before, keys, front, a, b);
      AlwaysOrderly(c, before, keys, front);
      TwoStep(c, before, From(c, before, keys, front), a, b, last);
    }
  }

  // ----- exact conditions -----

  ghost predicate Sound(c: Setting, s: Jobs) {
    s.Succeeded() ==> AllKnown(s.devices, c.app, c.names)
  }

  /**
   Whatever the server refuses: a success always means that every name has a device exactly when there is at most one
   name, or every name had a device to begin with.
   */
  lemma TrustedIff(c: Setting, before: Table, keys: map<nat, nat>)
    requires Honest(c, before)
    ensures (forall es :: Sound(c, From(c, before, keys, es))) <==> |c.names| <= 1 || AllKnown(before, c.app, c.names)
  {
    if |c.names| <= 1 || AllKnown(before, c.app, c.names) {
      forall es ensures Sound(c, From(c, before, keys, es)) {
        SuccessMeans(c, before, keys, es);
        forall j | 0 <= j < |c.names|
          ensures IdOf(before, c.app, c.names[j]).Some? ==> IdOf(From(c, before, keys, es).devices, c.app, c.names[j]).Some?
        {
          GrownKeepsIds(before, From(c, before, keys, es).devices, c.app, c.names, c.app, c.names[j]);
        }
      }
    } else {
      var a :| 0 <= a < |c.names| && IdOf(before, c.app, c.names[a]).None?;
      var es := RefusalHidden(c, before, keys, a, if a == 0 then 1 else 0);
      assert !Sound(c, From(c, before, keys, es));
    }
  }

  /**
   The same for EUIs that are drawn fresh. Then the one worker of a listed device cannot hide both outcomes of the one
   worker of a new device, and any two others can.
   */
  lemma FreshTrustedIff(c: Setting, before: Table, keys: map<nat, nat>)
    requires Honest(c, before)
    ensures (forall es | FreshDraws(before, es) :: Sound(c, From(c, before, keys, es)))
       <==> |c.names| <= 1 || AllKnown(before, c.app, c.names) || BesideOneListed(c)
  {
    if |c.names| <= 1 || AllKnown(before, c.app, c.names) {
      TrustedIff(c, before, keys);
    } else if BesideOneListed(c) {
      forall es | FreshDraws(before, es) ensures Sound(c, From(c, before, keys, es)) {
        SoundBesideOne(c, before, keys, es);
      }
    } else {
      var a :| 0 <= a < |c.names| && IdOf(before, c.app, c.names[a]).None?;
      var es := FreshRefusalHidden(c, before, keys, a);
      assert !Sound(c, From(c, before, keys, es));
    }
  }

  lemma SoundBesideOne(c: Setting, before: Table, keys: map<nat, nat>, es: seq<Event>)
    requires Honest(c, before) && BesideOneListed(c) && FreshDraws(before, es)
    ensures Sound(c, From(c, before, keys, es))
  {
    SuccessMeans(c, before, keys, es);
    if !Listed(c, 0) {
      TwoExec(c, before, keys, es, 0, 1);
    } else if !Listed(c, 1) {
      TwoExec(c, before, keys, es, 1, 0);
    }
  }

  ghost predicate KeysSound(c: Setting, s: Jobs, keys: map<nat, nat>)
    requires |s.workers| == |c.names|
  {
    s.Succeeded() ==> KeysRight(c, s, keys)
  }

  /** A success always means that every device has the key that was drawn for it exactly when there is at most one device. */
  lemma KeysTrustedIff(c: Setting, before: Table, keys: map<nat, nat>)
    requires Honest(c, before) && UniqueIds(before)
    ensures (forall es :: KeysSound(c, From(c, before, keys, es), keys)) <==> |c.names| <= 1
  {
    if |c.names| <= 1 {
      forall es ensures KeysSound(c, From(c, before, keys, es), keys) {
        SuccessMeans(c, before, keys, es);
        if From(c, before, keys, es).Succeeded() {
          KeysReplaced(c, before, keys, es);
        }
      }
    } else {
      var es := KeyHidden(c, before, keys, 0, 1);
      assert !KeysSound(c, From(c, before, keys, es), keys);
    }
  }

  /** An application is left alone in every interleaving exactly when the listing shows every name. */
  lemma LeftAloneIff(c: Setting, before: Table, keys: map<nat, nat>)
    requires Honest(c, before)
    ensures (forall es :: From(c, before, keys, es).devices == before) <==> AllListed(c)
  {
    if AllListed(c) {
      forall es ensures From(c, before, keys, es).devices == before {
        SuccessMeans(c, before, keys, es);
      }
    } else {
      var j :| 0 <= j < |c.names| && !Lookup(c.page, c.names[j]).Some?;
      assert !Listed(c, j);
      var es := GoodRun(c, before, keys);
      assert From(c, before, keys, es).devices != before;
    }
  }

  /**
   Names stay unique in every interleaving exactly when no name exists beyond what the listing shows; this is where the
   limit of a hundred records matters.
   */
  lemma StaysUniqueIff(c: Setting, before: Table, keys: map<nat, nat>)
    requires Honest(c, before) && Unique(before)
    ensures (forall es :: Unique(From(c, before, keys, es).devices)) <==> NoneBeyond(c, before)
  {
    if NoneBeyond(c, before) {
      forall es ensures Unique(From(c, before, keys, es).devices) {
        SuccessMeans(c, before, keys, es);
      }
    } else {
      var j :| 0 <= j < |c.names| && !Listed(c, j) && IdOf(before, c.app, c.names[j]).Some?;
      var es := GoodRun(c, before, keys);
      SuccessMeans(c, before, keys, es);
      AddedTwice(before, From(c, before, keys, es).devices, c.app, c.names[j]);
    }
  }

  lemma AddedTwice(before: Table, after: Table, owner: nat, name: string)
    requires before <= after && IdOf(before, owner, name).Some? && AddedAfter(before, after, owner, name)
    ensures !Unique(after)
  {
    KnownIffPresent(before, owner, name);
    var i :| 0 <= i < |before| && before[i].owner == owner && before[i].name == name;
    var k :| |before| <= k < |after| && after[k].owner == owner && after[k].name == name;
    assert after[i] == before[i];
  }
}
