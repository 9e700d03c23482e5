/**
 The goroutines that create the devices of one application, in every interleaving. Each stores the outcome of its
 calls in one error variable that all of them share and reads that variable in a later step, so a worker can read
 the outcome of somebody else's call.
 */
module DeviceWorkers {
  import opened Prelude
  import opened Stores

  const MAX_IN_FLIGHT := 10

  /** A worker between two of its steps: about to make a call, or about to read how the call went. */
  datatype Worker =
    | Unlaunched
    | Waiting
    | Creating(eui: nat, key: nat)
    | Created(eui: nat, key: nat)
    | Clearing(eui: nat, key: nat)
    | Keying(eui: nat, key: nat)
    | Keyed(eui: nat, key: nat)
    | Counted(eui: nat, key: nat)
    | Quit
  {
    predicate InFlight() {
      Creating? || Created? || Clearing? || Keying? || Keyed?
    }

    /** Has not asked for its device yet. */
    predicate Early() {
      Unlaunched? || Waiting? || Creating?
    }

    /** Has a device to its knowledge, or is about to read whether it got one. */
    predicate Late() {
      Created? || Clearing? || Keying? || Keyed? || Counted?
    }

    predicate Over() {
      Unlaunched? || Counted? || Quit?
    }
  }

  /** The application, the names its devices are to have, and what the listing of its devices showed. */
  datatype Setting = Setting(app: nat, names: seq<string>, page: Table)

  /** `refused`: some device was refused; `keyless`: some keys were. */
  datatype Jobs = Jobs(devices: Table, keys: map<nat, nat>, err: bool, failed: bool, broke: bool, launched: nat,
                       inFlight: int, workers: seq<Worker>, count: nat, refused: bool, keyless: bool)
  {
    predicate At(j: nat) {
      j < |workers|
    }

    /** Launching is over and every goroutine has returned. */
    predicate Finished() {
      (launched == |workers| || broke) && forall j | 0 <= j < |workers| :: workers[j].Over()
    }

    predicate Succeeded() {
      Finished() && !failed
    }
  }

  /** `accepted` is the server's answer, `eui` and `key` are what the random source gave. */
  datatype Event =
    | Launch
    | Begin(j: nat, eui: Option<nat>, key: Option<nat>)
    | CallCreate(j: nat, accepted: bool)
    | ReadCreate(j: nat)
    | CallDelete(j: nat, accepted: bool)
    | CallKeys(j: nat, accepted: bool)
    | ReadKeys(j: nat)

  function Start(c: Setting, devices: Table, keys: map<nat, nat>): Jobs {
    Jobs(devices, keys, false, false, false, 0, 0, seq(|c.names|, i => Unlaunched), 0, false, false)
  }

  predicate HasEui(devices: Table, eui: nat) {
    exists i :: 0 <= i < |devices| && devices[i].id == eui
  }

  function Quits(s: Jobs, j: nat): Jobs
    requires s.At(j)
  {
    s.(failed := true, workers := s.workers[j := Quit], inFlight := s.inFlight - 1)
  }

  function OnLaunch(s: Jobs): Jobs {
    if s.broke || s.launched >= |s.workers| then s
    else if s.failed then s.(broke := true)
    else s.(launched := s.launched + 1, workers := s.workers[s.launched := Waiting])
  }

  function OnBegin(c: Setting, s: Jobs, j: nat, eui: Option<nat>, key: Option<nat>): Jobs
    requires s.At(j) && |s.workers| == |c.names|
  {
    if !s.workers[j].Waiting? || s.inFlight >= MAX_IN_FLIGHT then s
    else if s.failed then s.(workers := s.workers[j := Quit])
    else
      var listed := Lookup(c.page, c.names[j]);
      var id := if listed.Some? then listed else eui;
      if id.None? || key.None? then s.(failed := true, workers := s.workers[j := Quit])
      else
        s.(inFlight := s.inFlight + 1,
           workers := s.workers[j := if listed.Some? then Clearing(id.value, key.value) else Creating(id.value, key.value)])
  }

  /** The server refuses a device whose EUI is taken. */
  function OnCallCreate(c: Setting, s: Jobs, j: nat, accepted: bool): Jobs
    requires s.At(j) && |s.workers| == |c.names|
  {
    if !s.workers[j].Creating? then s
    else
      var w := s.workers[j];
      var ok := accepted && !HasEui(s.devices, w.eui);
      s.(err := !ok, refused := s.refused || !ok, workers := s.workers[j := Created(w.eui, w.key)],
         devices := if ok then s.devices + [Record(w.eui, c.app, c.names[j])] else s.devices)
  }

  function OnReadCreate(s: Jobs, j: nat): Jobs
    requires s.At(j)
  {
    if !s.workers[j].Created? then s
    else if s.err then Quits(s, j)
    else s.(workers := s.workers[j := Clearing(s.workers[j].eui, s.workers[j].key)])
  }

  /** The outcome of deleting the old keys is not looked at. */
  function OnCallDelete(s: Jobs, j: nat, accepted: bool): Jobs
    requires s.At(j)
  {
    if !s.workers[j].Clearing? then s
    else
      var w := s.workers[j];
      s.(keys := if accepted then s.keys - {w.eui} else s.keys, workers := s.workers[j := Keying(w.eui, w.key)])
  }

  /** The server refuses keys for a device it does not know, or that has keys. */
  function OnCallKeys(s: Jobs, j: nat, accepted: bool): Jobs
    requires s.At(j)
  {
    if !s.workers[j].Keying? then s
    else
      var w := s.workers[j];
      var ok := accepted && HasEui(s.devices, w.eui) && w.eui !in s.keys;
      s.(err := !ok, keyless := s.keyless || !ok, workers := s.workers[j := Keyed(w.eui, w.key)],
         keys := if ok then s.keys[w.eui := w.key] else s.keys)
  }

  function OnReadKeys(s: Jobs, j: nat): Jobs
    requires s.At(j)
  {
    if !s.workers[j].Keyed? then s
    else if s.err then Quits(s, j)
    else s.(count := s.count + 1, workers := s.workers[j := Counted(s.workers[j].eui, s.workers[j].key)], inFlight := s.inFlight - 1)
  }

  /** An event that is not enabled changes nothing, so every list of events is an interleaving. */
  function Step(c: Setting, s: Jobs, e: Event): Jobs
    requires |s.workers| == |c.names|
  {
    if e.Launch? then OnLaunch(s)
    else if !s.At(e.j) then s
    else
      match e
      case Begin(j, eui, key) => OnBegin(c, s, j, eui, key)
      case CallCreate(j, accepted) => OnCallCreate(c, s, j, accepted)
      case ReadCreate(j) => OnReadCreate(s, j)
      case CallDelete(j, accepted) => OnCallDelete(s, j, accepted)
      case CallKeys(j, accepted) => OnCallKeys(s, j, accepted)
      case ReadKeys(j) => OnReadKeys(s, j)
  }

  function Exec(c: Setting, s: Jobs, es: seq<Event>): (t: Jobs)
    requires |s.workers| == |c.names|
    ensures |t.workers| == |c.names|
  {
    if es == [] then s else Step(c, Exec(c, s, es[..|es| - 1]), es[|es| - 1])
  }

  // ----- what every interleaving keeps -----

  function Tally(workers: seq<Worker>, f: Worker -> bool): (n: nat)
    ensures n <= |workers|
  {
    if workers == [] then 0
    else Tally(workers[..|workers| - 1], f) + if f(workers[|workers| - 1]) then 1 else 0
  }

  lemma {:induction false} TallyUpdate(workers: seq<Worker>, f: Worker -> bool, j: nat, w: Worker)
    requires j < |workers|
    ensures Tally(workers[j := w], f)
         == Tally(workers, f) - (if f(workers[j]) then 1 else 0) + if f(w) then 1 else 0
  {
    var front := workers[..|workers| - 1];
    if j < |front| {
      TallyUpdate(front, f, j, w);
      assert workers[j := w][..|workers| - 1] == front[j := w];
    } else {
      assert workers[j := w][..|workers| - 1] == front;
    }
  }

  lemma {:induction false} TallyAll(workers: seq<Worker>, f: Worker -> bool)
    ensures (forall j | 0 <= j < |workers| :: f(workers[j])) ==> Tally(workers, f) == |workers|
    ensures (forall j | 0 <= j < |workers| :: !f(workers[j])) ==> Tally(workers, f) == 0
  {
    if workers != [] {
      TallyAll(workers[..|workers| - 1], f);
    }
  }

  predicate IsCounted(w: Worker) {
    w.Counted?
  }

  predicate IsInFlight(w: Worker) {
    w.InFlight()
  }

  /** Launched in order; nobody quits unless the run has failed; the counters count the workers. */
  ghost predicate Orderly(s: Jobs) {
    && s.launched <= |s.workers|
    && (forall j | 0 <= j < |s.workers| :: s.workers[j].Unlaunched? <==> s.launched <= j)
    && (s.broke || (exists j :: 0 <= j < |s.workers| && s.workers[j].Quit?) ==> s.failed)
    && s.count == Tally(s.workers, IsCounted)
    && s.inFlight == Tally(s.workers, IsInFlight) <= 10
  }

  function One(b: bool): int {
    if b then 1 else 0
  }

  /** Only worker j moved, and the counters moved with it. */
  ghost predicate Tallied(s: Jobs, t: Jobs, j: nat) {
    && s.At(j) && |t.workers| == |s.workers| && t.workers == s.workers[j := t.workers[j]]
    && (s.failed ==> t.failed) && t.broke == s.broke
    && var v, w := s.workers[j], t.workers[j];
       && t.count == s.count + One(w.Counted?) - One(v.Counted?)
       && t.inFlight == s.inFlight + One(w.InFlight()) - One(v.InFlight()) <= MAX_IN_FLIGHT
       && (w.Quit? ==> t.failed)
       && (if v.Unlaunched? then !w.Unlaunched? && s.launched == j && t.launched == j + 1
           else !w.Unlaunched? && t.launched == s.launched)
  }

  /** No worker moved; launching may have stopped because of a failure. */
  ghost predicate Still(s: Jobs, t: Jobs) {
    && t.workers == s.workers && t.count == s.count && t.inFlight == s.inFlight && t.launched == s.launched
    && t.failed == s.failed && (t.broke ==> s.broke || s.failed)
  }

  lemma OrderlyMove(s: Jobs, t: Jobs, j: nat)
    requires Orderly(s) && Tallied(s, t, j)
    ensures Orderly(t)
  {
    TallyUpdate(s.workers, IsCounted, j, t.workers[j]);
    TallyUpdate(s.workers, IsInFlight, j, t.workers[j]);
  }

  lemma BeginTallies(c: Setting, s: Jobs, e: Event)
    requires |s.workers| == |c.names| && Orderly(s) && (e.Launch? || e.Begin?)
    ensures Still(s, Step(c, s, e)) || Tallied(s, Step(c, s, e), if e.Launch? then s.launched else e.j)
  {
  }

  lemma CreateTallies(c: Setting, s: Jobs, e: Event)
    requires |s.workers| == |c.names| && Orderly(s) && (e.CallCreate? || e.ReadCreate?)
    ensures Still(s, Step(c, s, e)) || Tallied(s, Step(c, s, e), e.j)
  {
  }

  lemma KeyTallies(c: Setting, s: Jobs, e: Event)
    requires |s.workers| == |c.names| && Orderly(s)
    requires e.CallDelete? || e.CallKeys? || e.ReadKeys?
    ensures Still(s, Step(c, s, e)) || Tallied(s, Step(c, s, e), e.j)
  {
  }

  lemma OrderlyStep(c: Setting, s: Jobs, e: Event)
    requires |s.workers| == |c.names| && Orderly(s)
    ensures Orderly(Step(c, s, e))
  {
    var t := Step(c, s, e);
    if e.CallDelete? || e.CallKeys? || e.ReadKeys? {
      KeyTallies(c, s, e);
    } else if e.CallCreate? || e.ReadCreate? {
      CreateTallies(c, s, e);
    } else {
      BeginTallies(c, s, e);
    }
    if !Still(s, t) {
      OrderlyMove(s, t, if e.Launch? then s.launched else e.j);
    }
  }

  /** The listing is empty (it may have failed) or the first page. */
  ghost predicate Honest(c: Setting, before: Table) {
    Distinct(c.names) && (c.page == [] || c.page == FirstPage(Owned(before, c.app)))
  }

  /** What is known of name j, by how far its worker is. */
  ghost predicate NameAt(c: Setting, before: Table, s: Jobs, j: nat)
    requires j < |c.names| == |s.workers|
  {
    var w, listed, id := s.workers[j], Lookup(c.page, c.names[j]), IdOf(s.devices, c.app, c.names[j]);
    && (w.Early() ==> id == IdOf(before, c.app, c.names[j]))
    && (w.Creating? ==> listed.None?)
    && (w.Late() ==> s.refused || id.Some?)
  }

  /** Every name in the listing. */
  ghost predicate AllListed(c: Setting) {
    forall j | 0 <= j < |c.names| :: Lookup(c.page, c.names[j]).Some?
  }

  /** No name that the listing does not show exists beyond what it shows. */
  ghost predicate NoneBeyond(c: Setting, before: Table) {
    forall j | 0 <= j < |c.names| :: Lookup(c.page, c.names[j]).Some? || IdOf(before, c.app, c.names[j]).None?
  }

  ghost predicate Kept(c: Setting, before: Table, s: Jobs)
    requires |s.workers| == |c.names|
  {
    && Grown(before, s.devices, c.app, c.names)
    && (forall j | 0 <= j < |c.names| :: NameAt(c, before, s, j))
    && (NoneBeyond(c, before) && Unique(before) ==> Unique(s.devices))
    && (AllListed(c) ==> s.devices == before && !s.refused)
    && (|c.names| <= 1 && s.refused ==> s.failed || (|c.names| == 1 && s.workers[0].Created? && s.err))
    && (|c.names| <= 1 && s.keyless ==> s.failed || (|c.names| == 1 && s.workers[0].Keyed? && s.err))
  }

  lemma {:induction false} LookupPrefix(records: Table, k: nat, name: string)
    requires k <= |records| && Lookup(records[..k], name).Some?
    ensures Lookup(records, name) == Lookup(records[..k], name)
  {
    if k > 0 && records[0].name != name {
      assert records[..k][1..] == records[1..][..k - 1];
      LookupPrefix(records[1..], k - 1, name);
    }
  }

  lemma ListedIsKnown(c: Setting, before: Table, name: string)
    requires Honest(c, before) && Lookup(c.page, name).Some?
    ensures IdOf(before, c.app, name).Some?
  {
    var all := Owned(before, c.app);
    assert all[..|all|] == all;
    LookupPrefix(all, |c.page|, name);
  }

  lemma CreateKeeps(c: Setting, before: Table, s: Jobs, j: nat, accepted: bool)
    requires Honest(c, before) && |s.workers| == |c.names| && s.At(j) && s.workers[j].Creating? && Kept(c, before, s)
    ensures Kept(c, before, OnCallCreate(c, s, j, accepted))
  {
    var t, r := OnCallCreate(c, s, j, accepted), Record(s.workers[j].eui, c.app, c.names[j]);
    assert NameAt(c, before, s, j);
    if t.devices != s.devices {
      UniqueAppendIf(s.devices, r);
      forall k | 0 <= k < |c.names| ensures NameAt(c, before, t, k) {
        assert NameAt(c, before, s, k) && (k != j ==> c.names[k] != c.names[j]);
        IdAppend(s.devices, r, c.app, c.names[k]);
      }
    } else {
      forall k | 0 <= k < |c.names| ensures NameAt(c, before, t, k) {
        assert NameAt(c, before, s, k);
      }
    }
  }

  lemma UniqueAppendIf(table: Table, r: Record)
    ensures Unique(table) && IdOf(table, r.owner, r.name).None? ==> Unique(table + [r])
  {
    if Unique(table) {
      UniqueAppend(table, r);
    }
  }

  /** Worker j moved, nothing was created, and whoever read an error made the run fail. */
  ghost predicate Moved(c: Setting, s: Jobs, t: Jobs, j: nat)
    requires |s.workers| == |c.names|
  {
    && s.At(j) && |t.workers| == |s.workers| && t.workers == s.workers[j := t.workers[j]]
    && t.devices == s.devices && t.refused == s.refused && (s.failed ==> t.failed)
    && (s.keyless ==> t.keyless) && (t.keyless ==> s.keyless || (t.workers[j].Keyed? && t.err))
    && var v, w, listed := s.workers[j], t.workers[j], Lookup(c.page, c.names[j]);
       && (w.Early() ==> v.Early())
       && (w.Creating? ==> v.Creating? || listed.None?)
       && (w.Late() ==> v.Late() || (v.Early() && listed.Some?))
       && ((v.Created? || v.Keyed?) && s.err && v != w ==> t.failed)
       && (!t.err && s.err ==> !v.Created? && !v.Keyed?)
  }

  lemma EarlyMoves(c: Setting, s: Jobs, e: Event)
    requires |s.workers| == |c.names| && Orderly(s) && (e.Launch? || e.Begin?)
    ensures var j := if e.Launch? then s.launched else e.j;
            s.At(j) ==> Moved(c, s, Step(c, s, e), j)
  {
  }

  lemma LateMoves(c: Setting, s: Jobs, e: Event)
    requires |s.workers| == |c.names| && !e.Launch? && !e.Begin?
    ensures s.At(e.j) && !(e.CallCreate? && s.workers[e.j].Creating?) ==> Moved(c, s, Step(c, s, e), e.j)
  {
  }

  lemma MoveKeeps(c: Setting, before: Table, s: Jobs, t: Jobs, j: nat)
    requires Honest(c, before) && |s.workers| == |c.names| && Kept(c, before, s) && Moved(c, s, t, j)
    ensures Kept(c, before, t)
  {
    assert NameAt(c, before, s, j);
    if Lookup(c.page, c.names[j]).Some? {
      ListedIsKnown(c, before, c.names[j]);
    }
    forall k | 0 <= k < |c.names| ensures NameAt(c, before, t, k) {
      assert NameAt(c, before, s, k);
    }
  }

  lemma KeptStep(c: Setting, before: Table, s: Jobs, e: Event)
    requires Honest(c, before) && |s.workers| == |c.names| && Orderly(s) && Kept(c, before, s)
    ensures Kept(c, before, Step(c, s, e))
  {
    var j := if e.Launch? then s.launched else e.j;
    if s.At(j) {
      if e.CallCreate? && s.workers[j].Creating? {
        CreateKeeps(c, before, s, j, e.accepted);
      } else {
        if e.Launch? || e.Begin? {
          EarlyMoves(c, s, e);
        } else {
          LateMoves(c, s, e);
        }
        MoveKeeps(c, before, s, Step(c, s, e), j);
      }
    }
  }

  lemma {:induction false} Always(c: Setting, before: Table, keys: map<nat, nat>, es: seq<Event>)
    requires Honest(c, before)
    ensures Orderly(Exec(c, Start(c, before, keys), es))
    ensures Kept(c, before, Exec(c, Start(c, before, keys), es))
  {
    var start := Start(c, before, keys);
    if es == [] {
      TallyAll(start.workers, IsCounted);
      TallyAll(start.workers, IsInFlight);
    } else {
      Always(c, before, keys, es[..|es| - 1]);
      var s := Exec(c, start, es[..|es| - 1]);
      OrderlyStep(c, s, es[|es| - 1]);
      KeptStep(c, before, s, es[|es| - 1]);
    }
  }

  // ----- what a success means -----

  ghost predicate AllKnown(devices: Table, app: nat, names: seq<string>) {
    forall j | 0 <= j < |names| :: IdOf(devices, app, names[j]).Some?
  }

  /**
   Whatever the interleaving and whichever calls failed: a success reports one device for every name, only adds
   records of those names, and leaves an application that the listing showed in full as it was. Every name is known
   unless the server refused a device and there was another worker to hide it.
   */
  lemma SuccessMeans(c: Setting, before: Table, keys: map<nat, nat>, es: seq<Event>)
    requires Honest(c, before)
    ensures var s := Exec(c, Start(c, before, keys), es);
            && Grown(before, s.devices, c.app, c.names)
            && (NoneBeyond(c, before) && Unique(before) ==> Unique(s.devices))
            && (AllListed(c) ==> s.devices == before && !s.refused)
            && (s.Succeeded() ==> s.count == |c.names|)
            && (s.Succeeded() && (!s.refused || |c.names| <= 1) ==> AllKnown(s.devices, c.app, c.names))
            && (s.Succeeded() && |c.names| <= 1 ==> !s.refused && !s.keyless)
  {
    var s := Exec(c, Start(c, before, keys), es);
    Always(c, before, keys, es);
    if s.Succeeded() {
      assert forall j | 0 <= j < |s.workers| :: IsCounted(s.workers[j]);
      TallyAll(s.workers, IsCounted);
      forall j | 0 <= j < |c.names| && (!s.refused || |c.names| <= 1) ensures IdOf(s.devices, c.app, c.names[j]).Some? {
        assert NameAt(c, before, s, j);
      }
    }
  }

  lemma Last(c: Setting, s: Jobs, es: seq<Event>, e: Event)
    requires |s.workers| == |c.names|
    ensures Exec(c, s, es + [e]) == Step(c, Exec(c, s, es), e)
  {
    assert (es + [e])[..|es|] == es;
  }

  // ----- keys -----

  predicate Holds(devices: Table, app: nat, name: string, eui: nat) {
    Record(eui, app, name) in devices
  }

  ghost predicate UniqueIds(devices: Table) {
    forall i, j | 0 <= i < j < |devices| :: devices[i].id != devices[j].id
  }

  /** The worker's EUI is that of its device; past the key call the device has the key that was drawn. */
  ghost predicate KeyAt(c: Setting, s: Jobs, j: nat)
    requires j < |c.names| == |s.workers|
  {
    var w := s.workers[j];
    && (w.Late() ==> Holds(s.devices, c.app, c.names[j], w.eui))
    && (w.Keyed? || w.Counted? ==> w.eui in s.keys && s.keys[w.eui] == w.key)
  }

  /** A device of this application with one of the names. */
  ghost predicate Theirs(c: Setting, s: Jobs, eui: nat) {
    exists j :: 0 <= j < |c.names| && Holds(s.devices, c.app, c.names[j], eui)
  }

  ghost predicate SameKey(keys: map<nat, nat>, before: map<nat, nat>, eui: nat) {
    if eui in before then eui in keys && keys[eui] == before[eui] else eui !in keys
  }

  /** As long as the server refuses nothing. */
  ghost predicate KeysInOrder(c: Setting, s: Jobs, keys: map<nat, nat>)
    requires |s.workers| == |c.names|
  {
    && UniqueIds(s.devices)
    && (forall j | 0 <= j < |c.names| :: KeyAt(c, s, j))
    && (forall e: nat :: Theirs(c, s, e) || SameKey(s.keys, keys, e))
  }

  lemma {:induction false} LookupHolds(records: Table, name: string)
    ensures Lookup(records, name).Some? ==>
              exists i :: 0 <= i < |records| && records[i].name == name && records[i].id == Lookup(records, name).value
  {
    if records != [] && records[0].name != name {
      LookupHolds(records[1..], name);
      if Lookup(records, name).Some? {
        var i :| 0 <= i < |records| - 1 && records[1..][i].name == name && records[1..][i].id == Lookup(records, name).value;
        assert records[i + 1] == records[1..][i];
      }
    }
  }

  lemma {:induction false} OwnedAreThere(table: Table, owner: nat, r: Record)
    requires r in Owned(table, owner)
    ensures r in table && r.owner == owner
  {
    if table[|table| - 1] != r || r.owner != owner {
      OwnedAreThere(table[..|table| - 1], owner, r);
    }
  }

  lemma ListedHolds(c: Setting, before: Table, name: string)
    requires Honest(c, before) && Lookup(c.page, name).Some?
    ensures Holds(before, c.app, name, Lookup(c.page, name).value)
  {
    LookupHolds(c.page, name);
    var i :| 0 <= i < |c.page| && c.page[i].name == name && c.page[i].id == Lookup(c.page, name).value;
    assert c.page[i] in Owned(before, c.app);
    OwnedAreThere(before, c.app, c.page[i]);
  }

  /** Two of the names never share a device. */
  lemma OwnEui(c: Setting, devices: Table, j: nat, k: nat, eui: nat)
    requires Distinct(c.names) && UniqueIds(devices) && j < |c.names| && k < |c.names| && j != k
    requires Holds(devices, c.app, c.names[j], eui)
    ensures !Holds(devices, c.app, c.names[k], eui)
  {
  }

  lemma CreateKeys(c: Setting, s: Jobs, keys: map<nat, nat>, j: nat, accepted: bool)
    requires |s.workers| == |c.names| && s.At(j) && s.workers[j].Creating? && KeysInOrder(c, s, keys)
    requires !OnCallCreate(c, s, j, accepted).refused
    ensures KeysInOrder(c, OnCallCreate(c, s, j, accepted), keys)
  {
    var t := OnCallCreate(c, s, j, accepted);
    forall i | 0 <= i < |s.devices| ensures s.devices[i].id != s.workers[j].eui {}
    forall k | 0 <= k < |c.names| ensures KeyAt(c, t, k) {
      assert KeyAt(c, s, k);
    }
    forall e: nat ensures Theirs(c, t, e) || SameKey(t.keys, keys, e) {
      if Theirs(c, s, e) {
        var k :| 0 <= k < |c.names| && Holds(s.devices, c.app, c.names[k], e);
        assert Holds(t.devices, c.app, c.names[k], e);
      }
    }
  }

  /** Worker j moved from one place to the next, and touched at most the keys of its own device. */
  lemma MoveKeys(c: Setting, s: Jobs, t: Jobs, keys: map<nat, nat>, j: nat)
    requires Distinct(c.names) && |s.workers| == |c.names| && s.At(j) && KeysInOrder(c, s, keys)
    requires KeyMoved(c, s, t, j)
    ensures KeysInOrder(c, t, keys)
  {
    forall k | 0 <= k < |c.names| ensures KeyAt(c, t, k) {
      assert KeyAt(c, s, k) && KeyAt(c, s, j);
      if k != j && t.keys != s.keys && s.workers[k].Late() {
        OwnEui(c, s.devices, j, k, s.workers[j].eui);
        assert SameKey(t.keys, s.keys, s.workers[k].eui);
      }
    }
    assert KeyAt(c, s, j);
    forall e: nat ensures Theirs(c, t, e) || SameKey(t.keys, keys, e) {
      if Theirs(c, s, e) {
        var k :| 0 <= k < |c.names| && Holds(s.devices, c.app, c.names[k], e);
        assert Holds(t.devices, c.app, c.names[k], e);
      } else {
        assert SameKey(s.keys, keys, e);
        assert t.keys != s.keys ==> e != s.workers[j].eui && SameKey(t.keys, s.keys, e);
      }
    }
  }

  /** What MoveKeys asks of a step. */
  ghost predicate KeyMoved(c: Setting, s: Jobs, t: Jobs, j: nat)
    requires |s.workers| == |c.names|
  {
    && s.At(j) && |t.workers| == |s.workers| && t.workers == s.workers[j := t.workers[j]] && t.devices == s.devices
    && KeyAt(c, t, j)
    && (t.keys == s.keys || (s.workers[j].Late() && forall e | e != s.workers[j].eui :: SameKey(t.keys, s.keys, e)))
  }

  lemma EarlyKeys(c: Setting, s: Jobs, e: Event, j: nat)
    requires |s.workers| == |c.names| && Orderly(s) && (e.Launch? || e.Begin?)
    requires j == (if e.Launch? then s.launched else e.j) && s.At(j) && KeyAt(c, s, j)
    requires var listed := Lookup(c.page, c.names[j]); listed.Some? ==> Holds(s.devices, c.app, c.names[j], listed.value)
    ensures KeyMoved(c, s, Step(c, s, e), j)
  {
  }

  lemma CallMovesKeys(c: Setting, s: Jobs, e: Event)
    requires |s.workers| == |c.names| && (e.CallDelete? || e.CallKeys?) && !Step(c, s, e).keyless
    requires s.At(e.j) && KeyAt(c, s, e.j)
    ensures KeyMoved(c, s, Step(c, s, e), e.j)
  {
    if e.CallDelete? {
      assert Step(c, s, e) == OnCallDelete(s, e.j, e.accepted);
    } else {
      assert Step(c, s, e) == OnCallKeys(s, e.j, e.accepted);
    }
  }

  lemma ReadMovesKeys(c: Setting, s: Jobs, e: Event)
    requires |s.workers| == |c.names| && (e.CallCreate? || e.ReadCreate? || e.ReadKeys?)
    requires s.At(e.j) && !(e.CallCreate? && s.workers[e.j].Creating?) && KeyAt(c, s, e.j)
    ensures KeyMoved(c, s, Step(c, s, e), e.j)
  {
  }

  lemma KeyedStep(c: Setting, before: Table, s: Jobs, keys: map<nat, nat>, e: Event)
    requires Honest(c, before) && |s.workers| == |c.names| && Orderly(s) && before <= s.devices && KeysInOrder(c, s, keys)
    requires !Step(c, s, e).refused && !Step(c, s, e).keyless
    ensures KeysInOrder(c, Step(c, s, e), keys)
  {
    var t, j := Step(c, s, e), if e.Launch? then s.launched else e.j;
    if s.At(j) {
      assert KeyAt(c, s, j);
      if e.CallCreate? && s.workers[j].Creating? {
        CreateKeys(c, s, keys, j, e.accepted);
      } else {
        if e.Launch? || e.Begin? {
          if Lookup(c.page, c.names[j]).Some? {
            ListedHolds(c, before, c.names[j]);
          }
          EarlyKeys(c, s, e, j);
        } else if e.CallDelete? || e.CallKeys? {
          CallMovesKeys(c, s, e);
        } else {
          ReadMovesKeys(c, s, e);
        }
        MoveKeys(c, s, t, keys, j);
      }
    }
  }

  lemma AlwaysOrderly(c: Setting, before: Table, keys: map<nat, nat>, es: seq<Event>)
    requires Honest(c, before)
    ensures Orderly(Exec(c, Start(c, before, keys), es)) && before <= Exec(c, Start(c, before, keys), es).devices
  {
    Always(c, before, keys, es);
  }

  lemma NothingRefused(c: Setting, s: Jobs, e: Event)
    requires |s.workers| == |c.names|
    ensures s.refused ==> Step(c, s, e).refused
    ensures s.keyless ==> Step(c, s, e).keyless
  {
  }

  lemma {:induction false} KeyedExec(c: Setting, before: Table, keys: map<nat, nat>, es: seq<Event>)
    requires Honest(c, before) && UniqueIds(before)
    requires !Exec(c, Start(c, before, keys), es).refused && !Exec(c, Start(c, before, keys), es).keyless
    ensures KeysInOrder(c, Exec(c, Start(c, before, keys), es), keys)
  {
    if es != [] {
      var front := es[..|es| - 1];
      var s := Exec(c, Start(c, before, keys), front);
      NothingRefused(c, s, es[|es| - 1]);
      KeyedExec(c, before, keys, front);
      AlwaysOrderly(c, before, keys, front);
      KeyedStep(c, before, s, keys, es[|es| - 1]);
    }
  }

  /** Every name has a device whose key is the one its goroutine drew, and the keys of all other devices are as they were. */
  ghost predicate KeysRight(c: Setting, s: Jobs, keys: map<nat, nat>)
    requires |s.workers| == |c.names|
  {
    && (forall j | 0 <= j < |c.names| ::
          s.workers[j].Counted? && Holds(s.devices, c.app, c.names[j], s.workers[j].eui)
          && s.workers[j].eui in s.keys && s.keys[s.workers[j].eui] == s.workers[j].key)
    && (forall e: nat :: Theirs(c, s, e) || SameKey(s.keys, keys, e))
  }

  /** A success in which the server refused nothing. */
  lemma KeysReplaced(c: Setting, before: Table, keys: map<nat, nat>, es: seq<Event>)
    requires Honest(c, before) && UniqueIds(before)
    requires var s := Exec(c, Start(c, before, keys), es); s.Succeeded() && !s.refused && !s.keyless
    ensures KeysRight(c, Exec(c, Start(c, before, keys), es), keys)
  {
    Always(c, before, keys, es);
    KeyedExec(c, before, keys, es);
    var s := Exec(c, Start(c, before, keys), es);
    forall j | 0 <= j < |c.names| ensures s.workers[j].Counted? && KeyAt(c, s, j) {}
  }

  // ----- what a worker works with, and what a failure stops -----

  /** The worker has an EUI and a key. */
  predicate Equipped(w: Worker) {
    w.InFlight() || w.Counted?
  }

  /** Worker j began with this key, and with this EUI unless the listing gave it. */
  ghost predicate BeganWith(c: Setting, es: seq<Event>, j: nat, eui: nat, key: nat)
    requires j < |c.names|
  {
    exists i | 0 <= i < |es| ::
      && es[i].Begin? && es[i].j == j && es[i].key == Some(key)
      && (if Lookup(c.page, c.names[j]).Some? then eui == Lookup(c.page, c.names[j]).value else es[i].eui == Some(eui))
  }

  lemma EquippedStep(c: Setting, s: Jobs, e: Event, j: nat)
    requires |s.workers| == |c.names| && j < |c.names|
    ensures var v, w := s.workers[j], Step(c, s, e).workers[j];
            Equipped(w) ==>
              || (Equipped(v) && w.eui == v.eui && w.key == v.key)
              || BeganWith(c, [e], j, w.eui, w.key)
  {
    if e.Begin? && e.j == j {
      assert [e][0] == e;
    }
  }

  /** In every interleaving a worker works with the key it drew, and with the EUI it drew unless its device was listed. */
  lemma {:induction false} WorksWithDraws(c: Setting, before: Table, keys: map<nat, nat>, es: seq<Event>, j: nat)
    requires j < |c.names|
    ensures var w := Exec(c, Start(c, before, keys), es).workers[j];
            Equipped(w) ==> BeganWith(c, es, j, w.eui, w.key)
  {
    if es != [] {
      var front, last := es[..|es| - 1], es[|es| - 1];
      WorksWithDraws(c, before, keys, front, j);
      EquippedStep(c, Exec(c, Start(c, before, keys), front), last, j);
      var w := Exec(c, Start(c, before, keys), es).workers[j];
      if Equipped(w) {
        BeganMore(c, front, last, j, w.eui, w.key);
      }
    }
  }

  lemma BeganMore(c: Setting, front: seq<Event>, last: Event, j: nat, eui: nat, key: nat)
    requires j < |c.names| && (BeganWith(c, front, j, eui, key) || BeganWith(c, [last], j, eui, key))
    ensures BeganWith(c, front + [last], j, eui, key)
  {
    var es := front + [last];
    if BeganWith(c, front, j, eui, key) {
      var i :| 0 <= i < |front| && front[i].Begin? && front[i].j == j && front[i].key == Some(key)
               && (if Lookup(c.page, c.names[j]).Some? then eui == Lookup(c.page, c.names[j]).value else front[i].eui == Some(eui));
      assert es[i] == front[i];
    } else {
      assert es[|front|] == last;
    }
  }

  /** After a failure no goroutine is launched and none that has not begun makes a call. */
  lemma {:induction false} FailureStops(c: Setting, s: Jobs, es: seq<Event>, j: nat)
    requires |s.workers| == |c.names| && s.failed && j < |c.names|
    ensures var t := Exec(c, s, es);
            t.failed && t.launched == s.launched && (!s.workers[j].InFlight() ==> !t.workers[j].InFlight())
  {
    if es != [] {
      FailureStops(c, s, es[..|es| - 1], j);
      FailedStep(c, Exec(c, s, es[..|es| - 1]), es[|es| - 1], j);
    }
  }

  lemma FailedStep(c: Setting, s: Jobs, e: Event, j: nat)
    requires |s.workers| == |c.names| && s.failed && j < |c.names|
    ensures var t := Step(c, s, e);
            t.failed && t.launched == s.launched && (!s.workers[j].InFlight() ==> !t.workers[j].InFlight())
  {
  }
}
