/** Passive synchronization: snapshots are compared, differences stay pending until dismissed. */
module PassiveSync {
  import opened Prelude

  datatype Entity = Tenant | GatewayEntity | DeviceProfile | Application | DeviceEntity

  datatype Snapshot = Snapshot(
    tenantIds: seq<string>, gatewayEuis: seq<string>, deviceProfileIds: seq<string>,
    applicationIds: seq<string>, deviceEuis: seq<string>)
  {
    function Ids(e: Entity): seq<string> {
      match e
      case Tenant => tenantIds
      case GatewayEntity => gatewayEuis
      case DeviceProfile => deviceProfileIds
      case Application => applicationIds
      case DeviceEntity => deviceEuis
    }
  }

  /** One message: tenants and gateways are listed, the other entities only counted. */
  datatype Change = Listed(entity: Entity, added: bool, ids: seq<string>) | Counted(entity: Entity, added: bool, count: nat)

  function Elems(s: seq<string>): set<string> {
    set x | x in s
  }

  ghost predicate Distinct(s: seq<string>) {
    forall i, j | 0 <= i < j < |s| :: s[i] != s[j]
  }

  /** `diff` lists, without repeats and in some order, the ids of `here` that are not in `there`. */
  ghost predicate ListsDifference(diff: seq<string>, here: seq<string>, there: seq<string>) {
    Distinct(diff) && Elems(diff) == Elems(here) - Elems(there)
  }

  method SetOf(s: seq<string>) returns (m: set<string>)
    ensures m == Elems(s)
  {
    m := {};
    for i := 0 to |s|
      invariant m == Elems(s[..i])
    {
      m := m + {s[i]};
    }
    assert s[..|s|] == s;
  }

  /** Walks a Go map, so the order of the result is not determined. */
  method Missing(here: set<string>, there: set<string>) returns (diff: seq<string>)
    ensures Distinct(diff) && Elems(diff) == here - there
  {
    diff := [];
    var rest := here;
    while rest != {}
      invariant rest <= here
      invariant Elems(diff) == (here - rest) - there
      invariant Distinct(diff)
      decreases rest
    {
      var v :| v in rest;
      rest := rest - {v};
      if v !in there {
        assert v !in Elems(diff) && Elems(diff + [v]) == Elems(diff) + {v};
        diff := diff + [v];
      }
    }
  }

  method DiffSlices(before: seq<string>, after: seq<string>) returns (added: seq<string>, removed: seq<string>)
    ensures ListsDifference(added, after, before) && ListsDifference(removed, before, after)
  {
    var oldSet := SetOf(before);
    var newSet := SetOf(after);
    added := Missing(newSet, oldSet);
    removed := Missing(oldSet, newSet);
  }

  /** The size of a repeat-free list is the size of its set. */
  lemma {:induction false} DistinctSize(s: seq<string>)
    requires Distinct(s)
    ensures |Elems(s)| == |s|
  {
    if s != [] {
      var front := s[..|s| - 1];
      DistinctSize(front);
      assert s[|s| - 1] !in front;
      assert Elems(s) == Elems(front) + {s[|s| - 1]};
    }
  }

  /** A diff loses nothing: taking the removed ids from the old set and adding the added ones gives the new set. */
  lemma DiffRestores(before: seq<string>, after: seq<string>, added: seq<string>, removed: seq<string>)
    requires ListsDifference(added, after, before) && ListsDifference(removed, before, after)
    ensures (Elems(before) - Elems(removed)) + Elems(added) == Elems(after)
    ensures |Elems(before)| - |removed| + |added| == |Elems(after)|
  {
    DistinctSize(added);
    DistinctSize(removed);
    var kept := Elems(before) - Elems(removed);
    assert Elems(before) == kept + Elems(removed);
    assert Elems(after) == kept + Elems(added);
  }

  // ----- reports -----

  /** Is this what is said of an entity whose ids changed by `diff`? */
  ghost predicate Says(c: Change, e: Entity, added: bool, diff: set<string>) {
    && c.entity == e && c.added == added
    && (if e == Tenant || e == GatewayEntity then c.Listed? && Distinct(c.ids) && Elems(c.ids) == diff
        else c.Counted? && c.count == |diff|)
  }

  /** The ids an entity gained (or, with `added` false, lost) from one snapshot to the next. */
  function Diff(before: Snapshot, after: Snapshot, e: Entity, added: bool): set<string> {
    if added then Elems(after.Ids(e)) - Elems(before.Ids(e)) else Elems(before.Ids(e)) - Elems(after.Ids(e))
  }

  /** Entity and direction of a message. */
  type Topic = (Entity, bool)

  function TopicOf(c: Change): Topic {
    (c.entity, c.added)
  }

  const ENTITIES := 5

  function EntityAt(k: nat): Entity
    requires k < ENTITIES
  {
    match k
    case 0 => Tenant
    case 1 => GatewayEntity
    case 2 => DeviceProfile
    case 3 => Application
    case 4 => DeviceEntity
  }

  /** How many topics there are. */
  function Topics(): nat {
    2 * ENTITIES
  }

  /** The order in which topics are looked at: for each entity what was added, then what was removed. */
  function TopicAt(n: nat): Topic
    requires n < Topics()
  {
    (EntityAt(n / 2), n % 2 == 0)
  }

  /** The places, below n, of what changed from one snapshot to the next. */
  function Changed(before: Snapshot, after: Snapshot, n: nat): (r: seq<nat>)
    requires n <= Topics()
    ensures forall i | 0 <= i < |r| :: r[i] < n
  {
    if n == 0 then []
    else
      var t := TopicAt(n - 1);
      Changed(before, after, n - 1) + if Diff(before, after, t.0, t.1) != {} then [n - 1] else []
  }

  /** One message for each topic that changed among the first n, in their order, saying by how much. */
  ghost predicate Reports(changes: seq<Change>, before: Snapshot, after: Snapshot, n: nat)
    requires n <= Topics()
  {
    var places := Changed(before, after, n);
    && |changes| == |places|
    && forall i | 0 <= i < |changes| ::
         var t := TopicAt(places[i]);
         Says(changes[i], t.0, t.1, Diff(before, after, t.0, t.1))
  }

  /** Appends the message of topic n, if there is any. */
  method Report(changes: seq<Change>, before: Snapshot, after: Snapshot, e: Entity, added: bool, diff: seq<string>,
                ghost n: nat)
    returns (more: seq<Change>)
    requires n < Topics() && TopicAt(n) == (e, added) && Reports(changes, before, after, n)
    requires Distinct(diff) && Elems(diff) == Diff(before, after, e, added)
    ensures Reports(more, before, after, n + 1)
  {
    DistinctSize(diff);
    more := changes;
    if |diff| > 0 {
      assert diff[0] in Elems(diff);
      more := changes + [if e == Tenant || e == GatewayEntity then Listed(e, added, diff) else Counted(e, added, |diff|)];
    }
  }

  /** What is done for one entity: first what was added, then what was removed. */
  method ReportEntity(changes: seq<Change>, before: Snapshot, after: Snapshot, e: Entity, ghost n: nat)
    returns (more: seq<Change>)
    requires n + 1 < Topics() && TopicAt(n) == (e, true) && TopicAt(n + 1) == (e, false)
    requires Reports(changes, before, after, n)
    ensures Reports(more, before, after, n + 2)
  {
    var added, removed := DiffSlices(before.Ids(e), after.Ids(e));
    more := Report(changes, before, after, e, true, added, n);
    more := Report(more, before, after, e, false, removed, n + 1);
  }

  method CompareSnapshots(before: Snapshot, after: Snapshot) returns (changes: seq<Change>)
    ensures Reports(changes, before, after, Topics())
  {
    changes := [];
    ghost var n := 0;
    changes := ReportEntity(changes, before, after, Tenant, n);
    n := n + 2;
    changes := ReportEntity(changes, before, after, GatewayEntity, n);
    n := n + 2;
    changes := ReportEntity(changes, before, after, DeviceProfile, n);
    n := n + 2;
    changes := ReportEntity(changes, before, after, Application, n);
    n := n + 2;
    changes := ReportEntity(changes, before, after, DeviceEntity, n);
  }

  lemma {:induction false} ChangedIff(before: Snapshot, after: Snapshot, n: nat, k: nat)
    requires k < n <= Topics()
    ensures k in Changed(before, after, n) <==> Diff(before, after, TopicAt(k).0, TopicAt(k).1) != {}
  {
    if k < n - 1 {
      ChangedIff(before, after, n - 1, k);
    }
  }

  lemma {:induction false} ChangedInOrder(before: Snapshot, after: Snapshot, n: nat)
    requires n <= Topics()
    ensures forall i, j | 0 <= i < j < |Changed(before, after, n)| :: Changed(before, after, n)[i] < Changed(before, after, n)[j]
  {
    if n > 0 {
      ChangedInOrder(before, after, n - 1);
    }
  }

  lemma TopicsDiffer(i: nat, j: nat)
    requires i < Topics() && j < Topics() && TopicAt(i) == TopicAt(j)
    ensures i == j
  {
  }

  /** A topic has a message exactly when its ids changed that way, and never two. */
  lemma OneMessageEach(changes: seq<Change>, before: Snapshot, after: Snapshot, e: Entity, added: bool)
    requires Reports(changes, before, after, Topics())
    ensures Diff(before, after, e, added) != {} <==> exists i :: 0 <= i < |changes| && TopicOf(changes[i]) == (e, added)
    ensures forall i, j | 0 <= i < j < |changes| :: TopicOf(changes[i]) != TopicOf(changes[j])
  {
    var places := Changed(before, after, Topics());
    var k := PlaceOf(e, added);
    ChangedIff(before, after, Topics(), k);
    ChangedInOrder(before, after, Topics());
    if Diff(before, after, e, added) != {} {
      var i :| 0 <= i < |places| && places[i] == k;
      assert TopicOf(changes[i]) == (e, added);
    }
    if i :| 0 <= i < |changes| && TopicOf(changes[i]) == (e, added) {
      TopicsDiffer(places[i], k);
      assert places[i] in places;
    }
    forall i, j | 0 <= i < j < |changes| ensures TopicOf(changes[i]) != TopicOf(changes[j]) {
      if TopicAt(places[i]) == TopicAt(places[j]) {
        TopicsDiffer(places[i], places[j]);
      }
    }
  }

  lemma PlaceOf(e: Entity, added: bool) returns (k: nat)
    ensures k < Topics() && TopicAt(k) == (e, added)
  {
    k := match e
         case Tenant => 0
         case GatewayEntity => 2
         case DeviceProfile => 4
         case Application => 6
         case DeviceEntity => 8;
    k := if added then k else k + 1;
  }

  /** Tenants, gateways, profiles, applications and devices are the same ones. */
  ghost predicate SameIds(before: Snapshot, after: Snapshot) {
    && Elems(before.tenantIds) == Elems(after.tenantIds)
    && Elems(before.gatewayEuis) == Elems(after.gatewayEuis)
    && Elems(before.deviceProfileIds) == Elems(after.deviceProfileIds)
    && Elems(before.applicationIds) == Elems(after.applicationIds)
    && Elems(before.deviceEuis) == Elems(after.deviceEuis)
  }

  /** Nothing is reported exactly when all five id sets match. */
  lemma SilentIffSame(changes: seq<Change>, before: Snapshot, after: Snapshot)
    requires Reports(changes, before, after, Topics())
    ensures changes == [] <==> SameIds(before, after)
  {
    if changes == [] {
      forall e: Entity ensures Elems(before.Ids(e)) == Elems(after.Ids(e)) {
        OneMessageEach(changes, before, after, e, true);
        OneMessageEach(changes, before, after, e, false);
        assert Diff(before, after, e, true) == {} && Diff(before, after, e, false) == {};
      }
      SameFields(before, after);
    } else {
      var t := TopicOf(changes[0]);
      OneMessageEach(changes, before, after, t.0, t.1);
      assert Diff(before, after, t.0, t.1) != {};
    }
  }

  lemma SameFields(before: Snapshot, after: Snapshot)
    requires forall e: Entity :: Elems(before.Ids(e)) == Elems(after.Ids(e))
    ensures SameIds(before, after)
  {
    assert Elems(before.Ids(Tenant)) == Elems(after.Ids(Tenant));
    assert Elems(before.Ids(GatewayEntity)) == Elems(after.Ids(GatewayEntity));
    assert Elems(before.Ids(DeviceProfile)) == Elems(after.Ids(DeviceProfile));
    assert Elems(before.Ids(Application)) == Elems(after.Ids(Application));
    assert Elems(before.Ids(DeviceEntity)) == Elems(after.Ids(DeviceEntity));
  }

  /** There is one message about these ids, listing or counting them, exactly when there are any. */
  ghost predicate Told(changes: seq<Change>, e: Entity, added: bool, ids: set<string>) {
    if ids == {} then forall i | 0 <= i < |changes| :: TopicOf(changes[i]) != (e, added)
    else exists i | 0 <= i < |changes| :: OnlyMessage(changes, i, e, added) && Conveys(changes[i], ids)
  }

  ghost predicate OnlyMessage(changes: seq<Change>, i: nat, e: Entity, added: bool)
    requires i < |changes|
  {
    forall j | 0 <= j < |changes| :: TopicOf(changes[j]) == (e, added) <==> j == i
  }

  ghost predicate Conveys(c: Change, ids: set<string>) {
    match c
    case Listed(_, _, list) => Distinct(list) && Elems(list) == ids
    case Counted(_, _, count) => count == |ids|
  }

  /** Tenants and gateways are listed by their ids. */
  predicate ListedEntity(e: Entity) {
    e.Tenant? || e.GatewayEntity?
  }

  lemma ToldOf(changes: seq<Change>, before: Snapshot, after: Snapshot, e: Entity, added: bool)
    requires Reports(changes, before, after, Topics())
    ensures Told(changes, e, added, Diff(before, after, e, added))
    ensures forall i | 0 <= i < |changes| && changes[i].entity == e :: changes[i].Listed? <==> ListedEntity(e)
  {
    OneMessageEach(changes, before, after, e, added);
    if Diff(before, after, e, added) != {} {
      var i :| 0 <= i < |changes| && TopicOf(changes[i]) == (e, added);
      assert OnlyMessage(changes, i, e, added);
      assert Conveys(changes[i], Diff(before, after, e, added));
    }
  }

  /** A report tells, field by field, what each id list gained and lost. */
  lemma EachFieldIsTold(changes: seq<Change>, before: Snapshot, after: Snapshot)
    requires Reports(changes, before, after, Topics())
    ensures Told(changes, Tenant, true, Elems(after.tenantIds) - Elems(before.tenantIds))
    ensures Told(changes, Tenant, false, Elems(before.tenantIds) - Elems(after.tenantIds))
    ensures Told(changes, GatewayEntity, true, Elems(after.gatewayEuis) - Elems(before.gatewayEuis))
    ensures Told(changes, GatewayEntity, false, Elems(before.gatewayEuis) - Elems(after.gatewayEuis))
    ensures Told(changes, DeviceProfile, true, Elems(after.deviceProfileIds) - Elems(before.deviceProfileIds))
    ensures Told(changes, DeviceProfile, false, Elems(before.deviceProfileIds) - Elems(after.deviceProfileIds))
    ensures Told(changes, Application, true, Elems(after.applicationIds) - Elems(before.applicationIds))
    ensures Told(changes, Application, false, Elems(before.applicationIds) - Elems(after.applicationIds))
    ensures Told(changes, DeviceEntity, true, Elems(after.deviceEuis) - Elems(before.deviceEuis))
    ensures Told(changes, DeviceEntity, false, Elems(before.deviceEuis) - Elems(after.deviceEuis))
    ensures forall i | 0 <= i < |changes| :: changes[i].Listed? <==> changes[i].entity == Tenant || changes[i].entity == GatewayEntity
  {
    ToldOf(changes, before, after, Tenant, true);
    ToldOf(changes, before, after, Tenant, false);
    ToldOf(changes, before, after, GatewayEntity, true);
    ToldOf(changes, before, after, GatewayEntity, false);
    ToldOf(changes, before, after, DeviceProfile, true);
    ToldOf(changes, before, after, DeviceProfile, false);
    ToldOf(changes, before, after, Application, true);
    ToldOf(changes, before, after, Application, false);
    ToldOf(changes, before, after, DeviceEntity, true);
    ToldOf(changes, before, after, DeviceEntity, false);
  }

  /** The place of a message in a report: entity by entity, what was added before what was removed. */
  function Rank(t: Topic): nat {
    (match t.0
     case Tenant => 0
     case GatewayEntity => 2
     case DeviceProfile => 4
     case Application => 6
     case DeviceEntity => 8) + if t.1 then 0 else 1
  }

  lemma InRankOrder(changes: seq<Change>, before: Snapshot, after: Snapshot)
    requires Reports(changes, before, after, Topics())
    ensures forall i, j | 0 <= i < j < |changes| :: Rank(TopicOf(changes[i])) < Rank(TopicOf(changes[j]))
  {
    var places := Changed(before, after, Topics());
    ChangedInOrder(before, after, Topics());
    forall i, j | 0 <= i < j < |changes| ensures Rank(TopicOf(changes[i])) < Rank(TopicOf(changes[j])) {
      RankOfPlace(places[i]);
      RankOfPlace(places[j]);
    }
  }

  lemma RankOfPlace(n: nat)
    requires n < Topics()
    ensures Rank(TopicAt(n)) == n
  {
  }

  // ----- runs -----

  /** What happened to the shared state: a snapshot stored with the report made of it, or the changes dismissed. */
  datatype Event = Committed(snap: Snapshot, changes: seq<Change>) | Dismissed

  function LastSnapshot(log: seq<Event>): Option<Snapshot> {
    if log == [] then None
    else
      match log[|log| - 1]
      case Committed(snap, _) => Some(snap)
      case Dismissed => LastSnapshot(log[..|log| - 1])
  }

  /** The first snapshot is stored without a report; each later one with a report against the one before. */
  ghost predicate WellReported(log: seq<Event>) {
    forall i {:trigger ReportedAfter(log[..i], log[i])} | 0 <= i < |log| :: ReportedAfter(log[..i], log[i])
  }

  ghost predicate ReportedAfter(log: seq<Event>, e: Event) {
    e.Committed? ==>
      match LastSnapshot(log)
      case None => e.changes == []
      case Some(before) => Reports(e.changes, before, e.snap, Topics())
  }

  predicate News(e: Event) {
    e.Committed? && e.changes != []
  }

  /** Event `i` brought changes and nobody dismissed them since. */
  ghost predicate Standing(log: seq<Event>, i: nat) {
    i < |log| && News(log[i]) && forall j | i < j < |log| :: log[j] != Dismissed
  }

  /** The flag says whether some changes still stand; the summary is the report of the latest that do. */
  ghost predicate FlagsAre(log: seq<Event>, pending: bool, summary: seq<Change>) {
    && (pending <==> exists i: nat :: Standing(log, i))
    && (!pending ==> summary == [])
    && (forall i: nat | Standing(log, i) && (forall j | i < j < |log| :: !News(log[j])) :: summary == log[i].changes)
  }

  /** What the shared fields hold after such a log. */
  ghost predicate Recorded(log: seq<Event>, last: Option<Snapshot>, pending: bool, summary: seq<Change>) {
    WellReported(log) && last == LastSnapshot(log) && FlagsAre(log, pending, summary)
  }

  class SyncState {
    var lastSnapshot: Option<Snapshot>
    var pendingChanges: bool
    var changesSummary: seq<Change>
    ghost var log: seq<Event>

    ghost predicate Valid()
      reads this
    {
      Recorded(log, lastSnapshot, pendingChanges, changesSummary)
    }

    constructor ()
      ensures Valid() && log == []
    {
      lastSnapshot, pendingChanges, changesSummary, log := None, false, [], [];
    }

    /** The lock section of doSync, after a snapshot was taken. */
    method Commit(snap: Snapshot) returns (ghost changes: seq<Change>)
      requires Valid()
      modifies this
      ensures Valid() && log == old(log) + [Committed(snap, changes)]
      ensures lastSnapshot == Some(snap)
      ensures pendingChanges == (old(pendingChanges) || changes != [])
    {
      var report: seq<Change> := [];
      if lastSnapshot.Some? {
        report := CompareSnapshots(lastSnapshot.value, snap);
      }
      lastSnapshot := Some(snap);
      if |report| > 0 {
        pendingChanges := true;
        changesSummary := report;
      }
      changes := report;
      CommitRecorded(log, old(lastSnapshot), old(pendingChanges), old(changesSummary), snap, report);
      log := log + [Committed(snap, report)];
    }

    method DismissChanges()
      requires Valid()
      modifies this
      ensures Valid() && log == old(log) + [Dismissed] && !pendingChanges && changesSummary == []
      ensures lastSnapshot == old(lastSnapshot)
    {
      pendingChanges := false;
      changesSummary := [];
      DismissalRecorded(log, lastSnapshot, old(pendingChanges), old(changesSummary));
      log := log + [Dismissed];
    }
  }

  lemma LogGrows(log: seq<Event>, e: Event)
    requires WellReported(log)
    requires ReportedAfter(log, e)
    ensures WellReported(log + [e])
    ensures LastSnapshot(log + [e]) == if e.Committed? then Some(e.snap) else LastSnapshot(log)
  {
    var log' := log + [e];
    assert log'[..|log|] == log;
    forall i | 0 <= i < |log'| ensures ReportedAfter(log'[..i], log'[i]) {
      if i < |log| {
        assert log'[..i] == log[..i];
        assert ReportedAfter(log[..i], log[i]);
      }
    }
  }

  lemma CommitRecorded(log: seq<Event>, last: Option<Snapshot>, pending: bool, summary: seq<Change>, snap: Snapshot,
                       changes: seq<Change>)
    requires Recorded(log, last, pending, summary) && ReportedAfter(log, Committed(snap, changes))
    ensures Recorded(log + [Committed(snap, changes)], Some(snap), pending || changes != [],
                     if changes == [] then summary else changes)
  {
    LogGrows(log, Committed(snap, changes));
    if changes == [] {
      SilentCommit(log, snap, pending, summary);
    } else {
      LoudCommit(log, snap, changes);
    }
  }

  lemma DismissalRecorded(log: seq<Event>, last: Option<Snapshot>, pending: bool, summary: seq<Change>)
    requires Recorded(log, last, pending, summary)
    ensures Recorded(log + [Dismissed], last, false, [])
  {
    LogGrows(log, Dismissed);
    NoneStand(log);
  }

  lemma NoneStand(log: seq<Event>)
    ensures FlagsAre(log + [Dismissed], false, [])
  {
    var log' := log + [Dismissed];
    forall i: nat ensures !Standing(log', i) {
      if i < |log| { assert log'[|log|] == Dismissed; }
    }
  }

  lemma SilentCommit(log: seq<Event>, snap: Snapshot, pending: bool, summary: seq<Change>)
    requires FlagsAre(log, pending, summary)
    ensures FlagsAre(log + [Committed(snap, [])], pending, summary)
  {
    var log' := log + [Committed(snap, [])];
    forall i: nat ensures Standing(log', i) <==> Standing(log, i) {
      if Standing(log', i) {
        assert log'[|log|].changes == [];
        forall j | i < j < |log| ensures log[j] != Dismissed { assert log'[j] == log[j]; }
      }
    }
    forall i: nat | Standing(log', i) && (forall j | i < j < |log'| :: !News(log'[j])) ensures summary == log'[i].changes {
      forall j | i < j < |log| ensures !News(log[j]) { assert log'[j] == log[j]; }
    }
  }

  lemma LoudCommit(log: seq<Event>, snap: Snapshot, changes: seq<Change>)
    requires changes != []
    ensures FlagsAre(log + [Committed(snap, changes)], true, changes)
  {
    var log' := log + [Committed(snap, changes)];
    assert Standing(log', |log|);
    assert News(log'[|log|]);
  }

  // ----- folding the differences -----

  /** What DiffSlices returned for one entity of two successive snapshots. */
  datatype Delta = Delta(added: seq<string>, removed: seq<string>)

  /** The deltas are those of an entity from `first` through the later snapshots. */
  ghost predicate DeltasOf(deltas: seq<Delta>, first: Snapshot, later: seq<Snapshot>, e: Entity)
    decreases |later|
  {
    if later == [] then deltas == []
    else
      && deltas != []
      && ListsDifference(deltas[0].added, later[0].Ids(e), first.Ids(e))
      && ListsDifference(deltas[0].removed, first.Ids(e), later[0].Ids(e))
      && DeltasOf(deltas[1..], later[0], later[1..], e)
  }

  /** Applies the lists one after the other. */
  function Fold(ids: set<string>, deltas: seq<Delta>): set<string>
    decreases |deltas|
  {
    if deltas == [] then ids else Fold(ids - Elems(deltas[0].removed) + Elems(deltas[0].added), deltas[1..])
  }

  /** Applying all lists to the ids of the first snapshot gives those of the last one. */
  lemma {:induction false} FoldReachesLast(first: Snapshot, later: seq<Snapshot>, e: Entity, deltas: seq<Delta>)
    requires DeltasOf(deltas, first, later, e)
    ensures Fold(Elems(first.Ids(e)), deltas) == Elems((if later == [] then first else later[|later| - 1]).Ids(e))
    decreases |later|
  {
    if later != [] {
      DiffRestores(first.Ids(e), later[0].Ids(e), deltas[0].added, deltas[0].removed);
      FoldReachesLast(later[0], later[1..], e, deltas[1..]);
    }
  }
}
