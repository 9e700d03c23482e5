/**
 The records of the network server as the provisioning code sees them: created under an owner, listed at most a
 hundred at a time, by calls that may fail.
 */
module Stores {
  import opened Prelude

  const LIST_LIMIT := 100

  datatype Kind = Tenants | Profiles | Applications | Devices

  /** The owner of a tenant is 0, of a profile or an application its tenant, of a device its application. */
  datatype Record = Record(id: nat, owner: nat, name: string)

  type Table = seq<Record>

  datatype Tables = Tables(tenants: Table, profiles: Table, applications: Table, devices: Table)
  {
    function Get(kind: Kind): Table {
      match kind
      case Tenants => tenants
      case Profiles => profiles
      case Applications => applications
      case Devices => devices
    }

    function Add(kind: Kind, r: Record): Tables {
      match kind
      case Tenants => this.(tenants := tenants + [r])
      case Profiles => this.(profiles := profiles + [r])
      case Applications => this.(applications := applications + [r])
      case Devices => this.(devices := devices + [r])
    }
  }

  function Owned(table: Table, owner: nat): (r: Table)
    ensures |r| <= |table|
  {
    if table == [] then []
    else
      var last := table[|table| - 1];
      Owned(table[..|table| - 1], owner) + if last.owner == owner then [last] else []
  }

  function FirstPage(table: Table): Table {
    if |table| <= LIST_LIMIT then table else table[..LIST_LIMIT]
  }

  /** The id of the first record with this name. */
  function Lookup(records: Table, name: string): Option<nat> {
    if records == [] then None
    else if records[0].name == name then Some(records[0].id)
    else Lookup(records[1..], name)
  }

  /** The id under which the store knows this name of this owner. */
  function IdOf(table: Table, owner: nat, name: string): Option<nat> {
    Lookup(Owned(table, owner), name)
  }

  predicate Fits(table: Table, owner: nat) {
    |Owned(table, owner)| <= LIST_LIMIT
  }

  /** No owner has two records of one name. */
  ghost predicate Unique(table: Table) {
    forall i, j | 0 <= i < j < |table| :: !(table[i].owner == table[j].owner && table[i].name == table[j].name)
  }

  // ----- tables that only grow -----

  lemma OwnedAppend(table: Table, r: Record, owner: nat)
    ensures Owned(table + [r], owner) == Owned(table, owner) + if r.owner == owner then [r] else []
  {
    assert (table + [r])[..|table|] == table;
  }

  lemma {:induction false} LookupAppend(records: Table, r: Record, name: string)
    ensures Lookup(records + [r], name)
         == if Lookup(records, name).Some? then Lookup(records, name) else if r.name == name then Some(r.id) else None
  {
    if records == [] {
      assert [] + [r] == [r];
    } else {
      LookupAppend(records[1..], r, name);
      assert (records + [r])[1..] == records[1..] + [r];
    }
  }

  /** A new record changes what is known of its own owner and name only, and that only when nothing was known. */
  lemma IdAppend(table: Table, r: Record, owner: nat, name: string)
    ensures IdOf(table + [r], owner, name)
         == if IdOf(table, owner, name).Some? then IdOf(table, owner, name)
            else if r.owner == owner && r.name == name then Some(r.id) else None
  {
    OwnedAppend(table, r, owner);
    LookupAppend(Owned(table, owner), r, name);
    assert Owned(table, owner) + [] == Owned(table, owner);
  }

  lemma {:induction false} KnownIffPresent(table: Table, owner: nat, name: string)
    ensures IdOf(table, owner, name).Some? <==> exists i :: 0 <= i < |table| && table[i].owner == owner && table[i].name == name
  {
    if table != [] {
      var front, last := table[..|table| - 1], table[|table| - 1];
      assert table == front + [last];
      KnownIffPresent(front, owner, name);
      IdAppend(front, last, owner, name);
      PresentAppend(front, last, owner, name);
    }
  }

  lemma PresentAppend(front: Table, last: Record, owner: nat, name: string)
    ensures (exists i :: 0 <= i < |front| + 1 && (front + [last])[i].owner == owner && (front + [last])[i].name == name)
       <==> (exists i :: 0 <= i < |front| && front[i].owner == owner && front[i].name == name)
            || (last.owner == owner && last.name == name)
  {
    var table := front + [last];
    if i :| 0 <= i < |front| && front[i].owner == owner && front[i].name == name {
      assert table[i].owner == owner && table[i].name == name;
    }
    if last.owner == owner && last.name == name {
      assert table[|front|].owner == owner && table[|front|].name == name;
    }
  }

  lemma UniqueAppend(table: Table, r: Record)
    requires Unique(table)
    ensures Unique(table + [r]) <==> IdOf(table, r.owner, r.name).None?
  {
    KnownIffPresent(table, r.owner, r.name);
    var t := table + [r];
    if IdOf(table, r.owner, r.name).Some? {
      var i :| 0 <= i < |table| && table[i].owner == r.owner && table[i].name == r.name;
      assert t[i].owner == t[|table|].owner && t[i].name == t[|table|].name;
    }
  }

  /** `table` with some records of `names` added under `owner`. */
  ghost predicate Grown(before: Table, after: Table, owner: nat, names: seq<string>) {
    && |before| <= |after| && after[..|before|] == before
    && forall i | |before| <= i < |after| :: after[i].owner == owner && after[i].name in names
  }

  lemma {:induction false} GrownKeepsIds(before: Table, after: Table, o: nat, names: seq<string>, owner: nat, name: string)
    requires Grown(before, after, o, names)
    ensures IdOf(before, owner, name).Some? ==> IdOf(after, owner, name) == IdOf(before, owner, name)
    ensures owner != o || name !in names ==> IdOf(after, owner, name) == IdOf(before, owner, name)
    ensures |Owned(before, owner)| <= |Owned(after, owner)|
    decreases |after|
  {
    if |before| < |after| {
      var front, last := after[..|after| - 1], after[|after| - 1];
      assert front[..|before|] == before && after == front + [last];
      GrownKeepsIds(before, front, o, names, owner, name);
      IdAppend(front, last, owner, name);
      OwnedAppend(front, last, owner);
    } else {
      assert after == before;
    }
  }

  // ----- names -----

  function Decimal(n: nat): (s: string)
    ensures s != ""
  {
    if n < 10 then ["0123456789"[n]] else Decimal(n / 10) + ["0123456789"[n % 10]]
  }

  lemma {:induction false} DecimalInjective(m: nat, n: nat)
    requires Decimal(m) == Decimal(n)
    ensures m == n
  {
    var s, t := Decimal(m), Decimal(n);
    assert s[|s| - 1] == t[|t| - 1] && s[..|s| - 1] == t[..|t| - 1];
    DigitInjective(m % 10, n % 10);
    if m >= 10 && n >= 10 {
      DecimalInjective(m / 10, n / 10);
    }
  }

  lemma DigitInjective(d: nat, e: nat)
    requires d < 10 && e < 10 && "0123456789"[d] == "0123456789"[e]
    ensures d == e
  {
  }

  function Numbered(base: string, prefix: string, i: nat): string {
    base + "-" + prefix + "-" + Decimal(i)
  }

  lemma NumberedInjective(base: string, prefix: string, i: nat, j: nat)
    ensures Numbered(base, prefix, i) == Numbered(base, prefix, j) <==> i == j
  {
    var head := base + "-" + prefix + "-";
    if Numbered(base, prefix, i) == Numbered(base, prefix, j) {
      assert (head + Decimal(i))[|head|..] == Decimal(i) && (head + Decimal(j))[|head|..] == Decimal(j);
      DecimalInjective(i, j);
    }
  }

  /** The names with numbers 1 to n. */
  function AllNames(base: string, prefix: string, n: nat): (r: seq<string>)
    ensures |r| == n && forall i | 0 <= i < n :: r[i] == Numbered(base, prefix, i + 1)
  {
    seq(n, i requires 0 <= i < n => Numbered(base, prefix, i + 1))
  }

  lemma AllNamesDistinct(base: string, prefix: string, n: nat)
    ensures Distinct(AllNames(base, prefix, n))
  {
    var names := AllNames(base, prefix, n);
    forall i, j | 0 <= i < j < n ensures names[i] != names[j] {
      NumberedInjective(base, prefix, i + 1, j + 1);
    }
  }

  ghost predicate Distinct(names: seq<string>) {
    forall i, j | 0 <= i < j < |names| :: names[i] != names[j]
  }

  // ----- the store -----

  /** Does call number n fail? */
  type Oracle = nat -> bool

  /** `full`: every listing so far was answered, and in full. `refused`: some device was refused. */
  datatype World = World(tables: Tables, keys: map<nat, nat>, calls: nat, nextId: nat, full: bool, refused: bool)

  /** What a listing shows: at most a hundred records, and nothing when the call fails, which the callers do not tell apart. */
  function Page(w: World, fails: Oracle, kind: Kind, owner: nat): Table {
    if fails(w.calls) then [] else FirstPage(Owned(w.tables.Get(kind), owner))
  }

  function AfterList(w: World, fails: Oracle, kind: Kind, owner: nat): World {
    w.(calls := w.calls + 1, full := w.full && !fails(w.calls) && Fits(w.tables.Get(kind), owner))
  }

  function AfterCreate(w: World, fails: Oracle, kind: Kind, owner: nat, name: string): (World, Option<nat>) {
    if fails(w.calls) then (w.(calls := w.calls + 1), None)
    else
      (w.(tables := w.tables.Add(kind, Record(w.nextId, owner, name)), calls := w.calls + 1, nextId := w.nextId + 1),
       Some(w.nextId))
  }

  /** A listing shows nothing when the call fails, else the owner's records from the first on, a hundred unless there are fewer. */
  lemma PageShows(w: World, fails: Oracle, kind: Kind, owner: nat)
    ensures var page, owned := Page(w, fails, kind, owner), Owned(w.tables.Get(kind), owner);
            if fails(w.calls) then page == [] else page <= owned && (|page| == 100 || (|page| < 100 && page == owned))
  {
  }

  /** A creation adds one record with an id of its own and that only to its table, or it fails and adds none. */
  lemma CreateAdds(w: World, fails: Oracle, kind: Kind, owner: nat, name: string, other: Kind)
    ensures var r := AfterCreate(w, fails, kind, owner, name);
            if fails(w.calls) then r.1 == None && r.0.tables == w.tables
            else
              && r.1 == Some(w.nextId) && r.0.nextId > w.nextId
              && r.0.tables.Get(other) == w.tables.Get(other) + if other == kind then [Record(w.nextId, owner, name)] else []
  {
  }

  class ChirpStack {
    var tables: Tables
    var keys: map<nat, nat>
    var calls: nat
    var nextId: nat
    const fails: Oracle
    ghost var full: bool
    ghost var refused: bool

    ghost function Now(): World
      reads this
    {
      World(tables, keys, calls, nextId, full, refused)
    }

    constructor (tables: Tables, keys: map<nat, nat>, nextId: nat, fails: Oracle)
      ensures Now() == World(tables, keys, 0, nextId, true, false) && this.fails == fails
    {
      this.tables, this.keys, this.nextId, this.fails := tables, keys, nextId, fails;
      calls, full, refused := 0, true, false;
    }

    method List(kind: Kind, owner: nat) returns (page: Table)
      modifies this`calls, this`full
      ensures page == Page(old(Now()), fails, kind, owner) && Now() == AfterList(old(Now()), fails, kind, owner)
    {
      page := if fails(calls) then [] else FirstPage(Owned(tables.Get(kind), owner));
      full := full && !fails(calls) && Fits(tables.Get(kind), owner);
      calls := calls + 1;
    }

    method Create(kind: Kind, owner: nat, name: string) returns (id: Option<nat>)
      modifies this`calls, this`tables, this`nextId
      ensures (Now(), id) == AfterCreate(old(Now()), fails, kind, owner, name)
    {
      if fails(calls) {
        id := None;
      } else {
        id := Some(nextId);
        nextId := nextId + 1;
        tables := tables.Add(kind, Record(id.value, owner, name));
      }
      calls := calls + 1;
    }
  }
}
