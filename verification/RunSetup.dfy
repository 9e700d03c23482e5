/** What runSimulation prepares for each device: the staggered start and the list of anomaly types. */
module RunSetup {
  import opened Prelude
  import opened Arithmetic
  import DeviceModel
  import DeviceAnomaly

  const TWO63 := 0x8000_0000_0000_0000

  /** The value an int64 holds after a product whose mathematical value is `v`. */
  function Wrap64(v: int): (r: int)
    ensures -TWO63 <= r < TWO63 && (r - v) % (2 * TWO63) == 0
  {
    (v + TWO63) % (2 * TWO63) - TWO63
  }

  /** Division of int64 values truncates toward zero. */
  function Quot(a: int, n: int): int
    requires n > 0
  {
    if a >= 0 then a / n else -(-a / n)
  }

  /** The delay of device number `i` of `n` with the given uplink interval. */
  function StaggerDelay(interval: int, i: nat, n: nat): int {
    if n > 1 then Quot(Wrap64(interval * i), n) else 0
  }

  /** The exact point, free of overflow, that divides the interval at i/n. */
  function Share(interval: nat, i: nat, n: nat): nat
    requires n > 0
  {
    interval * i / n
  }

  lemma ProductMonotone(a: nat, i: nat, j: nat)
    requires i <= j
    ensures a * i <= a * j
  {
    Distribute(a, i, j - i);
    ProductNotNegative(a, j - i);
  }

  lemma NoOverflow(interval: nat, i: nat, n: nat)
    requires i < n && interval * (n - 1) < TWO63
    ensures 0 <= interval * i < TWO63
    ensures StaggerDelay(interval, i, n) == Share(interval, i, n)
  {
    ProductMonotone(interval, i, n - 1);
    ProductNotNegative(interval, i);
    WrapSmall(interval * i);
    if n == 1 {
      assert interval * i == 0;
    }
  }

  lemma WrapSmall(v: int)
    requires 0 <= v < TWO63
    ensures Wrap64(v) == v
  {
  }

  lemma NextShare(interval: nat, i: nat, n: nat)
    requires n > 0
    ensures var gap := Share(interval, i + 1, n) - Share(interval, i, n);
            gap == interval / n || (gap == interval / n + 1 && interval % n > 0)
  {
    Distribute(interval, i, 1);
    ProductNotNegative(interval, i);
    DivAdd(interval * i, interval, n);
    assert interval * i % n < n;
  }

  function CeilDiv(a: nat, n: nat): nat
    requires n > 0
  {
    (a + n - 1) / n
  }

  lemma CeilIs(a: nat, n: nat)
    requires n > 0
    ensures CeilDiv(a, n) == a / n + if a % n > 0 then 1 else 0
  {
    DivAdd(a, n - 1, n);
    DivModUnique(n - 1, n, 0, n - 1);
  }

  /**
   Starts are spread evenly: device i of n starts at i/n of the interval, rounded down, so every delay lies in
   [0, interval); the products do not overflow; and the gap from each device to the next, and from the last to the first of the next period, is the interval over n rounded down or up.
   */
  lemma StaggerIsEven(interval: nat, i: nat, n: nat)
    requires i < n && 0 < interval && interval * (n - 1) < TWO63
    ensures 0 <= StaggerDelay(interval, i, n) < interval
    ensures n * StaggerDelay(interval, i, n) <= interval * i < n * (StaggerDelay(interval, i, n) + 1)
    ensures var next := if i + 1 < n then StaggerDelay(interval, i + 1, n) else interval + StaggerDelay(interval, 0, n);
            var gap := next - StaggerDelay(interval, i, n);
            gap == interval / n || gap == CeilDiv(interval, n)
  {
    NoOverflow(interval, i, n);
    NoOverflow(interval, 0, n);
    NextShare(interval, i, n);
    CeilIs(interval, n);
    DivOfProduct(interval, n);
    if i + 1 < n {
      NoOverflow(interval, i + 1, n);
    }
    BelowInterval(interval, i, n);
    RoundedDown(interval * i, n);
  }

  lemma RoundedDown(a: int, n: int)
    requires n > 0
    ensures n * (a / n) <= a < n * (a / n + 1)
  {
    Distribute(n, a / n, 1);
  }

  lemma BelowInterval(interval: nat, i: nat, n: nat)
    requires i < n && 0 < interval
    ensures Share(interval, i, n) < interval
  {
    if Share(interval, i, n) >= interval {
      var q := interval * i / n;
      assert interval * i == n * q + interval * i % n;
      ProductMonotone(n, interval, q);
      Distribute(interval, i, n - i);
      assert interval * n == n * interval;
      ProductMonotone(interval, 1, n - i);
      assert false;
    }
  }

  lemma StaggerMonotone(interval: nat, i: nat, j: nat, n: nat)
    requires i <= j < n && interval * (n - 1) < TWO63
    ensures StaggerDelay(interval, i, n) <= StaggerDelay(interval, j, n)
  {
    NoOverflow(interval, i, n);
    NoOverflow(interval, j, n);
    ProductMonotone(interval, i, j);
    ProductNotNegative(interval, i);
    DivMonotone(interval * i, interval * j, n);
  }

  // ----- the comma-separated list of anomaly types -----

  /** unicode.IsSpace. */
  predicate IsSpace(c: char) {
    || '\U{9}' <= c <= '\r' || c == ' ' || c == '\U{85}' || c == '\U{A0}' || c == '\U{1680}' || '\U{2000}' <= c <= '\U{200A}'
    || c == '\U{2028}' || c == '\U{2029}' || c == '\U{202F}' || c == '\U{205F}' || c == '\U{3000}'
  }

  /** The white space characters by their numbers. */
  lemma SpacesByNumber(c: char)
    ensures IsSpace(c) <==> var n := c as int;
                            || n in {9, 10, 11, 12, 13, 32, 0x85, 0xA0, 0x1680, 0x2028, 0x2029, 0x202F, 0x205F, 0x3000}
                            || 0x2000 <= n <= 0x200A
  {
  }

  /** The pieces between commas: one more than there are commas. */
  function Split(s: string): (pieces: seq<string>)
    ensures |pieces| > 0
    ensures forall i | 0 <= i < |pieces| :: ',' !in pieces[i]
  {
    if s == "" then [""]
    else
      var rest := Split(s[1..]);
      if s[0] == ',' then [""] + rest else [[s[0]] + rest[0]] + rest[1..]
  }

  function TrimLeft(s: string): string {
    if s != "" && IsSpace(s[0]) then TrimLeft(s[1..]) else s
  }

  function TrimRight(s: string): string {
    if s != "" && IsSpace(s[|s| - 1]) then TrimRight(s[..|s| - 1]) else s
  }

  function Trim(s: string): string {
    TrimRight(TrimLeft(s))
  }

  /** A name that survives: not empty, no comma, no space at either end. */
  predicate CleanName(s: string) {
    s != "" && ',' !in s && !IsSpace(s[0]) && !IsSpace(s[|s| - 1])
  }

  function Names(pieces: seq<string>): seq<string> {
    if pieces == [] then []
    else
      var last := Trim(pieces[|pieces| - 1]);
      Names(pieces[..|pieces| - 1]) + if last != "" then [last] else []
  }

  method ParseTypes(list: string) returns (types: seq<string>)
    ensures types == if list == "" then [] else Names(Split(list))
    ensures forall i | 0 <= i < |types| :: CleanName(types[i])
  {
    types := [];
    if list != "" {
      var pieces := Split(list);
      for i := 0 to |pieces|
        invariant types == Names(pieces[..i])
        invariant forall k | 0 <= k < |types| :: CleanName(types[k])
      {
        assert pieces[..i + 1][..i] == pieces[..i];
        var trimmed := Trim(pieces[i]);
        TrimmedIsClean(pieces[i]);
        if trimmed != "" {
          types := types + [trimmed];
        }
      }
      assert pieces[..|pieces|] == pieces;
    }
  }

  lemma {:induction false} TrimLeftKeeps(s: string)
    ensures |TrimLeft(s)| <= |s| && TrimLeft(s) == s[|s| - |TrimLeft(s)|..]
    ensures TrimLeft(s) != "" ==> !IsSpace(TrimLeft(s)[0])
  {
    if s != "" && IsSpace(s[0]) {
      TrimLeftKeeps(s[1..]);
    }
  }

  lemma {:induction false} TrimRightKeeps(s: string)
    ensures |TrimRight(s)| <= |s| && TrimRight(s) == s[..|TrimRight(s)|]
    ensures TrimRight(s) != "" ==> !IsSpace(TrimRight(s)[|TrimRight(s)| - 1])
  {
    if s != "" && IsSpace(s[|s| - 1]) {
      TrimRightKeeps(s[..|s| - 1]);
    }
  }

  lemma TrimmedIsClean(s: string)
    requires ',' !in s
    ensures Trim(s) != "" ==> CleanName(Trim(s))
  {
    TrimLeftKeeps(s);
    TrimRightKeeps(TrimLeft(s));
  }

  predicate AllSpace(s: string) {
    forall i | 0 <= i < |s| :: IsSpace(s[i])
  }

  /** `s` is `core` with nothing but white space around it. */
  ghost predicate Padded(s: string, core: string) {
    exists left: string, right: string :: AllSpace(left) && AllSpace(right) && s == left + core + right
  }

  lemma {:induction false} TrimLeftOf(left: string, s: string)
    requires AllSpace(left) && (s != "" ==> !IsSpace(s[0]))
    ensures TrimLeft(left + s) == s
  {
    if left == "" {
      assert left + s == s;
    } else {
      TrimLeftOf(left[1..], s);
      assert (left + s)[1..] == left[1..] + s;
    }
  }

  lemma {:induction false} TrimRightOf(s: string, right: string)
    requires AllSpace(right) && (s != "" ==> !IsSpace(s[|s| - 1]))
    ensures TrimRight(s + right) == s
  {
    if right == "" {
      assert s + right == s;
    } else {
      TrimRightOf(s, right[..|right| - 1]);
      assert (s + right)[..|s + right| - 1] == s + right[..|right| - 1];
    }
  }

  /** Trimming takes away the white space at both ends, all of it and nothing else. */
  lemma TrimIs(s: string, core: string)
    requires core == "" || (!IsSpace(core[0]) && !IsSpace(core[|core| - 1]))
    ensures Padded(s, core) ==> Trim(s) == core
  {
    if left: string, right: string :| AllSpace(left) && AllSpace(right) && s == left + core + right {
      if core == "" {
        TrimLeftOf(left + right, "");
        assert left + core + right == left + right + "";
      } else {
        assert left + core + right == left + (core + right);
        TrimLeftOf(left, core + right);
        TrimRightOf(core, right);
      }
    }
  }

  /** The names that are not empty, in their order. */
  function NotEmpty(names: seq<string>): seq<string> {
    if names == [] then []
    else NotEmpty(names[..|names| - 1]) + if names[|names| - 1] == "" then [] else [names[|names| - 1]]
  }

  lemma {:induction false} PaddedNames(pieces: seq<string>, names: seq<string>)
    requires |pieces| == |names|
    requires forall i | 0 <= i < |names| :: (names[i] == "" || CleanName(names[i])) && Padded(pieces[i], names[i])
    ensures Names(pieces) == NotEmpty(names)
  {
    if pieces != [] {
      var last := |pieces| - 1;
      PaddedNames(pieces[..last], names[..last]);
      TrimIs(pieces[last], names[last]);
    }
  }

  /** Names written with white space around them, and blank pieces between them, come back clean, in order and without the blanks. */
  lemma ParseCleans(pieces: seq<string>, names: seq<string>)
    requires |pieces| == |names| > 0
    requires forall i | 0 <= i < |names| ::
               ',' !in pieces[i] && (names[i] == "" || CleanName(names[i])) && Padded(pieces[i], names[i])
    ensures Names(Split(Join(pieces))) == NotEmpty(names)
  {
    SplitJoin(pieces);
    PaddedNames(pieces, names);
  }

  function Join(names: seq<string>): string
    requires names != []
  {
    if |names| == 1 then names[0] else names[0] + "," + Join(names[1..])
  }

  lemma {:induction false} SplitAtComma(a: string, s: string)
    requires ',' !in a
    ensures Split(a + "," + s) == [a] + Split(s)
    ensures Split(a) == [a]
  {
    if a == "" {
      assert ("" + "," + s)[1..] == s;
    } else {
      assert a[0] in a && [a[0]] + a[1..] == a;
      SplitAtComma(a[1..], s);
      assert (a + "," + s)[1..] == a[1..] + "," + s;
    }
  }

  lemma {:induction false} SplitJoin(names: seq<string>)
    requires names != [] && forall i | 0 <= i < |names| :: ',' !in names[i]
    ensures Split(Join(names)) == names
  {
    if |names| == 1 {
      SplitAtComma(names[0], "");
    } else {
      SplitJoin(names[1..]);
      SplitAtComma(names[0], Join(names[1..]));
    }
  }

  lemma {:induction false} CleanNamesStay(names: seq<string>)
    requires forall i | 0 <= i < |names| :: CleanName(names[i])
    ensures Names(names) == names
  {
    if names != [] {
      CleanNamesStay(names[..|names| - 1]);
      assert CleanName(names[|names| - 1]);
    }
  }

  /** Nothing of the list is lost by splitting it. */
  lemma {:induction false} JoinSplit(s: string)
    ensures Join(Split(s)) == s
  {
    if s != "" {
      JoinSplit(s[1..]);
      var rest := Split(s[1..]);
      if s[0] == ',' {
        assert ([""] + rest)[1..] == rest;
      } else {
        assert ([[s[0]] + rest[0]] + rest[1..])[1..] == rest[1..];
      }
    }
  }

  /** Parsing undoes joining: clean names come back as they were. */
  lemma ParseUndoesJoin(names: seq<string>)
    requires names != [] && forall i | 0 <= i < |names| :: CleanName(names[i])
    ensures Names(Split(Join(names))) == names
  {
    SplitJoin(names);
    CleanNamesStay(names);
  }

  function KindOf(name: string): DeviceModel.Kind {
    if name == "" then DeviceModel.NoAnomaly
    else if name == "dropout" then DeviceModel.Dropout
    else if name == "spike" then DeviceModel.Spike
    else if name == "drift" then DeviceModel.Drift
    else if name == "flatline" then DeviceModel.Flatline
    else DeviceModel.Other(name)
  }

  /** Each of the four kinds goes by one name, the empty kind by none, and any other name is a kind of its own. */
  lemma KindsByName(name: string)
    ensures KindOf(name) == DeviceModel.Dropout <==> name == "dropout"
    ensures KindOf(name) == DeviceModel.Spike <==> name == "spike"
    ensures KindOf(name) == DeviceModel.Drift <==> name == "drift"
    ensures KindOf(name) == DeviceModel.Flatline <==> name == "flatline"
    ensures KindOf(name) == DeviceModel.NoAnomaly <==> name == ""
    ensures forall other :: KindOf(name) == KindOf(other) <==> name == other
  {
    forall other ensures KindOf(name) == KindOf(other) <==> name == other {}
  }

  /** A device configured from a parsed list has only named types, as the episode laws ask. */
  lemma ParsedTypesAreNamed(c: DeviceModel.Config, types: seq<string>)
    requires forall i | 0 <= i < |types| :: CleanName(types[i])
    requires |c.types| == |types| && forall i | 0 <= i < |types| :: c.types[i] == KindOf(types[i])
    ensures DeviceAnomaly.NamedTypes(c)
  {
    forall i | 0 <= i < |c.types| ensures c.types[i] != DeviceModel.NoAnomaly {
      assert CleanName(types[i]);
    }
  }
}
