/** Readable unique names: three random words, and a numbered suffix when a thousand draws all collide. */
module Names {
  import opened Prelude
  import opened Decimals

  const MAX_RETRIES := 1000
  const MAX_SUFFIX := 999

  datatype Error = EmptyWordList | NoEntropy | Exhausted(root: string)

  datatype Result<+T> = Ok(value: T) | Err(error: Error)

  /** Draw number `n` of the random source: eight octets as a number, or a read error. */
  type Entropy = nat -> Option<nat>

  function PickWord(words: seq<string>, draw: Option<nat>): (r: Result<string>)
    ensures r.Err? <==> words == [] || draw.None?
    ensures r.Ok? ==> r.value == words[draw.value % |words|]
  {
    if words == [] then Err(EmptyWordList)
    else if draw.None? then Err(NoEntropy)
    else Ok(words[draw.value % |words|])
  }

  function Compose(a: string, b: string, c: string): string {
    a + "-" + b + "-" + c
  }

  function Digit(d: nat): char
    requires d < 10
  {
    "0123456789"[d]
  }

  /** Zero-padded to three digits. */
  function Pad3(i: nat): (s: string)
    requires i <= MAX_SUFFIX
    ensures |s| == 3
  {
    [Digit(i / 100), Digit(i / 10 % 10), Digit(i % 10)]
  }

  function Suffixed(root: string, i: nat): string
    requires i <= MAX_SUFFIX
  {
    root + "-" + Pad3(i)
  }

  ghost predicate ThreeWords(name: string, a: seq<string>, b: seq<string>, c: seq<string>) {
    exists x, y, z | x in a && y in b && z in c :: name == Compose(x, y, z)
  }

  ghost predicate NumberedName(name: string, a: seq<string>, b: seq<string>, c: seq<string>) {
    exists root, i | 1 <= i <= MAX_SUFFIX :: ThreeWords(root, a, b, c) && name == Suffixed(root, i)
  }

  /** The first numbered form of a root that is not taken. */
  ghost predicate FirstFree(used: set<string>, root: string, name: string) {
    exists i | 1 <= i <= MAX_SUFFIX ::
      name == Suffixed(root, i) && name !in used && forall k | 1 <= k < i :: Suffixed(root, k) in used
  }

  /** The name that three draws from number `n` on make, if words and entropy suffice. */
  function Drawn(a: seq<string>, b: seq<string>, c: seq<string>, rand: Entropy, n: nat): Option<string> {
    if a == [] || b == [] || c == [] || rand(n).None? || rand(n + 1).None? || rand(n + 2).None? then None
    else Some(Compose(a[rand(n).value % |a|], b[rand(n + 1).value % |b|], c[rand(n + 2).value % |c|]))
  }

  /** The first k draws all gave names that are taken. */
  ghost predicate AllCollide(used: set<string>, a: seq<string>, b: seq<string>, c: seq<string>, rand: Entropy, k: nat) {
    forall i | 0 <= i < k :: Drawn(a, b, c, rand, 3 * i).Some? && Drawn(a, b, c, rand, 3 * i).value in used
  }

  /** Every numbered form of the root is taken. */
  ghost predicate AllTaken(used: set<string>, root: string) {
    forall i | 1 <= i <= MAX_SUFFIX :: Suffixed(root, i) in used
  }

  /** Three draws from the entropy source, starting at draw number `n`. */
  method DrawName(a: seq<string>, b: seq<string>, c: seq<string>, rand: Entropy, n: nat) returns (r: Result<string>)
    ensures r.Ok? ==> ThreeWords(r.value, a, b, c) && Drawn(a, b, c, rand, n) == Some(r.value)
    ensures r.Err? ==> Drawn(a, b, c, rand, n) == None
    ensures r.Err? ==> !r.error.Exhausted? && (a == [] || b == [] || c == [] || exists k :: n <= k < n + 3 && rand(k).None?)
  {
    var w1 := PickWord(a, rand(n));
    if w1.Err? { return Err(if a == [] then EmptyWordList else NoEntropy); }
    var w2 := PickWord(b, rand(n + 1));
    if w2.Err? { return Err(if b == [] then EmptyWordList else NoEntropy); }
    var w3 := PickWord(c, rand(n + 2));
    if w3.Err? { return Err(if c == [] then EmptyWordList else NoEntropy); }
    r := Ok(Compose(w1.value, w2.value, w3.value));
  }

  /** The names in use; `issued` are those Generate handed out through this map. */
  class UsedNames {
    var used: set<string>
    ghost var issued: seq<string>

    ghost predicate Valid()
      reads this
    {
      && (forall i | 0 <= i < |issued| :: issued[i] in used)
      && (forall i, j | 0 <= i < j < |issued| :: issued[i] != issued[j])
    }

    constructor ()
      ensures Valid() && used == {} && issued == []
    {
      used, issued := {}, [];
    }

    method Take(name: string)
      requires Valid() && name !in used
      modifies this
      ensures Valid() && used == old(used) + {name} && issued == old(issued) + [name]
    {
      used, issued := used + {name}, issued + [name];
    }

    /** Existing names, except empty ones, are put in use. */
    method SeedFromStrings(names: seq<string>)
      requires Valid()
      modifies this`used
      ensures Valid() && used == old(used) + (set n | n in names && n != "")
    {
      for i := 0 to |names|
        invariant Valid() && used == old(used) + (set n | n in names[..i] && n != "")
      {
        if names[i] != "" {
          used := used + {names[i]};
        }
      }
      assert names[..|names|] == names;
    }

    /** Takes the first numbered form of the root that is free. */
    method TakeSuffixed(root: string) returns (r: Result<string>)
      requires Valid()
      modifies this
      ensures Valid()
      ensures r.Ok? ==> FirstFree(old(used), root, r.value) && used == old(used) + {r.value} && issued == old(issued) + [r.value]
      ensures r.Err? ==> r.error == Exhausted(root) && AllTaken(used, root) && used == old(used) && issued == old(issued)
    {
      for i := 1 to MAX_SUFFIX + 1
        invariant Valid() && used == old(used) && issued == old(issued)
        invariant forall k | 1 <= k < i :: Suffixed(root, k) in used
      {
        var candidate := Suffixed(root, i);
        if candidate !in used {
          Take(candidate);
          return Ok(candidate);
        }
      }
      r := Err(Exhausted(root));
    }

    /**
     A success takes one name that was not in use, and only that one; a failure takes none. Names handed out through
     one map never repeat (Valid), and with words and entropy at hand the only failure is a root with all 999
     suffixes taken. The name is the first of a thousand draws that is free; when none is, it is the next draw with
     the first number that makes it free.
     */
    method Generate(a: seq<string>, b: seq<string>, c: seq<string>, rand: Entropy) returns (r: Result<string>)
      requires Valid()
      modifies this
      ensures Valid()
      ensures r.Ok? ==> r.value !in old(used) && used == old(used) + {r.value} && issued == old(issued) + [r.value]
      ensures r.Ok? ==> (ThreeWords(r.value, a, b, c) || NumberedName(r.value, a, b, c))
      ensures old(used) == {} ==> (if r.Ok? then ThreeWords(r.value, a, b, c) else !r.error.Exhausted?)
      ensures r.Ok? ==>
                || (exists k | 0 <= k < 1000 :: AllCollide(old(used), a, b, c, rand, k) && Drawn(a, b, c, rand, 3 * k) == Some(r.value))
                || (AllCollide(old(used), a, b, c, rand, 1000) && Drawn(a, b, c, rand, 3000).Some?
                    && FirstFree(old(used), Drawn(a, b, c, rand, 3000).value, r.value))
      ensures r.Err? ==> used == old(used) && issued == old(issued)
      ensures r.Err? && r.error.Exhausted? ==>
                AllCollide(used, a, b, c, rand, 1000) && Drawn(a, b, c, rand, 3000) == Some(r.error.root)
      ensures r.Err? && r.error.Exhausted? ==> ThreeWords(r.error.root, a, b, c) && AllTaken(used, r.error.root)
      ensures r.Err? && !r.error.Exhausted? ==> a == [] || b == [] || c == [] || exists k :: rand(k).None?
    {
      for i := 0 to MAX_RETRIES
        invariant Valid() && used == old(used) && issued == old(issued) && (used == {} ==> i == 0)
        invariant AllCollide(used, a, b, c, rand, i)
      {
        var candidate := DrawName(a, b, c, rand, 3 * i);
        if candidate.Err? {
          return candidate;
        }
        if candidate.value !in used {
          Take(candidate.value);
          return candidate;
        }
      }
      r := DrawName(a, b, c, rand, 3 * MAX_RETRIES);
      if r.Ok? {
        r := TakeSuffixed(r.value);
      }
    }
  }

  /** With a nil map a fresh one is used and then forgotten, so the name may be in use elsewhere. */
  method GenerateName(used: UsedNames?, a: seq<string>, b: seq<string>, c: seq<string>, rand: Entropy) returns (r: Result<string>)
    requires used != null ==> used.Valid()
    modifies used
    ensures used != null ==> used.Valid()
    ensures used != null && r.Ok? ==> r.value !in old(used.used) && used.used == old(used.used) + {r.value}
    ensures used != null && r.Err? ==> used.used == old(used.used)
    ensures used == null ==> (if r.Ok? then ThreeWords(r.value, a, b, c) else !r.error.Exhausted?)
  {
    if used == null {
      var local := new UsedNames();
      r := local.Generate(a, b, c, rand);
    } else {
      r := used.Generate(a, b, c, rand);
    }
  }

  // ----- names can be told apart -----

  function Hyphens(s: string): nat {
    if s == "" then 0 else Hyphens(s[1..]) + if s[0] == '-' then 1 else 0
  }

  lemma {:induction false} HyphensAdd(s: string, t: string)
    ensures Hyphens(s + t) == Hyphens(s) + Hyphens(t)
  {
    if s == "" {
      assert s + t == t;
    } else {
      HyphensAdd(s[1..], t);
      assert (s + t)[1..] == s[1..] + t;
    }
  }

  lemma {:induction false} NoHyphens(s: string)
    ensures Hyphens(s) == 0 <==> '-' !in s
  {
    if s != "" {
      NoHyphens(s[1..]);
      assert s == [s[0]] + s[1..];
    }
  }

  /** What comes before the first hyphen. */
  function Head(s: string): string {
    if s == "" || s[0] == '-' then "" else [s[0]] + Head(s[1..])
  }

  lemma {:induction false} HeadIs(a: string, s: string)
    requires '-' !in a
    ensures Head(a + "-" + s) == a
  {
    if a != "" {
      HeadIs(a[1..], s);
      assert (a + "-" + s)[1..] == a[1..] + "-" + s;
      assert a[0] in a;
    }
  }

  lemma FirstHyphen(a: string, s: string, b: string, t: string)
    requires '-' !in a && '-' !in b && a + "-" + s == b + "-" + t
    ensures a == b && s == t
  {
    HeadIs(a, s);
    HeadIs(b, t);
    assert (a + "-" + s)[|a| + 1..] == s && (b + "-" + t)[|b| + 1..] == t;
  }

  /** On hyphen-free words a composed name determines its three words. */
  lemma ComposeInjective(a: string, b: string, c: string, a': string, b': string, c': string)
    requires '-' !in a && '-' !in b && '-' !in a' && '-' !in b'
    ensures Compose(a, b, c) == Compose(a', b', c') <==> a == a' && b == b' && c == c'
  {
    if Compose(a, b, c) == Compose(a', b', c') {
      assert Compose(a, b, c) == a + "-" + (b + "-" + c);
      assert Compose(a', b', c') == a' + "-" + (b' + "-" + c');
      FirstHyphen(a, b + "-" + c, a', b' + "-" + c');
      FirstHyphen(b, c, b', c');
    }
  }

  /** A composed name is its three words in order, a hyphen after the first and the second. */
  lemma ComposeReads(a: string, b: string, c: string)
    ensures var name := Compose(a, b, c);
            && |name| == |a| + |b| + |c| + 2
            && name[..|a|] == a && name[|a|] == '-'
            && name[|a| + 1..|a| + 1 + |b|] == b && name[|a| + 1 + |b|] == '-'
            && name[|a| + |b| + 2..] == c
  {
  }

  /** A suffixed name is its root, a hyphen and the number in three decimal digits. */
  lemma SuffixReads(root: string, i: nat)
    requires i <= MAX_SUFFIX
    ensures var name := Suffixed(root, i);
            && |name| == |root| + 4 && name[..|root|] == root && name[|root|] == '-'
            && AllDigits(name[|root| + 1..]) && ReadDecimal(name[|root| + 1..]) == i
  {
    assert Suffixed(root, i)[|root| + 1..] == Pad3(i);
    Pad3Says(i);
  }

  lemma DigitSays(d: nat)
    requires d < 10
    ensures '0' <= Digit(d) <= '9' && (Digit(d) - '0') as nat == d
  {
  }

  lemma Pad3Says(i: nat)
    requires i <= MAX_SUFFIX
    ensures AllDigits(Pad3(i)) && ReadDecimal(Pad3(i)) == i
  {
    var s := Pad3(i);
    DigitSays(i / 100);
    DigitSays(i / 10 % 10);
    DigitSays(i % 10);
    assert s[..2][..1] == s[..1] && s[..1][..0] == "";
    assert ReadDecimal(s[..1]) == i / 100;
    assert ReadDecimal(s[..2]) == 10 * (i / 100) + i / 10 % 10;
    ThreeDigits(i);
  }

  lemma ComposedHyphens(a: string, b: string, c: string)
    requires '-' !in a && '-' !in b && '-' !in c
    ensures Hyphens(Compose(a, b, c)) == 2
  {
    NoHyphens(a);
    NoHyphens(b);
    NoHyphens(c);
    HyphensAdd(a, "-");
    HyphensAdd(a + "-", b);
    HyphensAdd(a + "-" + b, "-");
    HyphensAdd(a + "-" + b + "-", c);
  }

  /** A suffixed name is never one of the three-word names. */
  lemma SuffixedIsNotComposed(a: string, b: string, c: string, i: nat, x: string, y: string, z: string)
    requires '-' !in a && '-' !in b && '-' !in c && '-' !in x && '-' !in y && '-' !in z
    requires i <= MAX_SUFFIX
    ensures Suffixed(Compose(a, b, c), i) != Compose(x, y, z)
  {
    var root := Compose(a, b, c);
    ComposedHyphens(a, b, c);
    ComposedHyphens(x, y, z);
    HyphensAdd(root, "-");
    HyphensAdd(root + "-", Pad3(i));
  }

  lemma Pad3Injective(i: nat, j: nat)
    requires i <= MAX_SUFFIX && j <= MAX_SUFFIX
    ensures Pad3(i) == Pad3(j) <==> i == j
  {
    if Pad3(i) == Pad3(j) {
      DigitInjective(Pad3(i)[0], i / 100, j / 100);
      DigitInjective(Pad3(i)[1], i / 10 % 10, j / 10 % 10);
      DigitInjective(Pad3(i)[2], i % 10, j % 10);
      ThreeDigits(i);
      ThreeDigits(j);
    }
  }

  lemma ThreeDigits(i: nat)
    ensures i == 100 * (i / 100) + 10 * (i / 10 % 10) + i % 10
  {
    assert i / 100 == i / 10 / 10;
  }

  lemma DigitInjective(c: char, d: nat, e: nat)
    requires d < 10 && e < 10 && c == Digit(d) == Digit(e)
    ensures d == e
  {
  }

  /** Two suffixed names are equal only for the same root and the same number. */
  lemma SuffixedInjective(root: string, i: nat, root': string, j: nat)
    requires i <= MAX_SUFFIX && j <= MAX_SUFFIX
    ensures Suffixed(root, i) == Suffixed(root', j) <==> root == root' && i == j
  {
    var s, t := Suffixed(root, i), Suffixed(root', j);
    if s == t {
      assert s[|s| - 3..] == Pad3(i) && t[|t| - 3..] == Pad3(j);
      Pad3Injective(i, j);
      assert s[..|s| - 4] == root && t[..|t| - 4] == root';
    }
  }
}
