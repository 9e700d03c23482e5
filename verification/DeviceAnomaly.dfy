/**
 Random anomaly episodes over every interleaving of the uplink goroutine with manual commands. The laws speak
 only about the list of finished dataUp calls, not about the counters the device keeps.
 */
module DeviceAnomaly {
  import opened Prelude
  import opened DeviceModel
  import DeviceUplinks

  /** Counts towards an episode: not manual, and not abandoned by a crypto error. */
  predicate Counts(a: Attempt) {
    !a.choice.manual && !a.outcome.CryptoError?
  }

  /** How many of the attempts from `k` up to but not including `j` count. */
  function Served(log: seq<Attempt>, k: nat, j: nat): nat
    requires k <= j <= |log|
    decreases j
  {
    if k == j then 0 else Served(log, k, j - 1) + if Counts(log[j - 1]) then 1 else 0
  }

  predicate Rolled(log: seq<Attempt>, k: nat)
    requires k < |log|
  {
    log[k].choice.rolled
  }

  ghost predicate NoRoll(log: seq<Attempt>, from: nat, upTo: nat)
    requires upTo <= |log|
  {
    forall i | from <= i < upTo :: !Rolled(log, i)
  }

  /** The attempt is either under a manual command or free of any anomaly. */
  predicate Quiet(a: Attempt) {
    a.choice.manual || a.choice.anomaly == NoAnomaly
  }

  /**
   What a roll at `k` means for attempt `j`: until exactly `d` attempts have counted, j carries the type rolled
   at k (unless it is manual) and nothing new is rolled; from then on j is quiet until the next roll.
   */
  ghost predicate EpisodeAt(log: seq<Attempt>, d: int, k: nat, j: nat)
    requires k <= j < |log|
  {
    if Served(log, k, j) < d then
      && (log[j].choice.manual || log[j].choice.anomaly == log[k].choice.anomaly)
      && (Rolled(log, j) ==> j == k)
    else
      NoRoll(log, k + 1, j + 1) ==> Quiet(log[j])
  }

  ghost predicate EpisodeLaw(log: seq<Attempt>, d: int) {
    && (forall k: nat, j: nat | k <= j < |log| && Rolled(log, k) :: EpisodeAt(log, d, k, j))
    && (forall j: nat | j < |log| && NoRoll(log, 0, j + 1) :: Quiet(log[j]))
  }

  /** The roll that is still in force, if any: it is `at`, and `left` more attempts must count. */
  datatype Open = Open(at: nat, left: nat)

  ghost predicate Tally(log: seq<Attempt>, d: int, open: Option<Open>) {
    && (open.Some? ==>
          && open.value.at < |log| && Rolled(log, open.value.at) && NoRoll(log, open.value.at + 1, |log|)
          && Served(log, open.value.at, |log|) == d - open.value.left && 0 < open.value.left)
    && (forall k: nat | k < |log| && Rolled(log, k) ::
          (open.Some? && k == open.value.at) || Served(log, k, |log|) >= d)
  }

  /** The device's own fields, and the choice the uplink goroutine holds, describe the open roll. */
  ghost predicate Describes(log: seq<Attempt>, d: int, pending: Option<Choice>, a: Anomaly, open: Option<Open>) {
    && EpisodeLaw(log, d)
    && Tally(log, d, open)
    && Agrees(log, d, pending, a, open)
  }

  ghost predicate Agrees(log: seq<Attempt>, d: int, pending: Option<Choice>, a: Anomaly, open: Option<Open>) {
    && (a.activeType != NoAnomaly <==> a.remaining > 0)
    && a.drift >= 0.0
    && (pending.Some? && !pending.value.manual ==> pending.value.anomaly == a.activeType)
    && (pending.Some? && pending.value.rolled ==> !pending.value.manual && open.None? && a.remaining == d)
    && (pending.None? || !pending.value.rolled ==> (a.activeType != NoAnomaly <==> open.Some?))
    && (open.Some? ==> a.remaining == open.value.left && open.value.at < |log|
                       && a.activeType == log[open.value.at].choice.anomaly)
  }

  ghost predicate Inv(c: Config, s: State, open: Option<Open>) {
    Describes(s.seen.attempts, Duration(c), DeviceUplinks.CurrentChoice(s.pc), s.anomaly, open)
  }

  ghost predicate NamedTypes(c: Config) {
    forall i | 0 <= i < |c.types| :: c.types[i] != NoAnomaly
  }

  lemma {:induction false} ServedFrame(log: seq<Attempt>, a: Attempt, k: nat, j: nat)
    requires k <= j <= |log|
    ensures Served(log + [a], k, j) == Served(log, k, j)
    decreases j
  {
    if k < j {
      ServedFrame(log, a, k, j - 1);
    }
  }

  lemma LawAppend(log: seq<Attempt>, d: int, open: Option<Open>, a: Attempt)
    requires EpisodeLaw(log, d) && Tally(log, d, open) && d > 0
    requires a.choice.rolled ==> open.None?
    requires open.Some? ==> a.choice.manual || a.choice.anomaly == log[open.value.at].choice.anomaly
    requires open.None? && !a.choice.rolled ==> Quiet(a)
    ensures EpisodeLaw(log + [a], d)
  {
    var log', n := log + [a], |log|;
    forall k: nat, j: nat | k <= j < |log'| && Rolled(log', k) ensures EpisodeAt(log', d, k, j) {
      ServedFrame(log, a, k, j);
      if j < n {
        assert Rolled(log, k) && EpisodeAt(log, d, k, j);
        if NoRoll(log', k + 1, j + 1) {
          assert NoRoll(log, k + 1, j + 1) by {
            forall i | k + 1 <= i < j + 1 ensures !Rolled(log, i) { assert !Rolled(log', i); }
          }
        }
      } else if k < n {
        assert Rolled(log, k);
        if NoRoll(log', k + 1, n + 1) && open.Some? && k != open.value.at {
          assert !Rolled(log', n);
          if k < open.value.at {
            assert Rolled(log', open.value.at);
            assert false;
          }
        }
        assert Rolled(log', n) == a.choice.rolled;
      }
    }
    forall j: nat | j < |log'| && NoRoll(log', 0, j + 1) ensures Quiet(log'[j]) {
      if j < n {
        assert NoRoll(log, 0, j + 1) by {
          forall i | 0 <= i < j + 1 ensures !Rolled(log, i) { assert !Rolled(log', i); }
        }
      } else {
        assert !Rolled(log', n);
        if open.Some? { assert Rolled(log', open.value.at); }
      }
    }
  }

  /** The open roll after one more attempt. */
  function OpenAfter(log: seq<Attempt>, d: nat, open: Option<Open>, a: Attempt): Option<Open> {
    var now := if a.choice.rolled then Some(Open(|log|, d)) else open;
    if now.None? || !Counts(a) then now
    else if now.value.left <= 1 then None
    else Some(Open(now.value.at, now.value.left - 1))
  }

  lemma TallyAppend(log: seq<Attempt>, d: nat, open: Option<Open>, a: Attempt)
    requires Tally(log, d, open) && d > 0
    requires a.choice.rolled ==> open.None?
    ensures Tally(log + [a], d, OpenAfter(log, d, open, a))
  {
    var log', n := log + [a], |log|;
    forall k: nat | k <= n ensures Served(log', k, n) == Served(log, k, n) {
      ServedFrame(log, a, k, n);
    }
    var open' := OpenAfter(log, d, open, a);
    if open'.Some? {
      forall i | open'.value.at + 1 <= i < n + 1 ensures !Rolled(log', i) {
        if i < n { assert !Rolled(log, i); }
      }
    }
    forall k: nat | k < n + 1 && Rolled(log', k)
      ensures (open'.Some? && k == open'.value.at) || Served(log', k, n + 1) >= d
    {
      if k < n { assert Rolled(log, k); }
    }
  }

  lemma AttemptMade(log: seq<Attempt>, d: nat, choice: Choice, a: Anomaly, open: Option<Open>, x: Attempt)
    requires d > 0 && Describes(log, d, Some(choice), a, open)
    requires x.choice == choice && (x.outcome.Sent? || choice.anomaly == Dropout || x.outcome.CryptoError?)
    ensures var a' := if x.outcome.CryptoError? then a else if x.outcome.Sent? then AfterCommit(a, choice) else AfterDrop(a, choice);
            Describes(log + [x], d, None, a', OpenAfter(log, d, open, x))
  {
    LawAppend(log, d, open, x);
    TallyAppend(log, d, open, x);
  }

  lemma ChoiceMade(c: Config, log: seq<Attempt>, a: Anomaly, open: Option<Open>, roll: Option<nat>)
    requires NamedTypes(c) && Describes(log, Duration(c), None, a, open)
    requires roll.Some? ==> roll.value < |c.types|
    ensures Describes(log, Duration(c), Some(ChoiceOf(c, a, roll)), AfterChoice(c, a, roll), open)
  {
  }

  /** The attempt an event completes, if it completes one. */
  function Completed(s: State, e: Event): Option<Attempt> {
    match e
    case DropUplink => if s.pc.Chosen? then Some(Attempt(s.pc.choice, Dropped(s.fCntUp))) else None
    case BuildFrame(cryptoOk) => if s.pc.Prepared? && !cryptoOk then Some(Attempt(s.pc.choice, CryptoError)) else None
    case Commit => if s.pc.Framed? then Some(Attempt(s.pc.choice, Sent(s.pc.frame))) else None
    case _ => None
  }

  function NextOpen(c: Config, s: State, open: Option<Open>, e: Event): Option<Open> {
    if Enabled(c, s, e) && Completed(s, e).Some? then OpenAfter(s.seen.attempts, Duration(c), open, Completed(s, e).value)
    else open
  }

  lemma InvStep(c: Config, s: State, open: Option<Open>, e: Event)
    requires NamedTypes(c) && Inv(c, s, open)
    ensures Inv(c, Step(c, s, e), NextOpen(c, s, open, e))
  {
    if Enabled(c, s, e) {
      if Completed(s, e).Some? {
        AttemptMade(s.seen.attempts, Duration(c), s.pc.choice, s.anomaly, open, Completed(s, e).value);
      } else if e.Choose? {
        ChoiceMade(c, s.seen.attempts, s.anomaly, open, e.roll);
      } else {
        OtherStep(c, s, open, e);
      }
    }
  }

  lemma OtherStep(c: Config, s: State, open: Option<Open>, e: Event)
    requires Inv(c, s, open) && Enabled(c, s, e) && Completed(s, e).None? && !e.Choose?
    ensures Inv(c, Step(c, s, e), open)
  {
  }

  lemma {:induction false} InvExec(c: Config, es: seq<Event>) returns (open: Option<Open>)
    requires NamedTypes(c)
    ensures Inv(c, Exec(c, Init(c), es), open)
  {
    open := None;
    if es != [] {
      var front := InvExec(c, es[..|es| - 1]);
      var s := Exec(c, Init(c), es[..|es| - 1]);
      InvStep(c, s, front, es[|es| - 1]);
      open := NextOpen(c, s, front, es[|es| - 1]);
    }
  }

  /**
   A random episode lasts exactly the configured number of non-manual uplinks (five when that is not positive),
   however manual commands fall between the lock sections; and there is no random anomaly outside an episode.
   */
  lemma EpisodesLastExactly(c: Config, es: seq<Event>)
    requires NamedTypes(c)
    ensures EpisodeLaw(Exec(c, Init(c), es).seen.attempts, if c.duration <= 0 then 5 else c.duration)
  {
    var _ := InvExec(c, es);
  }

  /** At every step boundary an episode is in force exactly while its remaining count is positive. */
  lemma TypeIffRemaining(c: Config, es: seq<Event>)
    requires NamedTypes(c)
    ensures var a := Exec(c, Init(c), es).anomaly;
            (a.activeType != NoAnomaly <==> a.remaining > 0) && a.drift >= 0.0
  {
    var _ := InvExec(c, es);
  }

  // ----- no draw, no anomaly -----

  predicate CalmChoice(choice: Choice) {
    !choice.rolled && (choice.manual || choice.anomaly == NoAnomaly)
  }

  ghost predicate Calm(s: State) {
    && s.anomaly.activeType == NoAnomaly
    && (DeviceUplinks.CurrentChoice(s.pc).Some? ==> CalmChoice(DeviceUplinks.CurrentChoice(s.pc).value))
    && forall i | 0 <= i < |s.seen.attempts| :: CalmChoice(s.seen.attempts[i].choice)
  }

  lemma CalmStep(c: Config, s: State, e: Event)
    requires (!c.canRoll || c.types == []) && Calm(s)
    ensures Calm(Step(c, s, e))
  {
  }

  /** With probability zero, or no types to pick from, no uplink ever carries an anomaly that no command asked for. */
  lemma {:induction false} NoneWithoutDraws(c: Config, es: seq<Event>)
    requires !c.canRoll || c.types == []
    ensures forall i | 0 <= i < |Exec(c, Init(c), es).seen.attempts| ::
              var choice := Exec(c, Init(c), es).seen.attempts[i].choice; choice.manual || choice.anomaly == NoAnomaly
    ensures Calm(Exec(c, Init(c), es))
  {
    if es != [] {
      NoneWithoutDraws(c, es[..|es| - 1]);
      CalmStep(c, Exec(c, Init(c), es[..|es| - 1]), es[|es| - 1]);
    }
    var s := Exec(c, Init(c), es);
    assert Calm(s);
    forall i | 0 <= i < |s.seen.attempts| ensures s.seen.attempts[i].choice.manual || s.seen.attempts[i].choice.anomaly == NoAnomaly {
      assert CalmChoice(s.seen.attempts[i].choice);
    }
  }

  // ----- drift -----

  ghost predicate NoManual(es: seq<Event>) {
    forall i | 0 <= i < |es| :: !es[i].SetManual?
  }

  function LastRoll(log: seq<Attempt>): (k: Option<nat>)
    ensures k.Some? ==> k.value < |log| && Rolled(log, k.value)
  {
    if log == [] then None
    else if Rolled(log, |log| - 1) then Some(|log| - 1)
    else LastRoll(log[..|log| - 1])
  }

  /** Uplinks already sent in the drift episode in force; zero when there is none. */
  function DriftUplinks(log: seq<Attempt>, d: int): nat {
    match LastRoll(log)
    case None => 0
    case Some(k) =>
      if log[k].choice.anomaly == Drift && Served(log, k, |log|) < d then Served(log, k, |log|) else 0
  }

  ghost predicate DriftInv(d: int, pending: Option<Choice>, a: Anomaly, open: Option<Open>) {
    && !a.manualActive
    && (pending.Some? ==> !pending.value.manual)
    && a.drift == if open.Some? && a.activeType == Drift then 0.5 * (d - open.value.left) as real else 0.0
  }

  lemma DriftStep(c: Config, s: State, open: Option<Open>, e: Event)
    requires NamedTypes(c) && !e.SetManual?
    requires Agrees(s.seen.attempts, Duration(c), DeviceUplinks.CurrentChoice(s.pc), s.anomaly, open)
    requires DriftInv(Duration(c), DeviceUplinks.CurrentChoice(s.pc), s.anomaly, open)
    ensures var t := Step(c, s, e);
            DriftInv(Duration(c), DeviceUplinks.CurrentChoice(t.pc), t.anomaly, NextOpen(c, s, open, e))
  {
    if Enabled(c, s, e) && Completed(s, e).Some? {
      DriftMade(s.seen.attempts, Duration(c), s.pc.choice, s.anomaly, open, Completed(s, e).value);
    }
  }

  lemma DriftMade(log: seq<Attempt>, d: int, choice: Choice, a: Anomaly, open: Option<Open>, x: Attempt)
    requires d > 0 && Agrees(log, d, Some(choice), a, open) && DriftInv(d, Some(choice), a, open)
    requires x.choice == choice && (x.outcome.Sent? || choice.anomaly == Dropout || x.outcome.CryptoError?)
    ensures var a' := if x.outcome.CryptoError? then a else if x.outcome.Sent? then AfterCommit(a, choice) else AfterDrop(a, choice);
            DriftInv(d, None, a', OpenAfter(log, d, open, x))
  {
  }

  lemma {:induction false} DriftExec(c: Config, es: seq<Event>) returns (open: Option<Open>)
    requires NamedTypes(c) && NoManual(es)
    ensures var s := Exec(c, Init(c), es);
            Inv(c, s, open) && DriftInv(Duration(c), DeviceUplinks.CurrentChoice(s.pc), s.anomaly, open)
  {
    open := None;
    if es != [] {
      var front := DriftExec(c, es[..|es| - 1]);
      var s := Exec(c, Init(c), es[..|es| - 1]);
      InvStep(c, s, front, es[|es| - 1]);
      DriftStep(c, s, front, es[|es| - 1]);
      open := NextOpen(c, s, front, es[|es| - 1]);
    }
  }

  lemma {:induction false} LastRollIs(log: seq<Attempt>, k: nat)
    requires k < |log| && Rolled(log, k) && NoRoll(log, k + 1, |log|)
    ensures LastRoll(log) == Some(k)
  {
    if k < |log| - 1 {
      assert !Rolled(log, |log| - 1);
      var front := log[..|log| - 1];
      forall i | k + 1 <= i < |front| ensures !Rolled(front, i) { assert !Rolled(log, i); }
      LastRollIs(front, k);
    }
  }

  /** Without manual commands the drift is half a degree for each uplink already sent in the drift episode, else zero. */
  lemma DriftCountsUplinks(c: Config, es: seq<Event>)
    requires NamedTypes(c) && NoManual(es)
    ensures var s := Exec(c, Init(c), es);
            s.anomaly.drift == 0.5 * DriftUplinks(s.seen.attempts, Duration(c)) as real
  {
    var open := DriftExec(c, es);
    var s := Exec(c, Init(c), es);
    if open.Some? {
      LastRollIs(s.seen.attempts, open.value.at);
    } else if LastRoll(s.seen.attempts).Some? {
      assert Rolled(s.seen.attempts, LastRoll(s.seen.attempts).value);
    }
  }
}
