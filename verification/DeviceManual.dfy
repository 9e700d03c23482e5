/**
 Manual anomaly commands, over every interleaving: which command is in force, what the next uplink is, and what the drift
 amounts to. The laws speak of the list of events and of the finished dataUp calls, not of the device's anomaly fields.
 */
module DeviceManual {
  import opened Prelude
  import opened DeviceModel
  import opened DeviceAnomaly
  import DeviceUplinks

  // ----- the command in force -----

  /** The step ends a manual dropout, or the uplink of a manual spike. */
  predicate Spends(s: State, e: Event) {
    || (e.DropUplink? && s.pc.Chosen? && s.pc.choice.anomaly == Dropout && s.pc.choice.manual)
    || (e.Commit? && s.pc.Framed? && s.pc.choice.manual && (s.pc.choice.anomaly == Spike || s.pc.choice.anomaly == Dropout))
  }

  /** The last command given, unless it switched off or was spent since. */
  function InForce(c: Config, es: seq<Event>): Option<Kind> {
    if es == [] then None
    else
      var front, last := es[..|es| - 1], es[|es| - 1];
      if last.SetManual? then if last.active then Some(last.anomalyType) else None
      else if Spends(Exec(c, Init(c), front), last) then None
      else InForce(c, front)
  }

  lemma ManualStep(c: Config, s: State, e: Event)
    ensures var a, b := s.anomaly, Step(c, s, e).anomaly;
            if e.SetManual? then b.manualActive == e.active && b.manualType == e.anomalyType
            else if Spends(s, e) then !b.manualActive
            else b.manualActive == a.manualActive && b.manualType == a.manualType
  {
  }

  /** A manual anomaly is active exactly while a command is in force, and it is that command's. */
  lemma {:induction false} ManualLaw(c: Config, es: seq<Event>)
    ensures var a := Exec(c, Init(c), es).anomaly;
            if a.manualActive then InForce(c, es) == Some(a.manualType) else InForce(c, es) == None
  {
    if es != [] {
      ManualLaw(c, es[..|es| - 1]);
      ManualStep(c, Exec(c, Init(c), es[..|es| - 1]), es[|es| - 1]);
    }
  }

  ghost predicate NoneGiven(es: seq<Event>) {
    forall i | 0 <= i < |es| :: !(es[i].SetManual? && es[i].active)
  }

  ghost predicate NoCommand(es: seq<Event>) {
    forall i | 0 <= i < |es| :: !es[i].SetManual?
  }

  lemma {:induction false} InactiveStays(c: Config, s: State, es: seq<Event>)
    requires !s.anomaly.manualActive && NoneGiven(es)
    ensures !Exec(c, s, es).anomaly.manualActive
  {
    if es != [] {
      var front := es[..|es| - 1];
      assert forall i | 0 <= i < |front| :: front[i] == es[i];
      InactiveStays(c, s, front);
      ManualStep(c, Exec(c, s, front), es[|es| - 1]);
    }
  }

  /** Once a manual spike was sent, or a manual dropout made, nothing is manual any more until the next command. */
  lemma SpentForGood(c: Config, s: State, e: Event, es: seq<Event>, roll: Option<nat>)
    requires Spends(s, e) && NoneGiven(es)
    ensures var t := Exec(c, Step(c, s, e), es);
            !t.anomaly.manualActive && (Enabled(c, t, Choose(roll)) ==> !Step(c, t, Choose(roll)).pc.choice.manual)
  {
    ManualStep(c, s, e);
    InactiveStays(c, Step(c, s, e), es);
  }

  /** The uplink goroutine does not hold a manual spike or dropout, and will not choose one. */
  ghost predicate Lasting(s: State, kind: Kind) {
    && s.anomaly.manualActive && s.anomaly.manualType == kind
    && kind != Spike && kind != Dropout
    && (DeviceUplinks.CurrentChoice(s.pc).Some? ==>
          var choice := DeviceUplinks.CurrentChoice(s.pc).value;
          choice.manual ==> choice.anomaly != Spike && choice.anomaly != Dropout)
  }

  lemma LastingStep(c: Config, s: State, e: Event, kind: Kind)
    requires Lasting(s, kind) && !e.SetManual?
    ensures Lasting(Step(c, s, e), kind)
  {
  }

  /** A manual drift, flatline or any other kind but spike and dropout lasts until a command, whatever is sent. */
  lemma {:induction false} LastsUntilCommand(c: Config, s: State, es: seq<Event>, kind: Kind, roll: Option<nat>)
    requires Lasting(s, kind) && NoCommand(es)
    ensures var t := Exec(c, s, es);
            Lasting(t, kind) && (Enabled(c, t, Choose(roll)) ==> Step(c, t, Choose(roll)).pc.choice == Choice(kind, true, false))
  {
    if es != [] {
      var front := es[..|es| - 1];
      assert forall i | 0 <= i < |front| :: front[i] == es[i];
      LastsUntilCommand(c, s, front, kind, roll);
      LastingStep(c, Exec(c, s, front), es[|es| - 1], kind);
    }
  }

  /** The run that loses a command: given while a manual spike is being sent, it is cleared together with the spike. */
  lemma CommandLost(c: Config, s: State, script: ScriptResult, readings: Readings, kind: Kind)
    requires s.pc == Sending && s.anomaly.manualActive && s.anomaly.manualType == Spike
    ensures var es := [Choose(None), Prepare(script, readings), BuildFrame(true), SetManual(kind, true), Commit];
            var t := Exec(c, s, es);
            t.pc == Counting && !t.anomaly.manualActive
            && |t.seen.attempts| == |s.seen.attempts| + 1 && t.seen.attempts[|s.seen.attempts|].choice == Choice(Spike, true, false)
  {
    var es := [Choose(None)];
    ExecOne(c, s, [], Choose(None));
    assert [] + es == es;
    ExecOne(c, s, es, Prepare(script, readings));
    es := es + [Prepare(script, readings)];
    ExecOne(c, s, es, BuildFrame(true));
    es := es + [BuildFrame(true)];
    ExecOne(c, s, es, SetManual(kind, true));
    es := es + [SetManual(kind, true)];
    ExecOne(c, s, es, Commit);
    assert es + [Commit] == [Choose(None), Prepare(script, readings), BuildFrame(true), SetManual(kind, true), Commit];
  }

  // ----- what the next uplink is -----

  /** The roll whose episode is not over: the last one, while fewer than d uplinks have counted towards it. */
  function OpenRoll(log: seq<Attempt>, d: int): Option<nat> {
    match LastRoll(log)
    case None => None
    case Some(k) => if Served(log, k, |log|) < d then Some(k) else None
  }

  /** The choice that the past asks for. */
  function Due(c: Config, command: Option<Kind>, log: seq<Attempt>, roll: Option<nat>): Choice
    requires roll.Some? ==> roll.value < |c.types|
  {
    var open := OpenRoll(log, if c.duration <= 0 then 5 else c.duration);
    if command.Some? then Choice(command.value, true, false)
    else if open.Some? then Choice(log[open.value].choice.anomaly, false, false)
    else if roll.Some? then Choice(c.types[roll.value], false, true)
    else Choice(NoAnomaly, false, false)
  }

  lemma OpenIs(c: Config, s: State, open: Option<Open>)
    requires Inv(c, s, open)
    ensures OpenRoll(s.seen.attempts, Duration(c)) == if open.Some? then Some(open.value.at) else None
  {
    if open.Some? {
      LastRollIs(s.seen.attempts, open.value.at);
    } else if LastRoll(s.seen.attempts).Some? {
      assert Rolled(s.seen.attempts, LastRoll(s.seen.attempts).value);
    }
  }

  /**
   In every interleaving the next uplink carries the command in force; else the anomaly of the episode that is not over;
   else, when the draw hits, the drawn type, which starts an episode; else nothing.
   */
  lemma ChoiceIsDue(c: Config, es: seq<Event>, roll: Option<nat>)
    requires NamedTypes(c) && Exec(c, Init(c), es).pc == Sending
    requires roll.Some? ==> c.canRoll && roll.value < |c.types|
    ensures Exec(c, Init(c), es + [Choose(roll)]).pc == Chosen(Due(c, InForce(c, es), Exec(c, Init(c), es).seen.attempts, roll))
  {
    var open := InvExec(c, es);
    var s := Exec(c, Init(c), es);
    ManualLaw(c, es);
    OpenIs(c, s, open);
    ExecOne(c, Init(c), es, Choose(roll));
  }

  // ----- the drift -----

  /** The uplink being finished is the last of its episode. */
  predicate EndsEpisode(c: Config, s: State)
    requires s.pc.Framed?
  {
    var log := s.seen.attempts + [Attempt(s.pc.choice, Sent(s.pc.frame))];
    var last := LastRoll(log);
    && !s.pc.choice.manual && s.pc.choice.anomaly != NoAnomaly
    && last.Some? && Served(log, last.value, |log|) == Duration(c)
  }

  /** Uplinks sent under drift, manual or random, since it was last set back: by switching off, a roll or the end of an episode. */
  function Drifted(c: Config, es: seq<Event>): nat {
    if es == [] then 0
    else
      var front, last := es[..|es| - 1], es[|es| - 1];
      var s, n := Exec(c, Init(c), front), Drifted(c, front);
      if !Enabled(c, s, last) then n
      else
        match last
        case SetManual(_, active) => if active then n else 0
        case Choose(_) => var t := Step(c, s, last); if t.pc.Chosen? && t.pc.choice.rolled then 0 else n
        case Commit => if EndsEpisode(c, s) then 0 else if s.pc.choice.anomaly == Drift then n + 1 else n
        case _ => n
  }

  lemma EndIs(c: Config, s: State, open: Option<Open>)
    requires Inv(c, s, open) && s.pc.Framed?
    ensures EndsEpisode(c, s) <==> !s.pc.choice.manual && s.pc.choice.anomaly != NoAnomaly && s.anomaly.remaining == 1
  {
    var x := Attempt(s.pc.choice, Sent(s.pc.frame));
    var log, n := s.seen.attempts + [x], |s.seen.attempts|;
    TallyAppend(s.seen.attempts, Duration(c), open, x);
    assert log[n] == x;
    if x.choice.rolled {
      LastRollIs(log, n);
      assert Served(log, n, n + 1) == Served(log, n, n) + 1;
    } else if open.Some? {
      forall i | open.value.at + 1 <= i < n + 1 ensures !Rolled(log, i) {
        assert i < n ==> !Rolled(s.seen.attempts, i);
      }
      LastRollIs(log, open.value.at);
      ServedFrame(s.seen.attempts, x, open.value.at, n);
    }
  }

  lemma DriftedStep(c: Config, s: State, open: Option<Open>, e: Event)
    requires Inv(c, s, open) && Enabled(c, s, e)
    ensures var t := Step(c, s, e);
            t.anomaly.drift ==
              match e
              case SetManual(_, active) => if active then s.anomaly.drift else 0.0
              case Choose(_) => if t.pc.choice.rolled then 0.0 else s.anomaly.drift
              case Commit => if EndsEpisode(c, s) then 0.0 else if s.pc.choice.anomaly == Drift then s.anomaly.drift + 0.5 else s.anomaly.drift
              case _ => s.anomaly.drift
  {
    if e.Commit? {
      EndIs(c, s, open);
    }
  }

  /** In every interleaving the drift is half a degree for each uplink sent under drift since it was last set back. */
  lemma {:induction false} DriftLaw(c: Config, es: seq<Event>)
    requires NamedTypes(c)
    ensures Exec(c, Init(c), es).anomaly.drift == 0.5 * Drifted(c, es) as real
  {
    if es != [] {
      var front := es[..|es| - 1];
      DriftLaw(c, front);
      var open := InvExec(c, front);
      if Enabled(c, Exec(c, Init(c), front), es[|es| - 1]) {
        DriftedStep(c, Exec(c, Init(c), front), open, es[|es| - 1]);
      }
    }
  }
}
