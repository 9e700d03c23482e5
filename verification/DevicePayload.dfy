/** What a data frame carries, whatever the downlink goroutine and manual commands do in between, and what a cancelled device still does. */
module DevicePayload {
  import opened Prelude
  import opened DeviceModel
  import opened DeviceUplinks

  // ----- one uplink, with everything else interleaved -----

  /** Degrees added to the measured temperature. */
  function Offset(kind: Kind, drift: real): int {
    if kind == Spike then 15 else if kind == Drift then drift.Floor else 0
  }

  /** Two octets as a big-endian number. */
  function BigEndian(hi: byte, lo: byte): int {
    0x100 * (hi as int) + lo as int
  }

  /** The five octets are the temperature, in two's complement, the pressure and the voltage. */
  ghost predicate ShowsReadings(b: seq<byte>, kind: Kind, drift: real, readings: Readings) {
    && |b| == 5
    && (BigEndian(b[0], b[1]) - (readings.temp + Offset(kind, drift))) % 0x1_0000 == 0
    && BigEndian(b[2], b[3]) == readings.pressure
    && b[4] == readings.voltage
  }

  /** A flatline repeats the last payload sent; else the script decides, if there is one; else five octets show the readings. */
  ghost predicate FilledAs(c: Config, before: seq<byte>, last: seq<byte>, drift: real, kind: Kind, script: ScriptResult,
                           readings: Readings, now: seq<byte>)
  {
    if kind == Flatline && last != [] then now == last
    else if c.hasScript then now == (match script case Bytes(v) => v case NoBytes => before)
    else if |before| == 5 then ShowsReadings(now, kind, drift, readings)
    else now == before
  }

  lemma TelemetryShows(readings: Readings, kind: Kind, drift: real)
    ensures ShowsReadings(Telemetry(readings, kind, drift), kind, drift, readings)
  {
    var b, v := Telemetry(readings, kind, drift), Temperature(readings, kind, drift);
    SignedBytesShow(v);
    assert b[0] == SignedBytes(v)[0] && b[1] == SignedBytes(v)[1];
    TemperatureIs(readings, kind, drift);
    SumOfMultiples(BigEndian(b[0], b[1]) - v, v - (readings.temp + Offset(kind, drift)));
  }

  lemma SignedBytesShow(v: int)
    requires -0x8000 <= v < 0x8000
    ensures var b := SignedBytes(v); (BigEndian(b[0], b[1]) - v) % 0x1_0000 == 0
  {
    var w := if v < 0 then v + 0x1_0000 else v;
    assert v % TWO16 == w && v % 0x100 == w % 0x100;
  }

  lemma TemperatureIs(readings: Readings, kind: Kind, drift: real)
    ensures (Temperature(readings, kind, drift) - (readings.temp + Offset(kind, drift))) % 0x1_0000 == 0
  {
    if kind == Drift {
      var t, f := Temperature(readings, kind, drift), Int16(drift.Floor);
      SumOfMultiples(t - (readings.temp + f), f - drift.Floor);
    }
  }

  lemma SumOfMultiples(a: int, b: int)
    requires a % 0x1_0000 == 0 && b % 0x1_0000 == 0
    ensures (a + b) % 0x1_0000 == 0
  {
  }

  /** Join-accepts, data downlinks, commands and cancellation: what other goroutines do. */
  ghost predicate Others(es: seq<Event>) {
    forall i | 0 <= i < |es| :: es[i].ReceiveAccept? || es[i].ReceiveData? || es[i].SetManual? || es[i].Cancel?
  }

  lemma {:induction false} OthersLeave(c: Config, s: State, es: seq<Event>)
    requires Others(es)
    ensures var t := Exec(c, s, es);
            && t.pc == s.pc && t.fCntUp == s.fCntUp && t.payload == s.payload && t.lastPayload == s.lastPayload
            && t.seen.attempts == s.seen.attempts && t.seen.metric == s.seen.metric && t.seen.requests == s.seen.requests
  {
    if es != [] {
      var front := es[..|es| - 1];
      assert forall i | 0 <= i < |front| :: front[i] == es[i];
      OthersLeave(c, s, front);
    }
  }

  lemma Prepared(c: Config, s: State, script: ScriptResult, readings: Readings)
    requires s.pc.Chosen? && s.pc.choice.anomaly != Dropout
    ensures var t := Step(c, s, Prepare(script, readings));
            && t == s.(pc := Pc.Prepared(s.pc.choice), payload := t.payload)
            && FilledAs(c, s.payload, s.lastPayload, s.anomaly.drift, s.pc.choice.anomaly, script, readings, t.payload)
  {
    TelemetryShows(readings, s.pc.choice.anomaly, s.anomaly.drift);
  }

  /** The steps of an uplink from its choice on, with other goroutines' steps in both gaps. */
  function Uplink(script: ScriptResult, readings: Readings, fs: seq<Event>, gs: seq<Event>): seq<Event> {
    [Prepare(script, readings)] + fs + [BuildFrame(true)] + gs + [Commit]
  }

  /** The frame such an uplink sends: counter, port and confirmation, the session of the moment it is built, the payload of before. */
  ghost predicate SendsFrame(c: Config, s: State, u: State, script: ScriptResult, readings: Readings, f: Frame)
    requires s.pc.Chosen?
  {
    && f.fCnt == s.fCntUp && f.confirmed == c.confirmed && f.fPort == c.fPort && f.session == u.session
    && FilledAs(c, s.payload, s.lastPayload, s.anomaly.drift, s.pc.choice.anomaly, script, readings, f.plaintext)
  }

  lemma UplinkInSteps(c: Config, s: State, script: ScriptResult, readings: Readings, fs: seq<Event>, gs: seq<Event>)
    ensures var u := Exec(c, Step(c, s, Prepare(script, readings)), fs);
            Exec(c, s, Uplink(script, readings, fs, gs)) == Step(c, Exec(c, Step(c, u, BuildFrame(true)), gs), Commit)
  {
    var es := [Prepare(script, readings)];
    ExecOne(c, s, [], es[0]);
    assert [] + es == es;
    ExecConcat(c, s, es, fs);
    ExecOne(c, s, es + fs, BuildFrame(true));
    ExecConcat(c, s, es + fs + [BuildFrame(true)], gs);
    ExecOne(c, s, es + fs + [BuildFrame(true)] + gs, Commit);
  }

  /**
   Whatever happens in between, an uplink that is not a dropout adds exactly one attempt, with a frame that carries the
   counter, the configured port and the payload due; it spends one counter and keeps the payload for a later flatline.
   */
  lemma UplinkCarries(c: Config, s: State, script: ScriptResult, readings: Readings, fs: seq<Event>, gs: seq<Event>)
    requires s.pc.Chosen? && s.pc.choice.anomaly != Dropout && Others(fs) && Others(gs)
    ensures var t, u := Exec(c, s, Uplink(script, readings, fs, gs)), Exec(c, Step(c, s, Prepare(script, readings)), fs);
            && |t.seen.attempts| == |s.seen.attempts| + 1
            && (var a := t.seen.attempts[|s.seen.attempts|];
                && t.seen.attempts == s.seen.attempts + [a] && a.choice == s.pc.choice && a.outcome.Sent?
                && SendsFrame(c, s, u, script, readings, a.outcome.frame)
                && t.lastPayload == a.outcome.frame.plaintext)
            && t.pc == Counting && t.fCntUp == (s.fCntUp + 1) % 0x1_0000_0000 && t.seen.metric == s.seen.metric + 1
  {
    var p := Step(c, s, Prepare(script, readings));
    Prepared(c, s, script, readings);
    OthersLeave(c, p, fs);
    var u := Exec(c, p, fs);
    OthersLeave(c, Step(c, u, BuildFrame(true)), gs);
    UplinkInSteps(c, s, script, readings, fs, gs);
  }

  /** A dropout sends nothing and leaves both payloads alone, but spends a counter and is counted. */
  lemma DropoutSendsNothing(c: Config, s: State)
    requires s.pc.Chosen? && s.pc.choice.anomaly == Dropout
    ensures var t := Step(c, s, DropUplink);
            && t.seen.attempts == s.seen.attempts + [Attempt(s.pc.choice, Dropped(s.fCntUp))]
            && Frames(t.seen.attempts) == Frames(s.seen.attempts)
            && t.fCntUp == (s.fCntUp + 1) % 0x1_0000_0000 && t.seen.metric == s.seen.metric + 1
            && t.payload == s.payload && t.lastPayload == s.lastPayload && t.pc == Counting
  {
    Append(s.seen.attempts, Attempt(s.pc.choice, Dropped(s.fCntUp)));
  }

  // ----- over whole runs -----

  ghost predicate Configured(c: Config, f: Frame) {
    f.confirmed == c.confirmed && f.fPort == c.fPort
  }

  ghost predicate ConfiguredInv(c: Config, s: State) {
    && (s.pc.Framed? ==> Configured(c, s.pc.frame))
    && forall i | 0 <= i < |s.seen.attempts| && s.seen.attempts[i].outcome.Sent? :: Configured(c, s.seen.attempts[i].outcome.frame)
  }

  /** Every frame is sent on the configured port, confirmed or not as configured. */
  lemma {:induction false} SentAsConfigured(c: Config, es: seq<Event>)
    ensures ConfiguredInv(c, Exec(c, Init(c), es))
  {
    if es != [] {
      SentAsConfigured(c, es[..|es| - 1]);
      ConfiguredStep(c, Exec(c, Init(c), es[..|es| - 1]), es[|es| - 1]);
    }
  }

  lemma ConfiguredStep(c: Config, s: State, e: Event)
    requires ConfiguredInv(c, s)
    ensures ConfiguredInv(c, Step(c, s, e))
  {
  }

  ghost predicate StaticInv(c: Config, s: State) {
    && s.payload == c.payload && (s.lastPayload == [] || s.lastPayload == c.payload)
    && (s.pc.Framed? ==> s.pc.frame.plaintext == c.payload)
    && forall i | 0 <= i < |s.seen.attempts| && s.seen.attempts[i].outcome.Sent? ::
         s.seen.attempts[i].outcome.frame.plaintext == c.payload
  }

  /** Without a script, a payload that is not five octets long is sent as it was configured in every frame, flatlines included. */
  lemma {:induction false} PayloadIsStatic(c: Config, es: seq<Event>)
    requires !c.hasScript && |c.payload| != 5
    ensures StaticInv(c, Exec(c, Init(c), es))
  {
    if es != [] {
      PayloadIsStatic(c, es[..|es| - 1]);
      StaticStep(c, Exec(c, Init(c), es[..|es| - 1]), es[|es| - 1]);
    }
  }

  lemma StaticStep(c: Config, s: State, e: Event)
    requires !c.hasScript && |c.payload| != 5 && StaticInv(c, s)
    ensures StaticInv(c, Step(c, s, e))
  {
  }

  /** The random values of the join-requests that were made. */
  function Randoms(c: Config, es: seq<Event>): seq<u16> {
    if es == [] then []
    else
      var front, last := es[..|es| - 1], es[|es| - 1];
      Randoms(c, front) + if last.SendJoin? && Exec(c, Init(c), front).pc == Joining then [last.random] else []
  }

  /** Join-requests carry the random values in random mode and count up from one otherwise; the device keeps the last nonce. */
  lemma {:induction false} NoncesDrawn(c: Config, es: seq<Event>)
    ensures var s := Exec(c, Init(c), es); NoncesAre(c, s.devNonce, s.seen.requests, Randoms(c, es))
  {
    if es != [] {
      var front, last := es[..|es| - 1], es[|es| - 1];
      var s := Exec(c, Init(c), front);
      NoncesDrawn(c, front);
      RequestStep(c, s, last);
      if last.SendJoin? && s.pc == Joining {
        NextNonceIs(c, s.devNonce, s.seen.requests, Randoms(c, front), Exec(c, Init(c), es).devNonce, last.random, last.micOk);
      }
    }
  }

  ghost predicate NoncesAre(c: Config, devNonce: u16, requests: seq<Request>, drawn: seq<u16>) {
    && |requests| == |drawn|
    && (forall i | 0 <= i < |requests| :: requests[i].devNonce == if c.randomNonce then drawn[i] else (i + 1) % 0x1_0000)
    && devNonce == if requests == [] then 0 else requests[|requests| - 1].devNonce
  }

  lemma NextNonceIs(c: Config, devNonce: u16, requests: seq<Request>, drawn: seq<u16>, next: u16, random: u16, sent: bool)
    requires NoncesAre(c, devNonce, requests, drawn)
    requires next == if c.randomNonce then random else (devNonce + 1) % 0x1_0000
    ensures NoncesAre(c, next, requests + [Request(next, sent)], drawn + [random])
  {
  }

  lemma RequestStep(c: Config, s: State, e: Event)
    ensures var t := Step(c, s, e);
            if e.SendJoin? && s.pc == Joining then
              && t.devNonce == (if c.randomNonce then e.random else (s.devNonce + 1) % 0x1_0000)
              && t.seen.requests == s.seen.requests + [Request(t.devNonce, e.micOk)]
            else t.devNonce == s.devNonce && t.seen.requests == s.seen.requests
  {
  }

  // ----- cancellation -----

  /** Uplinks and join-requests made so far. */
  function Made(s: State): nat {
    |s.seen.attempts| + |s.seen.requests|
  }

  /** The uplink goroutine is inside a call that will be finished. */
  predicate MidCall(pc: Pc) {
    pc != LoopTop && pc != Counting && pc != Ended
  }

  lemma CancelledStep(c: Config, s: State, e: Event)
    requires s.cancelled
    ensures var t := Step(c, s, e);
            && t.cancelled && Made(t) + (if MidCall(t.pc) then 1 else 0) <= Made(s) + (if MidCall(s.pc) then 1 else 0)
            && (s.pc == LoopTop && e == Poll ==> t.pc == Ended)
  {
  }

  /** A cancelled device finishes at most the call it is in; the next time round its uplink loop ends. */
  lemma {:induction false} CancelledFinishes(c: Config, s: State, es: seq<Event>)
    requires s.cancelled
    ensures var t := Exec(c, s, es);
            && t.cancelled && Made(t) + (if MidCall(t.pc) then 1 else 0) <= Made(s) + (if MidCall(s.pc) then 1 else 0)
            && (t.pc == LoopTop ==> Step(c, t, Poll).pc == Ended)
  {
    if es != [] {
      CancelledFinishes(c, s, es[..|es| - 1]);
      CancelledStep(c, Exec(c, s, es[..|es| - 1]), es[|es| - 1]);
    }
  }

  /** Otherwise the loop goes on: to a join-request before activation, to an uplink after it. */
  lemma PollDecides(c: Config, s: State)
    requires s.pc == LoopTop
    ensures var pc := Step(c, s, Poll).pc;
            (pc == Ended <==> s.cancelled) && (pc == Sending <==> s.activated && !s.cancelled) && (pc == Joining <==> !s.activated && !s.cancelled)
  {
  }
}
