/**
 One simulated device as a machine of atomic steps. Two goroutines (uplink loop, downlink loop) and
 the manual anomaly command interleave; the uplink goroutine is cut at its lock sections, so
 its position and local variables are part of the state. Step is total and a step that is not enabled
 does nothing, hence a list of events is an interleaving and every interleaving is a list of events.
 */
module DeviceModel {
  import opened Prelude
  import opened SessionKeys

  /** Anomaly names, as far as the device tells them apart; NoAnomaly is the empty name. */
  datatype Kind = NoAnomaly | Dropout | Spike | Drift | Flatline | Other(name: string)

  const DEFAULT_DURATION := 5

  /** What does not change while the device runs. */
  datatype Config = Config(
    joinEui: Eui,
    encrypt: Cipher,                      // AES under the device's root key
    joinMic: (JoinAccept, u16) -> bool,   // does the join-accept carry a valid MIC for this DevNonce?
    randomNonce: bool,
    uplinkCount: u32,                     // 0: no limit
    confirmed: bool,
    fPort: byte,
    payload: seq<byte>,
    hasScript: bool,
    canRoll: bool,                        // anomaly probability above zero
    types: seq<Kind>,
    duration: int)

  datatype Session = Session(appSKey: Block, nwkSKey: Block, devAddr: u32)

  datatype Frame = Frame(session: Session, fCnt: u32, confirmed: bool, fPort: byte, plaintext: seq<byte>)

  datatype Outcome = Sent(frame: Frame) | Dropped(fCnt: u32) | CryptoError

  /** One finished call of dataUp. */
  datatype Attempt = Attempt(choice: Choice, outcome: Outcome)

  /** The local variables of dataUp after its first lock section; `rolled` is set when it started an episode. */
  datatype Choice = Choice(anomaly: Kind, manual: bool, rolled: bool)

  /** Where the uplink goroutine is. */
  datatype Pc =
    | LoopTop
    | Joining                              // read state OTAA
    | Sending                              // read state Activated
    | Chosen(choice: Choice)
    | Prepared(choice: Choice)
    | Framed(choice: Choice, frame: Frame)
    | Counting                             // back from dataUp
    | Ended

  datatype Anomaly = Anomaly(
    manualType: Kind, manualActive: bool,
    activeType: Kind, remaining: int, drift: real)

  /** A call of joinRequest; `sent` is false when the MIC could not be computed. */
  datatype Request = Request(devNonce: u16, sent: bool)

  datatype Accepted = Accepted(msg: JoinAccept, devNonce: u16)

  /** What an observer has seen of the device. */
  datatype Seen = Seen(
    attempts: seq<Attempt>,
    metric: nat,                           // device_uplink_count, this device's share
    requests: seq<Request>,                // calls of joinRequest
    accepts: seq<Accepted>,                // valid join-accepts, oldest first
    received: seq<u32>)                    // fCntDown after each accepted downlink
  {
    /** One more attempt; all but crypto errors are counted by the metric. */
    function Log(a: Attempt): Seen {
      this.(attempts := attempts + [a], metric := if a.outcome.CryptoError? then metric else metric + 1)
    }
  }

  datatype State = State(
    pc: Pc,
    cancelled: bool,
    activated: bool,
    devNonce: u16,
    session: Session,
    fCntUp: u32,
    fCntDown: u32,
    payload: seq<byte>,
    lastPayload: seq<byte>,
    anomaly: Anomaly,
    seen: Seen)

  /** What a payload script may yield: bytes, or anything that leaves the payload as it was. */
  datatype ScriptResult = Bytes(value: seq<byte>) | NoBytes

  /** The three readings taken from the clock. */
  datatype Readings = Readings(temp: int, pressure: u16, voltage: byte)

  datatype Event =
    // uplink goroutine
    | Poll
    | SendJoin(random: u16, micOk: bool)
    | Choose(roll: Option<nat>)            // Some(i): the draw, if one is made, hits and picks type i
    | DropUplink
    | Prepare(script: ScriptResult, readings: Readings)
    | BuildFrame(cryptoOk: bool)
    | Commit
    | CheckCount
    // downlink goroutine
    | ReceiveAccept(msg: JoinAccept, decryptOk: bool)
    | ReceiveData(fCnt: u16, micOk: bool)
    // outside
    | SetManual(anomalyType: Kind, active: bool)
    | Cancel

  const NO_SESSION := Session(Zeros(16), Zeros(16), 0)

  const NOTHING := Seen([], 0, [], [], [])

  function Init(c: Config): State {
    State(LoopTop, false, false, 0, NO_SESSION, 0, 0, c.payload, [],
          Anomaly(NoAnomaly, false, NoAnomaly, 0, 0.0), NOTHING)
  }

  function Duration(c: Config): int {
    if c.duration <= 0 then DEFAULT_DURATION else c.duration
  }

  function Next32(n: u32): u32 {
    (n + 1) % TWO32
  }

  /** The value held in an int16 whose mathematical value is `v`. */
  function Int16(v: int): (r: int)
    ensures -0x8000 <= r < 0x8000 && (r - v) % TWO16 == 0
  {
    (v + 0x8000) % TWO16 - 0x8000
  }

  function SignedBytes(v: int): (b: seq<byte>)
    requires -0x8000 <= v < 0x8000
    ensures |b| == 2
  {
    [v % TWO16 / 0x100, v % 0x100]
  }

  function Temperature(readings: Readings, anomaly: Kind, drift: real): (r: int)
    ensures -0x8000 <= r < 0x8000
  {
    if anomaly == Spike then Int16(readings.temp + 15)
    else if anomaly == Drift then Int16(readings.temp + Int16(drift.Floor))
    else Int16(readings.temp)
  }

  /** The five bytes written over a five-byte payload: temperature, pressure, voltage. */
  function Telemetry(readings: Readings, anomaly: Kind, drift: real): (b: seq<byte>)
    ensures |b| == 5
  {
    SignedBytes(Temperature(readings, anomaly, drift)) + [readings.pressure / 0x100, readings.pressure % 0x100, readings.voltage]
  }

  function Derive(c: Config, msg: JoinAccept, devNonce: u16): Session {
    Session(AppSKey(c.encrypt, c.joinEui, msg, devNonce), NwkSKey(c.encrypt, c.joinEui, msg, devNonce), msg.devAddr)
  }

  predicate Enabled(c: Config, s: State, e: Event) {
    match e
    case Poll => s.pc == LoopTop
    case SendJoin(_, _) => s.pc == Joining
    case Choose(roll) =>
      && s.pc == Sending
      && (roll.Some? ==> c.canRoll && roll.value < |c.types|)
    case DropUplink => s.pc.Chosen? && s.pc.choice.anomaly == Dropout
    case Prepare(_, _) => s.pc.Chosen? && s.pc.choice.anomaly != Dropout
    case BuildFrame(_) => s.pc.Prepared?
    case Commit => s.pc.Framed?
    case CheckCount => s.pc == Counting
    case ReceiveAccept(_, _) => true
    case ReceiveData(_, _) => true
    case SetManual(_, _) => true
    case Cancel => true
  }

  function ChoiceOf(c: Config, a: Anomaly, roll: Option<nat>): Choice
    requires roll.Some? ==> roll.value < |c.types|
  {
    if a.manualActive then Choice(a.manualType, true, false)
    else if a.activeType != NoAnomaly then Choice(a.activeType, false, false)
    else if roll.Some? then Choice(c.types[roll.value], false, true)
    else Choice(NoAnomaly, false, false)
  }

  function AfterChoice(c: Config, a: Anomaly, roll: Option<nat>): Anomaly
    requires roll.Some? ==> roll.value < |c.types|
  {
    if !a.manualActive && a.activeType == NoAnomaly && roll.Some? then
      a.(activeType := c.types[roll.value], remaining := Duration(c), drift := 0.0)
    else a
  }

  /** The second dropout section: a dropout never touches the drift. */
  function AfterDrop(a: Anomaly, choice: Choice): Anomaly {
    if choice.manual then a.(manualType := NoAnomaly, manualActive := false)
    else if a.remaining - 1 <= 0 then a.(remaining := a.remaining - 1, activeType := NoAnomaly)
    else a.(remaining := a.remaining - 1)
  }

  /** The last lock section of dataUp. */
  function AfterCommit(a: Anomaly, choice: Choice): Anomaly {
    if choice.anomaly == NoAnomaly then a
    else if choice.manual then
      if choice.anomaly == Spike || choice.anomaly == Dropout then a.(manualType := NoAnomaly, manualActive := false)
      else if choice.anomaly == Drift then a.(drift := a.drift + 0.5)
      else a
    else
      var d := if choice.anomaly == Drift then a.drift + 0.5 else a.drift;
      if a.remaining - 1 <= 0 then a.(remaining := a.remaining - 1, activeType := NoAnomaly, drift := 0.0)
      else a.(remaining := a.remaining - 1, drift := d)
  }

  /** What the payload buffer holds after the second part of dataUp. */
  function PreparedPayload(c: Config, payload: seq<byte>, lastPayload: seq<byte>, drift: real, anomaly: Kind,
                           script: ScriptResult, readings: Readings): seq<byte>
  {
    if anomaly == Flatline && |lastPayload| > 0 then lastPayload
    else if c.hasScript then if script.Bytes? then script.value else payload
    else if |payload| == 5 then Telemetry(readings, anomaly, drift)
    else payload
  }

  function NextNonce(c: Config, s: State, random: u16): u16 {
    if c.randomNonce then random else (s.devNonce + 1) % TWO16
  }

  function NextFCntDown(old32: u32, wire: u16): u32 {
    var gap := (wire - old32 % TWO16) % TWO16;
    (old32 + gap) % TWO32
  }

  /** joinAccept: every check that fails leaves the device as it was. */
  function OnAccept(c: Config, s: State, msg: JoinAccept, decryptOk: bool): State {
    if decryptOk && c.joinMic(msg, s.devNonce) then
      s.(session := Derive(c, msg, s.devNonce), activated := true, seen := s.seen.(accepts := s.seen.accepts + [Accepted(msg, s.devNonce)]))
    else s
  }

  function OnData(s: State, wire: u16, micOk: bool): State {
    if micOk then
      var n := NextFCntDown(s.fCntDown, wire);
      s.(fCntDown := n, seen := s.seen.(received := s.seen.received + [n]))
    else s
  }

  /** An item of a downlink frame; Skipped is one that does not parse or is of no type the device handles. */
  datatype Item = Accept(msg: JoinAccept, decryptOk: bool) | Data(fCnt: u16, micOk: bool) | Skipped

  function OnItem(c: Config, s: State, item: Item): State {
    match item
    case Accept(msg, decryptOk) => OnAccept(c, s, msg, decryptOk)
    case Data(fCnt, micOk) => OnData(s, fCnt, micOk)
    case Skipped => s
  }

  /** One frame from the queue: the loop over its items breaks after the first. */
  function OnFrame(c: Config, s: State, items: seq<Item>): State {
    if items == [] then s else OnItem(c, s, items[0])
  }

  function OnPoll(s: State): State {
    s.(pc := if s.cancelled then Ended else if s.activated then Sending else Joining)
  }

  function OnSendJoin(c: Config, s: State, random: u16, micOk: bool): State {
    var nonce := NextNonce(c, s, random);
    s.(pc := LoopTop, devNonce := nonce, seen := s.seen.(requests := s.seen.requests + [Request(nonce, micOk)]))
  }

  function OnChoose(c: Config, s: State, roll: Option<nat>): State
    requires roll.Some? ==> roll.value < |c.types|
  {
    s.(pc := Chosen(ChoiceOf(c, s.anomaly, roll)), anomaly := AfterChoice(c, s.anomaly, roll))
  }

  function OnDrop(s: State): State
    requires s.pc.Chosen?
  {
    s.(pc := Counting, fCntUp := Next32(s.fCntUp), anomaly := AfterDrop(s.anomaly, s.pc.choice),
       seen := s.seen.Log(Attempt(s.pc.choice, Dropped(s.fCntUp))))
  }

  function OnPrepare(c: Config, s: State, script: ScriptResult, readings: Readings): State
    requires s.pc.Chosen?
  {
    s.(pc := Prepared(s.pc.choice),
       payload := PreparedPayload(c, s.payload, s.lastPayload, s.anomaly.drift, s.pc.choice.anomaly, script, readings))
  }

  function OnBuildFrame(c: Config, s: State, cryptoOk: bool): State
    requires s.pc.Prepared?
  {
    if cryptoOk then
      s.(pc := Framed(s.pc.choice, Frame(s.session, s.fCntUp, c.confirmed, c.fPort, s.payload)))
    else
      s.(pc := Counting, seen := s.seen.Log(Attempt(s.pc.choice, CryptoError)))
  }

  function OnCommit(s: State): State
    requires s.pc.Framed?
  {
    s.(pc := Counting, fCntUp := Next32(s.fCntUp), lastPayload := s.payload,
       anomaly := AfterCommit(s.anomaly, s.pc.choice),
       seen := s.seen.Log(Attempt(s.pc.choice, Sent(s.pc.frame))))
  }

  function OnCheckCount(c: Config, s: State): State {
    if c.uplinkCount != 0 && s.fCntUp >= c.uplinkCount then s.(pc := Ended, cancelled := true)
    else s.(pc := LoopTop)
  }

  /** A command that switches off also clears the drift, whichever anomaly it came from. */
  function OnSetManual(s: State, anomalyType: Kind, active: bool): State {
    s.(anomaly := s.anomaly.(manualType := anomalyType, manualActive := active,
                             drift := if active then s.anomaly.drift else 0.0))
  }

  function Step(c: Config, s: State, e: Event): State {
    if !Enabled(c, s, e) then s else
    match e
    case Poll => OnPoll(s)
    case SendJoin(random, micOk) => OnSendJoin(c, s, random, micOk)
    case Choose(roll) => OnChoose(c, s, roll)
    case DropUplink => OnDrop(s)
    case Prepare(script, readings) => OnPrepare(c, s, script, readings)
    case BuildFrame(cryptoOk) => OnBuildFrame(c, s, cryptoOk)
    case Commit => OnCommit(s)
    case CheckCount => OnCheckCount(c, s)
    case ReceiveAccept(msg, decryptOk) => OnAccept(c, s, msg, decryptOk)
    case ReceiveData(wire, micOk) => OnData(s, wire, micOk)
    case SetManual(anomalyType, active) => OnSetManual(s, anomalyType, active)
    case Cancel => s.(cancelled := true)
  }

  /** The state after a list of events. */
  function Exec(c: Config, s: State, es: seq<Event>): State {
    if es == [] then s else Step(c, Exec(c, s, es[..|es| - 1]), es[|es| - 1])
  }

  lemma ExecOne(c: Config, s: State, es: seq<Event>, e: Event)
    ensures Exec(c, s, es + [e]) == Step(c, Exec(c, s, es), e)
  {
    assert (es + [e])[..|es|] == es;
  }

  lemma {:induction false} ExecConcat(c: Config, s: State, es: seq<Event>, fs: seq<Event>)
    ensures Exec(c, s, es + fs) == Exec(c, Exec(c, s, es), fs)
  {
    if fs == [] {
      assert es + fs == es;
    } else {
      var last := |fs| - 1;
      ExecConcat(c, s, es, fs[..last]);
      assert (es + fs)[..|es + fs| - 1] == es + fs[..last];
    }
  }
}
