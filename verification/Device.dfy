/**
 The device as an object whose methods update its fields and rewrite its payload buffer in place. Every method
 is proved to make exactly the steps of the DeviceModel machine; Valid keeps the buffers apart.
 */
module Devices {
  import opened Prelude
  import opened SessionKeys
  import opened DeviceModel
  import opened DeviceUplinks

  /** What one call of dataUp reads from outside. */
  datatype UplinkInput = UplinkInput(roll: Option<nat>, script: ScriptResult, readings: Readings)

  predicate ValidInput(c: Config, input: UplinkInput) {
    input.roll.Some? ==> c.canRoll && input.roll.value < |c.types|
  }

  /** The steps of one dataUp call from state `s`, nothing interleaved. */
  function DataUpEvents(c: Config, s: State, input: UplinkInput, cryptoOk: bool): seq<Event>
    requires ValidInput(c, input)
  {
    if ChoiceOf(c, s.anomaly, input.roll).anomaly == Dropout then [Choose(input.roll), DropUplink]
    else if !cryptoOk then [Choose(input.roll), Prepare(input.script, input.readings), BuildFrame(false)]
    else [Choose(input.roll), Prepare(input.script, input.readings), BuildFrame(true), Commit]
  }

  /** The machine state after one dataUp call, nothing interleaved. */
  function AfterDataUp(c: Config, s: State, input: UplinkInput, cryptoOk: bool): State
    requires s.pc == Sending && ValidInput(c, input)
  {
    var chosen := OnChoose(c, s, input.roll);
    if chosen.pc.choice.anomaly == Dropout then OnDrop(chosen)
    else
      var built := OnBuildFrame(c, OnPrepare(c, chosen, input.script, input.readings), cryptoOk);
      if cryptoOk then OnCommit(built) else built
  }

  /** An uninterrupted dataUp call is one interleaving among the others. */
  lemma DataUpIsARun(c: Config, s: State, input: UplinkInput, cryptoOk: bool)
    requires s.pc == Sending && ValidInput(c, input)
    ensures AfterDataUp(c, s, input, cryptoOk) == Exec(c, s, DataUpEvents(c, s, input, cryptoOk))
  {
    var chosen := OnChoose(c, s, input.roll);
    assert Step(c, s, Choose(input.roll)) == chosen;
    if chosen.pc.choice.anomaly == Dropout {
      ExecTwo(c, s, Choose(input.roll), DropUplink);
    } else {
      SendSteps(c, chosen, input, cryptoOk);
      ExecThree(c, s, Choose(input.roll), Prepare(input.script, input.readings), BuildFrame(cryptoOk));
      if cryptoOk {
        ExecFour(c, s, Choose(input.roll), Prepare(input.script, input.readings), BuildFrame(true), Commit);
      }
    }
  }

  lemma BuildFrameGives(c: Config, s: State, cryptoOk: bool, frame: Frame)
    requires s.pc.Prepared? && frame == Frame(s.session, s.fCntUp, c.confirmed, c.fPort, s.payload)
    ensures var t := OnBuildFrame(c, s, cryptoOk);
            && t == s.(pc := t.pc, seen := t.seen)
            && (if cryptoOk then t.pc.Framed? && t.pc.frame == frame else !t.pc.Framed?)
  {
  }

  lemma SendSteps(c: Config, chosen: State, input: UplinkInput, cryptoOk: bool)
    requires chosen.pc.Chosen? && chosen.pc.choice.anomaly != Dropout
    ensures var prepared := OnPrepare(c, chosen, input.script, input.readings);
            && Step(c, chosen, Prepare(input.script, input.readings)) == prepared
            && Step(c, prepared, BuildFrame(cryptoOk)) == OnBuildFrame(c, prepared, cryptoOk)
            && (cryptoOk ==> Step(c, OnBuildFrame(c, prepared, true), Commit) == OnCommit(OnBuildFrame(c, prepared, true)))
  {
  }

  lemma ExecTwo(c: Config, s: State, one: Event, two: Event)
    ensures Exec(c, s, [one, two]) == Step(c, Step(c, s, one), two)
  {
    ExecOne(c, s, [], one);
    assert [] + [one] == [one];
    ExecOne(c, s, [one], two);
  }

  lemma ExecThree(c: Config, s: State, one: Event, two: Event, three: Event)
    ensures Exec(c, s, [one, two, three]) == Step(c, Step(c, Step(c, s, one), two), three)
  {
    ExecTwo(c, s, one, two);
    ExecOne(c, s, [one, two], three);
    assert [one, two] + [three] == [one, two, three];
  }

  lemma ExecFour(c: Config, s: State, one: Event, two: Event, three: Event, four: Event)
    ensures Exec(c, s, [one, two, three, four]) == Step(c, Step(c, Step(c, Step(c, s, one), two), three), four)
  {
    ExecThree(c, s, one, two, three);
    ExecOne(c, s, [one, two, three], four);
    assert [one, two, three] + [four] == [one, two, three, four];
  }

  lemma DataUpProgress(c: Config, s: State, input: UplinkInput)
    requires s.pc == Sending && ValidInput(c, input)
    ensures var t := AfterDataUp(c, s, input, true);
            && t.pc == Counting && t.fCntUp == Next32(s.fCntUp) && t.seen.metric == s.seen.metric + 1
            && t.activated == s.activated && t.cancelled == s.cancelled
  {
  }

  method ArrayOf(bytes: seq<byte>) returns (b: array<byte>)
    ensures fresh(b) && b[..] == bytes
  {
    b := new byte[|bytes|](i requires 0 <= i < |bytes| => bytes[i]);
  }

  method CopyOf(a: array<byte>) returns (b: array<byte>)
    ensures fresh(b) && b[..] == a[..]
  {
    b := ArrayOf(a[..]);
  }

  /** No two buffers are one array, and each frame still holds the plaintext it was built with. */
  ghost predicate Separate(payload: array<byte>, lastPayload: array<byte>, airborne: seq<array<byte>>, built: seq<Frame>)
    reads airborne
  {
    && payload != lastPayload
    && payload !in airborne && lastPayload !in airborne
    && |airborne| == |built|
    && (forall i | 0 <= i < |airborne| :: airborne[i][..] == built[i].plaintext)
    && (forall i, j | 0 <= i < j < |airborne| :: airborne[i] != airborne[j])
  }

  class Device {
    const c: Config

    var activated: bool
    var devNonce: u16
    var session: Session
    var fCntUp: u32
    var fCntDown: u32
    var payload: array<byte>
    var lastPayload: array<byte>
    var manualAnomalyType: Kind
    var manualAnomalyActive: bool
    var activeAnomalyType: Kind
    var activeAnomalyRemaining: int
    var driftAccumulated: real
    var cancelled: bool

    /** The machine state this object is in; the position of the uplink goroutine is only there. */
    ghost var model: State

    /** The frames built so far, and the payload array handed to each. */
    ghost var frames: seq<Frame>
    ghost var airborne: seq<array<byte>>

    ghost function Anomalies(): Anomaly
      reads this
    {
      Anomaly(manualAnomalyType, manualAnomalyActive, activeAnomalyType, activeAnomalyRemaining, driftAccumulated)
    }

    /** The fields hold what the machine state says. */
    ghost predicate Coupled()
      reads this, payload, lastPayload
    {
      && model.cancelled == cancelled && model.activated == activated
      && model.devNonce == devNonce && model.session == session
      && model.fCntUp == fCntUp && model.fCntDown == fCntDown
      && model.payload == payload[..] && model.lastPayload == lastPayload[..]
      && model.anomaly == Anomalies()
    }

    /** How many of the frames built have been sent. */
    ghost function SentCount(): int
      reads this
    {
      if model.pc.Framed? then |frames| - 1 else |frames|
    }

    ghost predicate Valid()
      reads this, payload, lastPayload, airborne
    {
      && Coupled()
      && Separate(payload, lastPayload, airborne, frames)
      && (model.pc.Framed? ==> frames != [] && model.pc.frame == frames[|frames| - 1] && model.pc.frame.plaintext == payload[..])
      && lastPayload[..] == (if SentCount() == 0 then [] else frames[SentCount() - 1].plaintext)
    }

    /** WithUplinkPayload copies the caller's slice. */
    constructor (c: Config, pl: array<byte>)
      requires pl[..] == c.payload
      ensures this.c == c && Valid() && model == Init(c)
      ensures fresh(payload) && fresh(lastPayload) && frames == [] && airborne == []
    {
      this.c := c;
      activated, devNonce, session, fCntUp, fCntDown := false, 0, NO_SESSION, 0, 0;
      payload, lastPayload := new byte[pl.Length](i requires 0 <= i < pl.Length reads pl => pl[i]), new byte[0];
      manualAnomalyType, manualAnomalyActive := NoAnomaly, false;
      activeAnomalyType, activeAnomalyRemaining, driftAccumulated := NoAnomaly, 0, 0.0;
      cancelled := false;
      model := Init(c);
      frames, airborne := [], [];
    }

    method SetManualAnomaly(anomalyType: Kind, active: bool)
      requires Valid()
      modifies this`manualAnomalyType, this`manualAnomalyActive, this`driftAccumulated, this`model
      ensures Valid() && model == OnSetManual(old(model), anomalyType, active)
    {
      manualAnomalyType := anomalyType;
      manualAnomalyActive := active;
      if !active {
        driftAccumulated := 0.0;
      }
      model := OnSetManual(model, anomalyType, active);
    }

    /** What the first lock section does to the anomaly fields: a draw is made only when no anomaly is in force. */
    method ChooseAnomaly(roll: Option<nat>) returns (current: Kind, isManual: bool)
      requires roll.Some? ==> roll.value < |c.types|
      modifies this
      ensures unchanged(`fCntUp, `fCntDown, `payload, `lastPayload, `model, `frames, `airborne, `activated, `cancelled, `devNonce, `session)
      ensures Anomalies() == AfterChoice(c, old(Anomalies()), roll)
      ensures var choice := ChoiceOf(c, old(Anomalies()), roll);
              current == choice.anomaly && isManual == choice.manual
    {
      current, isManual := NoAnomaly, false;
      if manualAnomalyActive {
        current := manualAnomalyType;
        isManual := true;
      } else if activeAnomalyType != NoAnomaly {
        current := activeAnomalyType;
      } else if roll.Some? {
        activeAnomalyType := c.types[roll.value];
        activeAnomalyRemaining := c.duration;
        if activeAnomalyRemaining <= 0 {
          activeAnomalyRemaining := DEFAULT_DURATION;
        }
        driftAccumulated := 0.0;
        current := activeAnomalyType;
      }
    }

    /** First lock section of dataUp. */
    method SelectAnomaly(roll: Option<nat>) returns (current: Kind, isManual: bool)
      requires Valid() && model.pc == Sending && (roll.Some? ==> c.canRoll && roll.value < |c.types|)
      modifies this
      ensures Valid() && model == OnChoose(c, old(model), roll)
      ensures unchanged(`payload, `lastPayload, `frames, `airborne)
      ensures current == model.pc.choice.anomaly && isManual == model.pc.choice.manual
    {
      current, isManual := ChooseAnomaly(roll);
      model := OnChoose(c, model, roll);
    }

    /** The anomaly part of the dropout section. */
    method CountDropout(isManual: bool, ghost choice: Choice)
      requires isManual == choice.manual
      modifies this
      ensures unchanged(`fCntUp, `fCntDown, `payload, `lastPayload, `model, `frames, `airborne, `activated, `cancelled, `devNonce, `session)
      ensures Anomalies() == AfterDrop(old(Anomalies()), choice)
    {
      if isManual {
        manualAnomalyActive := false;
        manualAnomalyType := NoAnomaly;
      } else {
        activeAnomalyRemaining := activeAnomalyRemaining - 1;
        if activeAnomalyRemaining <= 0 {
          activeAnomalyType := NoAnomaly;
        }
      }
    }

    /** The dropout section: spends a counter and sends nothing. */
    method Drop(isManual: bool)
      requires Valid() && model.pc.Chosen? && model.pc.choice.anomaly == Dropout && isManual == model.pc.choice.manual
      modifies this
      ensures Valid() && model == OnDrop(old(model))
      ensures unchanged(`payload, `lastPayload, `frames, `airborne)
    {
      CountDropout(isManual, model.pc.choice);
      fCntUp, model := (fCntUp + 1) % TWO32, OnDrop(model);
    }

    /** Overwrites the five bytes of the payload buffer; no other buffer changes. */
    method WriteTelemetry(readings: Readings, current: Kind)
      requires payload.Length == 5
      modifies payload
      ensures payload[..] == Telemetry(readings, current, driftAccumulated)
    {
      var temp := Int16(readings.temp);
      if current == Spike {
        temp := Int16(temp + 15);
      } else if current == Drift {
        temp := Int16(temp + Int16(driftAccumulated.Floor));
      }
      Int16Adds(readings.temp, 15);
      Int16Adds(readings.temp, Int16(driftAccumulated.Floor));
      assert temp == Temperature(readings, current, driftAccumulated);
      HighByte(temp);
      payload[0] := temp / 0x100 % 0x100;
      payload[1] := temp % 0x100;
      payload[2] := readings.pressure / 0x100;
      payload[3] := readings.pressure % 0x100;
      payload[4] := readings.voltage;
      assert payload[..] == Telemetry(readings, current, driftAccumulated);
    }

    /** Flatline repeats the last payload, else the script decides, else a five-byte payload is rewritten in place. */
    method FillPayload(current: Kind, script: ScriptResult, readings: Readings)
      requires payload != lastPayload
      modifies this`payload, payload
      ensures payload == old(payload) || fresh(payload)
      ensures payload[..] == PreparedPayload(c, old(payload[..]), old(lastPayload[..]), driftAccumulated, current, script, readings)
    {
      if current == Flatline && lastPayload.Length > 0 {
        payload := CopyOf(lastPayload);
      } else if c.hasScript {
        if script.Bytes? {
          payload := ArrayOf(script.value);
        }
      } else if payload.Length == 5 {
        WriteTelemetry(readings, current);
      }
    }

    /** Second part of dataUp. */
    method PreparePayload(current: Kind, script: ScriptResult, readings: Readings)
      requires Valid() && model.pc.Chosen? && model.pc.choice.anomaly != Dropout && current == model.pc.choice.anomaly
      modifies this, payload
      ensures unchanged(`lastPayload, `frames, `airborne)
      ensures Valid() && model == OnPrepare(c, old(model), script, readings)
      ensures payload == old(payload) || fresh(payload)
    {
      FillPayload(current, script, readings);
      model := OnPrepare(c, model, script, readings);
    }

    /** Gives a new frame an array of its own. */
    ghost method Launch(frame: Frame, payloadBytes: array<byte>)
      requires Separate(payload, lastPayload, airborne, frames) && payloadBytes[..] == frame.plaintext
      requires payloadBytes != payload && payloadBytes != lastPayload && payloadBytes !in airborne
      modifies this`frames, this`airborne
      ensures Separate(payload, lastPayload, airborne, frames)
      ensures frames == old(frames) + [frame] && airborne == old(airborne) + [payloadBytes]
    {
      frames, airborne := frames + [frame], airborne + [payloadBytes];
    }

    /** Copies the payload into the frame's own array; on a crypto error the attempt is abandoned. */
    method MakeFrame(cryptoOk: bool) returns (frame: Frame)
      requires Valid() && model.pc.Prepared?
      modifies this`model, this`frames, this`airborne
      ensures Valid() && model == OnBuildFrame(c, old(model), cryptoOk)
      ensures cryptoOk ==> frame == model.pc.frame
      ensures frames == if cryptoOk then old(frames) + [frame] else old(frames)
    {
      var payloadBytes := CopyOf(payload);
      frame := Frame(session, fCntUp, c.confirmed, c.fPort, payloadBytes[..]);
      BuildFrameGives(c, model, cryptoOk, frame);
      if cryptoOk {
        Launch(frame, payloadBytes);
      }
      model := OnBuildFrame(c, model, cryptoOk);
    }

    /** The anomaly part of the last lock section. */
    method CountUplink(current: Kind, isManual: bool, ghost choice: Choice)
      requires current == choice.anomaly && isManual == choice.manual
      modifies this
      ensures unchanged(`fCntUp, `fCntDown, `payload, `lastPayload, `model, `frames, `airborne, `activated, `cancelled, `devNonce, `session)
      ensures Anomalies() == AfterCommit(old(Anomalies()), choice)
    {
      if current != NoAnomaly {
        if isManual {
          if current == Spike || current == Dropout {
            manualAnomalyActive := false;
            manualAnomalyType := NoAnomaly;
          } else if current == Drift {
            driftAccumulated := driftAccumulated + 0.5;
          }
        } else {
          if current == Drift {
            driftAccumulated := driftAccumulated + 0.5;
          }
          activeAnomalyRemaining := activeAnomalyRemaining - 1;
          if activeAnomalyRemaining <= 0 {
            activeAnomalyType := NoAnomaly;
            driftAccumulated := 0.0;
          }
        }
      }
    }

    /** Keeps a copy of the payload, in an array of its own. */
    method KeepPayload()
      requires Separate(payload, lastPayload, airborne, frames)
      modifies this`lastPayload
      ensures Separate(payload, lastPayload, airborne, frames)
      ensures fresh(lastPayload) && lastPayload[..] == payload[..]
    {
      lastPayload := CopyOf(payload);
    }

    /** The machine catches up with the fields after the last lock section. */
    ghost method Committed()
      requires model.pc.Framed? && Separate(payload, lastPayload, airborne, frames)
      requires frames != [] && model.pc.frame == frames[|frames| - 1] && lastPayload[..] == payload[..] == model.pc.frame.plaintext
      requires fCntUp == Next32(model.fCntUp) && Anomalies() == AfterCommit(model.anomaly, model.pc.choice)
      requires model.cancelled == cancelled && model.activated == activated && model.devNonce == devNonce
      requires model.session == session && model.fCntDown == fCntDown && model.payload == payload[..]
      modifies this`model
      ensures Valid() && model == OnCommit(old(model))
    {
      model := OnCommit(model);
    }

    /** Last lock section of dataUp. */
    method Finish(current: Kind, isManual: bool)
      requires Valid() && model.pc.Framed? && current == model.pc.choice.anomaly && isManual == model.pc.choice.manual
      modifies this
      ensures unchanged(`payload, `frames, `airborne)
      ensures Valid() && model == OnCommit(old(model))
      ensures fresh(lastPayload)
    {
      CountUplink(current, isManual, model.pc.choice);
      KeepPayload();
      fCntUp := (fCntUp + 1) % TWO32;
      Committed();
    }

    /** One uninterrupted call of dataUp. */
    method DataUp(input: UplinkInput, cryptoOk: bool)
      requires Valid() && model.pc == Sending && ValidInput(c, input)
      modifies this, payload
      ensures Valid() && model == AfterDataUp(c, old(model), input, cryptoOk)
      ensures payload == old(payload) || fresh(payload)
    {
      var current, isManual := SelectAnomaly(input.roll);
      if current == Dropout {
        Drop(isManual);
        return;
      }
      PreparePayload(current, input.script, input.readings);
      var _ := MakeFrame(cryptoOk);
      if cryptoOk {
        Finish(current, isManual);
      }
    }

    method Poll()
      requires Valid() && model.pc == LoopTop
      modifies this
      ensures Valid() && model == OnPoll(old(model)) && unchanged(`payload, `lastPayload, `frames, `airborne)
    {
      model := OnPoll(model);
    }

    /** After each dataUp the loop compares the counter with the limit, and cancels the device when it is reached. */
    method CheckUplinkCount() returns (done: bool)
      requires Valid() && model.pc == Counting
      modifies this
      ensures Valid() && model == OnCheckCount(c, old(model)) && done == (model.pc == Ended)
      ensures unchanged(`payload, `lastPayload, `frames, `airborne, `fCntUp, `activated)
    {
      done := c.uplinkCount != 0 && fCntUp >= c.uplinkCount;
      if done {
        cancelled := true;
      }
      model := OnCheckCount(c, model);
    }

    /** One turn of the uplink loop of an activated device. */
    method UplinkTurn(input: UplinkInput) returns (done: bool)
      requires Valid() && model.pc == LoopTop && activated && !cancelled && ValidInput(c, input)
      modifies this, payload
      ensures Valid() && (payload == old(payload) || fresh(payload)) && activated
      ensures fCntUp == Next32(old(fCntUp)) && model.seen.metric == old(model.seen.metric) + 1
      ensures done == (c.uplinkCount != 0 && fCntUp >= c.uplinkCount)
      ensures if done then model.pc == Ended else model.pc == LoopTop && !cancelled
    {
      Poll();
      DataUpProgress(c, model, input);
      DataUp(input, true);
      done := CheckUplinkCount();
    }

    /**
     The uplink loop of an activated device with a limit: uncancelled and without crypto errors it spends exactly
     the counters it has left and ends.
     */
    method UplinkLoop(inputs: nat -> UplinkInput)
      requires Valid() && model.pc == LoopTop && activated && !cancelled && fCntUp < c.uplinkCount
      requires forall n: nat :: ValidInput(c, inputs(n))
      modifies this, payload
      ensures Valid() && model.pc == Ended && fCntUp == c.uplinkCount
      ensures model.seen.metric == old(model.seen.metric) + (c.uplinkCount - old(fCntUp))
    {
      var n: nat := 0;
      var done := false;
      while !done
        invariant Valid() && (payload == old(payload) || fresh(payload)) && activated
        invariant if done then model.pc == Ended && fCntUp == c.uplinkCount
                  else model.pc == LoopTop && !cancelled && fCntUp < c.uplinkCount
        invariant model.seen.metric == old(model.seen.metric) + (fCntUp - old(fCntUp))
        decreases c.uplinkCount - fCntUp
      {
        done := UplinkTurn(inputs(n));
        n := n + 1;
      }
    }

    method JoinRequest(random: u16, micOk: bool)
      requires Valid() && model.pc == Joining
      modifies this
      ensures Valid() && model == OnSendJoin(c, old(model), random, micOk)
    {
      if c.randomNonce {
        devNonce := random;
      } else {
        devNonce := (devNonce + 1) % TWO16;
      }
      model := OnSendJoin(c, model, random, micOk);
    }

    method NewSession(msg: JoinAccept, nonce: u16) returns (s: Session)
      ensures s == Derive(c, msg, nonce)
    {
      var appSKey := GetSKey(msg.optNeg, TYPE_APP, c.encrypt, msg.netId, c.joinEui, msg.joinNonce, nonce);
      var nwkSKey := GetSKey(msg.optNeg, TYPE_NWK, c.encrypt, msg.netId, c.joinEui, msg.joinNonce, nonce);
      s := Session(appSKey, nwkSKey, msg.devAddr);
    }

    /** Handles a join-accept; a message that fails a check leaves the device as it was. */
    method JoinAccept(msg: JoinAccept, decryptOk: bool)
      requires Valid()
      modifies this`session, this`activated, this`model
      ensures Valid() && model == OnAccept(c, old(model), msg, decryptOk)
    {
      if decryptOk && c.joinMic(msg, devNonce) {
        var derived := NewSession(msg, devNonce);
        session := derived;
        activated := true;
        model := OnAccept(c, model, msg, true);
      }
    }

    /** Handles a data downlink: the gap is taken in sixteen bits, the sum in thirty-two. */
    method DownlinkData(fCnt: u16, micOk: bool)
      requires Valid()
      modifies this`fCntDown, this`model
      ensures Valid() && model == OnData(old(model), fCnt, micOk)
    {
      if micOk {
        var gap := (fCnt - fCntDown % TWO16) % TWO16;
        fCntDown := (fCntDown + gap) % TWO32;
      }
      model := OnData(model, fCnt, micOk);
    }

    /** Takes one frame from the queue. */
    method HandleFrame(items: seq<Item>)
      requires Valid()
      modifies this
      ensures Valid() && model == OnFrame(c, old(model), items)
    {
      for i := 0 to |items|
        invariant i == 0 && Valid() && model == old(model)
      {
        match items[i] {
          case Accept(msg, decryptOk) => JoinAccept(msg, decryptOk);
          case Data(fCnt, micOk) => DownlinkData(fCnt, micOk);
          case Skipped =>
        }
        break;
      }
    }
  }

  lemma Int16Adds(a: int, b: int)
    ensures Int16(Int16(a) + b) == Int16(a + b)
  {
  }

  /** An arithmetic shift right by eight keeps the high octet of the two's complement form. */
  lemma HighByte(v: int)
    requires -0x8000 <= v < 0x8000
    ensures v / 0x100 % 0x100 == v % TWO16 / 0x100
  {
    var w := if v < 0 then v + TWO16 else v;
    assert v % TWO16 == w;
    assert w / 0x100 == v / 0x100 + (if v < 0 then 0x100 else 0);
  }
}
