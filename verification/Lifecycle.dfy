/**
 Start, stop, the manager goroutine of each run, its simulators and their devices, and the device registry, as one
 machine of steps. A step that is not enabled does nothing, so every list of events is an interleaving.
 */
module Lifecycle {
  import opened Prelude

  type Eui = nat

  datatype Status = StatusIdle | StatusStarting | StatusRunning | StatusStopping | StatusError

  /** The manager goroutine; Launching(i) is at simulator number i of simulator.Start. */
  datatype Manager = Begun | Launching(next: nat) | Failing | Waiting | Gone(failed: bool)

  /** A simulator goroutine: creating devices, waiting for them, back from runSimulation, done. */
  datatype SimPc = Creating | InnerWait | Returned | Finished

  /** `inner` is the WaitGroup of the simulator's devices; `expired`: its own context has ended, though not by a stop. */
  datatype Sim = Sim(pc: SimPc, inner: int, expired: bool)

  datatype UpLoop = UpRunning | UpUnregistered | UpDone

  /** A device object: the run and simulator it belongs to, and its two loops. */
  datatype Device = Device(run: nat, sim: nat, eui: Eui, up: UpLoop, downDone: bool)

  /** `payloadOk[i]`: does the payload of simulator i decode? `wg` is the WaitGroup of the run. */
  datatype Run = Run(cancelled: bool, manager: Manager, payloadOk: seq<bool>, sims: seq<Sim>, wg: int)

  datatype System = System(status: Status, runs: seq<Run>, devices: seq<Device>, registry: map<Eui, nat>)

  datatype Event =
    | StartRequest(payloadOk: seq<bool>)
    | StopRequest
    | ManagerRuns(r: nat)
    | LaunchNext(r: nat)
    | ManagerFails(r: nat)
    | ManagerFinishes(r: nat)
    | CreateDevice(r: nat, k: nat, eui: Eui)
    | GatewayError(r: nat, k: nat)
    | AllCreated(r: nat, k: nat)
    | InnerWaitReturns(r: nat, k: nat)
    | SimDone(r: nat, k: nat)
    | Expire(r: nat, k: nat)               // the duration of the simulation is over, or a signal came
    | Unregister(d: nat)
    | UplinkDone(d: nat)
    | DownlinkDone(d: nat)

  const INITIAL := System(StatusIdle, [], [], map[])

  predicate MayStart(status: Status) {
    status == StatusIdle || status == StatusError
  }

  predicate MayStop(status: Status) {
    status == StatusRunning || status == StatusStarting
  }

  predicate AtSim(s: System, r: nat, k: nat, pc: SimPc) {
    r < |s.runs| && k < |s.runs[r].sims| && s.runs[r].sims[k].pc == pc
  }

  predicate Enabled(s: System, e: Event) {
    match e
    case StartRequest(_) => MayStart(s.status)
    case StopRequest => MayStop(s.status)
    case ManagerRuns(r) => r < |s.runs| && s.runs[r].manager == Begun
    case LaunchNext(r) => r < |s.runs| && s.runs[r].manager.Launching?
    case ManagerFails(r) => r < |s.runs| && s.runs[r].manager == Failing
    case ManagerFinishes(r) => r < |s.runs| && s.runs[r].manager == Waiting && s.runs[r].wg == 0
    case CreateDevice(r, k, _) => AtSim(s, r, k, Creating)
    case GatewayError(r, k) => AtSim(s, r, k, Creating) && s.runs[r].sims[k].inner == 0
    case AllCreated(r, k) => AtSim(s, r, k, Creating)
    case InnerWaitReturns(r, k) => AtSim(s, r, k, InnerWait) && s.runs[r].sims[k].inner == 0
    case SimDone(r, k) => AtSim(s, r, k, Returned)
    case Expire(r, k) => r < |s.runs| && k < |s.runs[r].sims|
    case Unregister(d) => d < |s.devices| && s.devices[d].up == UpRunning && ContextDone(s, s.devices[d])
    case UplinkDone(d) => d < |s.devices| && s.devices[d].up == UpUnregistered && HasSim(s, s.devices[d])
    case DownlinkDone(d) => d < |s.devices| && !s.devices[d].downDone && ContextDone(s, s.devices[d])
  }

  /** The loops of a device leave only when its context is done: the run was stopped, or the simulator's own context ended. */
  predicate ContextDone(s: System, d: Device) {
    HasSim(s, d) && (s.runs[d.run].cancelled || s.runs[d.run].sims[d.sim].expired)
  }

  predicate HasSim(s: System, d: Device) {
    d.run < |s.runs| && d.sim < |s.runs[d.run].sims|
  }

  function WithRun(s: System, r: nat, run: Run): System
    requires r < |s.runs|
  {
    s.(runs := s.runs[r := run])
  }

  function WithSim(s: System, r: nat, k: nat, sim: Sim): System
    requires r < |s.runs| && k < |s.runs[r].sims|
  {
    WithRun(s, r, s.runs[r].(sims := s.runs[r].sims[k := sim]))
  }

  /** wg.Done on the simulator's inner WaitGroup. */
  function InnerDone(s: System, d: Device): System
    requires HasSim(s, d)
  {
    var sim := s.runs[d.run].sims[d.sim];
    WithSim(s, d.run, d.sim, sim.(inner := sim.inner - 1))
  }

  /** One turn of the loop in simulator.Start: the count goes up before the payload is decoded. */
  function Launched(run: Run): Run
    requires run.manager.Launching?
  {
    var i := run.manager.next;
    if i >= |run.payloadOk| then run.(manager := Waiting)
    else if !run.payloadOk[i] then run.(manager := Failing, wg := run.wg + 1)
    else run.(manager := Launching(i + 1), wg := run.wg + 1, sims := run.sims + [Sim(Creating, 0, false)])
  }

  function Step(s: System, e: Event): System {
    if !Enabled(s, e) then s else
    match e
    case StartRequest(payloadOk) =>
      System(StatusStarting, s.runs + [Run(false, Begun, payloadOk, [], 0)], s.devices, map[])
    case StopRequest =>
      if s.runs == [] then s.(status := StatusStopping)
      else
        var last := |s.runs| - 1;
        WithRun(s.(status := StatusStopping), last, s.runs[last].(cancelled := true))
    case ManagerRuns(r) => WithRun(s.(status := StatusRunning), r, s.runs[r].(manager := Launching(0)))
    case LaunchNext(r) => WithRun(s, r, Launched(s.runs[r]))
    case ManagerFails(r) => WithRun(s.(status := StatusError), r, s.runs[r].(manager := Gone(true)))
    case ManagerFinishes(r) => WithRun(s.(status := StatusIdle), r, s.runs[r].(manager := Gone(false)))
    case CreateDevice(r, k, eui) =>
      var sim := s.runs[r].sims[k];
      WithSim(s.(devices := s.devices + [Device(r, k, eui, UpRunning, false)], registry := s.registry[eui := |s.devices|]),
              r, k, sim.(inner := sim.inner + 2))
    case GatewayError(r, k) => WithSim(s, r, k, s.runs[r].sims[k].(pc := Returned))
    case AllCreated(r, k) => WithSim(s, r, k, s.runs[r].sims[k].(pc := InnerWait))
    case InnerWaitReturns(r, k) => WithSim(s, r, k, s.runs[r].sims[k].(pc := Returned))
    case SimDone(r, k) =>
      var t := WithSim(s, r, k, s.runs[r].sims[k].(pc := Finished));
      WithRun(t, r, t.runs[r].(wg := t.runs[r].wg - 1))
    case Expire(r, k) => WithSim(s, r, k, s.runs[r].sims[k].(expired := true))
    case Unregister(d) =>
      s.(devices := s.devices[d := s.devices[d].(up := UpUnregistered)], registry := s.registry - {s.devices[d].eui})
    case UplinkDone(d) => InnerDone(s.(devices := s.devices[d := s.devices[d].(up := UpDone)]), s.devices[d])
    case DownlinkDone(d) => InnerDone(s.(devices := s.devices[d := s.devices[d].(downDone := true)]), s.devices[d])
  }

  function Exec(es: seq<Event>): System {
    if es == [] then INITIAL else Step(Exec(es[..|es| - 1]), es[|es| - 1])
  }

  /** The same from any state on. */
  function ExecFrom(s: System, es: seq<Event>): System {
    if es == [] then s else Step(ExecFrom(s, es[..|es| - 1]), es[|es| - 1])
  }

  lemma {:induction false} ExecSplit(es: seq<Event>, fs: seq<Event>)
    ensures Exec(es + fs) == ExecFrom(Exec(es), fs)
  {
    if fs == [] {
      assert es + fs == es;
    } else {
      ExecSplit(es, fs[..|fs| - 1]);
      assert (es + fs)[..|es + fs| - 1] == es + fs[..|fs| - 1];
    }
  }

  lemma ExecOne(es: seq<Event>, e: Event)
    ensures Exec(es + [e]) == Step(Exec(es), e)
  {
    assert (es + [e])[..|es|] == es;
  }

  // ----- what is counted -----

  function Loops(d: Device): nat {
    (if d.up == UpDone then 0 else 1) + (if d.downDone then 0 else 1)
  }

  /** Device loops of simulator (r, k) that have not called Done. */
  function LoopsLeft(devices: seq<Device>, r: nat, k: nat): nat {
    if devices == [] then 0
    else
      var d := devices[|devices| - 1];
      LoopsLeft(devices[..|devices| - 1], r, k) + if d.run == r && d.sim == k then Loops(d) else 0
  }

  function SimsLeft(sims: seq<Sim>): nat {
    if sims == [] then 0 else SimsLeft(sims[..|sims| - 1]) + if sims[|sims| - 1].pc == Finished then 0 else 1
  }

  lemma {:induction false} LoopsUpdate(devices: seq<Device>, i: nat, d: Device, r: nat, k: nat)
    requires i < |devices| && d.run == devices[i].run && d.sim == devices[i].sim
    ensures LoopsLeft(devices[i := d], r, k)
         == LoopsLeft(devices, r, k) + if d.run == r && d.sim == k then Loops(d) - Loops(devices[i]) else 0
  {
    var n := |devices| - 1;
    if i < n {
      assert devices[i := d][..n] == devices[..n][i := d];
      LoopsUpdate(devices[..n], i, d, r, k);
    } else {
      assert devices[i := d][..n] == devices[..n];
    }
  }

  lemma LoopsAppend(devices: seq<Device>, d: Device, r: nat, k: nat)
    ensures LoopsLeft(devices + [d], r, k)
         == LoopsLeft(devices, r, k) + if d.run == r && d.sim == k then Loops(d) else 0
  {
    assert (devices + [d])[..|devices|] == devices;
  }

  lemma {:induction false} SimsUpdate(sims: seq<Sim>, k: nat, sim: Sim)
    requires k < |sims|
    ensures SimsLeft(sims[k := sim])
         == SimsLeft(sims) + (if sim.pc == Finished then 0 else 1) - (if sims[k].pc == Finished then 0 else 1)
  {
    var n := |sims| - 1;
    if k < n {
      assert sims[k := sim][..n] == sims[..n][k := sim];
      SimsUpdate(sims[..n], k, sim);
    } else {
      assert sims[k := sim][..n] == sims[..n];
    }
  }

  lemma SimsAppend(sims: seq<Sim>, sim: Sim)
    ensures SimsLeft(sims + [sim]) == SimsLeft(sims) + if sim.pc == Finished then 0 else 1
  {
    assert (sims + [sim])[..|sims|] == sims;
  }

  lemma {:induction false} NoLoopsLeft(devices: seq<Device>, r: nat, k: nat, i: nat)
    requires LoopsLeft(devices, r, k) == 0
    requires i < |devices| && devices[i].run == r && devices[i].sim == k
    ensures devices[i].up == UpDone && devices[i].downDone
  {
    if i < |devices| - 1 {
      NoLoopsLeft(devices[..|devices| - 1], r, k, i);
    }
  }

  lemma {:induction false} NoSimsLeft(sims: seq<Sim>, k: nat)
    requires SimsLeft(sims) == 0 && k < |sims|
    ensures sims[k].pc == Finished
  {
    if k < |sims| - 1 {
      NoSimsLeft(sims[..|sims| - 1], k);
    }
  }

  // ----- the invariant -----

  predicate Live(m: Manager) {
    !m.Gone?
  }

  predicate Active(status: Status) {
    status == StatusStarting || status == StatusRunning || status == StatusStopping
  }

  /** Only the latest run can have a live manager, and it has one exactly while the status is an active one. */
  ghost predicate OneManager(s: System) {
    && (forall r | 0 <= r < |s.runs| && Live(s.runs[r].manager) :: r == |s.runs| - 1)
    && (Active(s.status) <==> s.runs != [] && Live(s.runs[|s.runs| - 1].manager))
    && (s.status == StatusStopping ==> s.runs[|s.runs| - 1].cancelled)
    && (s.status == StatusIdle ==> s.runs == [] || s.runs[|s.runs| - 1].manager == Gone(false))
    && (s.status == StatusError ==> s.runs != [] && s.runs[|s.runs| - 1].manager == Gone(true))
  }

  /** The run's WaitGroup counts its unfinished simulators, plus one for good after a payload that did not decode. */
  ghost predicate RunCounts(run: Run) {
    && run.wg == SimsLeft(run.sims) + (if run.manager == Failing || run.manager == Gone(true) then 1 else 0)
    && (run.manager == Begun ==> run.sims == [])
    && (run.manager == Gone(false) ==> SimsLeft(run.sims) == 0)
  }

  /** The inner WaitGroup counts the loops still to call Done; past the wait there are none. */
  ghost predicate SimCounts(s: System, r: nat, k: nat)
    requires r < |s.runs| && k < |s.runs[r].sims|
  {
    && s.runs[r].sims[k].inner == LoopsLeft(s.devices, r, k)
    && (s.runs[r].sims[k].pc == Returned || s.runs[r].sims[k].pc == Finished ==> LoopsLeft(s.devices, r, k) == 0)
  }

  ghost predicate RegistryInv(s: System) {
    && (forall e | e in s.registry ::
          s.registry[e] < |s.devices| && s.devices[s.registry[e]].eui == e && s.devices[s.registry[e]].up == UpRunning)
    && (forall i | 0 <= i < |s.devices| :: HasSim(s, s.devices[i]))
  }

  ghost predicate Inv(s: System) {
    && OneManager(s)
    && RegistryInv(s)
    && (forall r | 0 <= r < |s.runs| :: RunCounts(s.runs[r]))
    && (forall r, k | 0 <= r < |s.runs| && 0 <= k < |s.runs[r].sims| :: SimCounts(s, r, k))
  }

  lemma {:induction false} NoDevicesYet(devices: seq<Device>, r: nat, k: nat)
    requires forall i | 0 <= i < |devices| :: !(devices[i].run == r && devices[i].sim == k)
    ensures LoopsLeft(devices, r, k) == 0
  {
    if devices != [] {
      NoDevicesYet(devices[..|devices| - 1], r, k);
    }
  }

  /** Requests and manager steps. */
  predicate ControlEvent(e: Event) {
    e.StartRequest? || e.StopRequest? || e.ManagerRuns? || e.LaunchNext? || e.ManagerFails? || e.ManagerFinishes?
  }

  lemma ControlKeepsManager(s: System, e: Event)
    requires OneManager(s) && (forall r | 0 <= r < |s.runs| :: RunCounts(s.runs[r])) && ControlEvent(e)
    ensures OneManager(Step(s, e))
  {
  }

  lemma ControlKeepsRuns(s: System, e: Event, r: nat)
    requires ControlEvent(e) && r < |Step(s, e).runs| && (r < |s.runs| ==> RunCounts(s.runs[r]))
    ensures RunCounts(Step(s, e).runs[r])
  {
    if e.LaunchNext? {
      LaunchKeepsRuns(s, e.r, r);
    }
  }

  lemma LaunchKeepsRuns(s: System, q: nat, r: nat)
    requires r < |s.runs| && RunCounts(s.runs[r])
    ensures RunCounts(Step(s, LaunchNext(q)).runs[r])
  {
    SimsAppend(s.runs[r].sims, Sim(Creating, 0, false));
  }

  lemma ControlKeepsSims(s: System, e: Event, r: nat, k: nat)
    requires ControlEvent(e) && RegistryInv(s)
    requires r < |Step(s, e).runs| && k < |Step(s, e).runs[r].sims|
    requires r < |s.runs| && k < |s.runs[r].sims| ==> SimCounts(s, r, k)
    ensures SimCounts(Step(s, e), r, k)
  {
    assert Step(s, e).devices == s.devices;
    if !(r < |s.runs| && k < |s.runs[r].sims|) {
      NoDevicesYet(s.devices, r, k);
    }
  }

  lemma ControlKeepsRegistry(s: System, e: Event)
    requires ControlEvent(e) && RegistryInv(s)
    ensures RegistryInv(Step(s, e))
  {
    forall i | 0 <= i < |s.devices| ensures HasSim(Step(s, e), s.devices[i]) {
      assert HasSim(s, s.devices[i]);
    }
  }

  lemma ControlStep(s: System, e: Event)
    requires Inv(s) && ControlEvent(e)
    ensures Inv(Step(s, e))
  {
    var t := Step(s, e);
    ControlKeepsManager(s, e);
    ControlKeepsRegistry(s, e);
    forall r | 0 <= r < |t.runs| ensures RunCounts(t.runs[r]) {
      ControlKeepsRuns(s, e, r);
    }
    forall r, k | 0 <= r < |t.runs| && 0 <= k < |t.runs[r].sims| ensures SimCounts(t, r, k) {
      if r < |s.runs| && k < |s.runs[r].sims| { assert SimCounts(s, r, k); }
      ControlKeepsSims(s, e, r, k);
    }
  }

  /** Simulator and device steps touch neither the status nor any manager. */
  lemma WorkKeepsManagers(s: System, e: Event)
    requires !ControlEvent(e)
    ensures var t := Step(s, e);
            && t.status == s.status && |t.runs| == |s.runs|
            && forall r | 0 <= r < |s.runs| ::
                 t.runs[r].manager == s.runs[r].manager && t.runs[r].cancelled == s.runs[r].cancelled
                 && |t.runs[r].sims| == |s.runs[r].sims|
  {
  }

  lemma WorkKeepsRuns(s: System, e: Event, r: nat)
    requires !ControlEvent(e) && r < |s.runs| && RunCounts(s.runs[r])
    ensures r < |Step(s, e).runs| && RunCounts(Step(s, e).runs[r])
  {
    if Enabled(s, e) {
      if e.UplinkDone? || e.DownlinkDone? {
        InnerDoneKeepsSims(s, s.devices[e.d]);
      } else {
        SimMoveKeepsRuns(s, e, r);
      }
    }
  }

  lemma SimMoveKeepsRuns(s: System, e: Event, r: nat)
    requires !ControlEvent(e) && !e.UplinkDone? && !e.DownlinkDone? && Enabled(s, e)
    requires r < |s.runs| && RunCounts(s.runs[r])
    ensures r < |Step(s, e).runs| && RunCounts(Step(s, e).runs[r])
  {
    if !e.Unregister? {
      var q, k := e.r, e.k;
      var sim := Step(s, e).runs[q].sims[k];
      assert Step(s, e).runs == s.runs[q := s.runs[q].(sims := s.runs[q].sims[k := sim], wg := Step(s, e).runs[q].wg)];
      if q == r {
        MovedCounts(s.runs[r], k, sim, Step(s, e).runs[r].wg);
      }
    }
  }

  /** A simulator that moved: the WaitGroup goes down by one exactly when it finished. */
  lemma MovedCounts(run: Run, k: nat, sim: Sim, wg: int)
    requires RunCounts(run) && k < |run.sims| && (run.sims[k].pc == Finished ==> sim.pc == Finished)
    requires wg == run.wg - if sim.pc == Finished && run.sims[k].pc != Finished then 1 else 0
    ensures RunCounts(run.(sims := run.sims[k := sim], wg := wg))
  {
    SimsUpdate(run.sims, k, sim);
  }

  lemma InnerDoneKeepsSims(s: System, d: Device)
    requires HasSim(s, d)
    ensures var sims, sim := s.runs[d.run].sims, s.runs[d.run].sims[d.sim];
            SimsLeft(sims[d.sim := sim.(inner := sim.inner - 1)]) == SimsLeft(sims)
  {
    var sims, sim := s.runs[d.run].sims, s.runs[d.run].sims[d.sim];
    SimsUpdate(sims, d.sim, sim.(inner := sim.inner - 1));
  }

  /** What becomes of the device that a loop leaves. */
  function AfterLeaving(d: Device, e: Event): Device {
    match e
    case Unregister(_) => d.(up := UpUnregistered)
    case UplinkDone(_) => d.(up := UpDone)
    case DownlinkDone(_) => d.(downDone := true)
    case _ => d
  }

  lemma LeavingDevices(s: System, e: Event)
    requires Enabled(s, e) && (e.Unregister? || e.UplinkDone? || e.DownlinkDone?)
    ensures Step(s, e).devices == s.devices[e.d := AfterLeaving(s.devices[e.d], e)]
  {
  }

  lemma DevicesCount(s: System, e: Event, r: nat, k: nat)
    requires Enabled(s, e)
    requires e.CreateDevice? || e.Unregister? || e.UplinkDone? || e.DownlinkDone?
    ensures LoopsLeft(Step(s, e).devices, r, k) == LoopsLeft(s.devices, r, k) +
              match e
              case CreateDevice(q, l, _) => if q == r && l == k then 2 else 0
              case UplinkDone(i) => if s.devices[i].run == r && s.devices[i].sim == k then -1 else 0
              case DownlinkDone(i) => if s.devices[i].run == r && s.devices[i].sim == k then -1 else 0
              case _ => 0
  {
    if e.CreateDevice? {
      LoopsAppend(s.devices, Device(e.r, e.k, e.eui, UpRunning, false), r, k);
    } else {
      LeavingDevices(s, e);
      LoopsUpdate(s.devices, e.d, AfterLeaving(s.devices[e.d], e), r, k);
    }
  }

  lemma WorkKeepsSims(s: System, e: Event, r: nat, k: nat)
    requires !ControlEvent(e) && r < |s.runs| && k < |s.runs[r].sims| && SimCounts(s, r, k)
    ensures var t := Step(s, e); r < |t.runs| && k < |t.runs[r].sims| && SimCounts(t, r, k)
  {
    if Enabled(s, e) && (e.CreateDevice? || e.Unregister? || e.UplinkDone? || e.DownlinkDone?) {
      DevicesCount(s, e, r, k);
    }
  }

  lemma WorkKeepsRegistry(s: System, e: Event)
    requires !ControlEvent(e) && RegistryInv(s)
    ensures RegistryInv(Step(s, e))
  {
    var t := Step(s, e);
    forall i | 0 <= i < |t.devices| ensures HasSim(t, t.devices[i]) {
      if i < |s.devices| {
        assert HasSim(s, s.devices[i]);
        SamePlace(s, e, i);
        SimStaysDone(s, e, s.devices[i].run, s.devices[i].sim);
      }
    }
  }

  lemma InvStep(s: System, e: Event)
    requires Inv(s)
    ensures Inv(Step(s, e))
  {
    if ControlEvent(e) {
      ControlStep(s, e);
    } else {
      var t := Step(s, e);
      WorkKeepsManagers(s, e);
      WorkKeepsRegistry(s, e);
      forall r | 0 <= r < |t.runs| ensures RunCounts(t.runs[r]) {
        WorkKeepsRuns(s, e, r);
      }
      forall r, k | 0 <= r < |t.runs| && 0 <= k < |t.runs[r].sims| ensures SimCounts(t, r, k) {
        assert SimCounts(s, r, k);
        WorkKeepsSims(s, e, r, k);
      }
    }
  }

  lemma {:induction false} InvExec(es: seq<Event>)
    ensures Inv(Exec(es))
  {
    if es != [] {
      InvExec(es[..|es| - 1]);
      InvStep(Exec(es[..|es| - 1]), es[|es| - 1]);
    }
  }

  // ----- what holds in every interleaving -----

  lemma OneManagerMeans(s: System)
    requires OneManager(s)
    ensures forall q, r | 0 <= q < |s.runs| && 0 <= r < |s.runs| && Live(s.runs[q].manager) && Live(s.runs[r].manager) :: q == r
    ensures Active(s.status) <==> exists r :: 0 <= r < |s.runs| && Live(s.runs[r].manager)
    ensures s.status == StatusStopping ==> s.runs != [] && s.runs[|s.runs| - 1].cancelled
  {
  }

  lemma OneManagerExec(es: seq<Event>)
    ensures OneManager(Exec(es))
  {
    InvExec(es);
  }

  /**
   A manager is live exactly while the status is starting, running or stopping, and then it is the latest run's and
   the only one; stopping means that run's context is cancelled.
   */
  lemma AtMostOneManager(es: seq<Event>)
    ensures var s := Exec(es);
            && (forall q, r | 0 <= q < |s.runs| && 0 <= r < |s.runs| && Live(s.runs[q].manager) && Live(s.runs[r].manager) :: q == r)
            && (Active(s.status) <==> exists r :: 0 <= r < |s.runs| && Live(s.runs[r].manager))
            && (s.status == StatusStopping ==> s.runs != [] && s.runs[|s.runs| - 1].cancelled)
  {
    OneManagerExec(es);
    OneManagerMeans(Exec(es));
  }

  /** No WaitGroup counter is ever negative, so no Done panics. */
  lemma WaitGroupsNotNegative(es: seq<Event>, r: nat)
    requires r < |Exec(es).runs|
    ensures Exec(es).runs[r].wg >= 0
    ensures forall k | 0 <= k < |Exec(es).runs[r].sims| :: Exec(es).runs[r].sims[k].inner >= 0
  {
    InvExec(es);
    assert RunCounts(Exec(es).runs[r]);
    forall k | 0 <= k < |Exec(es).runs[r].sims| ensures Exec(es).runs[r].sims[k].inner >= 0 {
      assert SimCounts(Exec(es), r, k);
    }
  }

  /** The device's loops have both called Done, and a lookup cannot find it. */
  ghost predicate Over(s: System, i: nat)
    requires i < |s.devices|
  {
    s.devices[i].up == UpDone && s.devices[i].downDone && forall e | e in s.registry :: s.registry[e] != i
  }

  /** Once a simulator is back from its inner wait, each of its devices is over and out of the registry. */
  lemma InnerWaitIsEnough(es: seq<Event>, r: nat, k: nat, i: nat)
    requires AtSim(Exec(es), r, k, Returned) || AtSim(Exec(es), r, k, Finished)
    requires i < |Exec(es).devices| && Exec(es).devices[i].run == r && Exec(es).devices[i].sim == k
    ensures Over(Exec(es), i)
  {
    InvExec(es);
    assert SimCounts(Exec(es), r, k);
    NoLoopsLeft(Exec(es).devices, r, k, i);
  }

  /** When the status is idle, the latest run has nothing running and nothing registered. */
  lemma IdleMeansOver(es: seq<Event>, i: nat)
    requires Exec(es).status == StatusIdle
    requires i < |Exec(es).devices| && Exec(es).devices[i].run == |Exec(es).runs| - 1
    ensures Over(Exec(es), i)
  {
    InvExec(es);
    var s, d := Exec(es), Exec(es).devices[i];
    assert HasSim(s, d) && RunCounts(s.runs[d.run]);
    NoSimsLeft(s.runs[d.run].sims, d.sim);
    InnerWaitIsEnough(es, d.run, d.sim, i);
  }

  lemma IdleStep(s: System, e: Event)
    requires OneManager(s) && Active(s.status) && Step(s, e).status == StatusIdle
    ensures e == ManagerFinishes(|s.runs| - 1) && s.runs[|s.runs| - 1].wg == 0
  {
  }

  /** A live run becomes idle only through its own manager, with the run's WaitGroup at zero. */
  lemma IdleOnlyAtZero(es: seq<Event>, e: Event)
    requires Active(Exec(es).status) && Exec(es + [e]).status == StatusIdle
    ensures e == ManagerFinishes(|Exec(es).runs| - 1) && Exec(es).runs[|Exec(es).runs| - 1].wg == 0
  {
    OneManagerExec(es);
    ExecOne(es, e);
    IdleStep(Exec(es), e);
  }

  /** When the status is idle and no run ended in error, nothing of any run is left and the registry is empty. */
  lemma IdleMeansNothingLeft(es: seq<Event>)
    requires Exec(es).status == StatusIdle && NoEarlierError(Exec(es))
    ensures Exec(es).registry == map[]
    ensures forall i | 0 <= i < |Exec(es).devices| :: Over(Exec(es), i)
  {
    InvExec(es);
    var s := Exec(es);
    forall i | 0 <= i < |s.devices| ensures Over(s, i) && s.devices[i].up == UpDone {
      assert HasSim(s, s.devices[i]);
      if s.devices[i].run == |s.runs| - 1 {
        IdleMeansOver(es, i);
      } else {
        EarlierOver(s, i);
      }
    }
    assert s.registry.Keys == {};
  }

  /** No run but the latest ended in error. */
  ghost predicate NoEarlierError(s: System) {
    forall r | 0 <= r < |s.runs| - 1 :: s.runs[r].manager != Gone(true)
  }

  /** A run that went idle has nothing left. */
  lemma EarlierOver(s: System, i: nat)
    requires Inv(s) && NoEarlierError(s)
    requires i < |s.devices| && s.devices[i].run < |s.runs| - 1
    ensures Over(s, i)
  {
    var r, k := s.devices[i].run, s.devices[i].sim;
    assert HasSim(s, s.devices[i]) && RunCounts(s.runs[r]) && s.runs[r].manager == Gone(false);
    NoSimsLeft(s.runs[r].sims, k);
    assert SimCounts(s, r, k);
    NoLoopsLeft(s.devices, r, k, i);
  }

  // ----- stopping -----

  ghost predicate NoStart(es: seq<Event>) {
    forall i | 0 <= i < |es| :: !es[i].StartRequest?
  }

  /** A cancelled run stays cancelled. */
  lemma {:induction false} CancelledForGood(s: System, r: nat, es: seq<Event>)
    requires r < |s.runs| && s.runs[r].cancelled
    ensures r < |ExecFrom(s, es).runs| && ExecFrom(s, es).runs[r].cancelled
  {
    if es != [] {
      CancelledForGood(s, r, es[..|es| - 1]);
      CancelledStep(ExecFrom(s, es[..|es| - 1]), r, es[|es| - 1]);
    }
  }

  /** Nobody leaves early: a device one of whose loops has left has a context that is done. */
  ghost predicate LeftInTime(s: System) {
    forall i | 0 <= i < |s.devices| && (s.devices[i].up != UpRunning || s.devices[i].downDone) :: ContextDone(s, s.devices[i])
  }

  lemma LeftInTimeStep(s: System, e: Event)
    requires LeftInTime(s) && RegistryInv(s)
    ensures LeftInTime(Step(s, e))
  {
    var t := Step(s, e);
    forall i | 0 <= i < |t.devices| && (t.devices[i].up != UpRunning || t.devices[i].downDone) ensures ContextDone(t, t.devices[i]) {
      if i < |s.devices| {
        assert HasSim(s, s.devices[i]);
        DoneForGood(s, e, i);
      }
    }
  }

  lemma DoneForGood(s: System, e: Event, i: nat)
    requires i < |s.devices| && HasSim(s, s.devices[i])
    ensures i < |Step(s, e).devices| && (ContextDone(s, s.devices[i]) ==> ContextDone(Step(s, e), Step(s, e).devices[i]))
  {
    SamePlace(s, e, i);
    if ContextDone(s, s.devices[i]) {
      SimStaysDone(s, e, s.devices[i].run, s.devices[i].sim);
    }
  }

  lemma SamePlace(s: System, e: Event, i: nat)
    requires i < |s.devices|
    ensures i < |Step(s, e).devices|
    ensures Step(s, e).devices[i].run == s.devices[i].run && Step(s, e).devices[i].sim == s.devices[i].sim
  {
  }

  lemma SimStaysDone(s: System, e: Event, r: nat, k: nat)
    requires r < |s.runs| && k < |s.runs[r].sims|
    ensures var t := Step(s, e);
            && r < |t.runs| && k < |t.runs[r].sims|
            && (s.runs[r].cancelled ==> t.runs[r].cancelled) && (s.runs[r].sims[k].expired ==> t.runs[r].sims[k].expired)
  {
  }

  lemma {:induction false} LeftInTimeExec(es: seq<Event>)
    ensures LeftInTime(Exec(es))
  {
    if es != [] {
      LeftInTimeExec(es[..|es| - 1]);
      RegistryExec(es[..|es| - 1]);
      LeftInTimeStep(Exec(es[..|es| - 1]), es[|es| - 1]);
    }
  }

  /** Once a run is cancelled, each of its loops that has not left can leave, whatever happened since. */
  lemma CancelledCanLeave(es: seq<Event>, fs: seq<Event>, i: nat)
    requires i < |Exec(es + fs).devices| && Exec(es + fs).devices[i].run < |Exec(es).runs|
    requires Exec(es).runs[Exec(es + fs).devices[i].run].cancelled
    ensures var s := Exec(es + fs);
            && (s.devices[i].up == UpRunning <==> Enabled(s, Unregister(i)))
            && (!s.devices[i].downDone <==> Enabled(s, DownlinkDone(i)))
  {
    ExecSplit(es, fs);
    CancelledForGood(Exec(es), Exec(es + fs).devices[i].run, fs);
    HasSimExec(es + fs, i);
    DoneCanLeave(Exec(es + fs), i);
  }

  /** So can those of a simulator whose own context has ended. */
  lemma ExpiredCanLeave(es: seq<Event>, i: nat)
    requires i < |Exec(es).devices| && Exec(es).devices[i].up == UpRunning && !Exec(es).devices[i].downDone
    ensures var d, s := Exec(es).devices[i], Exec(es + [Expire(Exec(es).devices[i].run, Exec(es).devices[i].sim)]);
            Enabled(s, Unregister(i)) && Enabled(s, DownlinkDone(i))
  {
    HasSimExec(es, i);
    ExecOne(es, Expire(Exec(es).devices[i].run, Exec(es).devices[i].sim));
    ExpiryFrees(Exec(es), i);
  }

  lemma ExpiryFrees(s: System, i: nat)
    requires i < |s.devices| && HasSim(s, s.devices[i]) && s.devices[i].up == UpRunning && !s.devices[i].downDone
    ensures var t := Step(s, Expire(s.devices[i].run, s.devices[i].sim)); Enabled(t, Unregister(i)) && Enabled(t, DownlinkDone(i))
  {
  }

  lemma DoneCanLeave(s: System, i: nat)
    requires i < |s.devices| && ContextDone(s, s.devices[i])
    ensures s.devices[i].up == UpRunning <==> Enabled(s, Unregister(i))
    ensures !s.devices[i].downDone <==> Enabled(s, DownlinkDone(i))
  {
  }

  lemma HasSimExec(es: seq<Event>, i: nat)
    requires i < |Exec(es).devices|
    ensures HasSim(Exec(es), Exec(es).devices[i])
  {
    RegistryExec(es);
  }

  lemma CancelledStep(s: System, r: nat, e: Event)
    requires r < |s.runs| && s.runs[r].cancelled
    ensures r < |Step(s, e).runs| && Step(s, e).runs[r].cancelled
  {
  }

  ghost predicate NoneBegun(s: System) {
    s.status != StatusRunning && forall r | 0 <= r < |s.runs| :: s.runs[r].manager != Begun
  }

  lemma {:induction false} NotRunningAgain(s: System, es: seq<Event>)
    requires NoneBegun(s) && NoStart(es)
    ensures NoneBegun(ExecFrom(s, es))
  {
    if es != [] {
      NotRunningAgain(s, es[..|es| - 1]);
      NoneBegunStep(ExecFrom(s, es[..|es| - 1]), es[|es| - 1]);
    }
  }

  lemma NoneBegunStep(s: System, e: Event)
    requires NoneBegun(s) && !e.StartRequest?
    ensures NoneBegun(Step(s, e))
  {
  }

  /** A stop can be overwritten by running, with no new start, exactly when the manager has not run yet. */
  lemma StopOverwrittenIff(es: seq<Event>)
    requires Exec(es).status == StatusStopping
    ensures Exec(es).runs != []
    ensures (exists fs :: NoStart(fs) && ExecFrom(Exec(es), fs).status == StatusRunning)
       <==> Exec(es).runs[|Exec(es).runs| - 1].manager == Begun
  {
    OneManagerExec(es);
    var s := Exec(es);
    var last := |s.runs| - 1;
    if s.runs[last].manager == Begun {
      var fs := [ManagerRuns(last)];
      assert fs[..0] == [] && NoStart(fs) && ExecFrom(s, fs).status == StatusRunning;
    } else {
      forall fs | NoStart(fs) ensures ExecFrom(s, fs).status != StatusRunning {
        NotRunningAgain(s, fs);
      }
    }
  }

  function StopTooEarly(): seq<Event> {
    [StartRequest([true]), StopRequest, ManagerRuns(0)]
  }

  lemma StopThenRunning()
    ensures var s := Exec(StopTooEarly()); s.status == StatusRunning && |s.runs| == 1 && s.runs[0].cancelled
  {
    var es := [StartRequest([true])];
    ExecOne([], StartRequest([true]));
    assert [] + es == es;
    ExecOne(es, StopRequest);
    es := es + [StopRequest];
    ExecOne(es, ManagerRuns(0));
    assert es + [ManagerRuns(0)] == StopTooEarly();
  }

  /**
   The run that does it. Its context is cancelled and stays so whatever follows, so each of its devices, even one created
   later, can leave from the start.
   */
  lemma StopOverwritten(fs: seq<Event>)
    ensures Exec(StopTooEarly()).status == StatusRunning
    ensures var s := Exec(StopTooEarly() + fs);
            && 0 < |s.runs| && s.runs[0].cancelled
            && forall i | 0 <= i < |s.devices| && s.devices[i].run == 0 && s.devices[i].up == UpRunning :: Enabled(s, Unregister(i))
  {
    StopThenRunning();
    ExecSplit(StopTooEarly(), fs);
    CancelledForGood(Exec(StopTooEarly()), 0, fs);
    var s := Exec(StopTooEarly() + fs);
    forall i | 0 <= i < |s.devices| && s.devices[i].run == 0 && s.devices[i].up == UpRunning ensures Enabled(s, Unregister(i)) {
      CancelledCanLeave(StopTooEarly(), fs, i);
    }
  }

  // ----- errors -----

  /** After a payload that does not decode the run's WaitGroup is never zero again. */
  lemma WaitGroupStaysRaised(es: seq<Event>, fs: seq<Event>, r: nat)
    requires r < |Exec(es).runs| && Exec(es).runs[r].manager == Gone(true)
    ensures r < |Exec(es + fs).runs|
    ensures Exec(es + fs).runs[r].wg == SimsLeft(Exec(es + fs).runs[r].sims) + 1
  {
    ExecSplit(es, fs);
    FailedForGood(Exec(es), r, fs);
    InvExec(es + fs);
    assert RunCounts(Exec(es + fs).runs[r]);
  }

  lemma {:induction false} FailedForGood(s: System, r: nat, es: seq<Event>)
    requires r < |s.runs| && s.runs[r].manager == Gone(true)
    ensures r < |ExecFrom(s, es).runs| && ExecFrom(s, es).runs[r].manager == Gone(true)
  {
    if es != [] {
      FailedForGood(s, r, es[..|es| - 1]);
      FailedStep(ExecFrom(s, es[..|es| - 1]), r, es[|es| - 1]);
    }
  }

  lemma FailedStep(s: System, r: nat, e: Event)
    requires r < |s.runs| && s.runs[r].manager == Gone(true)
    ensures r < |Step(s, e).runs| && Step(s, e).runs[r].manager == Gone(true)
  {
  }

  /** The manager starts one simulator for each payload until one does not decode. */
  ghost predicate Launches(run: Run) {
    var p, n := run.payloadOk, |run.sims|;
    && n <= |p| && (forall i | 0 <= i < n :: p[i])
    && (run.manager == Begun ==> n == 0)
    && (run.manager.Launching? ==> run.manager.next == n)
    && (run.manager == Failing || run.manager == Gone(true) ==> n < |p| && !p[n])
    && (run.manager == Waiting || run.manager == Gone(false) ==> n == |p|)
  }

  lemma LaunchesStep(s: System, e: Event)
    requires forall r | 0 <= r < |s.runs| :: Launches(s.runs[r])
    ensures forall r | 0 <= r < |Step(s, e).runs| :: Launches(Step(s, e).runs[r])
  {
    var t := Step(s, e);
    forall r | 0 <= r < |t.runs| ensures Launches(t.runs[r]) {
      if r < |s.runs| {
        assert Launches(s.runs[r]);
        RunLaunches(s, e, r);
      }
    }
  }

  lemma RunLaunches(s: System, e: Event, r: nat)
    requires r < |s.runs| && Launches(s.runs[r])
    ensures r < |Step(s, e).runs| && Launches(Step(s, e).runs[r])
  {
  }

  lemma {:induction false} LaunchesExec(es: seq<Event>)
    ensures forall r | 0 <= r < |Exec(es).runs| :: Launches(Exec(es).runs[r])
  {
    if es != [] {
      LaunchesExec(es[..|es| - 1]);
      LaunchesStep(Exec(es[..|es| - 1]), es[|es| - 1]);
    }
  }

  /** In every interleaving that leaves a run of this request in error, that run has nothing left. */
  ghost predicate ErrorMeansOver(payloadOk: seq<bool>) {
    forall es, i: nat | InError(es, payloadOk) && i < |Exec(es).devices| && Exec(es).devices[i].run == |Exec(es).runs| - 1 ::
      Over(Exec(es), i)
  }

  ghost predicate InError(es: seq<Event>, payloadOk: seq<bool>) {
    var s := Exec(es);
    s.status == StatusError && s.runs != [] && s.runs[|s.runs| - 1].payloadOk == payloadOk
  }

  /** One simulator, one device, and then the rest of the payloads up to the bad one. */
  lemma {:induction false} LaunchUpTo(payloadOk: seq<bool>, n: nat) returns (es: seq<Event>)
    requires 1 <= n <= |payloadOk| && forall i | 0 <= i < n :: payloadOk[i]
    ensures var s := Exec(es);
            && s.status == StatusRunning
            && |s.runs| == 1 && s.runs[0].payloadOk == payloadOk && s.runs[0].manager == Launching(n)
            && |s.runs[0].sims| == n && s.devices == [Device(0, 0, 7, UpRunning, false)]
  {
    if n == 1 {
      es := [];
      ExecOne(es, StartRequest(payloadOk));
      es := es + [StartRequest(payloadOk)];
      ExecOne(es, ManagerRuns(0));
      es := es + [ManagerRuns(0)];
      ExecOne(es, LaunchNext(0));
      es := es + [LaunchNext(0)];
      ExecOne(es, CreateDevice(0, 0, 7));
      es := es + [CreateDevice(0, 0, 7)];
    } else {
      es := LaunchUpTo(payloadOk, n - 1);
      ExecOne(es, LaunchNext(0));
      es := es + [LaunchNext(0)];
    }
  }

  /** Status error means that nothing is running exactly when every payload decodes or the first one does not. */
  lemma ErrorMeansOverIff(payloadOk: seq<bool>)
    ensures ErrorMeansOver(payloadOk) <==> (forall i | 0 <= i < |payloadOk| :: payloadOk[i]) || !payloadOk[0]
  {
    if b: nat :| b < |payloadOk| && !payloadOk[b] && payloadOk[0] {
      var n := FirstBad(payloadOk, b);
      var es := LaunchUpTo(payloadOk, n);
      ExecOne(es, LaunchNext(0));
      es := es + [LaunchNext(0)];
      ExecOne(es, ManagerFails(0));
      es := es + [ManagerFails(0)];
      assert InError(es, payloadOk) && Exec(es).devices[0].run == |Exec(es).runs| - 1 && !Over(Exec(es), 0);
    }
    forall es, i: nat | InError(es, payloadOk) && i < |Exec(es).devices| && Exec(es).devices[i].run == |Exec(es).runs| - 1
      ensures payloadOk != [] && payloadOk[0] && exists b :: 0 <= b < |payloadOk| && !payloadOk[b]
    {
      ErrorShape(es, payloadOk, i);
    }
  }

  /** A device of a run in error was created by a simulator that a good payload started before the bad one. */
  lemma ErrorShape(es: seq<Event>, payloadOk: seq<bool>, i: nat)
    requires InError(es, payloadOk) && i < |Exec(es).devices| && Exec(es).devices[i].run == |Exec(es).runs| - 1
    ensures payloadOk != [] && payloadOk[0] && exists b :: 0 <= b < |payloadOk| && !payloadOk[b]
  {
    LaunchesExec(es);
    RegistryExec(es);
    OneManagerExec(es);
    ErrorShapeAt(Exec(es), i);
  }

  lemma RegistryExec(es: seq<Event>)
    ensures RegistryInv(Exec(es))
  {
    InvExec(es);
  }

  lemma ErrorShapeAt(s: System, i: nat)
    requires OneManager(s) && RegistryInv(s) && s.status == StatusError && Launches(s.runs[|s.runs| - 1])
    requires i < |s.devices| && s.devices[i].run == |s.runs| - 1
    ensures var p := s.runs[|s.runs| - 1].payloadOk; p != [] && p[0] && exists b :: 0 <= b < |p| && !p[b]
  {
    var run := s.runs[|s.runs| - 1];
    assert HasSim(s, s.devices[i]);
    assert !run.payloadOk[|run.sims|];
  }

  lemma {:induction false} FirstBad(payloadOk: seq<bool>, b: nat) returns (n: nat)
    requires b < |payloadOk| && !payloadOk[b]
    ensures n < |payloadOk| && !payloadOk[n] && forall i | 0 <= i < n :: payloadOk[i]
  {
    if i: nat :| i < b && !payloadOk[i] {
      n := FirstBad(payloadOk, i);
    } else {
      n := b;
    }
  }

  // ----- lookups -----

  /** No run has two devices of one EUI; another run may well have the same devices. */
  ghost predicate UniqueInRuns(devices: seq<Device>) {
    forall i, j | 0 <= i < j < |devices| && devices[i].run == devices[j].run :: devices[i].eui != devices[j].eui
  }

  predicate Found(s: System, i: nat)
    requires i < |s.devices|
  {
    s.devices[i].eui in s.registry && s.registry[s.devices[i].eui] == i
  }

  ghost predicate LookupInv(s: System) {
    forall i | 0 <= i < |s.devices| && s.devices[i].run == |s.runs| - 1 && s.devices[i].up == UpRunning :: Found(s, i)
  }

  lemma DevicesStay(s: System, e: Event)
    ensures var t := Step(s, e);
            && |s.devices| <= |t.devices| && |s.runs| <= |t.runs|
            && (forall i | 0 <= i < |s.devices| :: t.devices[i].eui == s.devices[i].eui && t.devices[i].run == s.devices[i].run)
            && (forall r | 0 <= r < |s.runs| && s.runs[r].manager == Gone(true) :: t.runs[r].manager == Gone(true))
  {
  }

  lemma LookupStep(s: System, e: Event)
    requires Inv(s) && LookupInv(s) && UniqueInRuns(Step(s, e).devices) && NoEarlierError(s)
    ensures LookupInv(Step(s, e))
  {
    if Enabled(s, e) {
      if e.Unregister? {
        UnregisterKeepsLookup(s, e.d);
      } else if e.CreateDevice? {
        CreateKeepsLookup(s, e.r, e.k, e.eui);
      } else {
        OtherKeepsLookup(s, e);
      }
    }
  }

  lemma UnregisterKeepsLookup(s: System, d: nat)
    requires Inv(s) && LookupInv(s) && UniqueInRuns(Step(s, Unregister(d)).devices) && NoEarlierError(s)
    requires Enabled(s, Unregister(d))
    ensures LookupInv(Step(s, Unregister(d)))
  {
    assert HasSim(s, s.devices[d]);
    if s.devices[d].run < |s.runs| - 1 {
      EarlierOver(s, d);
    }
    var t := Step(s, Unregister(d));
    forall i | 0 <= i < |t.devices| && t.devices[i].run == |t.runs| - 1 && t.devices[i].up == UpRunning ensures Found(t, i) {
      assert Found(s, i) && i != d;
      assert t.devices[i].run == t.devices[d].run;
    }
  }

  lemma CreateKeepsLookup(s: System, r: nat, k: nat, eui: Eui)
    requires Inv(s) && LookupInv(s) && UniqueInRuns(Step(s, CreateDevice(r, k, eui)).devices) && NoEarlierError(s)
    requires Enabled(s, CreateDevice(r, k, eui))
    ensures LookupInv(Step(s, CreateDevice(r, k, eui)))
  {
    if r < |s.runs| - 1 {
      assert RunCounts(s.runs[r]) && s.runs[r].manager == Gone(false);
      NoSimsLeft(s.runs[r].sims, k);
    }
    var t := Step(s, CreateDevice(r, k, eui));
    forall i | 0 <= i < |t.devices| && t.devices[i].run == |t.runs| - 1 && t.devices[i].up == UpRunning ensures Found(t, i) {
      if i < |s.devices| {
        assert Found(s, i) && t.devices[|s.devices|].eui == eui;
      }
    }
  }

  lemma OtherKeepsLookup(s: System, e: Event)
    requires RegistryInv(s) && LookupInv(s) && !e.Unregister? && !e.CreateDevice?
    ensures LookupInv(Step(s, e))
  {
    var t := Step(s, e);
    DevicesStay(s, e);
    forall i | 0 <= i < |t.devices| && t.devices[i].run == |t.runs| - 1 && t.devices[i].up == UpRunning ensures Found(t, i) {
      assert HasSim(s, s.devices[i]);
      assert s.devices[i].up == UpRunning;
    }
  }

  /**
   When no run has two devices of one EUI and no earlier run ended in error, a lookup finds a device of the latest run
   exactly until its uplink loop unregisters it. The same devices may have been in earlier runs.
   */
  lemma LookupIffRunning(es: seq<Event>)
    requires UniqueInRuns(Exec(es).devices) && NoEarlierError(Exec(es))
    ensures var s := Exec(es);
            forall i | 0 <= i < |s.devices| && s.devices[i].run == |s.runs| - 1 :: Found(s, i) <==> s.devices[i].up == UpRunning
  {
    InvExec(es);
    LookupExec(es);
  }

  lemma {:induction false} LookupExec(es: seq<Event>)
    requires UniqueInRuns(Exec(es).devices) && NoEarlierError(Exec(es))
    ensures LookupInv(Exec(es))
  {
    if es != [] {
      var s := Exec(es[..|es| - 1]);
      DevicesStay(s, es[|es| - 1]);
      InvExec(es[..|es| - 1]);
      LookupExec(es[..|es| - 1]);
      LookupStep(s, es[|es| - 1]);
    }
  }

  /** No new run, no new device of this EUI, and no context ends but by a stop. */
  ghost predicate LeavesAlone(es: seq<Event>, eui: Eui) {
    forall i | 0 <= i < |es| :: !es[i].StartRequest? && !es[i].Expire? && !(es[i].CreateDevice? && es[i].eui == eui)
  }

  /** The context of device j is done, or a stop can still be asked for that ends it. */
  predicate CanLeave(s: System, j: nat)
    requires j < |s.devices|
  {
    ContextDone(s, s.devices[j]) || (s.devices[j].run == |s.runs| - 1 && MayStop(s.status))
  }

  /** No other device of its EUI is running that can leave. */
  ghost predicate NoneToLeave(s: System, i: nat)
    requires i < |s.devices|
  {
    forall j | 0 <= j < |s.devices| && j != i && s.devices[j].eui == s.devices[i].eui && s.devices[j].up == UpRunning :: !CanLeave(s, j)
  }

  /** A device cannot come to be able to leave without a start or an expiry. */
  lemma CanLeaveBefore(s: System, e: Event, j: nat)
    requires OneManager(s) && RegistryInv(s) && j < |s.devices| && !e.StartRequest? && !e.Expire?
    requires CanLeave(Step(s, e), j)
    ensures CanLeave(s, j)
  {
    assert HasSim(s, s.devices[j]);
  }

  lemma FoundStep(s: System, e: Event, i: nat)
    requires OneManager(s) && RegistryInv(s)
    requires i < |s.devices| && NoneToLeave(s, i) && (s.devices[i].up == UpRunning ==> Found(s, i))
    requires LeavesAlone([e], s.devices[i].eui)
    ensures var t := Step(s, e);
            && i < |t.devices| && t.devices[i].eui == s.devices[i].eui && NoneToLeave(t, i)
            && (t.devices[i].up == UpRunning ==> Found(t, i))
  {
    assert [e][0] == e;
    assert !e.StartRequest? && !e.Expire? && !(e.CreateDevice? && e.eui == s.devices[i].eui);
    var t := Step(s, e);
    forall j | 0 <= j < |t.devices| && j != i && t.devices[j].eui == t.devices[i].eui && t.devices[j].up == UpRunning
      ensures !CanLeave(t, j)
    {
      assert j < |s.devices| && s.devices[j].up == UpRunning && !CanLeave(s, j);
      if CanLeave(t, j) {
        CanLeaveBefore(s, e, j);
      }
    }
  }

  lemma {:induction false} FoundExec(s: System, es: seq<Event>, i: nat)
    requires Inv(s) && i < |s.devices| && NoneToLeave(s, i) && (s.devices[i].up == UpRunning ==> Found(s, i))
    requires LeavesAlone(es, s.devices[i].eui)
    ensures var t := ExecFrom(s, es);
            && Inv(t) && i < |t.devices| && t.devices[i].eui == s.devices[i].eui && NoneToLeave(t, i)
            && (t.devices[i].up == UpRunning ==> Found(t, i))
  {
    if es != [] {
      FoundExec(s, es[..|es| - 1], i);
      assert LeavesAlone([es[|es| - 1]], s.devices[i].eui);
      FoundStep(ExecFrom(s, es[..|es| - 1]), es[|es| - 1], i);
      InvStep(ExecFrom(s, es[..|es| - 1]), es[|es| - 1]);
    }
  }

  ghost predicate StaysFound(s: System, i: nat) {
    forall fs | i < |s.devices| && LeavesAlone(fs, s.devices[i].eui) :: FoundWhileRunning(ExecFrom(s, fs), i)
  }

  predicate FoundWhileRunning(s: System, i: nat) {
    i < |s.devices| && (s.devices[i].up == UpRunning ==> Found(s, i))
  }

  /**
   A running device that is found stays found for as long as it runs, in every interleaving of the run, exactly when no
   other running device of its EUI can leave: the loop of one that does unregisters the EUI.
   */
  lemma StaysFoundIff(s: System, i: nat)
    requires Inv(s) && i < |s.devices| && Found(s, i)
    ensures StaysFound(s, i) <==> NoneToLeave(s, i)
  {
    if NoneToLeave(s, i) {
      forall fs | LeavesAlone(fs, s.devices[i].eui) ensures FoundWhileRunning(ExecFrom(s, fs), i) {
        FoundExec(s, fs, i);
      }
    } else {
      var j :| 0 <= j < |s.devices| && j != i && s.devices[j].eui == s.devices[i].eui && s.devices[j].up == UpRunning && CanLeave(s, j);
      var fs := LeavingRun(s, j);
      assert LeavesAlone(fs, s.devices[i].eui) && !FoundWhileRunning(ExecFrom(s, fs), i);
    }
  }

  /** Device j leaves, after a stop if need be. */
  lemma LeavingRun(s: System, j: nat) returns (fs: seq<Event>)
    requires RegistryInv(s) && j < |s.devices| && s.devices[j].up == UpRunning && CanLeave(s, j)
    ensures forall eui :: LeavesAlone(fs, eui)
    ensures var t := ExecFrom(s, fs);
            && |t.devices| == |s.devices| && s.devices[j].eui !in t.registry
            && forall i | 0 <= i < |s.devices| && i != j :: t.devices[i] == s.devices[i]
  {
    assert HasSim(s, s.devices[j]);
    if ContextDone(s, s.devices[j]) {
      fs := [Unregister(j)];
      assert fs[..0] == [] && ExecFrom(s, fs) == Step(s, Unregister(j));
    } else {
      fs := [StopRequest, Unregister(j)];
      assert fs[..1] == [StopRequest] && fs[..1][..0] == [];
      assert ExecFrom(s, fs[..1]) == Step(s, StopRequest);
      assert ContextDone(Step(s, StopRequest), s.devices[j]);
    }
  }

  /**
   The run in which that happens: the first run is stopped while its second payload is still to fail, so the status
   becomes error with a device running; the next run has a device of the same EUI.
   */
  lemma StaleLoopUnregisters() returns (es: seq<Event>)
    ensures var s := Exec(es);
            && UniqueInRuns(s.devices) && |s.runs| == 2 && |s.devices| == 2 && Live(s.runs[1].manager) && !s.runs[1].cancelled
            && s.devices[1].run == 1 && s.devices[1].up == UpRunning && !Found(s, 1)
  {
    es := StoppedThenFailed();
    ExecOne(es, StartRequest([true]));
    es := es + [StartRequest([true])];
    es := Restarted(es);
    ExecOne(es, Unregister(0));
    es := es + [Unregister(0)];
  }

  lemma StoppedThenFailed() returns (es: seq<Event>)
    ensures var s := Exec(es);
            && s.status == StatusError && |s.runs| == 1 && s.runs[0].cancelled && |s.runs[0].sims| == 1
            && s.devices == [Device(0, 0, 7, UpRunning, false)]
  {
    es := LaunchUpTo([true, false], 1);
    ExecOne(es, LaunchNext(0));
    es := es + [LaunchNext(0)];
    ExecOne(es, StopRequest);
    es := es + [StopRequest];
    ExecOne(es, ManagerFails(0));
    es := es + [ManagerFails(0)];
  }

  /** A second run of one device. */
  lemma Restarted(before: seq<Event>) returns (es: seq<Event>)
    requires var s := Exec(before);
             && |s.runs| == 2 && s.runs[1] == Run(false, Begun, [true], [], 0) && s.devices == [Device(0, 0, 7, UpRunning, false)]
    ensures var s := Exec(es);
            && |s.runs| == 2 && Live(s.runs[1].manager) && !s.runs[1].cancelled && s.runs[0] == Exec(before).runs[0]
            && s.devices == [Device(0, 0, 7, UpRunning, false), Device(1, 0, 7, UpRunning, false)] && s.registry[7 := 1] == s.registry
  {
    es := before;
    ExecOne(es, ManagerRuns(1));
    es := es + [ManagerRuns(1)];
    ExecOne(es, LaunchNext(1));
    es := es + [LaunchNext(1)];
    ExecOne(es, CreateDevice(1, 0, 7));
    es := es + [CreateDevice(1, 0, 7)];
  }

  /** Device i is under no EUI. */
  predicate Forgotten(s: System, i: nat) {
    i < |s.devices| && i !in s.registry.Values
  }

  lemma ForgottenStep(s: System, e: Event, i: nat)
    requires Forgotten(s, i)
    ensures Forgotten(Step(s, e), i)
  {
    var t := Step(s, e);
    forall x | x in t.registry ensures t.registry[x] != i {
      assert e.CreateDevice? || x in s.registry;
    }
  }

  /** A device made before an accepted start is never found again, whatever follows. */
  lemma {:induction false} NeverFoundAgain(s: System, payloadOk: seq<bool>, fs: seq<Event>, i: nat)
    requires s.status == StatusIdle || s.status == StatusError
    requires i < |s.devices|
    ensures var t := ExecFrom(Step(s, StartRequest(payloadOk)), fs);
            i < |t.devices| && !Found(t, i) && forall x | x in t.registry :: t.registry[x] != i
  {
    var u := Step(s, StartRequest(payloadOk));
    if fs != [] {
      NeverFoundAgain(s, payloadOk, fs[..|fs| - 1], i);
      ForgottenStep(ExecFrom(u, fs[..|fs| - 1]), fs[|fs| - 1], i);
    }
  }

  // ----- the objects -----

  class DeviceRegistry {
    var devices: map<Eui, nat>

    constructor ()
      ensures devices == map[]
    {
      devices := map[];
    }

    method Register(eui: Eui, device: nat)
      modifies this
      ensures devices == old(devices)[eui := device]
    {
      devices := devices[eui := device];
    }

    method Unregister(eui: Eui)
      modifies this
      ensures devices == old(devices) - {eui}
    {
      devices := devices - {eui};
    }

    method Clear()
      modifies this
      ensures devices == map[]
    {
      devices := map[];
    }

    method GetDevice(eui: Eui) returns (device: Option<nat>)
      ensures device.Some? <==> eui in devices
      ensures forall d :: device == Some(d) ==> eui in devices && devices[eui] == d
    {
      device := if eui in devices then Some(devices[eui]) else None;
    }
  }

  /** The lock sections of the handlers and of the manager goroutine; `contexts[r]` is set when run r's context is cancelled. */
  class SimState {
    var status: Status
    var contexts: seq<bool>
    const registry: DeviceRegistry
    ghost var system: System

    ghost predicate Valid()
      reads this, registry
    {
      && Inv(system)
      && status == system.status
      && registry.devices == system.registry
      && |contexts| == |system.runs|
      && (forall r | 0 <= r < |contexts| :: contexts[r] == system.runs[r].cancelled)
      && (status == StatusRunning || status == StatusStarting ==> contexts != [])
    }

    constructor ()
      ensures Valid() && system == INITIAL && fresh(registry)
    {
      status, contexts, system := StatusIdle, [], INITIAL;
      registry := new DeviceRegistry();
    }

    /** Refused, and nothing changes, unless the status is idle or error. */
    method HandleStart(payloadOk: seq<bool>) returns (accepted: bool)
      requires Valid()
      modifies this, registry
      ensures Valid() && system == Step(old(system), StartRequest(payloadOk))
      ensures accepted == (old(status) == StatusIdle || old(status) == StatusError)
      ensures if accepted then status == StatusStarting && registry.devices == map[]
              else system == old(system) && status == old(status) && registry.devices == old(registry.devices)
    {
      if status != StatusIdle && status != StatusError {
        return false;
      }
      InvStep(system, StartRequest(payloadOk));
      status := StatusStarting;
      registry.Clear();
      contexts := contexts + [false];
      system := Step(system, StartRequest(payloadOk));
      accepted := true;
    }

    /** Cancels the context of the latest run. */
    method HandleStop() returns (accepted: bool)
      requires Valid()
      modifies this
      ensures Valid() && system == Step(old(system), StopRequest)
      ensures accepted == (old(status) == StatusRunning || old(status) == StatusStarting)
      ensures if accepted then status == StatusStopping && contexts[|contexts| - 1]
              else system == old(system) && status == old(status) && contexts == old(contexts)
    {
      if status != StatusRunning && status != StatusStarting {
        return false;
      }
      InvStep(system, StopRequest);
      status := StatusStopping;
      contexts := contexts[|contexts| - 1 := true];
      system := Step(system, StopRequest);
      accepted := true;
    }

    /** The manager's first write: it does not look at the status, so a stop may be overwritten by running. */
    method ManagerRunning(ghost r: nat)
      requires Valid() && Enabled(system, ManagerRuns(r))
      modifies this
      ensures Valid() && system == Step(old(system), ManagerRuns(r))
    {
      InvStep(system, ManagerRuns(r));
      status := StatusRunning;
      system := Step(system, ManagerRuns(r));
    }

    method ManagerFailed(ghost r: nat)
      requires Valid() && Enabled(system, ManagerFails(r))
      modifies this
      ensures Valid() && system == Step(old(system), ManagerFails(r))
    {
      InvStep(system, ManagerFails(r));
      status := StatusError;
      system := Step(system, ManagerFails(r));
    }

    method ManagerFinished(ghost r: nat)
      requires Valid() && Enabled(system, ManagerFinishes(r))
      modifies this
      ensures Valid() && system == Step(old(system), ManagerFinishes(r))
    {
      InvStep(system, ManagerFinishes(r));
      status := StatusIdle;
      system := Step(system, ManagerFinishes(r));
    }

    /** NewDevice: the new object is registered under its EUI, in place of any other. */
    method CreateDevice(ghost r: nat, ghost k: nat, eui: Eui, device: nat)
      requires Valid() && Enabled(system, Event.CreateDevice(r, k, eui)) && device == |system.devices|
      modifies this`system, registry
      ensures Valid() && system == Step(old(system), Event.CreateDevice(r, k, eui))
    {
      InvStep(system, Event.CreateDevice(r, k, eui));
      registry.Register(eui, device);
      system := Step(system, Event.CreateDevice(r, k, eui));
    }

    /** The uplink loop of device d leaves: whatever is registered under its EUI is removed. */
    method LeaveRegistry(ghost d: nat, eui: Eui)
      requires Valid() && Enabled(system, Unregister(d)) && system.devices[d].eui == eui
      modifies this`system, registry
      ensures Valid() && system == Step(old(system), Unregister(d))
    {
      InvStep(system, Unregister(d));
      registry.Unregister(eui);
      system := Step(system, Unregister(d));
    }

    /**
     A lookup only ever yields a device of that EUI whose uplink loop has not unregistered it; where LookupIffRunning
     applies, it finds a device of the latest run exactly then.
     */
    method GetDevice(eui: Eui) returns (device: Option<nat>)
      requires Valid()
      ensures device.Some? ==> device.value < |system.devices|
                               && system.devices[device.value].eui == eui && system.devices[device.value].up == UpRunning
      ensures forall i | 0 <= i < |system.devices| && system.devices[i].eui == eui :: device == Some(i) <==> Found(system, i)
    {
      device := registry.GetDevice(eui);
    }
  }
}
