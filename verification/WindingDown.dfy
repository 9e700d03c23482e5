/**
 A run that was stopped can always be brought to its end: from every state of the machine, the goroutines that are there
 can finish one after the other, and the status becomes idle, or error when a payload does not decode.
 */
module WindingDown {
  import opened Prelude
  import opened Lifecycle

  /** The latest run has a live manager and is cancelled. */
  predicate Winding(s: System) {
    s.runs != [] && Live(s.runs[|s.runs| - 1].manager) && s.runs[|s.runs| - 1].cancelled
  }

  /** Nobody asks for anything: no request, no new device, no gateway error, nothing expires. */
  predicate Finishing(e: Event) {
    || e.ManagerRuns? || e.LaunchNext? || e.ManagerFails? || e.ManagerFinishes?
    || e.AllCreated? || e.InnerWaitReturns? || e.SimDone? || e.Unregister? || e.UplinkDone? || e.DownlinkDone?
  }

  ghost predicate OnlyFinishing(es: seq<Event>) {
    forall i | 0 <= i < |es| :: Finishing(es[i])
  }

  // ----- what is left to do -----

  function ManagerRank(run: Run): nat {
    match run.manager
    case Begun => |run.payloadOk| + 3
    case Launching(i) => if i <= |run.payloadOk| then |run.payloadOk| - i + 2 else 2
    case Failing => 1
    case Waiting => 1
    case Gone(_) => 0
  }

  function PcRank(pc: SimPc): nat {
    match pc
    case Creating => 3
    case InnerWait => 2
    case Returned => 1
    case Finished => 0
  }

  function SimRank(sims: seq<Sim>): nat {
    if sims == [] then 0 else SimRank(sims[..|sims| - 1]) + PcRank(sims[|sims| - 1].pc)
  }

  function LoopRank(d: Device): nat {
    (if d.up == UpRunning then 2 else if d.up == UpUnregistered then 1 else 0) + if d.downDone then 0 else 1
  }

  function DeviceRank(devices: seq<Device>, r: nat): nat {
    if devices == [] then 0
    else
      var d := devices[|devices| - 1];
      DeviceRank(devices[..|devices| - 1], r) + if d.run == r then LoopRank(d) else 0
  }

  lemma {:induction false} SimRankUpdate(sims: seq<Sim>, k: nat, sim: Sim)
    requires k < |sims|
    ensures SimRank(sims[k := sim]) == SimRank(sims) - PcRank(sims[k].pc) + PcRank(sim.pc)
  {
    var n := |sims| - 1;
    if k < n {
      assert sims[k := sim][..n] == sims[..n][k := sim];
      SimRankUpdate(sims[..n], k, sim);
    } else {
      assert sims[k := sim][..n] == sims[..n];
    }
  }

  lemma {:induction false} DeviceRankUpdate(devices: seq<Device>, i: nat, d: Device, r: nat)
    requires i < |devices| && d.run == devices[i].run == r
    ensures DeviceRank(devices[i := d], r) == DeviceRank(devices, r) - LoopRank(devices[i]) + LoopRank(d)
  {
    var n := |devices| - 1;
    if i < n {
      assert devices[i := d][..n] == devices[..n][i := d];
      DeviceRankUpdate(devices[..n], i, d, r);
    } else {
      assert devices[i := d][..n] == devices[..n];
    }
  }

  lemma {:induction false} NoLoopsOfRun(devices: seq<Device>, r: nat, k: nat)
    requires forall i | 0 <= i < |devices| && devices[i].run == r :: LoopRank(devices[i]) == 0
    ensures LoopsLeft(devices, r, k) == 0
  {
    if devices != [] {
      NoLoopsOfRun(devices[..|devices| - 1], r, k);
    }
  }

  lemma {:induction false} AllFinished(sims: seq<Sim>)
    requires forall k | 0 <= k < |sims| :: sims[k].pc == Finished
    ensures SimsLeft(sims) == 0
  {
    if sims != [] {
      AllFinished(sims[..|sims| - 1]);
    }
  }

  // ----- one step -----

  /** The step is taken, belongs to the end of the latest run, and leaves less to do. */
  ghost predicate Progress(s: System, e: Event)
    requires Winding(s)
  {
    var last, t := |s.runs| - 1, Step(s, e);
    && Finishing(e) && Enabled(s, e) && |t.runs| == |s.runs| && t.runs[last].cancelled
    && t.runs[last].payloadOk == s.runs[last].payloadOk
    && var m, n := ManagerRank(t.runs[last]), ManagerRank(s.runs[last]);
       m < n || (m == n && (var x, y := SimRank(t.runs[last].sims), SimRank(s.runs[last].sims);
                            x < y || (x == y && DeviceRank(t.devices, last) < DeviceRank(s.devices, last))))
  }

  lemma ManagerProgress(s: System) returns (e: Event)
    requires Winding(s) && s.runs[|s.runs| - 1].manager != Waiting
    ensures Progress(s, e)
  {
    var last := |s.runs| - 1;
    match s.runs[last].manager
    case Begun => e := ManagerRuns(last);
    case Launching(_) => e := LaunchNext(last);
    case Failing => e := ManagerFails(last);
  }

  /** A simulator whose next step is enabled. */
  lemma SimProgress(s: System, k: nat, e: Event)
    requires Winding(s) && s.runs[|s.runs| - 1].manager == Waiting && k < |s.runs[|s.runs| - 1].sims|
    requires var last := |s.runs| - 1; e == AllCreated(last, k) || e == InnerWaitReturns(last, k) || e == SimDone(last, k)
    requires Enabled(s, e)
    ensures Progress(s, e)
  {
    var last := |s.runs| - 1;
    var sims := s.runs[last].sims;
    SimRankUpdate(sims, k, Step(s, e).runs[last].sims[k]);
    assert Step(s, e).runs[last].sims == sims[k := Step(s, e).runs[last].sims[k]];
  }

  lemma DeviceProgress(s: System, i: nat) returns (e: Event)
    requires Winding(s) && s.runs[|s.runs| - 1].manager == Waiting
    requires i < |s.devices| && s.devices[i].run == |s.runs| - 1 && HasSim(s, s.devices[i]) && LoopRank(s.devices[i]) > 0
    ensures Progress(s, e)
  {
    var d := s.devices[i];
    e := if d.up == UpRunning then Unregister(i) else if d.up == UpUnregistered then UplinkDone(i) else DownlinkDone(i);
    LeavingDevices(s, e);
    DeviceRankUpdate(s.devices, i, AfterLeaving(d, e), d.run);
    LeavingRun(s, e);
  }

  /** A loop that leaves moves no manager and no simulator. */
  lemma LeavingRun(s: System, e: Event)
    requires (e.Unregister? || e.UplinkDone? || e.DownlinkDone?) && Enabled(s, e) && HasSim(s, s.devices[e.d])
    ensures var r := s.devices[e.d].run;
            var run, after := s.runs[r], Step(s, e).runs[r];
            && |Step(s, e).runs| == |s.runs| && after.manager == run.manager && after.cancelled == run.cancelled
            && after.payloadOk == run.payloadOk && SimRank(after.sims) == SimRank(run.sims)
  {
    var d := s.devices[e.d];
    var sim := s.runs[d.run].sims[d.sim];
    SimRankUpdate(s.runs[d.run].sims, d.sim, sim.(inner := sim.inner - 1));
  }

  ghost predicate NoneCreating(sims: seq<Sim>) {
    forall k | 0 <= k < |sims| :: sims[k].pc != Creating
  }

  /** When all loops of the run are done, its simulators and then its manager can finish. */
  lemma RestProgress(s: System) returns (e: Event)
    requires Inv(s) && Winding(s) && s.runs[|s.runs| - 1].manager == Waiting
    requires forall i | 0 <= i < |s.devices| && s.devices[i].run == |s.runs| - 1 :: LoopRank(s.devices[i]) == 0
    requires NoneCreating(s.runs[|s.runs| - 1].sims)
    ensures Progress(s, e)
  {
    var last := |s.runs| - 1;
    var run := s.runs[last];
    if k :| 0 <= k < |run.sims| && run.sims[k].pc != Finished {
      NoLoopsOfRun(s.devices, last, k);
      assert SimCounts(s, last, k);
      e := if run.sims[k].pc == InnerWait then InnerWaitReturns(last, k) else SimDone(last, k);
      SimProgress(s, k, e);
    } else {
      AllFinished(run.sims);
      assert RunCounts(run);
      e := ManagerFinishes(last);
    }
  }

  lemma SomeProgress(s: System) returns (e: Event)
    requires Inv(s) && Winding(s)
    ensures Progress(s, e)
  {
    var last := |s.runs| - 1;
    if s.runs[last].manager != Waiting {
      e := ManagerProgress(s);
    } else if k :| 0 <= k < |s.runs[last].sims| && s.runs[last].sims[k].pc == Creating {
      e := AllCreated(last, k);
      SimProgress(s, k, e);
    } else if i :| 0 <= i < |s.devices| && s.devices[i].run == last && LoopRank(s.devices[i]) > 0 {
      assert HasSim(s, s.devices[i]);
      e := DeviceProgress(s, i);
    } else {
      e := RestProgress(s);
    }
  }

  // ----- all the steps -----

  lemma {:induction false} ExecFront(s: System, e: Event, fs: seq<Event>)
    ensures ExecFrom(s, [e] + fs) == ExecFrom(Step(s, e), fs)
  {
    if fs == [] {
      assert [e] + fs == [e] && [e][..0] == [];
      assert ExecFrom(s, [e]) == Step(s, e);
    } else {
      var front, last := fs[..|fs| - 1], fs[|fs| - 1];
      ExecFront(s, e, front);
      Unfold(s, [e] + front, last);
      Unfold(Step(s, e), front, last);
      assert [e] + fs == [e] + front + [last] && fs == front + [last];
    }
  }

  lemma Unfold(s: System, es: seq<Event>, e: Event)
    ensures ExecFrom(s, es + [e]) == Step(ExecFrom(s, es), e)
  {
    assert (es + [e])[..|es|] == es;
  }

  /** From s to t the latest run, and no other, came to its end. */
  ghost predicate Home(s: System, t: System)
    requires s.runs != []
  {
    var last := |s.runs| - 1;
    |t.runs| == |s.runs| && t.runs[last].manager.Gone? && t.runs[last].payloadOk == s.runs[last].payloadOk
  }

  lemma WindStep(s: System) returns (e: Event)
    requires Inv(s) && Winding(s)
    ensures Progress(s, e) && Inv(Step(s, e))
    ensures Winding(Step(s, e)) || Home(s, Step(s, e))
  {
    e := SomeProgress(s);
    InvStep(s, e);
  }

  lemma WindMore(s: System, e: Event, fs: seq<Event>)
    requires Winding(s) && Progress(s, e) && OnlyFinishing(fs) && Home(Step(s, e), ExecFrom(Step(s, e), fs))
    ensures OnlyFinishing([e] + fs) && Home(s, ExecFrom(s, [e] + fs))
  {
    ExecFront(s, e, fs);
  }

  lemma {:induction false} WindDown(s: System) returns (fs: seq<Event>)
    requires Inv(s) && Winding(s)
    ensures OnlyFinishing(fs) && Home(s, ExecFrom(s, fs))
    decreases ManagerRank(s.runs[|s.runs| - 1]), SimRank(s.runs[|s.runs| - 1].sims), DeviceRank(s.devices, |s.runs| - 1)
  {
    var e := WindStep(s);
    var t := Step(s, e);
    if Winding(t) {
      fs := WindDown(t);
    } else {
      fs := [];
    }
    WindMore(s, e, fs);
    fs := [e] + fs;
  }

  /**
   After a stop, whenever it comes and whatever happened before, the goroutines can finish with no further request, and
   then the status is idle if every payload decodes and error if one does not.
   */
  lemma StopLeadsHome(es: seq<Event>) returns (fs: seq<Event>)
    requires Exec(es).status == StatusStopping
    ensures OnlyFinishing(fs) && Exec(es).runs != []
    ensures var payloadOk := Exec(es).runs[|Exec(es).runs| - 1].payloadOk;
            Exec(es + fs).status == if forall i | 0 <= i < |payloadOk| :: payloadOk[i] then StatusIdle else StatusError
  {
    OneManagerExec(es);
    InvExec(es);
    fs := WindDown(Exec(es));
    ExecSplit(es, fs);
    HomeMeans(es + fs);
  }

  /** A latest run at its end left the status idle if its payloads decode, and error if not. */
  lemma HomeMeans(es: seq<Event>)
    requires var runs := Exec(es).runs; runs != [] && runs[|runs| - 1].manager.Gone?
    ensures var payloadOk := Exec(es).runs[|Exec(es).runs| - 1].payloadOk;
            Exec(es).status == if forall i | 0 <= i < |payloadOk| :: payloadOk[i] then StatusIdle else StatusError
  {
    OneManagerExec(es);
    LaunchesExec(es);
    assert Launches(Exec(es).runs[|Exec(es).runs| - 1]);
  }
}
