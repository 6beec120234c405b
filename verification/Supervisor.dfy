/** The supervisor itself: lanes, stop flag and observed events are updated in place,
    and every operation is the decision of the same name on their values. */
module Supervisor {
  import opened Wrappers
  import opened Supervision
  import opened Verdicts
  import opened HonestVerdicts

  class Supervisor {
    const config: Config
    var runs: seq<LaneRun>
    var stop: bool
    var observed: seq<Event>

    function Value(): Batch
      reads this
    {
      Batch(runs, stop, observed)
    }

    constructor (config: Config, stop: bool, observed: seq<Event>)
      ensures this.config == config && Value() == Batch([], stop, observed)
    {
      this.config, this.runs, this.stop, this.observed := config, [], stop, observed;
    }

    method SetRun(i: nat, r: LaneRun)
      requires i < |runs|
      modifies this`runs
      ensures runs == old(runs)[i := r]
    {
      runs := runs[i := r];
    }

    method Fail(i: nat, fault: Fault)
      requires i < |runs|
      modifies this
      ensures Value() == Supervision.Fail(config, old(Value()), i, fault)
    {
      SetRun(i, runs[i].(verdict := Some(Failed(fault))));
      if config.stopOnFirstFailure {
        stop := true;
      }
    }

    method ThermalFailed(safe: bool, heat: Fault) returns (hot: bool)
      modifies this
      ensures (Value(), hot) == Supervision.ThermalFailed(config, old(Value()), safe, heat)
    {
      if safe {
        return false;
      }
      var first: Option<nat> := None;
      for i := 0 to |runs|
        invariant first == FirstUndecided(runs, i)
      {
        if runs[i].verdict.None? && (first.None? || runs[i].lane.coreId < runs[first.value].lane.coreId) {
          first := Some(i);
        }
      }
      if first.Some? {
        Fail(first.value, heat);
      }
      stop := true;
      return true;
    }

    /** The lane each CPU reports for; a later lane takes a shared CPU over. */
    method CpuToRun() returns (owners: map<int, nat>)
      ensures forall cpu :: cpu in owners <==> Owner(runs, cpu, |runs|).Some?
      ensures forall cpu :: cpu in owners ==> Owner(runs, cpu, |runs|) == Some(owners[cpu])
      ensures forall cpu, i :: cpu in owners && owners[cpu] < i < |runs| ==> !AnswersFor(runs[i].lane, cpu)
      ensures forall cpu, i :: 0 <= i < |runs| && AnswersFor(runs[i].lane, cpu) ==> cpu in owners
      ensures forall cpu :: cpu in owners ==> owners[cpu] < |runs| && AnswersFor(runs[owners[cpu]].lane, cpu)
    {
      forall cpu: int
        ensures Owner(runs, cpu, |runs|).None? ==> forall j :: 0 <= j < |runs| ==> !AnswersFor(runs[j].lane, cpu)
        ensures Owner(runs, cpu, |runs|).Some? ==>
          forall j :: Owner(runs, cpu, |runs|).value < j < |runs| ==> !AnswersFor(runs[j].lane, cpu)
      {
        OwnerIsLast(runs, cpu, |runs|);
      }
      owners := map[];
      for i := 0 to |runs|
        invariant forall cpu :: cpu in owners <==> Owner(runs, cpu, i).Some?
        invariant forall cpu :: cpu in owners ==> Owner(runs, cpu, i) == Some(owners[cpu])
      {
        var cpus := MceCpus(runs[i].lane);
        for j := 0 to |cpus|
          invariant forall cpu :: cpu in owners <==> cpu in cpus[..j] || Owner(runs, cpu, i).Some?
          invariant forall cpu :: cpu in owners ==>
            Some(owners[cpu]) == if cpu in cpus[..j] then Some(i) else Owner(runs, cpu, i)
        {
          owners := owners[cpus[j] := i];
          assert cpus[..j + 1] == cpus[..j] + [cpus[j]];
        }
        assert cpus[..|cpus|] == cpus;
      }
    }

    method FirstOpen() returns (first: Option<nat>)
      ensures first == Supervision.FirstOpen(runs, |runs|)
    {
      first := None;
      for i := 0 to |runs|
        invariant first == Supervision.FirstOpen(runs, i)
      {
        if Open(runs[i]) && (first.None? || runs[i].lane.coreId < runs[first.value].lane.coreId) {
          first := Some(i);
        }
      }
    }

    /** One event against the lane it is charged to, if it can be charged. */
    method ApplyEvent(e: Event, target: Option<nat>, force: bool) returns (hit: bool)
      requires target == Target(Value(), e)
      modifies this
      ensures Value() == Supervision.ApplyEvent(config, old(Value()), e, force)
      ensures hit == Charges(old(Value()), e, force)
    {
      if target.None? {
        return false;
      }
      var r := runs[target.value];
      if Open(r) || (force && e.cpu != -1 && Overridable(r.verdict.value.fault.kind)) {
        Fail(target.value, Fault("MCE: " + e.message, if e.cpu == -1 then MceUnattributed else Mce));
        if e.cpu == -1 {
          stop := true;
        }
        return true;
      }
      return false;
    }

    /** No lane keeps an open verdict when the log cannot be read. */
    method FailAllOpen(unreadable: Fault)
      modifies this
      ensures Value() == FailOpen(config, old(Value()), unreadable, 0)
    {
      for i := 0 to |runs|
        invariant |runs| == |old(runs)|
        invariant FailOpen(config, old(Value()), unreadable, 0) == FailOpen(config, Value(), unreadable, i)
      {
        if Open(runs[i]) {
          Fail(i, unreadable);
        }
      }
    }

    /** The lane an event goes to, by a map of the CPUs made before any event was applied. */
    method FindTarget(owners: map<int, nat>, e: Event, ghost before: seq<LaneRun>) returns (target: Option<nat>)
      requires SameLanes(before, runs)
      requires e.cpu in owners <==> Owner(before, e.cpu, |before|).Some?
      requires e.cpu in owners ==> Owner(before, e.cpu, |before|) == Some(owners[e.cpu])
      ensures target == Target(Value(), e)
    {
      OwnerByLane(before, runs, e.cpu, |runs|);
      if e.cpu == -1 {
        target := FirstOpen();
      } else if e.cpu in owners {
        target := Some(owners[e.cpu]);
      } else {
        target := None;
      }
    }

    method ChargeEvents(events: seq<Event>, force: bool) returns (hit: bool)
      modifies this
      ensures (Value(), hit) == ApplyAll(config, old(Value()), events, force)
    {
      var owners := CpuToRun();
      ghost var seen := Value();
      ghost var whole := ApplyAll(config, seen, events, force);
      assert events[0..] == events;
      hit := false;
      for k := 0 to |events|
        invariant Keeps(seen, Value())
        invariant whole.0 == ApplyAll(config, Value(), events[k..], force).0
        invariant whole.1 == (hit || ApplyAll(config, Value(), events[k..], force).1)
      {
        var e := events[k];
        ghost var now := Value();
        ApplyAllStep(config, now, events, force, k);
        var target := FindTarget(owners, e, seen.runs);
        ApplyEventKeeps(config, now, e, force);
        var charged := ApplyEvent(e, target, force);
        KeepsTrans(seen, now, Value());
        hit := hit || charged;
      }
    }

    method ApplyMceEvents(events: Option<seq<Event>>, unreadable: Fault, force: bool) returns (hit: bool)
      modifies this
      ensures (Value(), hit) == Supervision.ApplyMceEvents(config, old(Value()), events, unreadable, force)
    {
      if events.None? {
        FailAllOpen(unreadable);
        stop := true;
        return true;
      }
      observed := observed + events.value;
      hit := ChargeEvents(events.value, force);
    }

    method PollBackendErrors(t: Tick) returns (complained: bool)
      modifies this
      ensures (Value(), complained) == Supervision.PollBackendErrors(config, old(Value()), t, 0)
    {
      for i := 0 to |runs|
        invariant Value() == old(Value())
        invariant Supervision.PollBackendErrors(config, Value(), t, 0) ==
          Supervision.PollBackendErrors(config, Value(), t, i)
      {
        if runs[i].verdict.None? && t.lanes(i).complaint.Some? {
          Fail(i, t.lanes(i).complaint.value);
          return config.stopOnFirstFailure;
        }
      }
      return false;
    }

    method TerminateRun(i: nat, e: Ending)
      requires i < |runs|
      modifies this
      ensures Value() == Terminate(config, old(Value()), i, e)
    {
      var r := runs[i];
      if !r.launched || r.terminated {
        return;
      }
      if e.stopFault.Some? {
        Fail(i, e.stopFault.value);
        return;
      }
      SetRun(i, r.(returncode := if r.returncode.Some? then r.returncode else Some(e.code),
                   terminated := true, sentSignals := e.signals, stoppedRunning := r.returncode.None? && e.running));
    }

    method Drain(i: nat, e: Ending)
      requires i < |runs|
      modifies this
      ensures Value() == Supervision.Drain(config, old(Value()), i, e)
    {
      if e.drainFault.Some? && Open(runs[i]) {
        Fail(i, e.drainFault.value);
      }
    }

    method CloseExited(t: Tick, i: nat, elapsed: real)
      requires i < |runs|
      modifies this
      ensures Value() == Supervision.CloseExited(config, old(Value()), t, i, elapsed)
    {
      var tick := t.lanes(i);
      var code := if runs[i].returncode.Some? then runs[i].returncode else tick.exited;
      SetRun(i, runs[i].(returncode := code));
      TerminateRun(i, tick.ending);
      Drain(i, tick.ending);
      if runs[i].verdict.None? {
        SetRun(i, runs[i].(verdict := ClassifyCompleted(runs[i], tick.payload, elapsed, false)));
      }
    }

    method PollExits(t: Tick, elapsed: real) returns (failed: bool)
      modifies this
      ensures (Value(), failed) == Supervision.PollExits(config, old(Value()), t, 0, elapsed)
    {
      for i := 0 to |runs|
        invariant |runs| == |old(runs)|
        invariant Supervision.PollExits(config, old(Value()), t, 0, elapsed) ==
          Supervision.PollExits(config, Value(), t, i, elapsed)
      {
        if HasExited(runs[i], t.lanes(i)) {
          CloseExited(t, i, elapsed);
          if runs[i].verdict.Some? && runs[i].verdict.value.Failed? {
            return config.stopOnFirstFailure;
          }
        }
      }
      return false;
    }

    method PollContainment(t: Tick) returns (breached: bool)
      modifies this
      ensures (Value(), breached) == Supervision.PollContainment(config, old(Value()), t, 0)
    {
      for i := 0 to |runs|
        invariant Value() == old(Value())
        invariant Supervision.PollContainment(config, Value(), t, 0) ==
          Supervision.PollContainment(config, Value(), t, i)
      {
        if Running(runs[i]) && t.lanes(i).breach.Some? {
          Fail(i, t.lanes(i).breach.value);
          return true;
        }
      }
      return false;
    }

    method PollStalls(t: Tick) returns (stalledOut: bool)
      modifies this
      ensures (Value(), stalledOut) == Supervision.PollStalls(config, old(Value()), t, 0)
    {
      for i := 0 to |runs|
        invariant Value() == old(Value())
        invariant Supervision.PollStalls(config, Value(), t, 0) == Supervision.PollStalls(config, Value(), t, i)
      {
        if Running(runs[i]) && t.lanes(i).stalled.Some? {
          Fail(i, t.lanes(i).stalled.value);
          return config.stopOnFirstFailure;
        }
      }
      return false;
    }

    /** The second half of a poll, for a batch none of whose exits ended it. */
    method PollRunning(t: Tick, start: real, duration: real) returns (why: Option<Break>)
      modifies this
      ensures (Value(), why) == Supervision.PollRunning(config, old(Value()), t, start, duration)
    {
      if !AnyRunning(runs) {
        return Some(AllEnded);
      }
      var breached := PollContainment(t);
      if breached {
        return Some(Breached);
      }
      if t.now - start >= STALL_GRACE {
        var stalledOut := PollStalls(t);
        if stalledOut {
          return Some(StalledOut);
        }
      }
      return if t.now >= start + duration then Some(Deadline) else None;
    }

    method Poll(t: Tick, start: real, duration: real, errorsDue: bool) returns (why: Option<Break>)
      modifies this
      ensures (Value(), why) == Supervision.Poll(config, old(Value()), t, start, duration, errorsDue)
    {
      if stop || t.stopRequested {
        stop := true;
        return Some(Stopped);
      }
      var hot := ThermalFailed(t.safe, t.heat);
      if hot {
        return Some(Overheated);
      }
      var hit := ApplyMceEvents(t.events, t.unreadable, false);
      if hit {
        return Some(Blamed);
      }
      if errorsDue {
        var complained := PollBackendErrors(t);
        if complained {
          return Some(Complained);
        }
      }
      var exitFailed := PollExits(t, t.now - start);
      if exitFailed {
        return Some(FailedExit);
      }
      why := PollRunning(t, start, duration);
    }

    method PollUntilDone(ticks: seq<Tick>, start: real, duration: real) returns (why: Break)
      modifies this
      ensures (Value(), why) ==
        Supervision.PollUntilDone(config, old(Value()), ticks, start, duration, start - ERROR_POLL_INTERVAL)
    {
      ghost var whole := Supervision.PollUntilDone(config, Value(), ticks, start, duration,
        start - ERROR_POLL_INTERVAL);
      var lastErrorPoll := start - ERROR_POLL_INTERVAL;
      for k := 0 to |ticks|
        invariant whole == Supervision.PollUntilDone(config, Value(), ticks[k..], start, duration, lastErrorPoll)
      {
        var t := ticks[k];
        assert ticks[k..][0] == t && ticks[k..][1..] == ticks[k + 1..];
        var due := t.now - lastErrorPoll >= ERROR_POLL_INTERVAL;
        var end := Poll(t, start, duration, due);
        if end.Some? {
          return end.value;
        }
        if due {
          lastErrorPoll := t.now;
        }
      }
      return OutOfTicks;
    }

    method TerminateAll(closing: Closing)
      modifies this
      ensures Value() == Supervision.TerminateAll(config, old(Value()), closing, 0)
    {
      for i := 0 to |runs|
        invariant |runs| == |old(runs)|
        invariant Supervision.TerminateAll(config, old(Value()), closing, 0) ==
          Supervision.TerminateAll(config, Value(), closing, i)
      {
        TerminateRun(i, closing.endings(i));
        if runs[i].launched {
          Drain(i, closing.endings(i));
        }
      }
    }

    method ClassifyOpen(closing: Closing, elapsed: real, interrupted: bool)
      modifies this`runs
      ensures runs == ClassifyAll(old(runs), closing, elapsed, interrupted, 0)
    {
      for i := 0 to |runs|
        invariant |runs| == |old(runs)|
        invariant ClassifyAll(old(runs), closing, elapsed, interrupted, 0) ==
          ClassifyAll(runs, closing, elapsed, interrupted, i)
      {
        var r := runs[i];
        if r.launched && Open(r) {
          var runtime := if r.verdict.Some? then r.verdict.value.seconds else elapsed;
          SetRun(i, r.(verdict := ClassifyCompleted(r, closing.payloads(i), runtime, interrupted && r.verdict.None?)));
        } else {
          SetRun(i, r);
        }
      }
    }

    method Finish(closing: Closing, start: real, duration: real)
      modifies this
      ensures Value() == Supervision.Finish(config, old(Value()), closing, start, duration)
    {
      stop := stop || closing.stopRequested;
      var elapsed := closing.now - start;
      var interrupted := stop && elapsed < duration;
      TerminateAll(closing);
      var _ := ApplyMceEvents(closing.events, closing.unreadable, true);
      ClassifyOpen(closing, elapsed, interrupted);
    }

    method LaunchAll(plans: nat -> Plan)
      modifies this
      ensures Value() == Supervision.LaunchAll(config, old(Value()), plans, 0)
    {
      for i := 0 to |runs|
        invariant |runs| == |old(runs)|
        invariant Supervision.LaunchAll(config, old(Value()), plans, 0) ==
          Supervision.LaunchAll(config, Value(), plans, i)
      {
        match plans(i) {
          case Refused(fault) =>
            Fail(i, fault);
            return;
          case Start(stopRequested) =>
            stop := stop || stopRequested;
            if stop {
              return;
            }
            SetRun(i, runs[i].(launched := true));
        }
      }
    }

    /** One batch, from fresh lanes to verdicts. */
    method Run(lanes: seq<Lane>, script: Script) returns (why: Break)
      modifies this
      ensures Value() == RunBatch(config, lanes, old(stop), old(observed), script).batch
      ensures why == RunBatch(config, lanes, old(stop), old(observed), script).why
      ensures old(observed) <= observed && Honest(lanes, Value(), |old(observed)|)
    {
      RunIsHonest(config, lanes, stop, observed, script);
      runs := FreshRuns(lanes);
      var hot := ThermalFailed(script.safeAtStart, script.heat);
      if hot {
        return Overheated;
      }
      LaunchAll(script.plans);
      why := AllEnded;
      if AnyRunning(runs) {
        why := PollUntilDone(script.ticks, script.start, script.duration);
      }
      Finish(script.closing, script.start, script.duration);
    }
  }

  method FreshRuns(lanes: seq<Lane>) returns (runs: seq<LaneRun>)
    ensures runs == Fresh(lanes)
  {
    runs := [];
    FreshLanes(lanes);
    for i := 0 to |lanes|
      invariant |runs| == i
      invariant forall j :: 0 <= j < i ==> runs[j] == Fresh(lanes)[j]
    {
      runs := runs + [LaneRun(lanes[i], false, None, None, false, [], false)];
    }
  }

  /** With disjoint CPUs, no passed lane has an event on its CPUs among those observed since. */
  ghost predicate Honest(lanes: seq<Lane>, b: Batch, from: nat) {
    && |b.runs| == |lanes|
    && (DisjointCpus(lanes) ==>
          forall i, k | 0 <= i < |lanes| && from <= k < |b.observed| ::
            HasPassed(b.runs[i]) && b.observed[k].cpu != -1 ==> b.observed[k].cpu !in MceCpus(lanes[i]))
  }

  lemma RunIsHonest(c: Config, lanes: seq<Lane>, stop: bool, observed: seq<Event>, script: Script)
    ensures var f := RunBatch(c, lanes, stop, observed, script).batch;
      observed <= f.observed && Honest(lanes, f, |observed|)
  {
    EventsFailTheirLanes(c, lanes, stop, observed, script);
    if DisjointCpus(lanes) {
      var f := RunBatch(c, lanes, stop, observed, script).batch;
      forall i | 0 <= i < |lanes| && HasPassed(f.runs[i])
        ensures forall k :: |observed| <= k < |f.observed| && f.observed[k].cpu != -1 ==>
          f.observed[k].cpu !in MceCpus(lanes[i])
      {
        PassedLaneIsClean(c, lanes, stop, observed, script, i);
      }
    }
  }
}
