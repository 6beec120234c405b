/** What a supervised batch's verdicts are worth. */
module Verdicts {
  import opened Wrappers
  import opened Supervision

  predicate HasFailed(r: LaneRun) {
    r.verdict.Some? && r.verdict.value.Failed?
  }

  predicate HasPassed(r: LaneRun) {
    r.verdict.Some? && r.verdict.value.Passed?
  }

  /** Lanes stay what they are and a failure is never taken back. */
  ghost predicate SameLanes(a: seq<LaneRun>, b: seq<LaneRun>) {
    && |a| == |b|
    && forall i :: 0 <= i < |a| ==> a[i].lane == b[i].lane && (HasFailed(a[i]) ==> HasFailed(b[i]))
  }

  /** Within a batch no failure is undone, a stop stays, and nothing observed is forgotten. */
  ghost predicate Carries(b: Batch, t: Batch) {
    SameLanes(b.runs, t.runs) && (b.stop ==> t.stop) && b.observed <= t.observed
  }

  /** While lanes are polled, a pass belongs to a payload that ended by itself, and an
      undecided lane that was launched is still running. */
  ghost predicate Earned(r: LaneRun) {
    && (HasPassed(r) ==> r.launched && r.terminated && !r.stoppedRunning)
    && (r.verdict.None? && r.launched ==> r.returncode.None? && !r.terminated)
  }

  ghost predicate AllEarned(runs: seq<LaneRun>) {
    forall i :: 0 <= i < |runs| ==> Earned(runs[i])
  }

  ghost predicate Keeps(b: Batch, t: Batch) {
    Carries(b, t) && (AllEarned(b.runs) ==> AllEarned(t.runs))
  }

  lemma KeepsTrans(a: Batch, b: Batch, c: Batch)
    requires Keeps(a, b) && Keeps(b, c)
    ensures Keeps(a, c)
  {
  }

  // ----- every step keeps failures -----

  lemma ThermalKeeps(c: Config, b: Batch, safe: bool, heat: Fault)
    ensures var (t, hot) := ThermalFailed(c, b, safe, heat);
      Keeps(b, t) && t.observed == b.observed && (hot ==> t.stop) && (!hot ==> t == b)
  {
  }

  lemma ApplyEventKeeps(c: Config, b: Batch, e: Event, force: bool)
    ensures var t := ApplyEvent(c, b, e, force);
      && Keeps(b, t) && t.observed == b.observed
      && (Charges(b, e, force) ==> HasFailed(t.runs[Target(b, e).value]) && (c.stopOnFirstFailure ==> t.stop))
      && (e.cpu != -1 && Target(b, e).Some? ==> HasFailed(t.runs[Target(b, e).value]))
  {
  }

  lemma {:induction false} ApplyAllKeeps(c: Config, b: Batch, events: seq<Event>, force: bool)
    ensures var (t, hit) := ApplyAll(c, b, events, force);
      && Keeps(b, t) && t.observed == b.observed
      && (hit && c.stopOnFirstFailure ==> t.stop)
      && (hit ==> exists i :: 0 <= i < |t.runs| && HasFailed(t.runs[i]))
    decreases |events|
  {
    if events != [] {
      var t := ApplyEvent(c, b, events[0], force);
      ApplyEventKeeps(c, b, events[0], force);
      ApplyAllKeeps(c, t, events[1..], force);
      KeepsTrans(b, t, ApplyAll(c, t, events[1..], force).0);
      if Charges(b, events[0], force) {
        var i := Target(b, events[0]).value;
        assert HasFailed(ApplyAll(c, t, events[1..], force).0.runs[i]);
      }
    }
  }

  lemma ApplyAllStep(c: Config, b: Batch, events: seq<Event>, force: bool, k: nat)
    requires k < |events|
    ensures var rest := ApplyAll(c, ApplyEvent(c, b, events[k], force), events[k + 1..], force);
      ApplyAll(c, b, events[k..], force) == (rest.0, rest.1 || Charges(b, events[k], force))
  {
    assert events[k..][0] == events[k] && events[k..][1..] == events[k + 1..];
  }

  lemma {:induction false} OwnerByLane(a: seq<LaneRun>, b: seq<LaneRun>, cpu: int, n: nat)
    requires SameLanes(a, b) && n <= |a|
    ensures Owner(a, cpu, n) == Owner(b, cpu, n)
  {
    if n > 0 {
      OwnerByLane(a, b, cpu, n - 1);
    }
  }

  // ----- who is charged -----

  /** The CPUs a lane answers for: its siblings too where they are known. */
  ghost predicate AnswersFor(lane: Lane, cpu: int) {
    cpu in (if lane.siblingCpus != [] then lane.siblingCpus else lane.cpus)
  }

  /** An event is charged to the last lane that answers for its CPU. */
  lemma {:induction false} OwnerIsLast(runs: seq<LaneRun>, cpu: int, n: nat)
    requires n <= |runs|
    ensures var owner := Owner(runs, cpu, n);
      if owner.None? then forall j :: 0 <= j < n ==> !AnswersFor(runs[j].lane, cpu)
      else
        && owner.value < n && AnswersFor(runs[owner.value].lane, cpu)
        && forall j :: owner.value < j < n ==> !AnswersFor(runs[j].lane, cpu)
  {
    if n > 0 {
      OwnerIsLast(runs, cpu, n - 1);
    }
  }

  ghost predicate Lowest(runs: seq<LaneRun>, eligible: LaneRun -> bool, n: nat, r: Option<nat>)
    requires n <= |runs|
  {
    if r.None? then forall j :: 0 <= j < n ==> !eligible(runs[j])
    else
      && r.value < n && eligible(runs[r.value])
      && forall j :: 0 <= j < n && eligible(runs[j]) ==> runs[r.value].lane.coreId <= runs[j].lane.coreId
  }

  /** Exactly lane `i` changed: it failed with this fault. */
  ghost predicate FailsWith(b: Batch, t: Batch, i: nat, fault: Fault) {
    i < |b.runs| && t.runs == b.runs[i := b.runs[i].(verdict := Some(Failed(fault)))]
  }

  lemma {:induction false} FirstOpenIsLowest(runs: seq<LaneRun>, n: nat)
    requires n <= |runs|
    ensures Lowest(runs, Open, n, FirstOpen(runs, n))
  {
    if n > 0 {
      FirstOpenIsLowest(runs, n - 1);
    }
  }

  lemma {:induction false} FirstUndecidedIsLowest(runs: seq<LaneRun>, n: nat)
    requires n <= |runs|
    ensures Lowest(runs, (r: LaneRun) => r.verdict.None?, n, FirstUndecided(runs, n))
  {
    if n > 0 {
      FirstUndecidedIsLowest(runs, n - 1);
    }
  }

  /** An event that names no CPU fails the open lane with the lowest core id, that one
      only, and stops the batch; with no lane open it changes nothing. */
  lemma UnattributedEventStops(c: Config, b: Batch, e: Event, force: bool)
    requires e.cpu == -1
    ensures var t := ApplyEvent(c, b, e, force);
      if forall j :: 0 <= j < |b.runs| ==> !Open(b.runs[j]) then t == b
      else
        && t.stop
        && exists i: nat ::
             && Lowest(b.runs, Open, |b.runs|, Some(i))
             && FailsWith(b, t, i, Fault("MCE: " + e.message, MceUnattributed))
  {
    FirstOpenIsLowest(b.runs, |b.runs|);
    var first := FirstOpen(b.runs, |b.runs|);
    if first.Some? {
      assert Charges(b, e, force);
      assert FailsWith(b, ApplyEvent(c, b, e, force), first.value, Fault("MCE: " + e.message, MceUnattributed));
    }
  }

  /** An event that names a CPU fails the last lane that answers for it, with the machine
      check as its fault and no other lane, unless that lane has failed already. */
  lemma AttributedEventFailsItsLane(c: Config, b: Batch, e: Event, i: nat)
    requires e.cpu != -1
    requires i < |b.runs| && AnswersFor(b.runs[i].lane, e.cpu)
    requires forall j :: i < j < |b.runs| ==> !AnswersFor(b.runs[j].lane, e.cpu)
    ensures var t := ApplyEvent(c, b, e, false);
      if HasFailed(b.runs[i]) then t == b
      else FailsWith(b, t, i, Fault("MCE: " + e.message, Mce)) && (t.stop <==> b.stop || c.stopOnFirstFailure)
  {
    OwnerIsLast(b.runs, e.cpu, |b.runs|);
    assert Owner(b.runs, e.cpu, |b.runs|) == Some(i);
  }

  /** One that names the CPU of no lane changes nothing. */
  lemma ForeignEventFailsNone(c: Config, b: Batch, e: Event, force: bool)
    requires e.cpu != -1 && forall j :: 0 <= j < |b.runs| ==> !AnswersFor(b.runs[j].lane, e.cpu)
    ensures ApplyEvent(c, b, e, force) == b
  {
    OwnerIsLast(b.runs, e.cpu, |b.runs|);
  }

  ghost predicate LowestUndecided(runs: seq<LaneRun>, i: nat) {
    Lowest(runs, (r: LaneRun) => r.verdict.None?, |runs|, Some(i))
  }

  /** An unsafe temperature fails the undecided lane with the lowest core id and stops
      the batch. */
  lemma OverheatingStops(c: Config, b: Batch, heat: Fault)
    ensures var t := ThermalFailed(c, b, false, heat).0;
            if forall j :: 0 <= j < |b.runs| ==> b.runs[j].verdict.Some? then t == b.(stop := true)
            else t.stop && exists i: nat :: LowestUndecided(b.runs, i) && FailsWith(b, t, i, heat)
  {
    FirstUndecidedIsLowest(b.runs, |b.runs|);
    var first := FirstUndecided(b.runs, |b.runs|);
    if first.Some? {
      assert LowestUndecided(b.runs, first.value);
      assert FailsWith(b, ThermalFailed(c, b, false, heat).0, first.value, heat);
    }
  }

  /** An event of a known CPU leaves the lane that owns the CPU failed. */
  ghost predicate Charged(runs: seq<LaneRun>, e: Event) {
    e.cpu != -1 && Owner(runs, e.cpu, |runs|).Some? ==> HasFailed(runs[Owner(runs, e.cpu, |runs|).value])
  }

  lemma ChargedStays(a: Batch, b: Batch, e: Event)
    requires Carries(a, b) && Charged(a.runs, e)
    ensures Charged(b.runs, e)
  {
    OwnerByLane(a.runs, b.runs, e.cpu, |a.runs|);
  }

  lemma {:induction false} ApplyAllCharges(c: Config, b: Batch, events: seq<Event>, force: bool, k: nat)
    requires k < |events|
    ensures Charged(ApplyAll(c, b, events, force).0.runs, events[k])
    decreases |events|
  {
    var t := ApplyEvent(c, b, events[0], force);
    ApplyEventKeeps(c, b, events[0], force);
    if k == 0 {
      OwnerByLane(b.runs, t.runs, events[0].cpu, |b.runs|);
      ApplyAllKeeps(c, t, events[1..], force);
      ChargedStays(t, ApplyAll(c, t, events[1..], force).0, events[0]);
    } else {
      ApplyAllCharges(c, t, events[1..], force, k - 1);
    }
  }

  lemma {:induction false} FailOpenKeeps(c: Config, b: Batch, f: Fault, i: nat)
    ensures var t := FailOpen(c, b, f, i);
      Keeps(b, t) && t.observed == b.observed && (forall j :: i <= j < |t.runs| ==> HasFailed(t.runs[j]))
    decreases |b.runs| - i
  {
    if i < |b.runs| {
      var next := if Open(b.runs[i]) then Fail(c, b, i, f) else b;
      FailOpenKeeps(c, next, f, i + 1);
      assert HasFailed(next.runs[i]);
      KeepsTrans(b, next, FailOpen(c, next, f, i + 1));
    }
  }

  /** Everything observed since `from` on a known CPU has failed the lane that owns it. */
  ghost predicate Blames(b: Batch, from: nat) {
    from <= |b.observed| && forall k :: from <= k < |b.observed| ==> Charged(b.runs, b.observed[k])
  }

  lemma BlamesStays(a: Batch, b: Batch, from: nat)
    requires Carries(a, b) && a.observed == b.observed && Blames(a, from)
    ensures Blames(b, from)
  {
    forall k | from <= k < |b.observed|
      ensures Charged(b.runs, b.observed[k])
    {
      ChargedStays(a, b, b.observed[k]);
    }
  }

  /** Taking events in: all of them are charged, also when the log cannot be read. */
  lemma EventsAreCharged(c: Config, b: Batch, events: Option<seq<Event>>, unreadable: Fault, force: bool, from: nat)
    requires Blames(b, from)
    ensures var (t, hit) := ApplyMceEvents(c, b, events, unreadable, force);
      && Keeps(b, t) && Blames(t, from)
      && (hit && (c.stopOnFirstFailure || events.None?) ==> t.stop)
      && (events.None? ==> hit && forall i :: 0 <= i < |t.runs| ==> HasFailed(t.runs[i]))
      && (hit && |t.runs| > 0 ==> exists i :: 0 <= i < |t.runs| && HasFailed(t.runs[i]))
  {
    if events.None? {
      FailOpenKeeps(c, b, unreadable, 0);
      BlamesStays(b, ApplyMceEvents(c, b, events, unreadable, force).0, from);
      if |b.runs| > 0 {
        assert HasFailed(FailOpen(c, b, unreadable, 0).runs[0]);
      }
    } else {
      var seen := b.(observed := b.observed + events.value);
      ApplyAllKeeps(c, seen, events.value, force);
      var t := ApplyAll(c, seen, events.value, force).0;
      forall k | from <= k < |t.observed|
        ensures Charged(t.runs, t.observed[k])
      {
        if k < |b.observed| {
          assert Charged(b.runs, b.observed[k]);
          assert Keeps(b, t);
          ChargedStays(b, t, b.observed[k]);
        } else {
          ApplyAllCharges(c, seen, events.value, force, k - |b.observed|);
        }
      }
    }
  }

  lemma TerminateKeeps(c: Config, b: Batch, i: nat, e: Ending)
    requires i < |b.runs|
    ensures Carries(b, Terminate(c, b, i, e)) && Terminate(c, b, i, e).observed == b.observed
    ensures Carries(b, Drain(c, b, i, e)) && Drain(c, b, i, e).observed == b.observed
  {
  }

  lemma {:induction false} BackendErrorsKeep(c: Config, b: Batch, t: Tick, i: nat)
    ensures var (r, complained) := PollBackendErrors(c, b, t, i);
      Keeps(b, r) && r.observed == b.observed && (complained ==> r.stop)
    decreases |b.runs| - i
  {
    if i < |b.runs| && !(b.runs[i].verdict.None? && t.lanes(i).complaint.Some?) {
      BackendErrorsKeep(c, b, t, i + 1);
    }
  }

  lemma CarriesTrans(a: Batch, b: Batch, c: Batch)
    requires Carries(a, b) && Carries(b, c)
    ensures Carries(a, c)
  {
  }

  lemma CloseExitedCarries(c: Config, b: Batch, t: Tick, i: nat, elapsed: real)
    requires i < |b.runs|
    ensures Carries(b, CloseExited(c, b, t, i, elapsed)) && CloseExited(c, b, t, i, elapsed).observed == b.observed
  {
    var tick := t.lanes(i);
    var code := if b.runs[i].returncode.Some? then b.runs[i].returncode else tick.exited;
    var gone := b.(runs := b.runs[i := b.runs[i].(returncode := code)]);
    TerminateKeeps(c, gone, i, tick.ending);
    var stopped := Terminate(c, gone, i, tick.ending);
    TerminateKeeps(c, stopped, i, tick.ending);
    CarriesTrans(b, gone, stopped);
    CarriesTrans(b, stopped, Drain(c, stopped, i, tick.ending));
  }

  lemma UninterruptedIsDecided(r: LaneRun, p: Payload, elapsed: real)
    ensures ClassifyCompleted(r, p, elapsed, false).Some?
  {
  }

  /** Closing an exited lane decides it, and a pass there is the payload's own. */
  lemma CloseExitedIsEarned(c: Config, b: Batch, t: Tick, i: nat, elapsed: real)
    requires i < |b.runs| && HasExited(b.runs[i], t.lanes(i)) && Earned(b.runs[i])
    ensures Earned(CloseExited(c, b, t, i, elapsed).runs[i]) && CloseExited(c, b, t, i, elapsed).runs[i].verdict.Some?
    ensures forall j :: 0 <= j < |b.runs| && j != i ==> CloseExited(c, b, t, i, elapsed).runs[j] == b.runs[j]
  {
    var tick := t.lanes(i);
    var gone := b.(runs := b.runs[i := b.runs[i].(returncode := tick.exited)]);
    var ended := Terminate(c, gone, i, tick.ending);
    assert ended.runs[i].verdict.None? ==> ended.runs[i].terminated && !ended.runs[i].stoppedRunning;
    var stopped := Drain(c, ended, i, tick.ending);
    assert stopped.runs[i].verdict.None? ==> stopped.runs[i] == ended.runs[i];
    UninterruptedIsDecided(stopped.runs[i], tick.payload, elapsed);
  }

  lemma CloseExitedKeeps(c: Config, b: Batch, t: Tick, i: nat, elapsed: real)
    requires i < |b.runs| && HasExited(b.runs[i], t.lanes(i))
    ensures Keeps(b, CloseExited(c, b, t, i, elapsed)) && CloseExited(c, b, t, i, elapsed).observed == b.observed
  {
    CloseExitedCarries(c, b, t, i, elapsed);
    if AllEarned(b.runs) {
      CloseExitedIsEarned(c, b, t, i, elapsed);
    }
  }

  lemma {:induction false} ExitsKeep(c: Config, b: Batch, t: Tick, i: nat, elapsed: real)
    ensures var (r, failed) := PollExits(c, b, t, i, elapsed);
      && Keeps(b, r) && r.observed == b.observed
      && (failed ==> c.stopOnFirstFailure && exists j :: 0 <= j < |r.runs| && HasFailed(r.runs[j]))
    decreases |b.runs| - i
  {
    if i < |b.runs| {
      if !HasExited(b.runs[i], t.lanes(i)) {
        ExitsKeep(c, b, t, i + 1, elapsed);
      } else {
        var closed := CloseExited(c, b, t, i, elapsed);
        CloseExitedKeeps(c, b, t, i, elapsed);
        if !HasFailed(closed.runs[i]) {
          ExitsKeep(c, closed, t, i + 1, elapsed);
          KeepsTrans(b, closed, PollExits(c, closed, t, i + 1, elapsed).0);
        }
      }
    }
  }

  lemma {:induction false} ContainmentKeeps(c: Config, b: Batch, t: Tick, i: nat)
    ensures var (r, breached) := PollContainment(c, b, t, i);
      && Keeps(b, r) && r.observed == b.observed && (breached && c.stopOnFirstFailure ==> r.stop)
      && (breached ==> exists j :: 0 <= j < |r.runs| && HasFailed(r.runs[j]))
    decreases |b.runs| - i
  {
    if i < |b.runs| {
      if Running(b.runs[i]) && t.lanes(i).breach.Some? {
        assert HasFailed(PollContainment(c, b, t, i).0.runs[i]);
      } else {
        ContainmentKeeps(c, b, t, i + 1);
      }
    }
  }

  lemma {:induction false} StallsKeep(c: Config, b: Batch, t: Tick, i: nat)
    ensures var (r, stalledOut) := PollStalls(c, b, t, i);
      Keeps(b, r) && r.observed == b.observed && (stalledOut ==> r.stop)
    decreases |b.runs| - i
  {
    if i < |b.runs| && !(Running(b.runs[i]) && t.lanes(i).stalled.Some?) {
      StallsKeep(c, b, t, i + 1);
    }
  }

  ghost predicate SomeFailed(b: Batch) {
    exists i :: 0 <= i < |b.runs| && HasFailed(b.runs[i])
  }

  /** What each way of ending the polls leaves behind. */
  ghost predicate Explains(c: Config, why: Break, b: Batch) {
    match why
    case Stopped => b.stop
    case Overheated => b.stop
    case Complained => b.stop
    case StalledOut => b.stop
    case Blamed => SomeFailed(b) && (c.stopOnFirstFailure ==> b.stop)
    case Breached => SomeFailed(b) && (c.stopOnFirstFailure ==> b.stop)
    case FailedExit => SomeFailed(b) && c.stopOnFirstFailure
    case AllEnded => !AnyRunning(b.runs)
    case Deadline => true
    case OutOfTicks => true
  }

  lemma PollRunningKeeps(c: Config, b: Batch, t: Tick, start: real, duration: real)
    ensures var (r, why) := PollRunning(c, b, t, start, duration);
      && Keeps(b, r) && r.observed == b.observed
      && (why.Some? ==> Explains(c, why.value, r))
      && (why == Some(Deadline) ==> t.now >= start + duration)
      && why != Some(OutOfTicks)
  {
    ContainmentKeeps(c, b, t, 0);
    var (b1, breached) := PollContainment(c, b, t, 0);
    if AnyRunning(b.runs) && !breached {
      StallsKeep(c, b1, t, 0);
      var b2 := if t.now - start < STALL_GRACE then b1 else PollStalls(c, b1, t, 0).0;
      KeepsTrans(b, b1, b2);
      assert PollRunning(c, b, t, start, duration).0 == b2;
    }
  }

  lemma PollKeeps(c: Config, b: Batch, t: Tick, start: real, duration: real, due: bool, from: nat)
    requires Blames(b, from) && |b.runs| > 0
    ensures var (r, why) := Poll(c, b, t, start, duration, due);
      && Keeps(b, r) && Blames(r, from)
      && (why.Some? ==> Explains(c, why.value, r))
      && (why == Some(Deadline) ==> t.now >= start + duration)
      && why != Some(OutOfTicks)
  {
    if !(b.stop || t.stopRequested) {
      ThermalKeeps(c, b, t.safe, t.heat);
      var (b1, hot) := ThermalFailed(c, b, t.safe, t.heat);
      BlamesStays(b, b1, from);
      if !hot {
        EventsAreCharged(c, b1, t.events, t.unreadable, false, from);
        var (b2, hit) := ApplyMceEvents(c, b1, t.events, t.unreadable, false);
        KeepsTrans(b, b1, b2);
        if !hit {
          BackendErrorsKeep(c, b2, t, 0);
          var (b3, complained) := if due then PollBackendErrors(c, b2, t, 0) else (b2, false);
          KeepsTrans(b, b2, b3);
          BlamesStays(b2, b3, from);
          if !complained {
            PollLateKeeps(c, b3, t, start, duration, from);
            KeepsTrans(b, b3, Poll(c, b, t, start, duration, due).0);
          }
        }
      }
    } else {
      BlamesStays(b, b.(stop := true), from);
    }
  }

  /** The second half of a poll: exits, then the lanes still running. */
  lemma PollLateKeeps(c: Config, b: Batch, t: Tick, start: real, duration: real, from: nat)
    requires Blames(b, from)
    ensures var (b4, exitFailed) := PollExits(c, b, t, 0, t.now - start);
      var (r, why) := if exitFailed then (b4, Some(FailedExit)) else PollRunning(c, b4, t, start, duration);
      && Keeps(b, r) && Blames(r, from)
      && (why.Some? ==> Explains(c, why.value, r))
      && (why == Some(Deadline) ==> t.now >= start + duration)
      && why != Some(OutOfTicks)
  {
    ExitsKeep(c, b, t, 0, t.now - start);
    var b4 := PollExits(c, b, t, 0, t.now - start).0;
    BlamesStays(b, b4, from);
    PollRunningKeeps(c, b4, t, start, duration);
    var r := PollRunning(c, b4, t, start, duration).0;
    KeepsTrans(b, b4, r);
    BlamesStays(b4, r, from);
  }

  lemma {:induction false} PollingKeeps(
    c: Config, b: Batch, ticks: seq<Tick>, start: real, duration: real, last: real, from: nat)
    requires Blames(b, from) && |b.runs| > 0
    ensures var (r, why) := PollUntilDone(c, b, ticks, start, duration, last);
      && Keeps(b, r) && Blames(r, from) && Explains(c, why, r)
      && (why == Deadline ==> exists t :: t in ticks && t.now >= start + duration)
    decreases |ticks|
  {
    if ticks != [] {
      var t := ticks[0];
      var due := t.now - last >= ERROR_POLL_INTERVAL;
      PollKeeps(c, b, t, start, duration, due, from);
      var (b1, why) := Poll(c, b, t, start, duration, due);
      if why.None? {
        var next := if due then t.now else last;
        PollingKeeps(c, b1, ticks[1..], start, duration, next, from);
        KeepsTrans(b, b1, PollUntilDone(c, b1, ticks[1..], start, duration, next).0);
        assert forall u :: u in ticks[1..] ==> u in ticks;
      }
    }
  }
}
