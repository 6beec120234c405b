/** No lane fails without a cause: where nothing a script shows speaks against a lane, the
    batch leaves it passed or undecided. */
module BlamelessLanes {
  import opened Wrappers
  import opened Supervision
  import opened Verdicts
  import opened HonestVerdicts

  // ----- what speaks against a lane -----

  /** An exit code by which a process dies of SIGTERM or SIGKILL. */
  predicate DiedOfASignal(code: int) {
    code in {-9, -15, 137, 143}
  }

  /** The code is that of one of the signals this program sent. */
  predicate OurSignal(code: int, sent: seq<int>) {
    exists s :: s in sent && (code == -s || code == 128 + s)
  }

  predicate CleanPayload(p: Payload) {
    p.liveError.None? && p.parsed
  }

  /** Such an end is held against nobody: a signal of ours, or an exit of its own after
      the startup window. */
  predicate FairEnd(code: int, sent: seq<int>, seconds: real) {
    if DiedOfASignal(code) then OurSignal(code, sent) else seconds >= 2.0
  }

  /** No event names a CPU of the lane, and none leaves the CPU open. */
  ghost predicate EventsElsewhere(events: Option<seq<Event>>, lane: Lane) {
    events.Some? && forall e :: e in events.value ==> e.cpu != -1 && e.cpu !in MceCpus(lane)
  }

  ghost predicate QuietTick(t: Tick, lane: Lane, i: nat, start: real) {
    var l := t.lanes(i);
    && t.safe && EventsElsewhere(t.events, lane)
    && l.complaint.None? && l.breach.None? && l.stalled.None?
    && l.ending.stopFault.None? && l.ending.drainFault.None? && CleanPayload(l.payload)
    && (l.exited.Some? ==> FairEnd(l.exited.value, l.ending.signals, t.now - start))
  }

  ghost predicate CalmClosing(closing: Closing, lane: Lane, i: nat, start: real) {
    var e := closing.endings(i);
    && EventsElsewhere(closing.events, lane)
    && e.stopFault.None? && e.drainFault.None? && CleanPayload(closing.payloads(i))
    && FairEnd(if e.code == 0 && e.running then -15 else e.code, e.signals, closing.now - start)
  }

  /** Nothing in the script speaks against lane `i`. */
  ghost predicate Blameless(script: Script, lane: Lane, i: nat) {
    && script.safeAtStart && script.plans(i).Start?
    && (forall t :: t in script.ticks ==> QuietTick(t, lane, i, script.start))
    && CalmClosing(script.closing, lane, i, script.start)
  }

  // ----- a lane without blame -----

  /** Undecided, or passed by an end of its own that is held against nobody. */
  ghost predicate Sound(r: LaneRun, lane: Lane) {
    && r.lane == lane && !HasFailed(r) && Earned(r)
    && (HasPassed(r) ==> r.returncode.Some? && FairEnd(r.returncode.value, r.sentSignals, r.verdict.value.seconds))
  }

  ghost predicate SoundAt(b: Batch, i: nat, lane: Lane) {
    i < |b.runs| && Sound(b.runs[i], lane)
  }

  lemma {:induction false} PassedBy(c: Config, b: Batch, events: seq<Event>, force: bool, i: nat, lane: Lane)
    requires i < |b.runs| && b.runs[i].lane == lane && EventsElsewhere(Some(events), lane)
    ensures var t := ApplyAll(c, b, events, force).0;
      |t.runs| == |b.runs| && t.runs[i] == b.runs[i]
    decreases |events|
  {
    if events != [] {
      var e := events[0];
      assert e in events && Target(b, e) != Some(i);
      assert forall d :: d in events[1..] ==> d in events;
      PassedBy(c, ApplyEvent(c, b, e, force), events[1..], force, i, lane);
    }
  }

  lemma {:induction false} SparedByComplaints(c: Config, b: Batch, t: Tick, k: nat, i: nat)
    requires i < |b.runs| && t.lanes(i).complaint.None?
    ensures var r := PollBackendErrors(c, b, t, k).0;
      |r.runs| == |b.runs| && r.runs[i] == b.runs[i]
    decreases |b.runs| - k
  {
    if k < |b.runs| && !(b.runs[k].verdict.None? && t.lanes(k).complaint.Some?) {
      SparedByComplaints(c, b, t, k + 1, i);
    }
  }

  lemma {:induction false} SparedByContainment(c: Config, b: Batch, t: Tick, k: nat, i: nat)
    requires i < |b.runs| && t.lanes(i).breach.None?
    ensures var r := PollContainment(c, b, t, k).0;
      |r.runs| == |b.runs| && r.runs[i] == b.runs[i]
    decreases |b.runs| - k
  {
    if k < |b.runs| && !(Running(b.runs[k]) && t.lanes(k).breach.Some?) {
      SparedByContainment(c, b, t, k + 1, i);
    }
  }

  lemma {:induction false} SparedByStalls(c: Config, b: Batch, t: Tick, k: nat, i: nat)
    requires i < |b.runs| && t.lanes(i).stalled.None?
    ensures var r := PollStalls(c, b, t, k).0;
      |r.runs| == |b.runs| && r.runs[i] == b.runs[i]
    decreases |b.runs| - k
  {
    if k < |b.runs| && !(Running(b.runs[k]) && t.lanes(k).stalled.Some?) {
      SparedByStalls(c, b, t, k + 1, i);
    }
  }

  /** Its own exit closes the lane with a pass. */
  lemma OwnExitIsSound(c: Config, b: Batch, t: Tick, i: nat, lane: Lane, start: real)
    requires SoundAt(b, i, lane) && QuietTick(t, lane, i, start) && HasExited(b.runs[i], t.lanes(i))
    ensures var r := CloseExited(c, b, t, i, t.now - start);
      && SoundAt(r, i, lane) && HasPassed(r.runs[i])
  {
    var tick := t.lanes(i);
    var gone := b.(runs := b.runs[i := b.runs[i].(returncode := tick.exited)]);
    var ended := Terminate(c, gone, i, tick.ending);
    var code := tick.exited.value;
    assert ended.runs[i] == b.runs[i].(returncode := Some(code), terminated := true,
                                       sentSignals := tick.ending.signals, stoppedRunning := false);
    assert KilledByUs(code) <==> DiedOfASignal(code);
    assert SignalMatches(ended.runs[i], code) <==> OurSignal(code, tick.ending.signals);
  }

  lemma {:induction false} ExitsAreSound(c: Config, b: Batch, t: Tick, k: nat, i: nat, lane: Lane, start: real)
    requires SoundAt(b, i, lane) && QuietTick(t, lane, i, start)
    ensures SoundAt(PollExits(c, b, t, k, t.now - start).0, i, lane)
    decreases |b.runs| - k
  {
    if k < |b.runs| {
      if !HasExited(b.runs[k], t.lanes(k)) {
        ExitsAreSound(c, b, t, k + 1, i, lane, start);
      } else {
        var closed := CloseExited(c, b, t, k, t.now - start);
        if k == i {
          OwnExitIsSound(c, b, t, i, lane, start);
        } else {
          assert closed.runs[i] == b.runs[i];
        }
        if !HasFailed(closed.runs[k]) {
          ExitsAreSound(c, closed, t, k + 1, i, lane, start);
        }
      }
    }
  }

  lemma RunningIsSound(c: Config, b: Batch, t: Tick, i: nat, lane: Lane, start: real, duration: real)
    requires SoundAt(b, i, lane) && QuietTick(t, lane, i, start)
    ensures SoundAt(PollRunning(c, b, t, start, duration).0, i, lane)
  {
    SparedByContainment(c, b, t, 0, i);
    SparedByStalls(c, PollContainment(c, b, t, 0).0, t, 0, i);
  }

  lemma PollIsSound(c: Config, b: Batch, t: Tick, i: nat, lane: Lane, start: real, duration: real, due: bool)
    requires SoundAt(b, i, lane) && QuietTick(t, lane, i, start)
    ensures SoundAt(Poll(c, b, t, start, duration, due).0, i, lane)
  {
    if !(b.stop || t.stopRequested) {
      var seen := b.(observed := b.observed + t.events.value);
      PassedBy(c, seen, t.events.value, false, i, lane);
      var (b2, hit) := ApplyMceEvents(c, b, t.events, t.unreadable, false);
      if !hit {
        SparedByComplaints(c, b2, t, 0, i);
        var (b3, complained) := if due then PollBackendErrors(c, b2, t, 0) else (b2, false);
        if !complained {
          ExitsAreSound(c, b3, t, 0, i, lane, start);
          var (b4, failed) := PollExits(c, b3, t, 0, t.now - start);
          if !failed {
            RunningIsSound(c, b4, t, i, lane, start, duration);
          }
        }
      }
    }
  }

  lemma {:induction false} PollingIsSound(
    c: Config, b: Batch, ticks: seq<Tick>, i: nat, lane: Lane, start: real, duration: real, last: real)
    requires SoundAt(b, i, lane) && forall t :: t in ticks ==> QuietTick(t, lane, i, start)
    ensures SoundAt(PollUntilDone(c, b, ticks, start, duration, last).0, i, lane)
    decreases |ticks|
  {
    if ticks != [] {
      assert ticks[0] in ticks;
      var due := ticks[0].now - last >= ERROR_POLL_INTERVAL;
      PollIsSound(c, b, ticks[0], i, lane, start, duration, due);
      assert forall t :: t in ticks[1..] ==> t in ticks;
      PollingIsSound(c, Poll(c, b, ticks[0], start, duration, due).0, ticks[1..], i, lane, start, duration,
        if due then ticks[0].now else last);
    }
  }

  // ----- launching and closing -----

  lemma {:induction false} LaunchIsSound(c: Config, b: Batch, plans: nat -> Plan, k: nat, i: nat, lane: Lane)
    requires SoundAt(b, i, lane) && plans(i).Start? && NoneStopped(b.runs)
    ensures SoundAt(LaunchAll(c, b, plans, k), i, lane)
    decreases |b.runs| - k
  {
    if k < |b.runs| {
      match plans(k)
      case Refused(fault) =>
      case Start(stopRequested) =>
        if !(b.stop || stopRequested) {
          LaunchIsSound(c, b.(runs := b.runs[k := b.runs[k].(launched := true)]), plans, k + 1, i, lane);
        }
    }
  }

  /** How the closing stops a lane that has nothing against it. */
  ghost predicate StoppedCalmly(r: LaneRun, t: LaneRun, e: Ending) {
    if r.verdict.None? && r.launched
    then t == r.(returncode := Some(e.code), terminated := true, sentSignals := e.signals, stoppedRunning := e.running)
    else t == r
  }

  lemma {:induction false} StopsCalmly(c: Config, b: Batch, closing: Closing, k: nat, i: nat, lane: Lane)
    requires SoundAt(b, i, lane) && k <= i
    requires closing.endings(i).stopFault.None? && closing.endings(i).drainFault.None?
    ensures var t := TerminateAll(c, b, closing, k);
      |t.runs| == |b.runs| && StoppedCalmly(b.runs[i], t.runs[i], closing.endings(i))
    decreases i - k
  {
    var e := closing.endings(k);
    var t := Terminate(c, b, k, e);
    var next := if t.runs[k].launched then Drain(c, t, k, e) else t;
    if k < i {
      StoppedLane(c, b, e, k, i);
      StopsCalmly(c, next, closing, k + 1, i, lane);
    } else {
      assert StoppedCalmly(b.runs[i], next.runs[i], e);
      TerminateAllLeaves(c, next, closing, k + 1, i);
    }
  }

  lemma {:induction false} TerminateAllLeaves(c: Config, b: Batch, closing: Closing, k: nat, i: nat)
    requires i < k && i < |b.runs|
    ensures |TerminateAll(c, b, closing, k).runs| == |b.runs|
    ensures TerminateAll(c, b, closing, k).runs[i] == b.runs[i]
  {
    TerminatedLane(c, b, closing, k, i);
  }

  /** The verdict the closing gives a lane with nothing against it. */
  ghost function CalmVerdict(r: LaneRun, elapsed: real, interrupted: bool): Option<Verdict> {
    if r.verdict.Some? then r.verdict else if !r.launched || interrupted then None else Some(Passed(elapsed))
  }

  lemma ClassifiedCalmly(r: LaneRun, t: LaneRun, lane: Lane, closing: Closing, i: nat, start: real, interrupted: bool)
    requires Sound(r, lane) && CalmClosing(closing, lane, i, start) && StoppedCalmly(r, t, closing.endings(i))
    ensures ClassifyLane(t, closing.payloads(i), closing.now - start, interrupted).verdict ==
      CalmVerdict(r, closing.now - start, interrupted)
  {
    if t.launched {
      var code := JudgedCode(t);
      assert KilledByUs(code) <==> DiedOfASignal(code);
      assert SignalMatches(t, code) <==> t.terminated && OurSignal(code, t.sentSignals);
    }
  }

  lemma FinishIsCalm(c: Config, b: Batch, closing: Closing, start: real, duration: real, i: nat, lane: Lane)
    requires SoundAt(b, i, lane) && CalmClosing(closing, lane, i, start)
    ensures |Finish(c, b, closing, start, duration).runs| == |b.runs|
    ensures Finish(c, b, closing, start, duration).runs[i].verdict ==
      CalmVerdict(b.runs[i], closing.now - start, (b.stop || closing.stopRequested) && closing.now - start < duration)
  {
    var asked := b.(stop := b.stop || closing.stopRequested);
    StopsCalmly(c, asked, closing, 0, i, lane);
    var stopped := TerminateAll(c, asked, closing, 0);
    PassedBy(c, stopped.(observed := stopped.observed + closing.events.value), closing.events.value, true, i, lane);
    var charged := ApplyMceEvents(c, stopped, closing.events, closing.unreadable, true).0;
    var interrupted := Interrupted(b, closing, start, duration);
    ClassifyAllSame(charged.runs, closing, closing.now - start, interrupted, 0);
    ClassifiedCalmly(b.runs[i], charged.runs[i], lane, closing, i, start, interrupted);
  }

  lemma BlamelessWhilePolled(
    c: Config, lanes: seq<Lane>, stop: bool, observed: seq<Event>, script: Script, i: nat)
    requires i < |lanes| && Blameless(script, lanes[i], i)
    ensures SoundAt(RunBatch(c, lanes, stop, observed, script).polled, i, lanes[i])
  {
    var before := Batch(Fresh(lanes), stop, observed);
    FreshLanes(lanes);
    LaunchIsSound(c, before, script.plans, 0, i, lanes[i]);
    var launched := LaunchAll(c, before, script.plans, 0);
    PollingIsSound(c, launched, script.ticks, i, lanes[i], script.start, script.duration,
      script.start - ERROR_POLL_INTERVAL);
    RunUnfolds(c, lanes, stop, observed, script);
  }

  /** A failed lane shows a cause: where the script holds nothing against a lane, the
      batch does not fail it, whatever the other lanes do. It is left undecided if it was
      never launched, or was running when a stop cut the batch short; otherwise it passes,
      with the time of its own exit or of the closing. */
  lemma BlamelessLaneNeverFails(
    c: Config, lanes: seq<Lane>, stop: bool, observed: seq<Event>, script: Script, i: nat)
    requires i < |lanes| && Blameless(script, lanes[i], i)
    ensures var o := RunBatch(c, lanes, stop, observed, script);
      var cut := (o.polled.stop || script.closing.stopRequested) &&
                 script.closing.now - script.start < script.duration;
      && |o.batch.runs| == |lanes| == |o.polled.runs|
      && !HasFailed(o.polled.runs[i])
      && o.batch.runs[i].verdict == CalmVerdict(o.polled.runs[i], script.closing.now - script.start, cut)
  {
    BlamelessWhilePolled(c, lanes, stop, observed, script, i);
    RunUnfolds(c, lanes, stop, observed, script);
    PolledState(c, lanes, stop, observed, script);
    var polled := RunBatch(c, lanes, stop, observed, script).polled;
    FinishIsCalm(c, polled, script.closing, script.start, script.duration, i, lanes[i]);
  }
}
