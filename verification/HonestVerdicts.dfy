/** The two promises of a supervised batch: a passed lane saw no hardware event, and a
    pass was earned. The second one has an exact exception. */
module HonestVerdicts {
  import opened Wrappers
  import opened Supervision
  import opened Verdicts

  // ----- closing keeps what polling established -----

  lemma {:induction false} TerminateAllCarries(c: Config, b: Batch, closing: Closing, i: nat)
    ensures Carries(b, TerminateAll(c, b, closing, i)) && TerminateAll(c, b, closing, i).observed == b.observed
    decreases |b.runs| - i
  {
    if i < |b.runs| {
      var e := closing.endings(i);
      var t := Terminate(c, b, i, e);
      TerminateKeeps(c, b, i, e);
      TerminateKeeps(c, t, i, e);
      var next := if t.runs[i].launched then Drain(c, t, i, e) else t;
      CarriesTrans(b, t, next);
      TerminateAllCarries(c, next, closing, i + 1);
      CarriesTrans(b, next, TerminateAll(c, next, closing, i + 1));
    }
  }

  lemma {:induction false} ClassifyAllSame(
    runs: seq<LaneRun>, closing: Closing, elapsed: real, interrupted: bool, i: nat)
    ensures SameLanes(runs, ClassifyAll(runs, closing, elapsed, interrupted, i))
    ensures forall j :: 0 <= j < |runs| ==>
      ClassifyAll(runs, closing, elapsed, interrupted, i)[j] ==
        (if j < i then runs[j] else ClassifyLane(runs[j], closing.payloads(j), elapsed, interrupted))
    decreases |runs| - i
  {
    if i < |runs| {
      var next := runs[i := ClassifyLane(runs[i], closing.payloads(i), elapsed, interrupted)];
      ClassifyAllSame(next, closing, elapsed, interrupted, i + 1);
    }
  }

  lemma FinishKeepsBlame(c: Config, b: Batch, closing: Closing, start: real, duration: real, from: nat)
    requires Blames(b, from)
    ensures var f := Finish(c, b, closing, start, duration);
      Carries(b, f) && Blames(f, from)
  {
    var asked := b.(stop := b.stop || closing.stopRequested);
    TerminateAllCarries(c, asked, closing, 0);
    var stopped := TerminateAll(c, asked, closing, 0);
    BlamesStays(b, stopped, from);
    EventsAreCharged(c, stopped, closing.events, closing.unreadable, true, from);
    var charged := ApplyMceEvents(c, stopped, closing.events, closing.unreadable, true).0;
    CarriesTrans(b, stopped, charged);
    var f := Finish(c, b, closing, start, duration);
    ClassifyAllSame(charged.runs, closing, closing.now - start, Interrupted(b, closing, start, duration), 0);
    BlamesStays(charged, f, from);
    CarriesTrans(b, charged, f);
  }

  lemma {:induction false} FreshLanes(lanes: seq<Lane>)
    ensures |Fresh(lanes)| == |lanes|
    ensures forall i :: 0 <= i < |lanes| ==> Fresh(lanes)[i] == LaneRun(lanes[i], false, None, None, false, [], false)
  {
    if lanes != [] {
      FreshLanes(lanes[1..]);
    }
  }

  ghost predicate NoneStopped(runs: seq<LaneRun>) {
    forall i :: 0 <= i < |runs| ==> runs[i].returncode.None? && !runs[i].terminated && !HasPassed(runs[i])
  }

  lemma {:induction false} LaunchKeeps(c: Config, b: Batch, plans: nat -> Plan, i: nat)
    requires NoneStopped(b.runs)
    ensures var t := LaunchAll(c, b, plans, i);
      Carries(b, t) && t.observed == b.observed && NoneStopped(t.runs)
    decreases |b.runs| - i
  {
    if i < |b.runs| {
      match plans(i)
      case Refused(fault) =>
      case Start(stopRequested) =>
        if !(b.stop || stopRequested) {
          var next := b.(runs := b.runs[i := b.runs[i].(launched := true)]);
          LaunchKeeps(c, next, plans, i + 1);
          CarriesTrans(b, next, LaunchAll(c, next, plans, i + 1));
        }
    }
  }

  /** What holds when polling ends, whichever way it ended. */
  lemma PolledState(c: Config, lanes: seq<Lane>, stop: bool, observed: seq<Event>, script: Script)
    requires script.safeAtStart
    ensures var o := RunBatch(c, lanes, stop, observed, script);
      && SameLanes(Fresh(lanes), o.polled.runs)
      && |o.polled.runs| == |lanes| && (forall i :: 0 <= i < |lanes| ==> o.polled.runs[i].lane == lanes[i])
      && observed <= o.polled.observed
      && Blames(o.polled, |observed|) && AllEarned(o.polled.runs) && Explains(c, o.why, o.polled)
      && (o.why == Deadline ==> exists t :: t in script.ticks && t.now >= script.start + script.duration)
      && o.batch == Finish(c, o.polled, script.closing, script.start, script.duration)
  {
    RunUnfolds(c, lanes, stop, observed, script);
    var launched := LaunchAll(c, Batch(Fresh(lanes), stop, observed), script.plans, 0);
    LaunchedState(c, lanes, stop, observed, script.plans);
    PolledFrom(c, launched, script, |observed|);
    FreshLanes(lanes);
  }

  /** A batch that starts cool is launched, polled and closed. */
  lemma RunUnfolds(c: Config, lanes: seq<Lane>, stop: bool, observed: seq<Event>, script: Script)
    requires script.safeAtStart
    ensures var o := RunBatch(c, lanes, stop, observed, script);
      var launched := LaunchAll(c, Batch(Fresh(lanes), stop, observed), script.plans, 0);
      && (o.polled, o.why) == Polled(c, launched, script)
      && o.batch == Finish(c, o.polled, script.closing, script.start, script.duration)
  {
  }

  function Polled(c: Config, b: Batch, script: Script): (Batch, Break) {
    if AnyRunning(b.runs)
    then PollUntilDone(c, b, script.ticks, script.start, script.duration, script.start - ERROR_POLL_INTERVAL)
    else (b, AllEnded)
  }

  lemma PolledFrom(c: Config, b: Batch, script: Script, from: nat)
    requires Blames(b, from) && AllEarned(b.runs)
    ensures var (r, why) := Polled(c, b, script);
      && Carries(b, r) && Blames(r, from) && AllEarned(r.runs) && Explains(c, why, r)
      && (why == Deadline ==> exists t :: t in script.ticks && t.now >= script.start + script.duration)
  {
    if AnyRunning(b.runs) {
      PollingKeeps(c, b, script.ticks, script.start, script.duration, script.start - ERROR_POLL_INTERVAL, from);
    }
  }

  lemma LaunchedState(c: Config, lanes: seq<Lane>, stop: bool, observed: seq<Event>, plans: nat -> Plan)
    ensures var launched := LaunchAll(c, Batch(Fresh(lanes), stop, observed), plans, 0);
      && SameLanes(Fresh(lanes), launched.runs) && launched.observed == observed
      && Blames(launched, |observed|) && AllEarned(launched.runs)
  {
    FreshLanes(lanes);
    LaunchKeeps(c, Batch(Fresh(lanes), stop, observed), plans, 0);
  }

  /** A batch too hot to start observes nothing and passes nothing. */
  lemma HotStartPassesNothing(c: Config, lanes: seq<Lane>, stop: bool, observed: seq<Event>, script: Script)
    requires !script.safeAtStart
    ensures var o := RunBatch(c, lanes, stop, observed, script);
      && o.batch.observed == observed && SameLanes(Fresh(lanes), o.batch.runs) && o.batch.stop
      && forall i :: 0 <= i < |o.batch.runs| ==> !o.batch.runs[i].launched && !HasPassed(o.batch.runs[i])
  {
    FreshLanes(lanes);
    ThermalKeeps(c, Batch(Fresh(lanes), stop, observed), false, script.heat);
  }

  // ----- first promise: a passed lane saw no event -----

  /** Every event read during the run, the last forced sweep included, has failed the
      lane that answers for its CPU. */
  lemma EventsFailTheirLanes(c: Config, lanes: seq<Lane>, stop: bool, observed: seq<Event>, script: Script)
    ensures var f := RunBatch(c, lanes, stop, observed, script).batch;
      && |f.runs| == |lanes| && (forall i :: 0 <= i < |lanes| ==> f.runs[i].lane == lanes[i])
      && observed <= f.observed && Blames(f, |observed|)
  {
    if script.safeAtStart {
      PolledState(c, lanes, stop, observed, script);
      var o := RunBatch(c, lanes, stop, observed, script);
      FinishKeepsBlame(c, o.polled, script.closing, script.start, script.duration, |observed|);
    } else {
      HotStartPassesNothing(c, lanes, stop, observed, script);
      FreshLanes(lanes);
    }
  }

  /** No CPU reports for two lanes. */
  ghost predicate DisjointCpus(lanes: seq<Lane>) {
    forall i, j, cpu :: 0 <= i < j < |lanes| && cpu in MceCpus(lanes[i]) ==> cpu !in MceCpus(lanes[j])
  }

  lemma {:induction false} OwnerOfDisjoint(runs: seq<LaneRun>, lanes: seq<Lane>, cpu: int, i: nat, n: nat)
    requires |runs| == |lanes| && i < n <= |runs| && DisjointCpus(lanes) && cpu in MceCpus(lanes[i])
    requires forall j :: 0 <= j < |lanes| ==> runs[j].lane == lanes[j]
    ensures Owner(runs, cpu, n) == Some(i)
  {
    if n - 1 > i {
      OwnerOfDisjoint(runs, lanes, cpu, i, n - 1);
    }
  }

  /** With disjoint CPUs: a passed lane had no event on any CPU it answers for. */
  lemma PassedLaneIsClean(c: Config, lanes: seq<Lane>, stop: bool, observed: seq<Event>, script: Script, i: nat)
    requires i < |lanes| && DisjointCpus(lanes)
    ensures var f := RunBatch(c, lanes, stop, observed, script).batch;
      && |f.runs| == |lanes|
      && (HasPassed(f.runs[i]) ==>
            forall k :: |observed| <= k < |f.observed| && f.observed[k].cpu != -1 ==>
              f.observed[k].cpu !in MceCpus(lanes[i]))
  {
    EventsFailTheirLanes(c, lanes, stop, observed, script);
    var f := RunBatch(c, lanes, stop, observed, script).batch;
    forall k | |observed| <= k < |f.observed| && f.observed[k].cpu != -1 && f.observed[k].cpu in MceCpus(lanes[i])
      ensures !HasPassed(f.runs[i])
    {
      assert Charged(f.runs, f.observed[k]);
      OwnerOfDisjoint(f.runs, lanes, f.observed[k].cpu, i, |lanes|);
    }
  }

  /** Once failed, a lane stays failed through the rest of the polls and the closing. */
  lemma FailureIsFinal(c: Config, b: Batch, script: Script, last: real, i: nat)
    requires i < |b.runs| && HasFailed(b.runs[i])
    ensures var polled := PollUntilDone(c, b, script.ticks, script.start, script.duration, last).0;
      && |polled.runs| == |b.runs| && HasFailed(polled.runs[i])
      && |Finish(c, polled, script.closing, script.start, script.duration).runs| == |b.runs|
      && HasFailed(Finish(c, polled, script.closing, script.start, script.duration).runs[i])
  {
    PollingKeeps(c, b, script.ticks, script.start, script.duration, last, |b.observed|);
    var polled := PollUntilDone(c, b, script.ticks, script.start, script.duration, last).0;
    assert Carries(b, polled);
    FinishKeepsBlame(c, polled, script.closing, script.start, script.duration, |b.observed|);
  }

  // ----- second promise: a pass was earned -----

  /** What stopping the lanes does to one of them. */
  lemma {:induction false} TerminatedLane(c: Config, b: Batch, closing: Closing, k: nat, i: nat)
    requires i < |b.runs|
    ensures |TerminateAll(c, b, closing, k).runs| == |b.runs|
    ensures var r := b.runs[i];
      var f := TerminateAll(c, b, closing, k).runs[i];
      && (i < k ==> f == r)
      && f.launched == r.launched && (HasFailed(f) || f.verdict == r.verdict)
      && (r.terminated ==> HasFailed(f) || f == r)
    decreases |b.runs| - k
  {
    if k < |b.runs| {
      var e := closing.endings(k);
      var t := Terminate(c, b, k, e);
      var next := if t.runs[k].launched then Drain(c, t, k, e) else t;
      StoppedLane(c, b, e, k, i);
      TerminatedLane(c, next, closing, k + 1, i);
    }
  }

  lemma StoppedLane(c: Config, b: Batch, e: Ending, k: nat, i: nat)
    requires i < |b.runs| && k < |b.runs|
    ensures var t := Terminate(c, b, k, e);
      var r, f := b.runs[i], (if t.runs[k].launched then Drain(c, t, k, e) else t).runs[i];
      && (i != k ==> f == r)
      && f.launched == r.launched && (HasFailed(f) || f.verdict == r.verdict)
      && (HasFailed(r) ==> HasFailed(f))
      && (r.terminated ==> HasFailed(f) || f == r)
  {
  }

  lemma {:induction false} ChargedLane(c: Config, b: Batch, events: seq<Event>, force: bool, i: nat)
    requires i < |b.runs|
    ensures |ApplyAll(c, b, events, force).0.runs| == |b.runs|
    ensures HasFailed(ApplyAll(c, b, events, force).0.runs[i]) || ApplyAll(c, b, events, force).0.runs[i] == b.runs[i]
    decreases |events|
  {
    if events != [] {
      var t := ApplyEvent(c, b, events[0], force);
      ApplyEventKeeps(c, b, events[0], force);
      ApplyAllKeeps(c, t, events[1..], force);
      assert HasFailed(t.runs[i]) || t.runs[i] == b.runs[i];
      ChargedLane(c, t, events[1..], force, i);
    }
  }

  lemma {:induction false} UnreadableLane(c: Config, b: Batch, f: Fault, k: nat, i: nat)
    requires i < |b.runs|
    ensures |FailOpen(c, b, f, k).runs| == |b.runs|
    ensures HasFailed(FailOpen(c, b, f, k).runs[i]) || FailOpen(c, b, f, k).runs[i] == b.runs[i]
    decreases |b.runs| - k
  {
    if k < |b.runs| {
      var next := if Open(b.runs[k]) then Fail(c, b, k, f) else b;
      assert HasFailed(next.runs[i]) || next.runs[i] == b.runs[i];
      UnreadableLane(c, next, f, k + 1, i);
      FailOpenKeeps(c, next, f, k + 1);
    }
  }

  /** After the last sweep a lane is as it was stopped, or failed. */
  lemma SweptLane(c: Config, b: Batch, closing: Closing, i: nat)
    requires i < |b.runs|
    ensures var t := ApplyMceEvents(c, b, closing.events, closing.unreadable, true).0;
      |t.runs| == |b.runs| && (HasFailed(t.runs[i]) || t.runs[i] == b.runs[i])
  {
    if closing.events.Some? {
      ChargedLane(c, b.(observed := b.observed + closing.events.value), closing.events.value, true, i);
    } else {
      UnreadableLane(c, b, closing.unreadable, 0, i);
    }
  }

  lemma OnlyOpenLanesPass(r: LaneRun, p: Payload, elapsed: real, interrupted: bool)
    ensures var f := ClassifyLane(r, p, elapsed, interrupted);
      && f.stoppedRunning == r.stoppedRunning
      && (HasPassed(f) ==> HasPassed(r) || (r.verdict.None? && r.launched && !interrupted))
  {
  }

  /** A lane that passes although this program stopped it was undecided when polling
      ended, and the batch did not count as interrupted. */
  lemma StoppedLanePass(c: Config, b: Batch, closing: Closing, start: real, duration: real, i: nat)
    requires i < |b.runs| && AllEarned(b.runs)
    ensures |Finish(c, b, closing, start, duration).runs| == |b.runs|
    ensures var f := Finish(c, b, closing, start, duration).runs[i];
      HasPassed(f) && f.stoppedRunning ==>
        b.runs[i].verdict.None? && b.runs[i].launched && !Interrupted(b, closing, start, duration)
  {
    var asked := b.(stop := b.stop || closing.stopRequested);
    TerminatedLane(c, asked, closing, 0, i);
    var stopped := TerminateAll(c, asked, closing, 0);
    SweptLane(c, stopped, closing, i);
    var charged := ApplyMceEvents(c, stopped, closing.events, closing.unreadable, true).0;
    var interrupted := Interrupted(b, closing, start, duration);
    ClassifyAllSame(charged.runs, closing, closing.now - start, interrupted, 0);
    OnlyOpenLanesPass(charged.runs[i], closing.payloads(i), closing.now - start, interrupted);
    assert Earned(b.runs[i]);
  }

  /** The exit code a lane is judged by: a payload that traps our SIGTERM and exits
      cleanly still counts as stopped by us. */
  function JudgedCode(r: LaneRun): int {
    var reported := if r.returncode.Some? then r.returncode.value else 0;
    if reported == 0 && r.terminated && r.stoppedRunning then -SIGTERM else reported
  }

  /** The payload shows no error, reports success, and was killed by nobody else. */
  ghost predicate ReadsClean(r: LaneRun, p: Payload) {
    && r.launched && p.liveError.None? && p.parsed
    && (KilledByUs(JudgedCode(r)) ==> SignalMatches(r, JudgedCode(r)))
  }

  function JudgedSeconds(r: LaneRun, elapsed: real): real {
    if r.verdict.Some? && r.verdict.value.Passed? then r.verdict.value.seconds else elapsed
  }

  lemma OnlyCleanLanesPass(r: LaneRun, p: Payload, elapsed: real, interrupted: bool)
    requires r.launched
    ensures var f := ClassifyLane(r, p, elapsed, interrupted);
      HasPassed(f) <==>
        && Open(r) && ReadsClean(r, p) && !(interrupted && r.verdict.None?)
        && (KilledByUs(JudgedCode(r)) || JudgedSeconds(r, elapsed) >= STARTUP_WINDOW)
    ensures var f := ClassifyLane(r, p, elapsed, interrupted);
      f.verdict.None? <==>
        && r.verdict.None? && ReadsClean(r, p) && interrupted
        && (KilledByUs(JudgedCode(r)) || elapsed >= STARTUP_WINDOW)
    ensures var f := ClassifyLane(r, p, elapsed, interrupted);
      HasPassed(f) ==> f.verdict.value.seconds == JudgedSeconds(r, elapsed)
    ensures HasPassed(ClassifyLane(r, p, elapsed, interrupted)) ==>
      ReadsClean(ClassifyLane(r, p, elapsed, interrupted), p)
  {
  }

  /** Closing reads every lane's payload again: what passes then reads clean, also where
      an earlier poll had passed it. */
  lemma PassedLaneReadsClean(c: Config, lanes: seq<Lane>, stop: bool, observed: seq<Event>, script: Script, i: nat)
    requires i < |lanes|
    ensures var f := RunBatch(c, lanes, stop, observed, script).batch;
      |f.runs| == |lanes| && (HasPassed(f.runs[i]) ==> ReadsClean(f.runs[i], script.closing.payloads(i)))
  {
    if !script.safeAtStart {
      HotStartPassesNothing(c, lanes, stop, observed, script);
      FreshLanes(lanes);
      return;
    }
    PolledState(c, lanes, stop, observed, script);
    FinishReadsClean(c, RunBatch(c, lanes, stop, observed, script).polled, script.closing, script.start,
      script.duration, i);
  }

  lemma FinishReadsClean(c: Config, b: Batch, closing: Closing, start: real, duration: real, i: nat)
    requires i < |b.runs| && AllEarned(b.runs)
    ensures |Finish(c, b, closing, start, duration).runs| == |b.runs|
    ensures var f := Finish(c, b, closing, start, duration).runs[i];
      HasPassed(f) ==> ReadsClean(f, closing.payloads(i))
  {
    var asked := b.(stop := b.stop || closing.stopRequested);
    TerminatedLane(c, asked, closing, 0, i);
    var stopped := TerminateAll(c, asked, closing, 0);
    SweptLane(c, stopped, closing, i);
    var charged := ApplyMceEvents(c, stopped, closing.events, closing.unreadable, true).0;
    var interrupted := Interrupted(b, closing, start, duration);
    ClassifyAllSame(charged.runs, closing, closing.now - start, interrupted, 0);
    assert Earned(b.runs[i]);
    if charged.runs[i].launched {
      OnlyCleanLanesPass(charged.runs[i], closing.payloads(i), closing.now - start, interrupted);
    }
  }

  /** The clock does not run backwards from the polls to the closing. */
  ghost predicate ClockForward(script: Script) {
    forall t :: t in script.ticks ==> t.now <= script.closing.now
  }

  /** A pass of a lane this program stopped before its time is possible in three ways
      only: polling ended on another lane's failed exit, event or containment fault, and
      none of them raised the stop flag. */
  lemma UnearnedPassNeedsSilentBreak(
    c: Config, lanes: seq<Lane>, stop: bool, observed: seq<Event>, script: Script, i: nat)
    requires i < |lanes| && ClockForward(script)
    requires RunBatch(c, lanes, stop, observed, script).why != OutOfTicks
    ensures var o := RunBatch(c, lanes, stop, observed, script);
      && |o.batch.runs| == |lanes|
      && (HasPassed(o.batch.runs[i]) && o.batch.runs[i].stoppedRunning &&
          script.closing.now - script.start < script.duration ==>
            && !o.polled.stop && !script.closing.stopRequested && |lanes| >= 2
            && (if c.stopOnFirstFailure then o.why == FailedExit else o.why == Blamed || o.why == Breached))
  {
    if !script.safeAtStart {
      HotStartPassesNothing(c, lanes, stop, observed, script);
      FreshLanes(lanes);
      return;
    }
    PolledState(c, lanes, stop, observed, script);
    var o := RunBatch(c, lanes, stop, observed, script);
    StoppedLanePass(c, o.polled, script.closing, script.start, script.duration, i);
    if o.polled.runs[i].verdict.None? && o.polled.runs[i].launched {
      assert Earned(o.polled.runs[i]) && Running(o.polled.runs[i]);
      if SomeFailed(o.polled) {
        var j :| 0 <= j < |o.polled.runs| && HasFailed(o.polled.runs[j]);
        assert j != i;
      }
    }
  }

  /** A batch of one lane never passes it unearned. */
  lemma SingleLanePassIsEarned(c: Config, lane: Lane, stop: bool, observed: seq<Event>, script: Script)
    requires ClockForward(script)
    requires RunBatch(c, [lane], stop, observed, script).why != OutOfTicks
    ensures var o := RunBatch(c, [lane], stop, observed, script);
      && |o.batch.runs| == 1
      && (HasPassed(o.batch.runs[0]) ==>
            !o.batch.runs[0].stoppedRunning || script.closing.now - script.start >= script.duration)
  {
    UnearnedPassNeedsSilentBreak(c, [lane], stop, observed, script, 0);
  }

  // ----- the exception is real -----

  /** Closing as usual: the lane runs, obeys SIGTERM, leaves no trace of an error. */
  ghost predicate QuietClosing(closing: Closing, i: nat) {
    && closing.events == Some([])
    && closing.endings(i).running && closing.endings(i).code == -SIGTERM && closing.endings(i).signals == [SIGTERM]
    && closing.endings(i).stopFault.None? && closing.endings(i).drainFault.None?
    && closing.payloads(i).liveError.None? && closing.payloads(i).parsed
  }

  lemma {:induction false} QuietTermination(c: Config, b: Batch, closing: Closing, k: nat, i: nat)
    requires k <= i < |b.runs| && QuietClosing(closing, i) && Running(b.runs[i]) && !b.runs[i].terminated
    ensures |TerminateAll(c, b, closing, k).runs| == |b.runs|
    ensures TerminateAll(c, b, closing, k).runs[i] ==
      b.runs[i].(returncode := Some(-SIGTERM), terminated := true, sentSignals := [SIGTERM], stoppedRunning := true)
    decreases |b.runs| - k
  {
    var e := closing.endings(k);
    var t := Terminate(c, b, k, e);
    var next := if t.runs[k].launched then Drain(c, t, k, e) else t;
    assert forall j :: 0 <= j < |b.runs| && j != k ==> next.runs[j] == b.runs[j];
    if k < i {
      QuietTermination(c, next, closing, k + 1, i);
    } else {
      TerminatedLane(c, next, closing, k + 1, i);
    }
  }

  /** A quiet lane still running when polling ends is left undecided where a stop is up
      before the duration is over, and otherwise passes with the time that went by: the
      stop flag decides, not the time it ran. */
  lemma RunningLaneVerdict(c: Config, b: Batch, closing: Closing, start: real, duration: real, i: nat)
    requires i < |b.runs| && Running(b.runs[i]) && !b.runs[i].terminated && QuietClosing(closing, i)
    ensures |Finish(c, b, closing, start, duration).runs| == |b.runs|
    ensures var f := Finish(c, b, closing, start, duration).runs[i];
      && f.stoppedRunning
      && f.verdict == if (b.stop || closing.stopRequested) && closing.now - start < duration then None
                      else Some(Passed(closing.now - start))
  {
    var asked := b.(stop := b.stop || closing.stopRequested);
    QuietTermination(c, asked, closing, 0, i);
    var stopped := TerminateAll(c, asked, closing, 0);
    var charged := ApplyMceEvents(c, stopped, closing.events, closing.unreadable, true).0;
    assert charged.runs == stopped.runs;
    ClassifyAllSame(charged.runs, closing, closing.now - start, Interrupted(b, closing, start, duration), 0);
    assert SIGTERM in [SIGTERM];
    assert SignalMatches(charged.runs[i], -SIGTERM);
  }

  /** Over a whole batch: the verdict of a lane undecided when polling ends, whose
      closing is quiet. */
  lemma CutShortLaneVerdict(
    c: Config, lanes: seq<Lane>, stop: bool, observed: seq<Event>, script: Script, i: nat)
    requires i < |RunBatch(c, lanes, stop, observed, script).polled.runs| && QuietClosing(script.closing, i)
    requires var r := RunBatch(c, lanes, stop, observed, script).polled.runs[i]; r.verdict.None? && r.launched
    ensures var o := RunBatch(c, lanes, stop, observed, script);
      && |o.batch.runs| == |lanes| && i < |lanes|
      && o.batch.runs[i].verdict ==
           if (o.polled.stop || script.closing.stopRequested) && script.closing.now - script.start < script.duration
           then None
           else Some(Passed(script.closing.now - script.start))
  {
    if script.safeAtStart {
      PolledState(c, lanes, stop, observed, script);
      var polled := RunBatch(c, lanes, stop, observed, script).polled;
      assert Earned(polled.runs[i]);
      RunningLaneVerdict(c, polled, script.closing, script.start, script.duration, i);
    } else {
      FreshLanes(lanes);
    }
  }

  const NO_FAULT := Fault("", Other)

  const LANES := [Lane(0, [0], []), Lane(1, [1], [])]

  const QUIET_ENDING := Ending(true, -SIGTERM, [SIGTERM], None, None)

  const DEAD_ENDING := Ending(false, 1, [], None, None)

  const CLEAN := Payload(None, true, NO_FAULT)

  /** Lane 0 exits by itself with an error its output shows; lane 1 runs on. */
  const FAILING_TICK := Tick(false, true, NO_FAULT, Some([]), NO_FAULT, 10.0,
    (i: nat) => LaneTick(None, if i ==
      0 then Some(1) else None, DEAD_ENDING, Payload(None, false, NO_FAULT), None, None))

  const CUT_SHORT := Script(true, NO_FAULT, (i: nat) => Start(false), 0.0, 600.0, [FAILING_TICK],
    Closing(false, 11.0, Some([]), NO_FAULT, (i: nat) => QUIET_ENDING, (i: nat) => CLEAN))

  const STRICT := Config(true)

  function Launched(lane: Lane): LaneRun {
    LaneRun(lane, true, None, None, false, [], false)
  }

  lemma CutShortLaunch()
    ensures LaunchAll(STRICT, Batch(Fresh(LANES), false, []), CUT_SHORT.plans, 0) ==
      Batch([Launched(LANES[0]), Launched(LANES[1])], false, [])
  {
    FreshLanes(LANES);
    var b0 := Batch(Fresh(LANES), false, []);
    var b1 := b0.(runs := b0.runs[0 := b0.runs[0].(launched := true)]);
    var b2 := b1.(runs := b1.runs[1 := b1.runs[1].(launched := true)]);
    assert LaunchAll(STRICT, b2, CUT_SHORT.plans, 2) == b2;
    assert b2.runs == [Launched(LANES[0]), Launched(LANES[1])];
  }

  lemma CutShortPoll()
    ensures var b := Batch([Launched(LANES[0]), Launched(LANES[1])], false, []);
      var (r, why) := Poll(STRICT, b, FAILING_TICK, 0.0, 600.0, true);
      why == Some(FailedExit) && !r.stop && |r.runs| == 2 && r.runs[1] == Launched(LANES[1])
  {
    var b := Batch([Launched(LANES[0]), Launched(LANES[1])], false, []);
    assert b.observed + [] == b.observed;
    assert ApplyMceEvents(STRICT, b, Some([]), NO_FAULT, false) == (b, false);
    assert PollBackendErrors(STRICT, b, FAILING_TICK, 2) == (b, false);
    assert PollBackendErrors(STRICT, b, FAILING_TICK, 1) == (b, false);
    assert PollBackendErrors(STRICT, b, FAILING_TICK, 0) == (b, false);
    var closed := CloseExited(STRICT, b, FAILING_TICK, 0, 10.0);
    assert HasFailed(closed.runs[0]);
    assert closed.runs[1] == Launched(LANES[1]);
  }

  /** Polling stops ten seconds into a ten-minute batch because lane 0 failed. Lane 1
      is then stopped by this program, and recorded as passed. */
  lemma FailedExitInventsAPass()
    ensures var o := RunBatch(STRICT, LANES, false, [], CUT_SHORT);
      && o.why == FailedExit && |o.batch.runs| == 2
      && HasPassed(o.batch.runs[1]) && o.batch.runs[1].stoppedRunning
      && CUT_SHORT.closing.now - CUT_SHORT.start < CUT_SHORT.duration
  {
    CutShortLaunch();
    CutShortPoll();
    var b := Batch([Launched(LANES[0]), Launched(LANES[1])], false, []);
    assert Running(b.runs[0]);
    var polled := Poll(STRICT, b, FAILING_TICK, 0.0, 600.0, true).0;
    assert Running(polled.runs[1]);
    RunningLaneVerdict(STRICT, polled, CUT_SHORT.closing, 0.0, 600.0, 1);
  }
}
