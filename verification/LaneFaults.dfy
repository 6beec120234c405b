/** What each trouble does: which lane a fault fails, which faults outlive which, and when
    polling and launching stop. */
module LaneFaults {
  import opened Wrappers
  import opened Supervision
  import opened Verdicts
  import opened HonestVerdicts
  import opened BlamelessLanes

  // ----- one fault, one lane -----

  /** The first of the lanes from `from` on that is eligible and has something to show. */
  ghost predicate First(runs: seq<LaneRun>, eligible: LaneRun -> bool, shows: nat -> bool, from: nat, i: nat) {
    && from <= i < |runs| && eligible(runs[i]) && shows(i)
    && forall j: nat :: from <= j < i ==> !(eligible(runs[j]) && shows(j))
  }

  ghost predicate NoneShows(runs: seq<LaneRun>, eligible: LaneRun -> bool, shows: nat -> bool, from: nat) {
    forall j: nat :: from <= j < |runs| ==> !(eligible(runs[j]) && shows(j))
  }

  function Complains(t: Tick): nat -> bool {
    (j: nat) => t.lanes(j).complaint.Some?
  }

  function Breaches(t: Tick): nat -> bool {
    (j: nat) => t.lanes(j).breach.Some?
  }

  function Stalls(t: Tick): nat -> bool {
    (j: nat) => t.lanes(j).stalled.Some?
  }

  predicate Undecided(r: LaneRun) {
    r.verdict.None?
  }

  lemma {:induction false} ComplaintsFrom(c: Config, b: Batch, t: Tick, from: nat, i: nat)
    requires from <= |b.runs|
    ensures NoneShows(b.runs, Undecided, Complains(t), from) ==> PollBackendErrors(c, b, t, from) == (b, false)
    ensures First(b.runs, Undecided, Complains(t), from, i) ==>
      var (r, ended) := PollBackendErrors(c, b, t, from);
      && FailsWith(b, r, i, t.lanes(i).complaint.value) && r.observed == b.observed
      && r.stop == (b.stop || c.stopOnFirstFailure) && ended == c.stopOnFirstFailure
    decreases |b.runs| - from
  {
    if from < |b.runs| && !(Undecided(b.runs[from]) && Complains(t)(from)) {
      ComplaintsFrom(c, b, t, from + 1, i);
    }
  }

  lemma {:induction false} BreachesFrom(c: Config, b: Batch, t: Tick, from: nat, i: nat)
    requires from <= |b.runs|
    ensures NoneShows(b.runs, Running, Breaches(t), from) ==> PollContainment(c, b, t, from) == (b, false)
    ensures First(b.runs, Running, Breaches(t), from, i) ==>
      var (r, ended) := PollContainment(c, b, t, from);
      && FailsWith(b, r, i, t.lanes(i).breach.value) && r.observed == b.observed
      && r.stop == (b.stop || c.stopOnFirstFailure) && ended
    decreases |b.runs| - from
  {
    if from < |b.runs| && !(Running(b.runs[from]) && Breaches(t)(from)) {
      BreachesFrom(c, b, t, from + 1, i);
    }
  }

  lemma {:induction false} StallsFrom(c: Config, b: Batch, t: Tick, from: nat, i: nat)
    requires from <= |b.runs|
    ensures NoneShows(b.runs, Running, Stalls(t), from) ==> PollStalls(c, b, t, from) == (b, false)
    ensures First(b.runs, Running, Stalls(t), from, i) ==>
      var (r, ended) := PollStalls(c, b, t, from);
      && FailsWith(b, r, i, t.lanes(i).stalled.value) && r.observed == b.observed
      && r.stop == (b.stop || c.stopOnFirstFailure) && ended == c.stopOnFirstFailure
    decreases |b.runs| - from
  {
    if from < |b.runs| && !(Running(b.runs[from]) && Stalls(t)(from)) {
      StallsFrom(c, b, t, from + 1, i);
    }
  }

  /** The same poll but for what the backend complains of. */
  ghost predicate AlikeButComplaints(t: Tick, u: Tick) {
    && u == t.(lanes := u.lanes)
    && forall j: nat :: u.lanes(j) == t.lanes(j).(complaint := u.lanes(j).complaint)
  }

  lemma {:induction false} ExitsAlike(c: Config, b: Batch, t: Tick, u: Tick, i: nat, elapsed: real)
    requires AlikeButComplaints(t, u)
    ensures PollExits(c, b, t, i, elapsed) == PollExits(c, b, u, i, elapsed)
    decreases |b.runs| - i
  {
    if i < |b.runs| {
      assert u.lanes(i) == t.lanes(i).(complaint := u.lanes(i).complaint);
      if !HasExited(b.runs[i], t.lanes(i)) {
        ExitsAlike(c, b, t, u, i + 1, elapsed);
      } else {
        var closed := CloseExited(c, b, t, i, elapsed);
        assert closed == CloseExited(c, b, u, i, elapsed);
        ExitsAlike(c, closed, t, u, i + 1, elapsed);
      }
    }
  }

  lemma {:induction false} ContainmentAlike(c: Config, b: Batch, t: Tick, u: Tick, i: nat)
    requires AlikeButComplaints(t, u)
    ensures PollContainment(c, b, t, i) == PollContainment(c, b, u, i)
    decreases |b.runs| - i
  {
    if i < |b.runs| {
      assert u.lanes(i) == t.lanes(i).(complaint := u.lanes(i).complaint);
      ContainmentAlike(c, b, t, u, i + 1);
    }
  }

  lemma {:induction false} StallsAlike(c: Config, b: Batch, t: Tick, u: Tick, i: nat)
    requires AlikeButComplaints(t, u)
    ensures PollStalls(c, b, t, i) == PollStalls(c, b, u, i)
    decreases |b.runs| - i
  {
    if i < |b.runs| {
      assert u.lanes(i) == t.lanes(i).(complaint := u.lanes(i).complaint);
      StallsAlike(c, b, t, u, i + 1);
    }
  }

  lemma PollAlike(c: Config, b: Batch, t: Tick, u: Tick, start: real, duration: real)
    requires AlikeButComplaints(t, u)
    ensures Poll(c, b, t, start, duration, false) == Poll(c, b, u, start, duration, false)
  {
    var b2 := ApplyMceEvents(c, b, t.events, t.unreadable, false).0;
    ExitsAlike(c, b2, t, u, 0, t.now - start);
    var b4 := PollExits(c, b2, t, 0, t.now - start).0;
    ContainmentAlike(c, b4, t, u, 0);
    StallsAlike(c, PollContainment(c, b4, t, 0).0, t, u, 0);
  }

  /** Within five seconds of the last look at the backend's errors the polls are blind to
      them. */
  lemma {:induction false} ComplaintsWaitTheirTurn(
    c: Config, b: Batch, ticks: seq<Tick>, others: seq<Tick>, start: real, duration: real, last: real)
    requires |ticks| == |others| && forall k :: 0 <= k < |ticks| ==> AlikeButComplaints(ticks[k], others[k])
    requires forall t :: t in ticks ==> t.now - last < 5.0
    ensures PollUntilDone(c, b, ticks, start, duration, last) == PollUntilDone(c, b, others, start, duration, last)
    decreases |ticks|
  {
    if ticks != [] {
      assert ticks[0] in ticks && AlikeButComplaints(ticks[0], others[0]);
      PollAlike(c, b, ticks[0], others[0], start, duration);
      assert forall t :: t in ticks[1..] ==> t in ticks;
      ComplaintsWaitTheirTurn(c, Poll(c, b, ticks[0], start, duration, false).0, ticks[1..], others[1..], start,
        duration, last);
    }
  }

  /** After that, a poll that finds nothing else amiss fails the first undecided lane the
      backend has an error of, with that error, and no other lane. */
  lemma ComplaintFailsItsLane(
    c: Config, b: Batch, ticks: seq<Tick>, start: real, duration: real, last: real, i: nat)
    requires ticks != [] && ticks[0].now - last >= 5.0
    requires !b.stop && !ticks[0].stopRequested && ticks[0].safe && ticks[0].events == Some([])
    requires c.stopOnFirstFailure && First(b.runs, Undecided, Complains(ticks[0]), 0, i)
    ensures var (r, why) := PollUntilDone(c, b, ticks, start, duration, last);
      why == Complained && r.stop && FailsWith(b, r, i, ticks[0].lanes(i).complaint.value)
  {
    assert b.(observed := b.observed + []) == b;
    ComplaintsFrom(c, b, ticks[0], 0, i);
  }

  /** While lanes run: a containment fault ends the batch on the first lane that has one,
      whether or not the batch stops on a failure. */
  lemma BreachFailsItsLane(c: Config, b: Batch, t: Tick, start: real, duration: real, i: nat)
    requires First(b.runs, Running, Breaches(t), 0, i)
    ensures var (r, why) := PollRunning(c, b, t, start, duration);
      why == Some(Breached) && FailsWith(b, r, i, t.lanes(i).breach.value)
  {
    BreachesFrom(c, b, t, 0, i);
  }

  /** A stall fails its lane once the grace is over, and nothing before. */
  lemma StallFailsItsLane(c: Config, b: Batch, t: Tick, start: real, duration: real, i: nat)
    requires First(b.runs, Running, Stalls(t), 0, i) && NoneShows(b.runs, Running, Breaches(t), 0)
    ensures var (r, why) := PollRunning(c, b, t, start, duration);
      if t.now - start < 5.0 then r == b
      else
        && FailsWith(b, r, i, t.lanes(i).stalled.value)
        && (c.stopOnFirstFailure ==> why == Some(StalledOut) && r.stop)
  {
    BreachesFrom(c, b, t, 0, i);
    StallsFrom(c, b, t, 0, i);
  }

  // ----- when polling ends -----

  /** A poll after which there is no other. */
  predicate LastPoll(t: Tick, start: real, duration: real) {
    t.stopRequested || !t.safe || t.events.None? || t.now >= start + duration
  }

  lemma LastPollEnds(c: Config, b: Batch, t: Tick, start: real, duration: real, due: bool)
    requires LastPoll(t, start, duration)
    ensures Poll(c, b, t, start, duration, due).1.Some?
  {
  }

  /** Polling ends at the deadline, at a stop, at an unsafe temperature and at an
      unreadable log: nothing observed later has any effect. */
  lemma {:induction false} NothingAfterTheLastPoll(
    c: Config, b: Batch, ticks: seq<Tick>, start: real, duration: real, last: real, k: nat)
    requires k < |ticks| && LastPoll(ticks[k], start, duration)
    ensures PollUntilDone(c, b, ticks, start, duration, last) ==
      PollUntilDone(c, b, ticks[..k + 1], start, duration, last)
    ensures PollUntilDone(c, b, ticks, start, duration, last).1 != OutOfTicks
    decreases |ticks|
  {
    var t := ticks[0];
    var due := t.now - last >= ERROR_POLL_INTERVAL;
    assert ticks[..k + 1][0] == t && ticks[..k + 1][1..] == ticks[1..][..k];
    PollNotOut(c, b, t, start, duration, due);
    if k == 0 {
      LastPollEnds(c, b, t, start, duration, due);
    } else {
      NothingAfterTheLastPoll(c, Poll(c, b, t, start, duration, due).0, ticks[1..], start, duration,
        if due then t.now else last, k - 1);
    }
  }

  lemma PollNotOut(c: Config, b: Batch, t: Tick, start: real, duration: real, due: bool)
    ensures Poll(c, b, t, start, duration, due).1 != Some(OutOfTicks)
  {
  }

  /** No lane runs afterwards that did not run before. */
  ghost predicate NoneStarted(b: Batch, t: Batch) {
    |b.runs| == |t.runs| && forall i :: 0 <= i < |b.runs| && Running(t.runs[i]) ==> Running(b.runs[i])
  }

  lemma NoneStartedTrans(a: Batch, b: Batch, c: Batch)
    requires NoneStarted(a, b) && NoneStarted(b, c)
    ensures NoneStarted(a, c)
  {
  }

  lemma {:induction false} EventsStartNone(c: Config, b: Batch, events: seq<Event>, force: bool)
    ensures NoneStarted(b, ApplyAll(c, b, events, force).0)
    decreases |events|
  {
    if events != [] {
      var t := ApplyEvent(c, b, events[0], force);
      EventsStartNone(c, t, events[1..], force);
      NoneStartedTrans(b, t, ApplyAll(c, t, events[1..], force).0);
    }
  }

  lemma {:induction false} ComplaintsStartNone(c: Config, b: Batch, t: Tick, i: nat)
    ensures NoneStarted(b, PollBackendErrors(c, b, t, i).0)
    decreases |b.runs| - i
  {
    if i < |b.runs| {
      ComplaintsStartNone(c, b, t, i + 1);
    }
  }

  lemma {:induction false} ExitsStartNone(c: Config, b: Batch, t: Tick, i: nat, elapsed: real)
    ensures NoneStarted(b, PollExits(c, b, t, i, elapsed).0)
    decreases |b.runs| - i
  {
    if i < |b.runs| {
      if !HasExited(b.runs[i], t.lanes(i)) {
        ExitsStartNone(c, b, t, i + 1, elapsed);
      } else {
        var closed := CloseExited(c, b, t, i, elapsed);
        assert NoneStarted(b, closed);
        ExitsStartNone(c, closed, t, i + 1, elapsed);
        NoneStartedTrans(b, closed, PollExits(c, closed, t, i + 1, elapsed).0);
      }
    }
  }

  /** Polling also ends once no lane runs any more. */
  lemma PollingEndsWithTheLanes(c: Config, b: Batch, t: Tick, start: real, duration: real, due: bool)
    requires !AnyRunning(b.runs)
    ensures Poll(c, b, t, start, duration, due).1.Some?
  {
    if !b.stop && !t.stopRequested && t.safe && t.events.Some? {
      var b2 := ApplyMceEvents(c, b, t.events, t.unreadable, false).0;
      EventsStartNone(c, b.(observed := b.observed + t.events.value), t.events.value, false);
      ComplaintsStartNone(c, b2, t, 0);
      var b3 := if due then PollBackendErrors(c, b2, t, 0).0 else b2;
      ExitsStartNone(c, b3, t, 0, t.now - start);
      NoneStartedTrans(b, b2, b3);
      NoneStartedTrans(b, b3, PollExits(c, b3, t, 0, t.now - start).0);
    }
  }

  // ----- which fault a lane keeps -----

  /** A lane that has failed is left as it is. */
  ghost predicate KeepsFault(b: Batch, t: Batch, i: nat) {
    i < |b.runs| == |t.runs| && (HasFailed(b.runs[i]) ==> t.runs[i] == b.runs[i])
  }

  lemma KeepsFaultTrans(a: Batch, b: Batch, c: Batch, i: nat)
    requires KeepsFault(a, b, i) && KeepsFault(b, c, i)
    ensures KeepsFault(a, c, i)
  {
  }

  lemma {:induction false} EventsKeepFault(c: Config, b: Batch, events: seq<Event>, i: nat)
    requires i < |b.runs|
    ensures KeepsFault(b, ApplyAll(c, b, events, false).0, i)
    decreases |events|
  {
    if events != [] {
      var t := ApplyEvent(c, b, events[0], false);
      EventsKeepFault(c, t, events[1..], i);
      KeepsFaultTrans(b, t, ApplyAll(c, t, events[1..], false).0, i);
    }
  }

  lemma {:induction false} UnreadableKeepsFault(c: Config, b: Batch, fault: Fault, k: nat, i: nat)
    requires i < |b.runs|
    ensures KeepsFault(b, FailOpen(c, b, fault, k), i)
    decreases |b.runs| - k
  {
    if k < |b.runs| {
      var t := if Open(b.runs[k]) then Fail(c, b, k, fault) else b;
      UnreadableKeepsFault(c, t, fault, k + 1, i);
      KeepsFaultTrans(b, t, FailOpen(c, t, fault, k + 1), i);
    }
  }

  lemma {:induction false} ExitsKeepFault(c: Config, b: Batch, t: Tick, k: nat, i: nat, elapsed: real)
    requires i < |b.runs|
    ensures KeepsFault(b, PollExits(c, b, t, k, elapsed).0, i)
    decreases |b.runs| - k
  {
    if k < |b.runs| {
      if !HasExited(b.runs[k], t.lanes(k)) {
        ExitsKeepFault(c, b, t, k + 1, i, elapsed);
      } else {
        var closed := CloseExited(c, b, t, k, elapsed);
        assert KeepsFault(b, closed, i);
        ExitsKeepFault(c, closed, t, k + 1, i, elapsed);
      }
    }
  }

  lemma {:induction false} LateFaultsKeep(c: Config, b: Batch, t: Tick, k: nat, i: nat)
    requires i < |b.runs|
    ensures KeepsFault(b, PollBackendErrors(c, b, t, k).0, i)
    ensures KeepsFault(b, PollContainment(c, b, t, k).0, i)
    ensures KeepsFault(b, PollStalls(c, b, t, k).0, i)
    decreases |b.runs| - k
  {
    if k < |b.runs| {
      LateFaultsKeep(c, b, t, k + 1, i);
    }
  }

  lemma PollKeepsFault(c: Config, b: Batch, t: Tick, start: real, duration: real, due: bool, i: nat)
    requires i < |b.runs|
    ensures KeepsFault(b, Poll(c, b, t, start, duration, due).0, i)
  {
    if !b.stop && !t.stopRequested && t.safe {
      var b2 := ApplyMceEvents(c, b, t.events, t.unreadable, false).0;
      if t.events.Some? {
        EventsKeepFault(c, b.(observed := b.observed + t.events.value), t.events.value, i);
      } else {
        UnreadableKeepsFault(c, b, t.unreadable, 0, i);
      }
      LateFaultsKeep(c, b2, t, 0, i);
      var b3 := if due then PollBackendErrors(c, b2, t, 0).0 else b2;
      ExitsKeepFault(c, b3, t, 0, i, t.now - start);
      var b4 := PollExits(c, b3, t, 0, t.now - start).0;
      LateFaultsKeep(c, b4, t, 0, i);
      LateFaultsKeep(c, PollContainment(c, b4, t, 0).0, t, 0, i);
    }
  }

  /** While polling goes on, the first fault found is the one a lane keeps. */
  lemma {:induction false} FirstFaultStays(
    c: Config, b: Batch, ticks: seq<Tick>, start: real, duration: real, last: real, i: nat)
    requires i < |b.runs|
    ensures KeepsFault(b, PollUntilDone(c, b, ticks, start, duration, last).0, i)
    decreases |ticks|
  {
    if ticks != [] {
      var due := ticks[0].now - last >= ERROR_POLL_INTERVAL;
      PollKeepsFault(c, b, ticks[0], start, duration, due, i);
      var b1 := Poll(c, b, ticks[0], start, duration, due).0;
      var next := if due then ticks[0].now else last;
      FirstFaultStays(c, b1, ticks[1..], start, duration, next, i);
      KeepsFaultTrans(b, b1, PollUntilDone(c, b1, ticks[1..], start, duration, next).0, i);
    }
  }

  /** A fault of the run rather than of the core: a machine check found at the end
      says more. */
  predicate Weak(kind: Kind) {
    kind in {Startup, Stall, Killed, Timeout}
  }

  ghost predicate Replaceable(r: LaneRun) {
    HasFailed(r) ==> Weak(r.verdict.value.fault.kind)
  }

  ghost predicate BlamedByEvent(r: LaneRun, events: seq<Event>) {
    && HasFailed(r)
    && exists e :: e in events && r.verdict.value.fault ==
         Fault("MCE: " + e.message, if e.cpu == -1 then MceUnattributed else Mce)
  }

  ghost predicate ChargedTo(runs: seq<LaneRun>, e: Event, i: nat) {
    e.cpu != -1 && Owner(runs, e.cpu, |runs|) == Some(i)
  }

  /** The last sweep: a lane an event is charged to ends with the machine check as its
      fault, even where it had failed of something weaker; a lane that failed of anything
      else keeps its fault. */
  lemma {:induction false} LastSweepNamesTheMachineCheck(
    c: Config, b: Batch, events: seq<Event>, i: nat)
    requires i < |b.runs|
    ensures var t := ApplyAll(c, b, events, true).0;
      && |t.runs| == |b.runs|
      && (t.runs[i] == b.runs[i] || BlamedByEvent(t.runs[i], events))
      && (!Replaceable(b.runs[i]) ==> t.runs[i] == b.runs[i])
      && (Replaceable(b.runs[i]) && (exists e :: e in events && ChargedTo(b.runs, e, i)) ==>
            BlamedByEvent(t.runs[i], events))
    decreases |events|
  {
    if events != [] {
      var e := events[0];
      var t := ApplyEvent(c, b, e, true);
      ApplyEventKeeps(c, b, e, true);
      LastSweepNamesTheMachineCheck(c, t, events[1..], i);
      assert forall d :: d in events <==> d == e || d in events[1..];
      forall d | d in events
        ensures Owner(t.runs, d.cpu, |t.runs|) == Owner(b.runs, d.cpu, |b.runs|)
      {
        OwnerByLane(b.runs, t.runs, d.cpu, |b.runs|);
      }
      assert t.runs[i] == b.runs[i] || BlamedByEvent(t.runs[i], [e]);
    }
  }

  lemma {:induction false} StoppingKeepsFault(c: Config, b: Batch, closing: Closing, k: nat, i: nat)
    requires i < |b.runs| && HasFailed(b.runs[i])
    ensures var t := TerminateAll(c, b, closing, k);
      && |t.runs| == |b.runs| && HasFailed(t.runs[i])
      && (t.runs[i].verdict == b.runs[i].verdict ||
          (closing.endings(i).stopFault.Some? && t.runs[i].verdict == Some(Failed(closing.endings(i).stopFault.value))))
    decreases |b.runs| - k
  {
    if k < |b.runs| {
      var t := Terminate(c, b, k, closing.endings(k));
      var next := if t.runs[k].launched then Drain(c, t, k, closing.endings(k)) else t;
      StoppedLane(c, b, closing.endings(k), k, i);
      assert k != i ==> next.runs[i] == b.runs[i];
      StoppingKeepsFault(c, next, closing, k + 1, i);
      if k == i {
        TerminateAllLeaves(c, next, closing, k + 1, i);
      }
    }
  }

  /** The fault a lane failed of is the one reported, unless stopping it fails too or a
      machine check turns up in the last sweep. */
  lemma ReportedFault(c: Config, b: Batch, closing: Closing, start: real, duration: real, i: nat)
    requires i < |b.runs| && HasFailed(b.runs[i])
    ensures |Finish(c, b, closing, start, duration).runs| == |b.runs|
    ensures var f := Finish(c, b, closing, start, duration).runs[i];
      && HasFailed(f)
      && (|| f.verdict == b.runs[i].verdict
          || (closing.endings(i).stopFault.Some? && f.verdict == Some(Failed(closing.endings(i).stopFault.value)))
          || (closing.events.Some? && BlamedByEvent(f, closing.events.value)))
  {
    var asked := b.(stop := b.stop || closing.stopRequested);
    StoppingKeepsFault(c, asked, closing, 0, i);
    var stopped := TerminateAll(c, asked, closing, 0);
    if closing.events.Some? {
      LastSweepNamesTheMachineCheck(c, stopped.(observed := stopped.observed + closing.events.value),
        closing.events.value, i);
    } else {
      UnreadableKeepsFault(c, stopped, closing.unreadable, 0, i);
    }
    var charged := ApplyMceEvents(c, stopped, closing.events, closing.unreadable, true).0;
    ClassifyAllSame(charged.runs, closing, closing.now - start, Interrupted(b, closing, start, duration), 0);
  }

  // ----- launching and leaving nothing behind -----

  /** Lanes are launched in order up to the first that is refused or meets a stop: a
      refusal fails that lane, and nothing after it is touched. */
  lemma {:induction false} LaunchStopsAtTheFirst(c: Config, b: Batch, plans: nat -> Plan, k: nat, n: nat)
    requires k <= n <= |b.runs| && (b.stop ==> n == k)
    requires forall j: nat :: k <= j < n ==> plans(j) == Start(false)
    requires n < |b.runs| ==> b.stop || plans(n) != Start(false)
    ensures var t := LaunchAll(c, b, plans, k);
      && |t.runs| == |b.runs|
      && (forall j :: k <= j < n ==> t.runs[j] == b.runs[j].(launched := true))
      && (forall j :: (0 <= j < k || n < j < |b.runs|) ==> t.runs[j] == b.runs[j])
      && (n < |b.runs| ==>
            if plans(n).Refused? then t.runs[n] == b.runs[n].(verdict := Some(Failed(plans(n).fault)))
            else t.runs[n] == b.runs[n] && t.stop)
    decreases n - k
  {
    if k < n {
      LaunchStopsAtTheFirst(c, b.(runs := b.runs[k := b.runs[k].(launched := true)]), plans, k + 1, n);
    }
  }

  ghost predicate Gone(r: LaneRun) {
    r.launched ==> r.terminated || HasFailed(r)
  }

  lemma {:induction false} AllAreStopped(c: Config, b: Batch, closing: Closing, k: nat, i: nat)
    requires k <= i < |b.runs|
    ensures |TerminateAll(c, b, closing, k).runs| == |b.runs| && Gone(TerminateAll(c, b, closing, k).runs[i])
    decreases i - k
  {
    var t := Terminate(c, b, k, closing.endings(k));
    var next := if t.runs[k].launched then Drain(c, t, k, closing.endings(k)) else t;
    if k < i {
      AllAreStopped(c, next, closing, k + 1, i);
    } else {
      assert Gone(next.runs[i]);
      TerminateAllLeaves(c, next, closing, k + 1, i);
    }
  }

  /** However a batch ended, no lane it launched is left running without being failed. */
  lemma NothingIsLeftRunning(c: Config, b: Batch, closing: Closing, start: real, duration: real, i: nat)
    requires i < |b.runs|
    ensures |Finish(c, b, closing, start, duration).runs| == |b.runs|
    ensures Gone(Finish(c, b, closing, start, duration).runs[i])
  {
    var asked := b.(stop := b.stop || closing.stopRequested);
    AllAreStopped(c, asked, closing, 0, i);
    var stopped := TerminateAll(c, asked, closing, 0);
    SweptLane(c, stopped, closing, i);
    var charged := ApplyMceEvents(c, stopped, closing.events, closing.unreadable, true).0;
    ClassifyAllSame(charged.runs, closing, closing.now - start, Interrupted(b, closing, start, duration), 0);
  }

  lemma {:induction false} EndingFaultStays(c: Config, b: Batch, closing: Closing, k: nat, i: nat)
    requires k <= i < |b.runs| && b.runs[i].launched
    requires (closing.endings(i).stopFault.Some? && !b.runs[i].terminated) || closing.endings(i).drainFault.Some?
    ensures var t := TerminateAll(c, b, closing, k);
      |t.runs| == |b.runs| && HasFailed(t.runs[i])
    decreases i - k
  {
    var t := Terminate(c, b, k, closing.endings(k));
    var next := if t.runs[k].launched then Drain(c, t, k, closing.endings(k)) else t;
    if k < i {
      EndingFaultStays(c, next, closing, k + 1, i);
    } else {
      assert HasFailed(next.runs[i]);
      StoppingKeepsFault(c, next, closing, k + 1, i);
    }
  }

  /** A lane that cannot be stopped, or whose output cannot be read, ends failed. */
  lemma EndingFaultFailsItsLane(c: Config, b: Batch, closing: Closing, start: real, duration: real, i: nat)
    requires i < |b.runs| && b.runs[i].launched
    requires (closing.endings(i).stopFault.Some? && !b.runs[i].terminated) || closing.endings(i).drainFault.Some?
    ensures |Finish(c, b, closing, start, duration).runs| == |b.runs|
    ensures HasFailed(Finish(c, b, closing, start, duration).runs[i])
  {
    var asked := b.(stop := b.stop || closing.stopRequested);
    EndingFaultStays(c, asked, closing, 0, i);
    var stopped := TerminateAll(c, asked, closing, 0);
    EventsAreCharged(c, stopped, closing.events, closing.unreadable, true, |stopped.observed|);
    var charged := ApplyMceEvents(c, stopped, closing.events, closing.unreadable, true).0;
    ClassifyAllSame(charged.runs, closing, closing.now - start, Interrupted(b, closing, start, duration), 0);
  }
}
