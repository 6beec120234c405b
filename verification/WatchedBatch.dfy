/** A supervised batch and the kernel log it watches, together: what is in the log fails
    the lane that answers for it. */
module WatchedBatch {
  import opened Wrappers
  import opened Supervision
  import opened Verdicts
  import opened HonestVerdicts
  import D = Detector

  // ----- what the supervisor is told of the log -----

  /** The part of the detector's events the supervisor looks at. */
  function Tell(events: seq<D.Event>): seq<Event> {
    if events == [] then [] else [Event(events[0].fault.cpu, events[0].fault.message)] + Tell(events[1..])
  }

  function Told(events: Option<seq<D.Event>>): Option<seq<Event>> {
    if events.None? then None else Some(Tell(events.value))
  }

  lemma {:induction false} TellConcat(a: seq<D.Event>, b: seq<D.Event>)
    ensures Tell(a + b) == Tell(a) + Tell(b)
  {
    if a == [] {
      assert a + b == b;
    } else {
      assert (a + b)[1..] == a[1..] + b;
      TellConcat(a[1..], b);
    }
  }

  lemma {:induction false} TellAt(events: seq<D.Event>, k: nat)
    requires k < |events|
    ensures |Tell(events)| == |events| && Tell(events)[k].cpu == events[k].fault.cpu
  {
    if |events| > 1 {
      TellAt(events[1..], if k > 0 then k - 1 else 0);
    }
  }

  function Look(w: D.Watch, log: seq<D.Line>, p: D.Poll): (D.Watch, Option<seq<D.Event>>) {
    D.Check(w, p.force, p.now, D.Visible(log, p))
  }

  /** Tick by tick, the events are what one detector makes of one growing log. */
  ghost predicate Fed(ticks: seq<Tick>, w: D.Watch, log: seq<D.Line>, polls: seq<D.Poll>)
    decreases |ticks|
  {
    && |polls| == |ticks|
    && (ticks != [] ==>
          var (after, events) := Look(w, log, polls[0]);
          ticks[0].events == Told(events) && Fed(ticks[1..], after, log, polls[1..]))
  }

  function WatchAfter(w: D.Watch, log: seq<D.Line>, polls: seq<D.Poll>): D.Watch
    decreases |polls|
  {
    if polls == [] then w else WatchAfter(Look(w, log, polls[0]).0, log, polls[1..])
  }

  function Heard(events: Option<seq<D.Event>>): seq<D.Event> {
    if events.Some? then events.value else []
  }

  lemma {:induction false} ReportedThenOne(w: D.Watch, log: seq<D.Line>, polls: seq<D.Poll>, p: D.Poll)
    ensures D.Reported(w, log, polls + [p]) ==
      D.Reported(w, log, polls) + Heard(Look(WatchAfter(w, log, polls), log, p).1)
    decreases |polls|
  {
    if polls == [] {
      assert polls + [p] == [p] && [p][1..] == [];
    } else {
      assert (polls + [p])[0] == polls[0] && (polls + [p])[1..] == polls[1..] + [p];
      ReportedThenOne(Look(w, log, polls[0]).0, log, polls[1..], p);
    }
  }

  // ----- what a batch reads -----

  predicate LooksAtLog(b: Batch, t: Tick) {
    !b.stop && !t.stopRequested && t.safe
  }

  /** One poll adds what it was told to what was observed, and nothing else does. */
  lemma PollObserves(c: Config, b: Batch, t: Tick, start: real, duration: real, due: bool)
    ensures Poll(c, b, t, start, duration, due).0.observed ==
      b.observed + if LooksAtLog(b, t) && t.events.Some? then t.events.value else []
  {
    ThermalKeeps(c, b, t.safe, t.heat);
    if LooksAtLog(b, t) {
      EventsObserved(c, b, t.events, t.unreadable, false);
      var (b2, hit) := ApplyMceEvents(c, b, t.events, t.unreadable, false);
      if !hit {
        BackendErrorsKeep(c, b2, t, 0);
        LateObservesNothing(c, if due then PollBackendErrors(c, b2, t, 0).0 else b2, t, start, duration);
      }
    }
  }

  lemma LateObservesNothing(c: Config, b: Batch, t: Tick, start: real, duration: real)
    ensures var b4 := PollExits(c, b, t, 0, t.now - start).0;
      b4.observed == b.observed && PollRunning(c, b4, t, start, duration).0.observed == b.observed
  {
    ExitsKeep(c, b, t, 0, t.now - start);
    PollRunningKeeps(c, PollExits(c, b, t, 0, t.now - start).0, t, start, duration);
  }

  lemma EventsObserved(c: Config, b: Batch, events: Option<seq<Event>>, unreadable: Fault, force: bool)
    ensures ApplyMceEvents(c, b, events, unreadable, force).0.observed ==
      b.observed + if events.Some? then events.value else []
  {
    if events.None? {
      FailOpenKeeps(c, b, unreadable, 0);
    } else {
      ApplyAllKeeps(c, b.(observed := b.observed + events.value), events.value, force);
    }
  }

  /** How many polls looked at the log before polling ended. */
  ghost function Looked(c: Config, b: Batch, ticks: seq<Tick>, start: real, duration: real, last: real): nat
    decreases |ticks|
  {
    if ticks == [] || !LooksAtLog(b, ticks[0]) then 0
    else
      var due := ticks[0].now - last >= ERROR_POLL_INTERVAL;
      var (next, why) := Poll(c, b, ticks[0], start, duration, due);
      if why.Some? then 1 else 1 + Looked(c, next, ticks[1..], start, duration, if due then ticks[0].now else last)
  }

  /** One poll: it ends polling, or looks at the log and goes on. */
  lemma PollOnce(c: Config, b: Batch, ticks: seq<Tick>, start: real, duration: real, last: real)
    returns (next: Batch, ended: bool, lastNext: real)
    requires ticks != []
    ensures ended ==>
      && PollUntilDone(c, b, ticks, start, duration, last).0 == next
      && Looked(c, b, ticks, start, duration, last) == if LooksAtLog(b, ticks[0]) then 1 else 0
    ensures !ended ==>
      && LooksAtLog(b, ticks[0])
      && PollUntilDone(c, b, ticks, start, duration, last) ==
        PollUntilDone(c, next, ticks[1..], start, duration, lastNext)
      && Looked(c, b, ticks, start, duration, last) == 1 + Looked(c, next, ticks[1..], start, duration, lastNext)
    ensures next.observed ==
      b.observed + if LooksAtLog(b, ticks[0]) && ticks[0].events.Some? then ticks[0].events.value else []
  {
    var due := ticks[0].now - last >= ERROR_POLL_INTERVAL;
    lastNext := if due then ticks[0].now else last;
    PollObserves(c, b, ticks[0], start, duration, due);
    next := Poll(c, b, ticks[0], start, duration, due).0;
    ended := Poll(c, b, ticks[0], start, duration, due).1.Some?;
  }

  lemma FirstFeed(ticks: seq<Tick>, w: D.Watch, log: seq<D.Line>, polls: seq<D.Poll>)
    requires Fed(ticks, w, log, polls) && ticks != []
    ensures polls != [] && |polls[1..]| == |ticks[1..]|
    ensures ticks[0].events == Told(Look(w, log, polls[0]).1)
    ensures (if ticks[0].events.Some? then ticks[0].events.value else []) == Tell(Heard(Look(w, log, polls[0]).1))
    ensures Fed(ticks[1..], Look(w, log, polls[0]).0, log, polls[1..])
  {
  }

  lemma FewPolls(w: D.Watch, log: seq<D.Line>, polls: seq<D.Poll>)
    ensures D.Reported(w, log, polls[..0]) == []
    ensures polls != [] ==> D.Reported(w, log, polls[..1]) == Heard(Look(w, log, polls[0]).1)
  {
    assert polls[..0] == [];
    if polls != [] {
      assert polls[..1] == [polls[0]] && [polls[0]][1..] == [];
      assert D.Reported(w, log, [polls[0]]) == Heard(Look(w, log, polls[0]).1) + [];
    }
  }

  lemma Associate(a: seq<Event>, b: seq<Event>, c: seq<Event>)
    ensures a + b + c == a + (b + c)
  {
  }

  /** From any point of polling on, what is observed is what the detector reports. */
  lemma {:induction false} PollingObserves(
    c: Config, b: Batch, ticks: seq<Tick>, start: real, duration: real, last: real,
    w: D.Watch, log: seq<D.Line>, polls: seq<D.Poll>)
    requires Fed(ticks, w, log, polls)
    ensures Looked(c, b, ticks, start, duration, last) <= |polls|
    ensures PollUntilDone(c, b, ticks, start, duration, last).0.observed ==
      b.observed + Tell(D.Reported(w, log, polls[..Looked(c, b, ticks, start, duration, last)]))
    decreases |ticks|
  {
    FewPolls(w, log, polls);
    if ticks != [] {
      FirstFeed(ticks, w, log, polls);
      var next, ended, lastNext := PollOnce(c, b, ticks, start, duration, last);
      var (after, events) := Look(w, log, polls[0]);
      if ended {
        assert b.observed + [] == b.observed;
      } else {
        PollingObserves(c, next, ticks[1..], start, duration, lastNext, after, log, polls[1..]);
        var n := Looked(c, next, ticks[1..], start, duration, lastNext);
        OnePollMore(w, log, polls, n);
        Associate(b.observed, Tell(Heard(events)), Tell(D.Reported(after, log, polls[1..][..n])));
      }
    }
  }

  lemma OnePollMore(w: D.Watch, log: seq<D.Line>, polls: seq<D.Poll>, n: nat)
    requires polls != [] && n < |polls|
    ensures var (after, events) := Look(w, log, polls[0]);
      Tell(D.Reported(w, log, polls[..n + 1])) == Tell(Heard(events)) + Tell(D.Reported(after, log, polls[1..][..n]))
  {
    var (after, events) := Look(w, log, polls[0]);
    assert polls[..n + 1][0] == polls[0] && polls[..n + 1][1..] == polls[1..][..n];
    TellConcat(Heard(events), D.Reported(after, log, polls[1..][..n]));
  }

  // ----- a whole batch -----

  /** The polls of a batch that looked at the log, before the forced last look. */
  ghost function LookedInAll(c: Config, lanes: seq<Lane>, stop: bool, observed: seq<Event>, script: Script): nat {
    var launched := LaunchAll(c, Batch(Fresh(lanes), stop, observed), script.plans, 0);
    LookedFrom(c, launched, script)
  }

  ghost function LookedFrom(c: Config, b: Batch, script: Script): nat {
    if AnyRunning(b.runs)
    then Looked(c, b, script.ticks, script.start, script.duration, script.start - ERROR_POLL_INTERVAL)
    else 0
  }

  lemma PolledFromObserves(
    c: Config, b: Batch, script: Script, w: D.Watch, log: seq<D.Line>, polls: seq<D.Poll>)
    requires Fed(script.ticks, w, log, polls)
    ensures LookedFrom(c, b, script) <= |polls|
    ensures Polled(c, b, script).0.observed ==
      b.observed + Tell(D.Reported(w, log, polls[..LookedFrom(c, b, script)]))
  {
    if AnyRunning(b.runs) {
      var last := script.start - ERROR_POLL_INTERVAL;
      PollingObserves(c, b, script.ticks, script.start, script.duration, last, w, log, polls);
    } else {
      assert polls[..0] == [] && Tell([]) == [];
      assert b.observed + [] == b.observed;
    }
  }

  function LastLook(log: seq<D.Line>, now: real): D.Poll {
    D.Poll(true, now, Some(|log|))
  }

  lemma PolledObserves(
    c: Config, lanes: seq<Lane>, stop: bool, observed: seq<Event>, script: Script, w: D.Watch, log: seq<D.Line>,
    polls: seq<D.Poll>)
    requires script.safeAtStart && Fed(script.ticks, w, log, polls)
    ensures var n := LookedInAll(c, lanes, stop, observed, script);
      && n <= |polls|
      && RunBatch(c, lanes, stop, observed, script).polled.observed == observed + Tell(D.Reported(w, log, polls[..n]))
  {
    var launched := LaunchAll(c, Batch(Fresh(lanes), stop, observed), script.plans, 0);
    RunUnfolds(c, lanes, stop, observed, script);
    LaunchedState(c, lanes, stop, observed, script.plans);
    PolledFromObserves(c, launched, script, w, log, polls);
  }

  lemma FinishObserves(c: Config, b: Batch, closing: Closing, start: real, duration: real)
    ensures Finish(c, b, closing, start, duration).observed ==
      b.observed + if closing.events.Some? then closing.events.value else []
  {
    var asked := b.(stop := b.stop || closing.stopRequested);
    TerminateAllCarries(c, asked, closing, 0);
    EventsObserved(c, TerminateAll(c, asked, closing, 0), closing.events, closing.unreadable, true);
  }

  /** The detector is fresh, feeds every poll from one growing log, and is forced to read
      all of it when the batch closes. */
  ghost predicate Watched(
    c: Config, lanes: seq<Lane>, stop: bool, observed: seq<Event>, script: Script, w: D.Watch, log: seq<D.Line>,
    polls: seq<D.Poll>)
  {
    var n := LookedInAll(c, lanes, stop, observed, script);
    && w.seen == {} && Fed(script.ticks, w, log, polls) && D.Growing(log, polls, 0)
    && n <= |polls|
    && script.closing.events == Told(Look(WatchAfter(w, log, polls[..n]), log, LastLook(log, script.closing.now)).1)
  }

  lemma {:induction false} GrowingThenAll(log: seq<D.Line>, polls: seq<D.Poll>, n: nat, from: nat, now: real)
    requires n <= |polls| && from <= |log| && D.Growing(log, polls, from)
    ensures D.Growing(log, polls[..n] + [LastLook(log, now)], from)
    decreases |polls|
  {
    var all := polls[..n] + [LastLook(log, now)];
    if n == 0 {
      assert all == [LastLook(log, now)] && all[1..] == [];
    } else {
      assert all[0] == polls[0] && all[1..] == polls[1..][..n - 1] + [LastLook(log, now)];
      GrowingThenAll(log, polls[1..], n - 1, if polls[0].visible.Some? then polls[0].visible.value else from, now);
    }
  }

  /** A batch has observed, in the end, what one pass over the final log reports. */
  lemma BatchObservesTheLog(
    c: Config, lanes: seq<Lane>, stop: bool, observed: seq<Event>, script: Script, w: D.Watch, log: seq<D.Line>,
    polls: seq<D.Poll>)
    requires script.safeAtStart && Watched(c, lanes, stop, observed, script, w, log, polls)
    ensures RunBatch(c, lanes, stop, observed, script).batch.observed == observed + Tell(D.Scan(log, w.baseline, {}).0)
  {
    var n := LookedInAll(c, lanes, stop, observed, script);
    ObservedInTwoParts(c, lanes, stop, observed, script, w, log, polls);
    LastLookTold(w, log, polls, n, script.closing.now, observed);
  }

  lemma LastLookTold(w: D.Watch, log: seq<D.Line>, polls: seq<D.Poll>, n: nat, now: real, observed: seq<Event>)
    requires w.seen == {} && n <= |polls| && D.Growing(log, polls, 0)
    ensures var told := Told(Look(WatchAfter(w, log, polls[..n]), log, LastLook(log, now)).1);
      && told.Some?
      && observed + Tell(D.Reported(w, log, polls[..n])) + told.value == observed + Tell(D.Scan(log, w.baseline, {}).0)
  {
    LastLookCompletes(w, log, polls, n, now);
    var heard := Look(WatchAfter(w, log, polls[..n]), log, LastLook(log, now)).1;
    Regroup(observed, Tell(D.Reported(w, log, polls[..n])), Tell(Heard(heard)));
  }

  lemma Regroup(a: seq<Event>, b: seq<Event>, c: seq<Event>)
    ensures a + b + c == a + (b + c)
  {
  }

  /** What the polls were told, and what the last look was told. */
  lemma ObservedInTwoParts(
    c: Config, lanes: seq<Lane>, stop: bool, observed: seq<Event>, script: Script, w: D.Watch, log: seq<D.Line>,
    polls: seq<D.Poll>)
    requires script.safeAtStart && Fed(script.ticks, w, log, polls)
    ensures var n := LookedInAll(c, lanes, stop, observed, script);
      && n <= |polls|
      && RunBatch(c, lanes, stop, observed, script).batch.observed ==
           observed + Tell(D.Reported(w, log, polls[..n])) +
           (if script.closing.events.Some? then script.closing.events.value else [])
  {
    PolledObserves(c, lanes, stop, observed, script, w, log, polls);
    RunUnfolds(c, lanes, stop, observed, script);
    var polled := RunBatch(c, lanes, stop, observed, script).polled;
    FinishObserves(c, polled, script.closing, script.start, script.duration);
  }

  /** Whatever was read before, the forced last look makes it one pass over the log. */
  lemma LastLookCompletes(w: D.Watch, log: seq<D.Line>, polls: seq<D.Poll>, n: nat, now: real)
    requires w.seen == {} && n <= |polls| && D.Growing(log, polls, 0)
    ensures var heard := Look(WatchAfter(w, log, polls[..n]), log, LastLook(log, now)).1;
      && heard.Some?
      && Tell(D.Reported(w, log, polls[..n])) + Tell(Heard(heard)) == Tell(D.Scan(log, w.baseline, {}).0)
  {
    var last := LastLook(log, now);
    assert D.Visible(log, last).Some?;
    var heard := Look(WatchAfter(w, log, polls[..n]), log, last).1;
    ReportedThenOne(w, log, polls[..n], last);
    TellConcat(D.Reported(w, log, polls[..n]), Heard(heard));
    GrowingThenAll(log, polls, n, 0, now);
    D.PollingIsOnePass(w.baseline, w.lastRead, log, polls[..n] + [last]);
    assert w == D.Watch(w.baseline, w.lastRead, {});
  }

  /** However the log grew and was polled: a fault line newer than the baseline, naming a
      CPU a lane answers for, has failed that lane when the batch returns. */
  lemma LoggedFaultFailsItsLane(
    c: Config, lanes: seq<Lane>, stop: bool, observed: seq<Event>, script: Script, w: D.Watch, log: seq<D.Line>,
    polls: seq<D.Poll>, line: D.Line, i: nat)
    requires script.safeAtStart && Watched(c, lanes, stop, observed, script, w, log, polls)
    requires i < |lanes| && DisjointCpus(lanes)
    requires line in log && D.Counts(line, w.baseline)
    requires line.fault.value.cpu != -1 && line.fault.value.cpu in MceCpus(lanes[i])
    ensures var f := RunBatch(c, lanes, stop, observed, script).batch;
      |f.runs| == |lanes| && HasFailed(f.runs[i])
  {
    BatchObservesTheLog(c, lanes, stop, observed, script, w, log, polls);
    D.ScanReportsEachKeyOnce(log, w.baseline, {});
    var events := D.Scan(log, w.baseline, {}).0;
    var key := D.KeyOf(D.EventOf(line));
    assert key in D.Keys(log, w.baseline);
    assert key in D.EventKeys(events);
    var e :| e in events && D.KeyOf(e) == key;
    var k :| 0 <= k < |events| && events[k] == e;
    TellAt(events, k);
    EventsFailTheirLanes(c, lanes, stop, observed, script);
    var f := RunBatch(c, lanes, stop, observed, script).batch;
    assert f.observed[|observed| + k].cpu == line.fault.value.cpu;
    assert Charged(f.runs, f.observed[|observed| + k]);
    OwnerOfDisjoint(f.runs, lanes, line.fault.value.cpu, i, |lanes|);
  }
}
