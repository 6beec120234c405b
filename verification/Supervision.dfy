/** One supervised batch of stress lanes, as decisions over what was observed: which
    verdict each lane ends with, and why the batch ended. */
module Supervision {
  import opened Wrappers

  const ERROR_POLL_INTERVAL := 5.0
  const STALL_GRACE := 5.0
  const STARTUP_WINDOW := 2.0
  const SIGTERM := 15

  datatype Kind = Startup | Stall | Killed | Timeout | Mce | MceUnattributed | Thermal | Other

  datatype Fault = Fault(message: string, kind: Kind)

  datatype Verdict = Passed(seconds: real) | Failed(fault: Fault)

  datatype Lane = Lane(coreId: int, cpus: seq<int>, siblingCpus: seq<int>)

  function MceCpus(lane: Lane): seq<int> {
    if lane.siblingCpus != [] then lane.siblingCpus else lane.cpus
  }

  /** A lane's process and verdict. `stoppedRunning` records that it was still running
      when this program stopped it. */
  datatype LaneRun = LaneRun(
    lane: Lane,
    launched: bool,
    returncode: Option<int>,
    verdict: Option<Verdict>,
    terminated: bool,
    sentSignals: seq<int>,
    stoppedRunning: bool)

  datatype Event = Event(cpu: int, message: string)

  datatype Config = Config(stopOnFirstFailure: bool)

  datatype Batch = Batch(runs: seq<LaneRun>, stop: bool, observed: seq<Event>)

  predicate Running(r: LaneRun) {
    r.verdict.None? && r.launched && r.returncode.None?
  }

  /** No failure so far: undecided or passed. */
  predicate Open(r: LaneRun) {
    r.verdict.None? || r.verdict.value.Passed?
  }

  predicate AnyRunning(runs: seq<LaneRun>) {
    exists i :: 0 <= i < |runs| && Running(runs[i])
  }

  // ----- what the outside world answers -----

  /** The backend's reading of a finished payload. */
  datatype Payload = Payload(liveError: Option<Fault>, parsed: bool, parseFault: Fault)

  /** The stop of one lane: still running or not, the exit code, the signals sent. */
  datatype Ending = Ending(
    running: bool, code: int, signals: seq<int>, stopFault: Option<Fault>, drainFault: Option<Fault>)

  datatype LaneTick = LaneTick(
    complaint: Option<Fault>, exited: Option<int>, ending: Ending, payload: Payload,
    breach: Option<Fault>, stalled: Option<Fault>)

  datatype Tick = Tick(
    stopRequested: bool, safe: bool, heat: Fault, events: Option<seq<Event>>, unreadable: Fault, now: real,
    lanes: nat -> LaneTick)

  datatype Closing = Closing(
    stopRequested: bool, now: real, events: Option<seq<Event>>, unreadable: Fault,
    endings: nat -> Ending, payloads: nat -> Payload)

  // ----- failing a lane -----

  function Fail(c: Config, b: Batch, i: nat, fault: Fault): Batch
    requires i < |b.runs|
  {
    b.(runs := b.runs[i := b.runs[i].(verdict := Some(Failed(fault)))], stop := b.stop || c.stopOnFirstFailure)
  }

  /** The open lane with the lowest core id, among the first `n`. */
  function FirstOpen(runs: seq<LaneRun>, n: nat): (r: Option<nat>)
    requires n <= |runs|
    ensures r.Some? ==> r.value < n && Open(runs[r.value])
  {
    if n == 0 then None
    else
      var best := FirstOpen(runs, n - 1);
      if !Open(runs[n - 1]) then best
      else if best.None? || runs[n - 1].lane.coreId < runs[best.value].lane.coreId then Some(n - 1)
      else best
  }

  function FirstUndecided(runs: seq<LaneRun>, n: nat): (r: Option<nat>)
    requires n <= |runs|
    ensures r.Some? ==> r.value < n && runs[r.value].verdict.None?
  {
    if n == 0 then None
    else
      var best := FirstUndecided(runs, n - 1);
      if runs[n - 1].verdict.Some? then best
      else if best.None? || runs[n - 1].lane.coreId < runs[best.value].lane.coreId then Some(n - 1)
      else best
  }

  /** A watch that is not safe fails the first undecided lane and stops the batch. */
  function ThermalFailed(c: Config, b: Batch, safe: bool, heat: Fault): (Batch, bool) {
    if safe then (b, false)
    else
      var first := FirstUndecided(b.runs, |b.runs|);
      var t := if first.Some? then Fail(c, b, first.value, heat) else b;
      (t.(stop := true), true)
  }

  // ----- kernel events -----

  /** The lane a CPU's events are charged to: the last of the first `n` that lists it. */
  function Owner(runs: seq<LaneRun>, cpu: int, n: nat): (r: Option<nat>)
    requires n <= |runs|
    ensures r.Some? ==> r.value < n && cpu in MceCpus(runs[r.value].lane)
  {
    if n == 0 then None
    else if cpu in MceCpus(runs[n - 1].lane) then Some(n - 1)
    else Owner(runs, cpu, n - 1)
  }

  predicate Overridable(kind: Kind) {
    kind == Startup || kind == Stall || kind == Killed || kind == Timeout
  }

  function Target(b: Batch, e: Event): (r: Option<nat>)
    ensures r.Some? ==> r.value < |b.runs|
  {
    if e.cpu == -1 then FirstOpen(b.runs, |b.runs|) else Owner(b.runs, e.cpu, |b.runs|)
  }

  predicate Charges(b: Batch, e: Event, force: bool) {
    var target := Target(b, e);
    && target.Some?
    && var r := b.runs[target.value];
       Open(r) || (force && e.cpu != -1 && Overridable(r.verdict.value.fault.kind))
  }

  /** One event: it fails the lane it is charged to; an unattributed one stops the batch. */
  function ApplyEvent(c: Config, b: Batch, e: Event, force: bool): Batch {
    if Charges(b, e, force) then
      var t := Fail(c, b, Target(b, e).value, Fault("MCE: " + e.message, if e.cpu == -1 then MceUnattributed else Mce));
      if e.cpu == -1 then t.(stop := true) else t
    else b
  }

  function ApplyAll(c: Config, b: Batch, events: seq<Event>, force: bool): (Batch, bool)
    decreases |events|
  {
    if events == [] then (b, false)
    else
      var (t, hit) := ApplyAll(c, ApplyEvent(c, b, events[0], force), events[1..], force);
      (t, hit || Charges(b, events[0], force))
  }

  /** An unreadable log fails every lane that has not failed yet. */
  function FailOpen(c: Config, b: Batch, fault: Fault, i: nat): Batch
    decreases |b.runs| - i
  {
    if i >= |b.runs| then b
    else FailOpen(c, if Open(b.runs[i]) then Fail(c, b, i, fault) else b, fault, i + 1)
  }

  function ApplyMceEvents(
    c: Config, b: Batch, events: Option<seq<Event>>, unreadable: Fault, force: bool): (Batch, bool) {
    if events.None? then (FailOpen(c, b, unreadable, 0).(stop := true), true)
    else ApplyAll(c, b.(observed := b.observed + events.value), events.value, force)
  }

  // ----- classification -----

  predicate KilledByUs(code: int) {
    code == -9 || code == -15 || code == 137 || code == 143
  }

  predicate SignalMatches(r: LaneRun, code: int) {
    r.terminated && exists s :: s in r.sentSignals && (code == -s || code == 128 + s)
  }

  /** The verdict of a payload that is gone; None where a cut-short one earned nothing. */
  function ClassifyCompleted(r: LaneRun, p: Payload, elapsed: real, interrupted: bool): Option<Verdict> {
    var reported := if r.launched && r.returncode.Some? then r.returncode.value else 0;
    var code := if reported == 0 && r.terminated && r.stoppedRunning then -SIGTERM else reported;
    if p.liveError.Some? then Some(Failed(p.liveError.value))
    else if KilledByUs(code) && !SignalMatches(r, code) then Some(Failed(Fault("killed externally", Killed)))
    else if !p.parsed then Some(Failed(p.parseFault))
    else if !KilledByUs(code) && elapsed < STARTUP_WINDOW then Some(Failed(Fault("exited at startup", Startup)))
    else if interrupted then None
    else Some(Passed(elapsed))
  }

  /** Stop one lane and collect its output. */
  function Terminate(c: Config, b: Batch, i: nat, e: Ending): Batch
    requires i < |b.runs|
  {
    var r := b.runs[i];
    if !r.launched || r.terminated then b
    else if e.stopFault.Some? then Fail(c, b, i, e.stopFault.value)
    else
      var stopped := r.returncode.None? && e.running;
      b.(runs := b.runs[i := r.(returncode := if r.returncode.Some? then r.returncode else Some(e.code),
                                terminated := true, sentSignals := e.signals, stoppedRunning := stopped)])
  }

  function Drain(c: Config, b: Batch, i: nat, e: Ending): Batch
    requires i < |b.runs|
  {
    if e.drainFault.Some? && Open(b.runs[i]) then Fail(c, b, i, e.drainFault.value) else b
  }

  // ----- the polls -----

  /** The first undecided lane with a recorded error fails. */
  function PollBackendErrors(c: Config, b: Batch, t: Tick, i: nat): (Batch, bool)
    decreases |b.runs| - i
  {
    if i >= |b.runs| then (b, false)
    else if b.runs[i].verdict.None? && t.lanes(i).complaint.Some? then
      (Fail(c, b, i, t.lanes(i).complaint.value), c.stopOnFirstFailure)
    else PollBackendErrors(c, b, t, i + 1)
  }

  /** One lane whose payload has exited gets its verdict. */
  function CloseExited(c: Config, b: Batch, t: Tick, i: nat, elapsed: real): (r: Batch)
    requires i < |b.runs|
    ensures |r.runs| == |b.runs|
  {
    var tick := t.lanes(i);
    var code := if b.runs[i].returncode.Some? then b.runs[i].returncode else tick.exited;
    var gone := b.(runs := b.runs[i := b.runs[i].(returncode := code)]);
    var stopped := Drain(c, Terminate(c, gone, i, tick.ending), i, tick.ending);
    if stopped.runs[i].verdict.None? then
      stopped.(runs := stopped.runs[i := stopped.runs[i].(verdict := ClassifyCompleted(stopped.runs[i], tick.payload,
        elapsed, false))])
    else stopped
  }

  predicate HasExited(r: LaneRun, t: LaneTick) {
    r.verdict.None? && r.launched && (r.returncode.Some? || t.exited.Some?)
  }

  /** Lanes are closed in order up to the first that failed. */
  function PollExits(c: Config, b: Batch, t: Tick, i: nat, elapsed: real): (Batch, bool)
    decreases |b.runs| - i
  {
    if i >= |b.runs| then (b, false)
    else if !HasExited(b.runs[i], t.lanes(i)) then PollExits(c, b, t, i + 1, elapsed)
    else
      var closed := CloseExited(c, b, t, i, elapsed);
      if closed.runs[i].verdict.Some? && closed.runs[i].verdict.value.Failed? then (closed, c.stopOnFirstFailure)
      else PollExits(c, closed, t, i + 1, elapsed)
  }

  function PollContainment(c: Config, b: Batch, t: Tick, i: nat): (Batch, bool)
    decreases |b.runs| - i
  {
    if i >= |b.runs| then (b, false)
    else if Running(b.runs[i]) && t.lanes(i).breach.Some? then (Fail(c, b, i, t.lanes(i).breach.value), true)
    else PollContainment(c, b, t, i + 1)
  }

  function PollStalls(c: Config, b: Batch, t: Tick, i: nat): (Batch, bool)
    decreases |b.runs| - i
  {
    if i >= |b.runs| then (b, false)
    else if Running(b.runs[i]) && t.lanes(i).stalled.Some? then
      (Fail(c, b, i, t.lanes(i).stalled.value), c.stopOnFirstFailure)
    else PollStalls(c, b, t, i + 1)
  }

  // ----- the loop -----

  /** Why polling ended; OutOfTicks only means the observations stop here. */
  datatype Break =
    | Stopped | Overheated | Blamed | Complained | FailedExit
    | AllEnded | Breached | StalledOut | Deadline | OutOfTicks

  /** One pass over the polls: the batch after it, and why it ended, if it did. */
  function Poll(c: Config, b: Batch, t: Tick, start: real, duration: real, errorsDue: bool): (Batch, Option<Break>) {
    if b.stop || t.stopRequested then (b.(stop := true), Some(Stopped))
    else
      var (b1, hot) := ThermalFailed(c, b, t.safe, t.heat);
      if hot then (b1, Some(Overheated))
      else
        var (b2, hit) := ApplyMceEvents(c, b1, t.events, t.unreadable, false);
        if hit then (b2, Some(Blamed))
        else
          var (b3, complained) := if errorsDue then PollBackendErrors(c, b2, t, 0) else (b2, false);
          if complained then (b3, Some(Complained))
          else
            var (b4, exitFailed) := PollExits(c, b3, t, 0, t.now - start);
            if exitFailed then (b4, Some(FailedExit))
            else PollRunning(c, b4, t, start, duration)
  }

  function PollRunning(c: Config, b: Batch, t: Tick, start: real, duration: real): (Batch, Option<Break>) {
    if !AnyRunning(b.runs) then (b, Some(AllEnded))
    else
      var (b1, breached) := PollContainment(c, b, t, 0);
      if breached then (b1, Some(Breached))
      else
        var (b2, stalledOut) := if t.now - start < STALL_GRACE then (b1, false) else PollStalls(c, b1, t, 0);
        if stalledOut then (b2, Some(StalledOut))
        else if t.now >= start + duration then (b2, Some(Deadline))
        else (b2, None)
  }

  function PollUntilDone(
    c: Config, b: Batch, ticks: seq<Tick>, start: real, duration: real, lastErrorPoll: real): (Batch, Break)
    decreases |ticks|
  {
    if ticks == [] then (b, OutOfTicks)
    else
      var t := ticks[0];
      var due := t.now - lastErrorPoll >= ERROR_POLL_INTERVAL;
      var (b1, why) := Poll(c, b, t, start, duration, due);
      if why.Some? then (b1, why.value)
      else PollUntilDone(c, b1, ticks[1..], start, duration, if due then t.now else lastErrorPoll)
  }

  // ----- closing the batch -----

  function TerminateAll(c: Config, b: Batch, closing: Closing, i: nat): Batch
    decreases |b.runs| - i
  {
    if i >= |b.runs| then b
    else
      var e := closing.endings(i);
      var t := Terminate(c, b, i, e);
      TerminateAll(c, if t.runs[i].launched then Drain(c, t, i, e) else t, closing, i + 1)
  }

  function ClassifyLane(r: LaneRun, p: Payload, elapsed: real, interrupted: bool): LaneRun {
    if r.launched && Open(r) then
      var runtime := if r.verdict.Some? then r.verdict.value.seconds else elapsed;
      r.(verdict := ClassifyCompleted(r, p, runtime, interrupted && r.verdict.None?))
    else r
  }

  function ClassifyAll(runs: seq<LaneRun>, closing: Closing, elapsed: real, interrupted: bool, i: nat): seq<LaneRun>
    decreases |runs| - i
  {
    if i >= |runs| then runs
    else
      ClassifyAll(runs[i := ClassifyLane(runs[i], closing.payloads(i), elapsed, interrupted)], closing, elapsed,
        interrupted, i + 1)
  }

  predicate Interrupted(b: Batch, closing: Closing, start: real, duration: real) {
    (b.stop || closing.stopRequested) && closing.now - start < duration
  }

  /** Stop everything, take the last events, and settle what is still open. */
  function Finish(c: Config, b: Batch, closing: Closing, start: real, duration: real): Batch {
    var stopped := TerminateAll(c, b.(stop := b.stop || closing.stopRequested), closing, 0);
    var (charged, _) := ApplyMceEvents(c, stopped, closing.events, closing.unreadable, true);
    charged.(runs := ClassifyAll(charged.runs, closing, closing.now - start, Interrupted(b, closing, start, duration),
      0))
  }

  // ----- a whole run -----

  /** How launching one lane goes; a stop may be requested just before its process starts. */
  datatype Plan = Refused(fault: Fault) | Start(stopRequested: bool)

  datatype Script = Script(
    safeAtStart: bool, heat: Fault, plans: nat -> Plan, start: real, duration: real, ticks: seq<Tick>, closing: Closing)

  function Fresh(lanes: seq<Lane>): seq<LaneRun> {
    if lanes == [] then []
    else [LaneRun(lanes[0], false, None, None, false, [], false)] + Fresh(lanes[1..])
  }

  /** Lanes are launched in order up to the first that is refused or stopped. */
  function LaunchAll(c: Config, b: Batch, plans: nat -> Plan, i: nat): Batch
    decreases |b.runs| - i
  {
    if i >= |b.runs| then b
    else
      match plans(i)
      case Refused(fault) => Fail(c, b, i, fault)
      case Start(stopRequested) =>
        if b.stop || stopRequested then b.(stop := true)
        else LaunchAll(c, b.(runs := b.runs[i := b.runs[i].(launched := true)]), plans, i + 1)
  }

  datatype Outcome = Outcome(batch: Batch, why: Break, polled: Batch)

  /** The whole batch; `polled` is its state when polling ended. */
  function RunBatch(c: Config, lanes: seq<Lane>, stop: bool, observed: seq<Event>, script: Script): Outcome {
    var b := Batch(Fresh(lanes), stop, observed);
    var (b1, hot) := ThermalFailed(c, b, script.safeAtStart, script.heat);
    if hot then Outcome(b1, Overheated, b1)
    else
      var launched := LaunchAll(c, b1, script.plans, 0);
      var (polled, why) :=
        if AnyRunning(launched.runs)
        then PollUntilDone(c, launched, script.ticks, script.start, script.duration, script.start - ERROR_POLL_INTERVAL)
        else (launched, AllEnded);
      Outcome(Finish(c, polled, script.closing, script.start, script.duration), why, polled)
  }
}
