/** The kernel-log watch: every new hardware error is reported exactly once. */
module Detector {
  import opened Wrappers

  const MIN_INTERVAL := 5.0

  /** What the classifier makes of one message; -1 is an unknown CPU or bank. */
  datatype Fault = Fault(cpu: int, bank: int, message: string, corrected: bool)

  /** A log line: its leading timestamp, if it has one, and what its body reports. */
  datatype Line = Line(stamp: Option<real>, fault: Option<Fault>)

  datatype Event = Event(rawTs: real, fault: Fault)

  type Key = (real, int, int)

  function KeyOf(e: Event): Key {
    (e.rawTs, e.fault.cpu, e.fault.bank)
  }

  predicate Counts(line: Line, baseline: real) {
    line.stamp.Some? && line.stamp.value > baseline && line.fault.Some?
  }

  function EventOf(line: Line): Event
    requires line.stamp.Some? && line.fault.Some?
  {
    Event(line.stamp.value, line.fault.value)
  }

  /** One pass over the lines: the events not seen before, and everything seen since. */
  function Scan(lines: seq<Line>, baseline: real, seen: set<Key>): (seq<Event>, set<Key>) {
    if lines == [] then ([], seen)
    else if Counts(lines[0], baseline) && KeyOf(EventOf(lines[0])) !in seen then
      var e := EventOf(lines[0]);
      var (rest, after) := Scan(lines[1..], baseline, seen + {KeyOf(e)});
      ([e] + rest, after)
    else Scan(lines[1..], baseline, seen)
  }

  /** The keys a log reports since the baseline. */
  function Keys(lines: seq<Line>, baseline: real): set<Key> {
    set line | line in lines && Counts(line, baseline) :: KeyOf(EventOf(line))
  }

  function EventKeys(es: seq<Event>): set<Key> {
    set e | e in es :: KeyOf(e)
  }

  // ----- what one pass reports -----

  /** A pass reports each unseen key of the log exactly once and remembers them all. */
  lemma {:induction false} ScanReportsEachKeyOnce(lines: seq<Line>, baseline: real, seen: set<Key>)
    ensures var (events, after) := Scan(lines, baseline, seen);
      && after == seen + Keys(lines, baseline)
      && EventKeys(events) == Keys(lines, baseline) - seen
      && forall i, j :: 0 <= i < j < |events| ==> KeyOf(events[i]) != KeyOf(events[j])
  {
    if lines != [] {
      var isNew := Counts(lines[0], baseline) && KeyOf(EventOf(lines[0])) !in seen;
      var s := if isNew then seen + {KeyOf(EventOf(lines[0]))} else seen;
      ScanReportsEachKeyOnce(lines[1..], baseline, s);
      KeysCons(lines, baseline);
      var rest := Scan(lines[1..], baseline, s).0;
      if isNew {
        var e := EventOf(lines[0]);
        assert EventKeys([e] + rest) == {KeyOf(e)} + EventKeys(rest);
        forall j | 0 <= j < |rest|
          ensures KeyOf(rest[j]) != KeyOf(e)
        {
          assert KeyOf(rest[j]) in EventKeys(rest);
        }
      }
    }
  }

  lemma KeysCons(lines: seq<Line>, baseline: real)
    requires lines != []
    ensures Keys(lines, baseline) ==
      (if Counts(lines[0], baseline) then {KeyOf(EventOf(lines[0]))} else {}) + Keys(lines[1..], baseline)
  {
    assert forall line :: line in lines <==> line == lines[0] || line in lines[1..];
  }

  lemma {:induction false} ScanConcat(a: seq<Line>, b: seq<Line>, baseline: real, seen: set<Key>)
    ensures var (first, mid) := Scan(a, baseline, seen);
      var (second, after) := Scan(b, baseline, mid);
      Scan(a + b, baseline, seen) == (first + second, after)
  {
    if a == [] {
      assert a + b == b;
      assert [] + Scan(b, baseline, seen).0 == Scan(b, baseline, seen).0;
    } else {
      assert (a + b)[1..] == a[1..] + b && (a + b)[0] == a[0];
      var isNew := Counts(a[0], baseline) && KeyOf(EventOf(a[0])) !in seen;
      var s := if isNew then seen + {KeyOf(EventOf(a[0]))} else seen;
      ScanConcat(a[1..], b, baseline, s);
      var (first, mid) := Scan(a[1..], baseline, s);
      var second := Scan(b, baseline, mid).0;
      if isNew {
        var e := [EventOf(a[0])];
        assert e + (first + second) == (e + first) + second;
      }
    }
  }

  lemma ScanOne(line: Line, baseline: real, seen: set<Key>)
    ensures Scan([line], baseline, seen) ==
      if Counts(line, baseline) && KeyOf(EventOf(line)) !in seen
      then ([EventOf(line)], seen + {KeyOf(EventOf(line))})
      else ([], seen)
  {
    assert [line][1..] == [];
    if Counts(line, baseline) {
      assert [EventOf(line)] + [] == [EventOf(line)];
    }
  }

  lemma {:induction false} ScanOfKnownLines(lines: seq<Line>, baseline: real, seen: set<Key>)
    requires Keys(lines, baseline) <= seen
    ensures Scan(lines, baseline, seen) == ([], seen)
  {
    if lines != [] {
      KeysCons(lines, baseline);
      ScanOfKnownLines(lines[1..], baseline, seen);
    }
  }

  /** A line newer than the baseline that reports this fault. */
  ghost predicate Shows(line: Line, baseline: real, e: Event) {
    line.stamp == Some(e.rawTs) && e.rawTs > baseline && line.fault == Some(e.fault)
  }

  /** What a read leaves: every fault newer than the baseline is known, what was reported
      is shown by some line and was not known before, and nothing was reported twice. */
  ghost predicate TakesIn(lines: seq<Line>, baseline: real, was: set<Key>, events: seq<Event>, seen: set<Key>) {
    && was <= seen
    && (forall line, e :: line in lines && Shows(line, baseline, e) ==> (e.rawTs, e.fault.cpu, e.fault.bank) in seen)
    && (forall k :: k in seen - was ==> exists e :: e in events && k == (e.rawTs, e.fault.cpu, e.fault.bank))
    && (forall e :: e in events ==>
          && (e.rawTs, e.fault.cpu, e.fault.bank) in seen - was
          && exists line :: line in lines && Shows(line, baseline, e))
    && (forall i, j :: 0 <= i < j < |events| ==>
          events[i].rawTs != events[j].rawTs || events[i].fault.cpu != events[j].fault.cpu ||
          events[i].fault.bank != events[j].fault.bank)
  }

  lemma {:induction false} ScannedAreShown(lines: seq<Line>, baseline: real, seen: set<Key>)
    ensures forall e :: e in Scan(lines, baseline, seen).0 ==> exists line :: line in lines && Shows(line, baseline, e)
  {
    if lines != [] {
      var isNew := Counts(lines[0], baseline) && KeyOf(EventOf(lines[0])) !in seen;
      var s := if isNew then seen + {KeyOf(EventOf(lines[0]))} else seen;
      ScannedAreShown(lines[1..], baseline, s);
      forall e | e in Scan(lines, baseline, seen).0
        ensures exists line :: line in lines && Shows(line, baseline, e)
      {
        if e in Scan(lines[1..], baseline, s).0 {
          var line :| line in lines[1..] && Shows(line, baseline, e);
          assert line in lines;
        } else {
          assert lines[0] in lines && Shows(lines[0], baseline, e);
        }
      }
    }
  }

  lemma ScanTakesIn(lines: seq<Line>, baseline: real, seen: set<Key>)
    ensures TakesIn(lines, baseline, seen, Scan(lines, baseline, seen).0, Scan(lines, baseline, seen).1)
  {
    ScanReportsEachKeyOnce(lines, baseline, seen);
    ScannedAreShown(lines, baseline, seen);
    var (events, after) := Scan(lines, baseline, seen);
    forall line, e | line in lines && Shows(line, baseline, e)
      ensures KeyOf(e) in after
    {
      assert Counts(line, baseline) && EventOf(line) == e;
    }
    forall k | k in after - seen
      ensures exists e :: e in events && k == KeyOf(e)
    {
      assert k in EventKeys(events);
    }
    forall e | e in events
      ensures KeyOf(e) in after - seen
    {
      assert KeyOf(e) in EventKeys(events);
    }
  }

  // ----- polling a growing log -----

  /** The detector's memory between polls. */
  datatype Watch = Watch(baseline: real, lastRead: real, seen: set<Key>)

  /** One poll; None is the error raised when the log cannot be read. */
  function Check(w: Watch, force: bool, now: real, log: Option<seq<Line>>): (Watch, Option<seq<Event>>) {
    if !force && now - w.lastRead < MIN_INTERVAL then (w, Some([]))
    else if log.None? then (w, None)
    else
      var (events, seen) := Scan(log.value, w.baseline, w.seen);
      (Watch(w.baseline, now, seen), Some(events))
  }

  /** A poll of a log of which `visible` lines exist so far, or which is unreadable. */
  datatype Poll = Poll(force: bool, now: real, visible: Option<nat>)

  ghost predicate Growing(log: seq<Line>, polls: seq<Poll>, from: nat)
    decreases |polls|
  {
    polls != [] ==>
      && (polls[0].visible.Some? ==> from <= polls[0].visible.value <= |log|)
      && Growing(log, polls[1..], if polls[0].visible.Some? then polls[0].visible.value else from)
  }

  function Visible(log: seq<Line>, p: Poll): Option<seq<Line>> {
    if p.visible.Some? && p.visible.value <= |log| then Some(log[..p.visible.value]) else None
  }

  /** Everything the polls report, in order. */
  function Reported(w: Watch, log: seq<Line>, polls: seq<Poll>): seq<Event>
    decreases |polls|
  {
    if polls == [] then []
    else
      var (after, events) := Check(w, polls[0].force, polls[0].now, Visible(log, polls[0]));
      (if events.Some? then events.value else []) + Reported(after, log, polls[1..])
  }

  ghost predicate EndsWithFullRead(log: seq<Line>, polls: seq<Poll>) {
    && polls != []
    && polls[|polls| - 1].force && polls[|polls| - 1].visible == Some(|log|)
  }

  lemma PrefixThenRest(log: seq<Line>, baseline: real, n: nat, m: nat)
    requires n <= m <= |log|
    ensures var seen := Keys(log[..n], baseline);
      && Scan(log[..m], baseline, seen) == Scan(log[n..m], baseline, seen)
      && Scan(log[n..m], baseline, seen).1 == Keys(log[..m], baseline)
  {
    var seen := Keys(log[..n], baseline);
    assert log[..m] == log[..n] + log[n..m];
    ScanOfKnownLines(log[..n], baseline, seen);
    ScanConcat(log[..n], log[n..m], baseline, seen);
    assert [] + Scan(log[n..m], baseline, seen).0 == Scan(log[n..m], baseline, seen).0;
    ScanReportsEachKeyOnce(log[n..m], baseline, seen);
    assert Keys(log[..m], baseline) == Keys(log[..n], baseline) + Keys(log[n..m], baseline);
  }

  predicate Reads(w: Watch, p: Poll) {
    p.visible.Some? && (p.force || p.now - w.lastRead >= MIN_INTERVAL)
  }

  lemma GrowingFromLess(log: seq<Line>, polls: seq<Poll>, n: nat, m: nat)
    requires n <= m && Growing(log, polls, m)
    ensures Growing(log, polls, n)
  {
    if polls != [] && polls[0].visible.None? {
      GrowingFromLess(log, polls[1..], n, m);
    }
  }

  /** From a state that has read the first `n` lines, the polls report the rest. */
  lemma {:induction false} PollsReportTheRest(w: Watch, log: seq<Line>, polls: seq<Poll>, n: nat)
    requires n <= |log| && w.seen == Keys(log[..n], w.baseline)
    requires Growing(log, polls, n) && EndsWithFullRead(log, polls)
    ensures Reported(w, log, polls) == Scan(log[n..], w.baseline, w.seen).0
    decreases |polls|
  {
    var p := polls[0];
    var (after, events) := Check(w, p.force, p.now, Visible(log, p));
    if |polls| > 1 {
      assert polls[1..][|polls| - 2] == polls[|polls| - 1];
    }
    if !Reads(w, p) {
      assert after == w && (events == None || events == Some([]));
      GrowingFromLess(log, polls[1..], n, if p.visible.Some? then p.visible.value else n);
      PollsReportTheRest(w, log, polls[1..], n);
    } else {
      var m := p.visible.value;
      PrefixThenRest(log, w.baseline, n, m);
      assert log[n..] == log[n..m] + log[m..];
      ScanConcat(log[n..m], log[m..], w.baseline, w.seen);
      if |polls| == 1 {
        assert log[m..] == [] && Reported(after, log, polls[1..]) == [];
      } else {
        PollsReportTheRest(after, log, polls[1..], m);
      }
    }
  }

  /** However a growing log is polled, throttled or unreadable anywhere as long as the
      last poll is a full one, the reports put together are those of a single pass over
      the final log: each new key once, at its first line, in log order. */
  lemma PollingIsOnePass(baseline: real, lastRead: real, log: seq<Line>, polls: seq<Poll>)
    requires Growing(log, polls, 0) && EndsWithFullRead(log, polls)
    ensures var events := Reported(Watch(baseline, lastRead, {}), log, polls);
      && events == Scan(log, baseline, {}).0
      && EventKeys(events) == Keys(log, baseline)
      && forall i, j :: 0 <= i < j < |events| ==> KeyOf(events[i]) != KeyOf(events[j])
  {
    PollsReportTheRest(Watch(baseline, lastRead, {}), log, polls, 0);
    assert log[0..] == log;
    ScanReportsEachKeyOnce(log, baseline, {});
  }

  // ----- the detector -----

  /** The timestamp the observation window starts after; None is the error raised when
      the log or its last line is unreadable. */
  function BaselineOf(log: Option<seq<Line>>): Option<real> {
    if log.None? then None
    else if log.value == [] then Some(0.0)
    else log.value[|log.value| - 1].stamp
  }

  class ErrorDetector {
    var baseline: Option<real>
    var lastRead: real
    var seen: set<Key>

    constructor ()
      ensures baseline == None
    {
      baseline, lastRead, seen := None, 0.0, {};
    }

    function Memory(): Watch
      requires baseline.Some?
      reads this
    {
      Watch(baseline.value, lastRead, seen)
    }

    /** Forget what was seen and take the log's end as baseline; false is the error, which
        changes nothing. */
    method Reset(log: Option<seq<Line>>) returns (ok: bool)
      modifies this
      ensures ok <==> log.Some? && (log.value == [] || log.value[|log.value| - 1].stamp.Some?)
      ensures ok ==>
        && baseline == (if log.value == [] then Some(0.0) else log.value[|log.value| - 1].stamp)
        && lastRead == 0.0 && seen == {}
      ensures !ok ==> baseline == old(baseline) && lastRead == old(lastRead) && seen == old(seen)
    {
      var start := BaselineOf(log);
      if start.None? {
        return false;
      }
      baseline, lastRead, seen := start, 0.0, {};
      return true;
    }

    /** Consume what is new; None is the error raised without a baseline or a log. */
    method CheckMce(force: bool, now: real, log: Option<seq<Line>>) returns (result: Option<seq<Event>>)
      modifies this
      ensures old(baseline).None? ==> result == None && baseline == None
      ensures old(baseline).Some? ==> baseline.Some? && (Memory(), result) == Check(old(Memory()), force, now, log)
      ensures old(baseline).Some? && !force && now - old(lastRead) < 5.0 ==>
        result == Some([]) && lastRead == old(lastRead) && seen == old(seen)
      ensures old(baseline).Some? && (force || now - old(lastRead) >= 5.0) && log.None? ==>
        result == None && lastRead == old(lastRead) && seen == old(seen)
      ensures old(baseline).Some? && (force || now - old(lastRead) >= 5.0) && log.Some? ==>
        result.Some? && lastRead == now && TakesIn(log.value, baseline.value, old(seen), result.value, seen)
    {
      if baseline.Some? && log.Some? {
        ScanTakesIn(log.value, baseline.value, seen);
      }
      if baseline.None? {
        return None;
      }
      if !force && now - lastRead < MIN_INTERVAL {
        return Some([]);
      }
      if log.None? {
        return None;
      }
      lastRead := now;
      var lines := log.value;
      var events: seq<Event> := [];
      for i := 0 to |lines|
        invariant baseline == old(baseline) && lastRead == now
        invariant (events, seen) == Scan(lines[..i], baseline.value, old(seen))
      {
        var line := lines[i];
        assert lines[..i + 1] == lines[..i] + [line];
        ScanConcat(lines[..i], [line], baseline.value, old(seen));
        ScanOne(line, baseline.value, seen);
        assert events + [] == events;
        if line.stamp.None? || line.stamp.value <= baseline.value || line.fault.None? {
          continue;
        }
        var e := EventOf(line);
        if KeyOf(e) in seen {
          continue;
        }
        seen := seen + {KeyOf(e)};
        events := events + [e];
      }
      assert lines[..|lines|] == lines;
      return Some(events);
    }
  }
}
