/** The thermal watch, and what its answer says of all readings so far. */
module Thermal {
  import opened Wrappers

  const HYSTERESIS := 5.0

  datatype Reading = Reading(temperature: Option<real>, time: real)

  datatype Limits = Limits(maxTemperature: real, graceSeconds: real, hardMargin: real, requireSensor: bool)

  // ----- what a history of readings means -----

  predicate Over(l: Limits, r: Reading) {
    r.temperature.Some? && r.temperature.value >= l.maxTemperature
  }

  predicate Hard(l: Limits, r: Reading) {
    Over(l, r) && r.temperature.value >= l.maxTemperature + l.hardMargin
  }

  predicate Below(l: Limits, r: Reading) {
    r.temperature.Some? && r.temperature.value < l.maxTemperature
  }

  /** Five degrees below the limit. */
  predicate Cool(l: Limits, r: Reading) {
    r.temperature.Some? && r.temperature.value < l.maxTemperature - 5.0
  }

  /** No reading from `j` up to `i` is below the limit. */
  ghost predicate NoneBelow(l: Limits, h: seq<Reading>, j: nat, i: nat)
    requires j <= i < |h|
  {
    forall k :: j <= k <= i ==> !Below(l, h[k])
  }

  /** Reading `j` is the first over the limit since the last one below it, seen from `i`. */
  ghost predicate FirstOver(l: Limits, h: seq<Reading>, j: nat, i: nat)
    requires j <= i < |h|
  {
    && Over(l, h[j]) && NoneBelow(l, h, j, i)
    && forall k :: 0 <= k < j && Over(l, h[k]) ==> !NoneBelow(l, h, k, i)
  }

  /** Reading `i` is over the limit and so was everything for the whole grace period. */
  ghost predicate Sustained(l: Limits, h: seq<Reading>, i: nat)
    requires i < |h|
  {
    && Over(l, h[i])
    && exists j :: 0 <= j <= i && FirstOver(l, h, j, i) && h[i].time - h[j].time >= l.graceSeconds
  }

  ghost predicate Trips(l: Limits, h: seq<Reading>, i: nat)
    requires i < |h|
  {
    Hard(l, h[i]) || Sustained(l, h, i)
  }

  /** Reading `i` tripped the watch and nothing cool enough came after it. */
  ghost predicate Latched(l: Limits, h: seq<Reading>, i: nat)
    requires i < |h|
  {
    Trips(l, h, i) && forall k :: i < k < |h| ==> !Cool(l, h[k])
  }

  ghost predicate Tripped(l: Limits, h: seq<Reading>) {
    exists i :: 0 <= i < |h| && Latched(l, h, i)
  }

  /** Safe to go on after the last reading. */
  ghost predicate Safe(l: Limits, h: seq<Reading>)
    requires h != []
  {
    && !Tripped(l, h)
    && (h[|h| - 1].temperature.None? ==> !l.requireSensor)
  }

  // ----- the start of the current streak -----

  ghost function StreakStart(l: Limits, h: seq<Reading>): (j: Option<nat>)
    ensures j.Some? ==> j.value < |h|
  {
    if h == [] then None
    else
      var last := h[|h| - 1];
      var before := StreakStart(l, h[..|h| - 1]);
      if Below(l, last) then None
      else if Over(l, last) && before.None? then Some(|h| - 1)
      else before
  }

  lemma NoneBelowExtends(l: Limits, h: seq<Reading>, r: Reading, j: nat)
    requires j < |h|
    ensures NoneBelow(l, h + [r], j, |h|) <==> NoneBelow(l, h, j, |h| - 1) && !Below(l, r)
  {
    var g := h + [r];
    if NoneBelow(l, g, j, |h|) {
      assert forall k :: j <= k < |h| ==> h[k] == g[k];
      assert g[|h|] == r;
    }
  }

  lemma AllNoneBelowExtend(l: Limits, h: seq<Reading>, r: Reading)
    ensures forall k: nat :: k < |h| ==>
      (NoneBelow(l, h + [r], k, |h|) <==> NoneBelow(l, h, k, |h| - 1) && !Below(l, r))
  {
    forall k: nat | k < |h|
      ensures NoneBelow(l, h + [r], k, |h|) <==> NoneBelow(l, h, k, |h| - 1) && !Below(l, r)
    {
      NoneBelowExtends(l, h, r, k);
    }
  }

  /** The streak starts at the first over-limit reading with none below it since. */
  lemma {:induction false} StreakIsFirstOver(l: Limits, h: seq<Reading>, j: nat)
    requires j < |h|
    ensures StreakStart(l, h) == Some(j) <==> FirstOver(l, h, j, |h| - 1)
    decreases |h|
  {
    var g := h[..|h| - 1];
    var last := h[|h| - 1];
    assert h == g + [last];
    if j < |g| {
      StreakIsFirstOver(l, g, j);
      NoneBelowExtends(l, g, last, j);
    }
    AllNoneBelowExtend(l, g, last);
    if j < |g| {
      StreakExtends(l, g, last, j);
    } else {
      StreakOpens(l, g, last);
    }
  }

  lemma StreakExtends(l: Limits, g: seq<Reading>, last: Reading, j: nat)
    requires j < |g|
    requires StreakStart(l, g) == Some(j) <==> FirstOver(l, g, j, |g| - 1)
    requires forall k: nat :: k < |g| ==>
      (NoneBelow(l, g + [last], k, |g|) <==> NoneBelow(l, g, k, |g| - 1) && !Below(l, last))
    ensures StreakStart(l, g + [last]) == Some(j) <==> FirstOver(l, g + [last], j, |g|)
  {
    var h := g + [last];
    assert h[..|h| - 1] == g && h[|h| - 1] == last;
    assert forall k: nat :: k < |g| ==> h[k] == g[k];
  }

  lemma {:induction false} NoStreakMeansNoFirst(l: Limits, g: seq<Reading>)
    ensures StreakStart(l, g).None? <==> forall k: nat :: k < |g| && Over(l, g[k]) ==> !NoneBelow(l, g, k, |g| - 1)
    decreases |g|
  {
    if g != [] {
      var p := g[..|g| - 1];
      var last := g[|g| - 1];
      assert g == p + [last];
      NoStreakMeansNoFirst(l, p);
      AllNoneBelowExtend(l, p, last);
      if Over(l, last) {
        assert NoneBelow(l, g, |g| - 1, |g| - 1);
      }
    }
  }

  lemma StreakOpens(l: Limits, g: seq<Reading>, last: Reading)
    requires forall k: nat :: k < |g| ==>
      (NoneBelow(l, g + [last], k, |g|) <==> NoneBelow(l, g, k, |g| - 1) && !Below(l, last))
    ensures StreakStart(l, g + [last]) == Some(|g|) <==> FirstOver(l, g + [last], |g|, |g|)
  {
    var h := g + [last];
    assert h[..|h| - 1] == g && h[|h| - 1] == last;
    assert forall k: nat :: k < |g| ==> h[k] == g[k];
    NoStreakMeansNoFirst(l, g);
  }

  /** A reading trips the watch on its own, or after a streak as long as the grace. */
  lemma TripsAtEnd(l: Limits, h: seq<Reading>)
    requires h != []
    ensures var i := |h| - 1;
      var start := StreakStart(l, h);
      Trips(l, h, i) <==>
      (Hard(l, h[i]) || (Over(l, h[i]) && start.Some? && h[i].time - h[start.value].time >= l.graceSeconds))
  {
    var i := |h| - 1;
    forall j: nat | j <= i
      ensures FirstOver(l, h, j, i) <==> StreakStart(l, h) == Some(j)
    {
      StreakIsFirstOver(l, h, j);
    }
  }

  lemma TripsIsStable(l: Limits, h: seq<Reading>, r: Reading, i: nat)
    requires i < |h|
    ensures Trips(l, h + [r], i) <==> Trips(l, h, i)
  {
    var g := h + [r];
    assert forall k :: 0 <= k <= i ==> g[k] == h[k];
    forall j: nat | j <= i
      ensures NoneBelow(l, g, j, i) <==> NoneBelow(l, h, j, i)
    {
    }
    forall j: nat | j <= i
      ensures FirstOver(l, g, j, i) <==> FirstOver(l, h, j, i)
    {
    }
  }

  lemma LatchedStep(l: Limits, h: seq<Reading>, r: Reading, i: nat)
    requires i < |h|
    ensures Latched(l, h + [r], i) <==> Latched(l, h, i) && !Cool(l, r)
  {
    TripsIsStable(l, h, r, i);
    var g := h + [r];
    assert g[|h|] == r;
    assert forall k :: i < k < |h| ==> g[k] == h[k];
  }

  /** One more reading: it trips, or it clears, or nothing changes. */
  lemma TrippedStep(l: Limits, h: seq<Reading>, r: Reading)
    ensures Tripped(l, h + [r]) <==> (Trips(l, h + [r], |h|) || (Tripped(l, h) && !Cool(l, r)))
  {
    var g := h + [r];
    if Trips(l, g, |h|) {
      assert Latched(l, g, |h|);
    }
    if Tripped(l, h) && !Cool(l, r) {
      var i :| 0 <= i < |h| && Latched(l, h, i);
      LatchedStep(l, h, r, i);
    }
    if Tripped(l, g) && !Trips(l, g, |h|) {
      var i :| 0 <= i < |g| && Latched(l, g, i);
      LatchedStep(l, h, r, i);
    }
  }

  // ----- the watch -----

  /** What the watch remembers: whether it tripped, and until then since when it is over. */
  ghost predicate Remembers(l: Limits, h: seq<Reading>, tripped: bool, overSince: Option<real>) {
    && (tripped <==> Tripped(l, h))
    && (!tripped ==>
          var start := StreakStart(l, h);
          overSince == if start.Some? then Some(h[start.value].time) else None)
  }

  /** The same memory, one reading later. */
  lemma RememberReading(l: Limits, h: seq<Reading>, r: Reading, tripped: bool, overSince: Option<real>)
    requires Remembers(l, h, tripped, overSince)
    ensures Below(l, r) ==> Remembers(l, h + [r], tripped && !Cool(l, r), None)
    ensures r.temperature.None? ==> Remembers(l, h + [r], tripped, overSince)
    ensures Over(l, r) ==>
      var since := if overSince.None? then r.time else overSince.value;
      && (Hard(l, r) || tripped || r.time - since >= l.graceSeconds ==>
            forall x :: Remembers(l, h + [r], true, x))
      && (!Hard(l, r) && !tripped && r.time - since < l.graceSeconds ==> Remembers(l, h + [r], false, Some(since)))
  {
    var g := h + [r];
    assert g[..|g| - 1] == h && g[|g| - 1] == r;
    TrippedStep(l, h, r);
    TripsAtEnd(l, g);
  }

  class ThermalWatch {
    const limits: Limits
    var tripped: bool
    var overSince: Option<real>
    var lastTemperature: Option<real>
    ghost var history: seq<Reading>

    ghost predicate Valid()
      reads this
    {
      Remembers(limits, history, tripped, overSince)
    }

    constructor (limits: Limits)
      ensures Valid() && history == [] && this.limits == limits
    {
      this.limits := limits;
      tripped, overSince, lastTemperature := false, None, None;
      history := [];
    }

    /** Take one reading; the answer depends on the whole history of readings. */
    method Check(temp: Option<real>, now: real) returns (safe: bool)
      requires Valid()
      modifies this
      ensures Valid() && history == old(history) + [Reading(temp, now)]
      ensures safe <==> Safe(limits, history)
      ensures lastTemperature == temp
    {
      ghost var r := Reading(temp, now);
      RememberReading(limits, history, r, tripped, overSince);
      history := history + [r];
      assert history[|history| - 1] == r;
      lastTemperature := temp;
      if temp.None? {
        return !limits.requireSensor && !tripped;
      }
      var limit := limits.maxTemperature;
      if temp.value >= limit {
        if temp.value >= limit + limits.hardMargin {
          tripped := true;
          return false;
        }
        if tripped {
          return false;
        }
        if overSince.None? {
          overSince := Some(now);
        }
        if now - overSince.value >= limits.graceSeconds {
          tripped := true;
          return false;
        }
        return true;
      }
      overSince := None;
      if tripped {
        if temp.value < limit - HYSTERESIS {
          tripped := false;
          return true;
        }
        return false;
      }
      return true;
    }
  }
}
