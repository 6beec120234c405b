/** The attribution hunt: which cores to leave live in the next probe, and how its
    answer is folded in. A hunt is a value; every operation is total. */
module HuntModel {
  import opened Wrappers
  import opened Bits
  import opened CoreSets
  import opened Json

  datatype Stage = Lead | Probe | Culprit | Exhausted

  datatype Hunt = Hunt(
    stage: Stage,
    candidates: seq<int>,
    pending: seq<seq<int>>,
    queue: seq<seq<int>>,
    inFlight: seq<int>,
    parent: seq<int>,
    guilty: seq<seq<int>>,
    level: int,
    found: seq<int>,
    noReproduce: int,
    launchesDone: int,
    loaded: seq<int>,
    observed: real,
    armed: bool,
    vector: map<int, int>,
    workload: Json)

  // ----- choosing what to probe -----

  /** The two halves of a group; an odd core goes to the first. */
  function Split(group: seq<int>): (seq<int>, seq<int>) {
    var mid := (|group| + 1) / 2;
    (group[..mid], group[mid..])
  }

  function Common(loaded: seq<int>, candidates: seq<int>): seq<int> {
    if loaded == [] then []
    else (if loaded[0] in candidates then [loaded[0]] else []) + Common(loaded[1..], candidates)
  }

  /** A lone suspect under load is asked about before any split; anything else gives no
      lead. */
  function LeadProbe(candidates: seq<int>, loaded: seq<int>): seq<int> {
    var lead := Common(loaded, candidates);
    if |lead| == 1 && |candidates| > 1 then lead else []
  }

  function Abs(n: int): nat {
    if n < 0 then -n else n
  }

  /** The split depth of a hunt over `n` cores. */
  function MaxDepth(n: nat): nat {
    BitLength(Abs(n - 1))
  }

  /** The level given to a split of `size` cores out of `n`, clamped at both ends. */
  function SplitLevel(n: nat, size: nat): int {
    var level := MaxDepth(n) - BitLength(Abs(size - 1)) + 1;
    var atLeastOne := if level < 1 then 1 else level;
    if atLeastOne > MaxDepth(n) then MaxDepth(n) else atLeastOne
  }

  function Fresh(candidates: seq<int>, loaded: seq<int>, observed: real): Hunt {
    Hunt(if LeadProbe(candidates, loaded) != [] then Lead else Probe,
         candidates, [candidates], [], [], [], [], 0, [], 0, 0, loaded, observed, false, map[], Null)
  }

  /** Something was asked: any trace of a mask, an answer or a verdict. */
  predicate Started(s: Hunt) {
    if s.stage == Lead then s.inFlight != []
    else
      || s.stage != Probe
      || s.pending != [s.candidates]
      || s.inFlight != [] || s.queue != [] || s.parent != [] || s.found != [] || s.noReproduce != 0
      || LeadProbe(s.candidates, s.loaded) != []
  }

  /** Move the lone cores at the front of the worklist into `found`. */
  function AbsorbSingles(s: Hunt): Hunt
    decreases |s.pending|
  {
    if s.pending != [] && |s.pending[0]| == 1 then
      AbsorbSingles(s.(found := Sorted(s.found + s.pending[0]), pending := s.pending[1..]))
    else s
  }

  /** Split the front group and put its larger half in flight, or end the hunt. */
  function OpenGroup(s: Hunt): (Hunt, Option<seq<int>>) {
    if s.pending == [] then
      (s.(stage := if s.found != [] then Culprit else Exhausted), None)
    else
      var target := s.pending[0];
      var (left, right) := Split(target);
      (s.(pending := s.pending[1..], parent := target, guilty := [],
          level := SplitLevel(|s.candidates|, |target|),
          queue := [right], inFlight := left),
       Some(left))
  }

  /** The exact live mask of the next probe; an unanswered mask is replayed. */
  function NextLiveSet(s: Hunt): (Hunt, Option<seq<int>>) {
    if s.stage == Culprit || s.stage == Exhausted then (s, None)
    else if s.inFlight != [] then (s, Some(s.inFlight))
    else if s.stage == Lead then
      var lead := LeadProbe(s.candidates, s.loaded);
      (s.(inFlight := lead), Some(lead))
    else if s.queue != [] then
      (s.(inFlight := s.queue[0], queue := s.queue[1..]), Some(s.queue[0]))
    else OpenGroup(AbsorbSingles(s))
  }

  // ----- folding an answer in -----

  function RecordWholeSet(s: Hunt, reproduced: bool): Hunt {
    var t := s.(parent := [], level := 0);
    if reproduced then
      t.(found := Sorted(s.found + s.parent), noReproduce := 0,
         stage := if s.pending == [] then Culprit else s.stage)
    else
      t.(pending := [], stage := if s.found != [] then Culprit else Exhausted)
  }

  /** Both halves are answered: keep the guilty ones, or retry, or ask the whole set. */
  function CloseSplit(s: Hunt, maxNoReproduce: int): Hunt {
    if s.guilty != [] then
      s.(parent := [], level := 0, pending := s.guilty + s.pending, guilty := [])
    else if s.noReproduce + 1 >= maxNoReproduce then
      s.(noReproduce := s.noReproduce + 1, queue := [s.parent])
    else
      s.(parent := [], level := 0, noReproduce := s.noReproduce + 1, pending := [s.parent] + s.pending)
  }

  /** The answer to one half, already taken out of flight. */
  function RecordHalf(s: Hunt, probe: seq<int>, reproduced: bool, maxNoReproduce: int): Hunt {
    var t := if reproduced then s.(guilty := s.guilty + [probe], noReproduce := 0) else s;
    if t.queue != [] then t else CloseSplit(t, maxNoReproduce)
  }

  function Record(s: Hunt, reproduced: bool, maxNoReproduce: int): Hunt {
    var probe := s.inFlight;
    var t := s.(launchesDone := 0, inFlight := []);
    if s.stage == Lead then
      if reproduced then t.(stage := Culprit, pending := [], found := probe) else t.(stage := Probe)
    else if probe == s.parent then RecordWholeSet(t, reproduced)
    else RecordHalf(t, probe, reproduced, maxNoReproduce)
  }

  // ----- how long a probe runs -----

  function Power(base: real, exponent: nat): real {
    if exponent == 0 then 1.0 else base * Power(base, exponent - 1)
  }

  /** Conversion of a real to an integer, rounding toward zero. */
  function Truncate(x: real): int {
    if x < 0.0 then -((-x).Floor) else x.Floor
  }

  function Ceiling(x: real): int {
    -((-x).Floor)
  }

  /** The budget before depth counts: `base` is a floor only for an onset or untimed failure. */
  function FlatBudget(observed: real, base: int, mttf: real, onsetSeconds: int): real {
    var timed := observed * mttf;
    if observed <= onsetSeconds as real && timed < base as real then base as real else timed
  }

  function Grown(budget: real, multiplier: real, level: nat): int {
    Truncate(budget * Power(multiplier, level))
  }

  function ProbeSeconds(s: Hunt, base: int, mttf: real, levelMultiplier: real, onsetSeconds: int): int
    requires s.level >= 0
  {
    var seconds := Grown(FlatBudget(s.observed, base, mttf, onsetSeconds), levelMultiplier, s.level);
    if seconds < 1 then 1 else seconds
  }

  /** The length of one launch; an onset failure is reproduced by many short ones. */
  function LaunchSeconds(s: Hunt, budget: int, onsetSeconds: int, minLaunch: int, mttf: real): int {
    if !(0.0 < s.observed <= onsetSeconds as real) then budget
    else
      var outlast := Ceiling(s.observed * mttf);
      var launch := if minLaunch < outlast then outlast else minLaunch;
      if budget < launch then budget else launch
  }

  function OnsetLaunches(s: Hunt, budget: int, onsetSeconds: int, minLaunch: int, mttf: real): (int, int)
    requires LaunchSeconds(s, budget, onsetSeconds, minLaunch, mttf) != 0
  {
    var launch := LaunchSeconds(s, budget, onsetSeconds, minLaunch, mttf);
    if !(0.0 < s.observed <= onsetSeconds as real) then (budget, 1)
    else (launch, Ceiling(budget as real / launch as real))
  }
}
