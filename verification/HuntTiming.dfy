/** How long probes run: deeper splits are never given less time, and launches
    spend the budget without waste. */
module HuntTiming {
  import opened Bits
  import opened CoreSets
  import opened HuntModel
  import opened HuntInvariant
  import opened HuntValidate

  lemma {:induction false} PowerMonotone(base: real, a: nat, b: nat)
    requires base >= 1.0 && a <= b
    ensures 1.0 <= Power(base, a) <= Power(base, b)
  {
    if a > 0 {
      PowerMonotone(base, a - 1, b - 1);
      ScaleUp(base, Power(base, a - 1), Power(base, b - 1));
    } else if b > 0 {
      PowerMonotone(base, a, b - 1);
      ScaleUp(base, 1.0, Power(base, b - 1));
    }
  }

  lemma ScaleUp(k: real, x: real, y: real)
    requires k >= 0.0 && x <= y
    ensures k * x <= k * y
    ensures k >= 1.0 && x >= 1.0 ==> k * x >= 1.0
  {
    assert k * (y - x) >= 0.0;
    if k >= 1.0 && x >= 1.0 {
      assert (k - 1.0) * x >= 0.0;
    }
  }

  lemma HalfIsNarrower(parent: nat, child: nat)
    requires 2 <= child <= (parent + 1) / 2
    ensures BitLength(child - 1) <= BitLength(parent - 1) - 1
    ensures child == (parent + 1) / 2 ==> BitLength(child - 1) == BitLength(parent - 1) - 1
  {
    HalvingDropsOneBit(parent);
    BitLengthMonotone(child - 1, (parent + 1) / 2 - 1);
  }

  /** A group inside a half of another is split at a strictly deeper level. */
  lemma ChildIsDeeper(n: nat, parent: nat, child: nat)
    requires 2 <= child <= (parent + 1) / 2 && parent <= n
    ensures SplitLevel(n, child) > SplitLevel(n, parent)
    ensures child == (parent + 1) / 2 ==> SplitLevel(n, child) == SplitLevel(n, parent) + 1
  {
    HalfIsNarrower(parent, child);
    LevelNeedsNoClamp(n, parent);
    LevelNeedsNoClamp(n, child);
  }

  /** `t` is splitting a group inside one half of the group `s` is splitting. */
  ghost predicate Deeper(s: Hunt, t: Hunt) {
    && s.stage == Probe && t.stage == Probe && s.candidates == t.candidates && s.observed == t.observed
    && |s.parent| >= 2 && |t.parent| >= 2
    && var (left, right) := Split(s.parent);
       ToSet(t.parent) <= ToSet(left) || ToSet(t.parent) <= ToSet(right)
  }

  lemma DeeperLevel(s: Hunt, t: Hunt)
    requires Inv(s) && Inv(t) && Deeper(s, t)
    ensures t.level > s.level >= 1
  {
    SplitFacts(s.parent);
    var (left, right) := Split(s.parent);
    StrictSubsetLength(s.parent, s.candidates);
    if ToSet(t.parent) <= ToSet(left) {
      StrictSubsetLength(t.parent, left);
    } else {
      StrictSubsetLength(t.parent, right);
    }
    ChildIsDeeper(|s.candidates|, |s.parent|, |t.parent|);
    LevelNeedsNoClamp(|s.candidates|, |s.parent|);
  }

  lemma TruncateMonotone(x: real, y: real)
    requires 0.0 <= x <= y
    ensures Truncate(x) <= Truncate(y)
  {
  }

  lemma ScaledTruncation(budget: real, p: real, q: real)
    requires budget >= 0.0 && 0.0 <= p <= q
    ensures Truncate(budget * p) <= Truncate(budget * q)
  {
    ScaleUp(budget, 0.0, p);
    ScaleUp(budget, p, q);
    TruncateMonotone(budget * p, budget * q);
  }

  lemma BudgetGrows(budget: real, multiplier: real, a: nat, b: nat)
    requires budget >= 0.0 && multiplier >= 1.0 && a <= b
    ensures Grown(budget, multiplier, a) <= Grown(budget, multiplier, b)
  {
    PowerMonotone(multiplier, a, b);
    ScaledTruncation(budget, Power(multiplier, a), Power(multiplier, b));
  }

  lemma FlatBudgetNonNegative(observed: real, base: int, mttf: real, onset: int)
    requires observed >= 0.0 && mttf >= 0.0
    ensures FlatBudget(observed, base, mttf, onset) >= 0.0
  {
    ScaleUp(observed, 0.0, mttf);
  }

  /** Going down the tree never shortens a probe. */
  lemma DeeperProbesRunLonger(s: Hunt, t: Hunt, base: int, mttf: real, levelMultiplier: real, onset: int)
    requires Inv(s) && Inv(t) && Deeper(s, t)
    requires s.observed >= 0.0 && mttf >= 0.0 && levelMultiplier >= 1.0
    ensures s.level >= 0 && t.level >= 0
    ensures 1 <= ProbeSeconds(s, base, mttf, levelMultiplier, onset)
              <= ProbeSeconds(t, base, mttf, levelMultiplier, onset)
  {
    DeeperLevel(s, t);
    FlatBudgetNonNegative(s.observed, base, mttf, onset);
    BudgetGrows(FlatBudget(s.observed, base, mttf, onset), levelMultiplier, s.level, t.level);
  }

  // ----- how long, in numbers -----

  lemma TruncateBounds(x: real)
    ensures x >= 0.0 ==> x - 1.0 < Truncate(x) as real <= x
    ensures x < 0.0 ==> Truncate(x) <= 0
  {
  }

  lemma FlatBudgetBounds(observed: real, base: int, mttf: real, onset: int)
    ensures var flat := FlatBudget(observed, base, mttf, onset);
      && observed * mttf <= flat
      && (if observed <= onset as real then base as real <= flat && (flat == base as real || flat == observed * mttf)
          else flat == observed * mttf)
  {
  }

  /** A probe whose failure came early, or was not timed, never gets less than the base;
      no probe gets less than the scaled failure time, save for the fraction of a second. */
  lemma ProbeIsLongEnough(s: Hunt, base: int, mttf: real, levelMultiplier: real, onset: int)
    requires s.level >= 0 && levelMultiplier >= 1.0
    ensures var seconds := ProbeSeconds(s, base, mttf, levelMultiplier, onset);
      && seconds >= 1
      && (s.observed <= onset as real ==> seconds >= base)
      && seconds as real > s.observed * mttf - 1.0
  {
    var flat := FlatBudget(s.observed, base, mttf, onset);
    FlatBudgetBounds(s.observed, base, mttf, onset);
    PowerMonotone(levelMultiplier, 0, s.level);
    if flat >= 0.0 {
      ScaleUp(flat, 1.0, Power(levelMultiplier, s.level));
      TruncateBounds(flat * Power(levelMultiplier, s.level));
    }
  }

  /** Past the onset the base does not count. */
  lemma LateFailuresIgnoreTheBase(s: Hunt, base: int, other: int, mttf: real, levelMultiplier: real, onset: int)
    requires s.level >= 0 && s.observed > onset as real
    ensures ProbeSeconds(s, base, mttf, levelMultiplier, onset) == ProbeSeconds(s, other, mttf, levelMultiplier, onset)
  {
  }

  /** And no probe outside a split gets more than these ask for. */
  lemma ProbeIsNoLonger(s: Hunt, base: int, mttf: real, levelMultiplier: real, onset: int)
    requires s.level == 0
    ensures var seconds := ProbeSeconds(s, base, mttf, levelMultiplier, onset);
      || seconds == 1
      || seconds as real <= s.observed * mttf
      || (s.observed <= onset as real && seconds <= base)
  {
    var flat := FlatBudget(s.observed, base, mttf, onset);
    FlatBudgetBounds(s.observed, base, mttf, onset);
    assert flat * 1.0 == flat;
    TruncateBounds(flat);
  }

  lemma PowerStep(m: real, level: nat)
    ensures Power(m, level + 1) == m * Power(m, level)
  {
  }

  lemma DeeperIsScaled(flat: real, m: real, level: nat) returns (x: real)
    requires flat >= 0.0 && m >= 1.0
    ensures x >= 0.0 && Grown(flat, m, level) == Truncate(x) && Grown(flat, m, level + 1) == Truncate(m * x)
  {
    PowerMonotone(m, 0, level);
    ScaleUp(flat, 0.0, Power(m, level));
    PowerStep(m, level);
    OneMoreFactor(flat, m, Power(m, level), Power(m, level + 1));
    x := flat * Power(m, level);
  }

  function AtLeastOne(seconds: int): int {
    if seconds < 1 then 1 else seconds
  }

  /** The scaled budget in whole seconds, against the scaled whole seconds. */
  ghost predicate ScaledWithin(k: real, seconds: int, scaled: int) {
    && (seconds == 1 || k * seconds as real - 1.0 < scaled as real)
    && (scaled == 1 || scaled as real < k * ((seconds + 1) as real))
  }

  lemma StaysBelow(k: real, x: real, y: real, n: int)
    requires k > 0.0 && x < n as real && y == k * x
    ensures y < k * (n as real)
  {
    ScaleStrictly(k, x, n as real);
  }

  lemma ScaledSeconds(k: real, x: real)
    requires k >= 1.0 && x >= 0.0
    ensures ScaledWithin(k, AtLeastOne(Truncate(x)), AtLeastOne(Truncate(k * x)))
  {
    var y := k * x;
    ScaleUp(k, 0.0, x);
    TruncateBounds(x);
    TruncateBounds(y);
    var seconds, scaled := AtLeastOne(Truncate(x)), AtLeastOne(Truncate(y));
    if seconds > 1 {
      ScaleUp(k, seconds as real, x);
    }
    StaysBelow(k, x, y, seconds + 1);
  }

  lemma ScaledGrown(flat: real, m: real, level: nat)
    requires flat >= 0.0 && m >= 1.0
    ensures ScaledWithin(m, AtLeastOne(Grown(flat, m, level)), AtLeastOne(Grown(flat, m, level + 1)))
  {
    var x := DeeperIsScaled(flat, m, level);
    ScaledSeconds(m, x);
  }

  lemma ProbeIsGrown(s: Hunt, base: int, mttf: real, m: real, onset: int, flat: real)
    requires s.level >= 0 && flat == FlatBudget(s.observed, base, mttf, onset)
    ensures ProbeSeconds(s, base, mttf, m, onset) == AtLeastOne(Grown(flat, m, s.level))
  {
  }

  /** One level deeper a probe runs longer by the multiplier, to within a second before
      and after scaling. */
  lemma EachLevelMultiplies(s: Hunt, base: int, mttf: real, levelMultiplier: real, onset: int)
    requires s.level >= 0 && levelMultiplier >= 1.0 && s.observed >= 0.0 && mttf >= 0.0
    ensures ScaledWithin(levelMultiplier, ProbeSeconds(s, base, mttf, levelMultiplier, onset),
                         ProbeSeconds(s.(level := s.level + 1), base, mttf, levelMultiplier, onset))
  {
    var flat := FlatBudget(s.observed, base, mttf, onset);
    FlatBudgetNonNegative(s.observed, base, mttf, onset);
    ScaledGrown(flat, levelMultiplier, s.level);
    ProbeIsGrown(s, base, mttf, levelMultiplier, onset, flat);
    ProbeIsGrown(s.(level := s.level + 1), base, mttf, levelMultiplier, onset, flat);
  }

  lemma OneMoreFactor(flat: real, m: real, p: real, q: real)
    requires q == m * p
    ensures flat * q == m * (flat * p)
  {
  }

  lemma ScaleStrictly(k: real, x: real, y: real)
    requires k > 0.0 && x < y
    ensures k * x < k * y
  {
    assert k * (y - x) > 0.0;
  }

  lemma CeilingBounds(x: real)
    ensures x <= Ceiling(x) as real < x + 1.0
  {
  }

  lemma QuotientReaches(a: real, b: real, x: real, q: real)
    requires b > 0.0 && b * x == a && x <= q
    ensures a <= b * q
  {
    ScaleUp(b, x, q);
  }

  lemma QuotientStopsShort(a: real, b: real, x: real, q: real)
    requires b > 0.0 && b * x == a && q < x + 1.0
    ensures b * q < a + b
  {
    var slack := x + 1.0 - q;
    assert b * slack > 0.0;
    assert b * q + b * slack == b * x + b;
  }

  lemma QuotientTimesDivisor(a: int, b: int)
    requires b >= 1
    ensures b as real * (a as real / b as real) == a as real
  {
  }

  lemma ProductAsReal(a: int, b: int)
    ensures (a * b) as real == a as real * b as real
  {
  }

  lemma CeilingOfQuotient(a: int, b: int)
    requires b >= 1
    ensures var q := Ceiling(a as real / b as real); a <= b * q < a + b
  {
    var x := a as real / b as real;
    CeilingBounds(x);
    QuotientTimesDivisor(a, b);
    QuotientReaches(a as real, b as real, x, Ceiling(x) as real);
    QuotientStopsShort(a as real, b as real, x, Ceiling(x) as real);
    ProductAsReal(b, Ceiling(x));
  }

  predicate Outlasts(launch: int, observed: real, minLaunch: int, mttf: real) {
    observed * mttf <= launch as real && minLaunch <= launch
  }

  /** The launches cover the budget and overshoot it by less than one launch; where load
      starts matter, each outlasts the failure unless it has the whole budget. A positive
      multiplier or minimum is what keeps a launch from being empty. */
  lemma LaunchesCoverBudget(s: Hunt, budget: int, onset: int, minLaunch: int, mttf: real)
    requires budget >= 1 && (minLaunch >= 1 || mttf > 0.0)
    ensures 1 <= LaunchSeconds(s, budget, onset, minLaunch, mttf) <= budget
    ensures var (launch, launches) := OnsetLaunches(s, budget, onset, minLaunch, mttf);
      && launch == LaunchSeconds(s, budget, onset, minLaunch, mttf)
      && launches >= 1
      && budget <= launch * launches < budget + launch
      && (if 0.0 < s.observed <= onset as real
          then launch == budget || Outlasts(launch, s.observed, minLaunch, mttf)
          else launch == budget && launches == 1)
  {
    if 0.0 < s.observed <= onset as real {
      if mttf > 0.0 {
        assert s.observed * mttf > 0.0;
        CeilingBounds(s.observed * mttf);
      }
      var launch := LaunchSeconds(s, budget, onset, minLaunch, mttf);
      LaunchOutlastsFailure(s, budget, onset, minLaunch, mttf);
      CeilingOfQuotient(budget, launch);
      var launches := Ceiling(budget as real / launch as real);
      assert launches <= 0 ==> launch * launches <= 0;
    }
  }

  /** A launch long enough for the failure: it outlasts the observed time by the
      multiplier unless the whole budget is shorter. */
  lemma LaunchOutlastsFailure(s: Hunt, budget: int, onset: int, minLaunch: int, mttf: real)
    requires 0.0 < s.observed <= onset as real
    ensures var launch := LaunchSeconds(s, budget, onset, minLaunch, mttf);
      launch == budget || Outlasts(launch, s.observed, minLaunch, mttf)
  {
    CeilingBounds(s.observed * mttf);
  }

  /** And no longer than it must: no shorter launch would outlast the failure. */
  lemma NoShorterLaunch(s: Hunt, budget: int, onset: int, minLaunch: int, mttf: real, shorter: int)
    requires 0.0 < s.observed <= onset as real && shorter < LaunchSeconds(s, budget, onset, minLaunch, mttf)
    ensures !Outlasts(shorter, s.observed, minLaunch, mttf)
  {
    CeilingBounds(s.observed * mttf);
  }
}
