/** How many probes a hunt can still ask, whatever the answers are. */
module HuntBound {
  import opened CoreSets
  import opened HuntModel
  import opened HuntInvariant

  /** Probes an unresolved group of `n` cores can cost with at most `cap` clean rounds. */
  function Cost(n: nat, cap: nat): int {
    (n - 1) * (2 * cap + 1)
  }

  function TotalCost(gs: seq<seq<int>>, cap: nat): int {
    if gs == [] then 0 else Cost(|gs[0]|, cap) + TotalCost(gs[1..], cap)
  }

  /** No group has used up its clean rounds, except the one being asked whole. */
  ghost predicate RetriesWithin(s: Hunt, cap: nat) {
    && s.noReproduce <= cap
    && (s.stage == Probe && !AskingWhole(s) ==> s.noReproduce < cap)
  }

  /** An upper bound on the answers still to come. */
  ghost function Potential(s: Hunt, cap: nat): int {
    if Terminal(s) then 0
    else if s.stage == Lead then 1 + Cost(|s.candidates|, cap)
    else TotalCost(s.pending, cap) + Active(s, cap)
  }

  /** The share of the group being split; a clean round is paid for at its end. */
  ghost function Active(s: Hunt, cap: nat): int {
    if s.parent == [] then -2 * s.noReproduce
    else if AskingWhole(s) then 1
    else
      var (left, right) := Split(s.parent);
      if s.guilty != [] then 1 + Cost(|left|, cap) + Cost(|right|, cap)
      else Cost(|s.parent|, cap) - 2 * s.noReproduce - (if s.inFlight == left then 0 else 1)
  }

  lemma CostOfHalves(a: nat, b: nat, cap: nat)
    ensures Cost(a + b, cap) == Cost(a, cap) + Cost(b, cap) + (2 * cap + 1)
    ensures a >= 1 ==> Cost(a, cap) >= 0
    ensures Cost(1, cap) == 0
  {
    assert (a + b - 1) * (2 * cap + 1) == (a - 1) * (2 * cap + 1) + (b - 1) * (2 * cap + 1) + (2 * cap + 1);
    if a >= 1 {
      assert (a - 1) * (2 * cap + 1) >= 0;
    }
  }

  lemma {:induction false} TotalCostNonNegative(gs: seq<seq<int>>, cap: nat)
    requires forall g :: g in gs ==> g != []
    ensures TotalCost(gs, cap) >= 0
    ensures gs != [] ==> TotalCost(gs, cap) >= Cost(|gs[0]|, cap) >= 0
  {
    if gs != [] {
      assert gs[0] in gs;
      assert forall g :: g in gs[1..] ==> g in gs;
      TotalCostNonNegative(gs[1..], cap);
      CostOfHalves(|gs[0]|, 0, cap);
    }
  }

  lemma {:induction false} TotalCostConcat(a: seq<seq<int>>, b: seq<seq<int>>, cap: nat)
    ensures TotalCost(a + b, cap) == TotalCost(a, cap) + TotalCost(b, cap)
  {
    if a == [] {
      assert a + b == b;
    } else {
      assert (a + b)[1..] == a[1..] + b;
      TotalCostConcat(a[1..], b, cap);
    }
  }

  lemma TotalCostOne(g: seq<int>, cap: nat)
    ensures TotalCost([g], cap) == Cost(|g|, cap)
  {
    assert [g][1..] == [];
    assert TotalCost([], cap) == 0;
  }

  lemma SplitCost(g: seq<int>, cap: nat)
    requires |g| >= 2
    ensures var (left, right) := Split(g);
      && Cost(|g|, cap) == Cost(|left|, cap) + Cost(|right|, cap) + (2 * cap + 1)
      && Cost(|left|, cap) >= 0 && Cost(|right|, cap) >= 0
  {
    var (left, right) := Split(g);
    assert |left| + |right| == |g|;
    CostOfHalves(|left|, |right|, cap);
    CostOfHalves(|right|, |left|, cap);
  }

  lemma PotentialNonNegative(s: Hunt, cap: nat)
    requires Inv(s) && RetriesWithin(s, cap)
    ensures Potential(s, cap) >= 0
    ensures s.inFlight != [] ==> Potential(s, cap) >= 1
  {
    TotalCostNonNegative(s.pending, cap);
    if s.stage == Lead {
      CostOfHalves(|s.candidates|, 0, cap);
    } else if s.stage == Probe {
      if s.parent == [] {
        if s.noReproduce > 0 {
          SplitCost(s.pending[0], cap);
        }
      } else {
        SplitFacts(s.parent);
        SplitCost(s.parent, cap);
      }
    }
  }

  lemma {:induction false} AbsorbCost(s: Hunt, cap: nat)
    ensures TotalCost(AbsorbSingles(s).pending, cap) == TotalCost(s.pending, cap)
    ensures AbsorbSingles(s) == s.(found := AbsorbSingles(s).found, pending := AbsorbSingles(s).pending)
    decreases |s.pending|
  {
    if s.pending != [] && |s.pending[0]| == 1 {
      CostOfHalves(1, 0, cap);
      AbsorbCost(s.(found := Sorted(s.found + s.pending[0]), pending := s.pending[1..]), cap);
    }
  }

  /** Handing out a mask costs nothing. */
  lemma NextKeepsPotential(s: Hunt, cap: nat)
    requires Inv(s) && RetriesWithin(s, cap)
    ensures var t := NextLiveSet(s).0;
      RetriesWithin(t, cap) && Potential(t, cap) <= Potential(s, cap)
  {
    PotentialNonNegative(s, cap);
    if s.stage == Probe && s.inFlight == [] {
      if s.queue != [] {
        SplitFacts(s.parent);
        var (left, right) := Split(s.parent);
        assert left != right by {
          assert left[0] in ToSet(left);
        }
        assert AskingWhole(s) <==> AskingWhole(NextLiveSet(s).0);
      } else {
        IdleWhenEmpty(s);
        AbsorbKeeps(s);
        AbsorbCost(s, cap);
        OpenKeepsPotential(AbsorbSingles(s), cap);
      }
    }
  }

  lemma OpenKeepsPotential(s: Hunt, cap: nat)
    requires Worklist(s) && (s.pending != [] ==> |s.pending[0]| >= 2) && s.noReproduce < cap
    requires s.pending != [] || s.found != []
    ensures var t := OpenGroup(s).0;
      && RetriesWithin(t, cap)
      && (s.pending != [] ==> Potential(t, cap) == TotalCost(s.pending, cap) - 2 * s.noReproduce)
  {
    if s.pending != [] {
      PopFront(s.pending, ToSet(s.candidates));
      SplitFacts(s.pending[0]);
      assert FirstHalf(OpenGroup(s).0);
    }
  }

  /** Every answer spends one probe of the bound, and no retry limit up to `cap`,
      however it changes between answers, lets a hunt retry longer. */
  lemma RecordSpendsOne(s: Hunt, reproduced: bool, m: int, cap: nat)
    requires Inv(s) && RetriesWithin(s, cap) && s.inFlight != []
    requires 1 <= cap && m <= cap
    ensures var t := Record(s, reproduced, m);
      RetriesWithin(t, cap) && Potential(t, cap) < Potential(s, cap)
  {
    PotentialNonNegative(s, cap);
    if s.stage == Lead {
      TotalCostOne(s.candidates, cap);
    } else if AskingWhole(s) {
      TotalCostNonNegative(s.pending, cap);
    } else {
      RecordHalfSpendsOne(s, reproduced, m, cap);
    }
  }

  lemma RecordHalfSpendsOne(s: Hunt, reproduced: bool, m: int, cap: nat)
    requires Inv(s) && RetriesWithin(s, cap) && s.inFlight != [] && s.stage == Probe && Halving(s)
    requires 1 <= cap && m <= cap
    ensures var t := Record(s, reproduced, m);
      RetriesWithin(t, cap) && Potential(t, cap) < Potential(s, cap)
  {
    SplitFacts(s.parent);
    SplitCost(s.parent, cap);
    var (left, right) := Split(s.parent);
    var t := Record(s, reproduced, m);
    if FirstHalf(s) {
      assert FirstHalf(t);
      assert !AskingWhole(s) && !AskingWhole(t);
    } else {
      var u := if reproduced then s.(launchesDone := 0, inFlight := [], guilty := s.guilty + [right], noReproduce := 0)
               else s.(launchesDone := 0, inFlight := []);
      assert Answered(u);
      CloseCost(u, m, cap);
    }
  }

  lemma CloseCost(s: Hunt, m: int, cap: nat)
    requires Answered(s) && s.noReproduce < cap && m <= cap
    ensures var t := CloseSplit(s, m);
      var (left, right) := Split(s.parent);
      && RetriesWithin(t, cap)
      && Potential(t, cap) <= TotalCost(s.pending, cap) +
         (if s.guilty != [] then Cost(|left|, cap) + Cost(|right|, cap)
          else Cost(|s.parent|, cap) - 2 * (s.noReproduce + 1))
  {
    SplitFacts(s.parent);
    SplitCost(s.parent, cap);
    var (left, right) := Split(s.parent);
    var t := CloseSplit(s, m);
    if s.guilty != [] {
      TotalCostOne(left, cap);
      TotalCostOne(right, cap);
      TotalCostConcat([left], [right], cap);
      TotalCostConcat(s.guilty, s.pending, cap);
      assert !AskingWhole(t);
    } else if s.noReproduce + 1 >= m {
      assert AskingWhole(t);
    } else {
      TotalCostOne(s.parent, cap);
      TotalCostConcat([s.parent], s.pending, cap);
      assert !AskingWhole(t);
    }
  }
}
