/** A lone deterministic culprit costs two probes for every halving. */
module HuntLone {
  import opened Bits
  import opened CoreSets
  import opened HuntModel
  import opened HuntInvariant
  import opened HuntBound
  import opened HuntRuns
  import opened HuntOracle
  import opened HuntVerdict

  ghost predicate Alone(R: Oracle, c: int) {
    forall a: set<int> :: R(a) <==> c in a
  }

  /** The culprit's group is the only work there is. */
  ghost predicate Closing(s: Hunt, c: int) {
    match s.stage
    case Lead => false
    case Probe =>
      && s.noReproduce == 0 && s.found == []
      && (if s.parent == [] then |s.pending| == 1 && c in s.pending[0]
          else s.pending == [] && c in s.parent && SideKnown(s, c))
    case Culprit => s.found == [c]
    case Exhausted => false
  }

  ghost predicate SideKnown(s: Hunt, c: int) {
    var left := Split(s.parent).0;
    && (s.guilty != [] ==> c in left)
    && (s.guilty == [] && s.inFlight != left ==> c !in left)
  }

  ghost function HalfHolding(g: seq<int>, c: int): seq<int> {
    if c in Split(g).0 then Split(g).0 else Split(g).1
  }

  /** How often the group must be halved before the culprit stands alone. */
  ghost function Halvings(g: seq<int>, c: int): nat
    decreases |g|
  {
    if |g| <= 1 then 0 else 1 + Halvings(HalfHolding(g, c), c)
  }

  /** Probes left: two for each halving, the larger half's answer paid already or not. */
  ghost function Left(s: Hunt, c: int): int {
    if Terminal(s) then 0
    else if s.parent == [] then (if s.pending == [] then 0 else 2 * Halvings(s.pending[0], c))
    else 2 * Halvings(s.parent, c) - (if s.guilty == [] && s.inFlight == Split(s.parent).0 then 0 else 1)
  }

  lemma NextKeepsClosing(s: Hunt, c: int)
    requires Inv(s) && Closing(s, c)
    ensures var t := NextLiveSet(s).0;
      Closing(t, c) && Left(t, c) == Left(s, c)
  {
    if s.stage == Probe && s.inFlight == [] {
      if s.queue != [] {
        SplitFacts(s.parent);
        QueuedKeepsClosing(s, c);
      } else {
        IdleWhenEmpty(s);
        OpenKeepsClosing(s, c);
      }
    }
  }

  lemma HalvesDiffer(g: seq<int>)
    requires |g| >= 2 && Strict(g)
    ensures Split(g).0 != Split(g).1 && Split(g).0 != [] && Split(g).0 != g && Split(g).1 != g
  {
    SplitFacts(g);
    assert Split(g).0[0] in ToSet(Split(g).0);
  }

  lemma QueuedKeepsClosing(s: Hunt, c: int)
    requires Inv(s) && Closing(s, c) && s.stage == Probe && s.inFlight == [] && s.queue != []
    ensures var t := NextLiveSet(s).0;
      Closing(t, c) && Left(t, c) == Left(s, c)
  {
    HalvesDiffer(s.parent);
    var t := NextLiveSet(s).0;
    assert t == s.(inFlight := s.queue[0], queue := s.queue[1..]);
    assert s.queue[0] == Split(s.parent).1;
  }

  lemma OpenKeepsClosing(s: Hunt, c: int)
    requires Closing(s, c) && s.stage == Probe && s.inFlight == [] && s.queue == [] && s.parent == []
    ensures var t := NextLiveSet(s).0;
      Closing(t, c) && Left(t, c) == Left(s, c)
  {
    var g := s.pending[0];
    assert s.pending == [g] && s.pending[1..] == [];
    if |g| == 1 {
      assert g == [c] && Sorted([] + [c]) == [c];
      assert AbsorbSingles(s) == s.(found := [c], pending := []);
    } else {
      OpenLone(s, g);
    }
  }

  lemma OpenLone(s: Hunt, g: seq<int>)
    requires s.stage == Probe && s.inFlight == [] && s.queue == [] && s.pending == [g] && |g| != 1
    ensures NextLiveSet(s).0 == s.(pending := [], parent := g, guilty := [], level := SplitLevel(|s.candidates|, |g|),
                                   queue := [Split(g).1], inFlight := Split(g).0)
  {
  }

  lemma RecordKeepsClosing(s: Hunt, R: Oracle, m: int, c: int)
    requires Inv(s) && Closing(s, c) && Alone(R, c) && s.inFlight != []
    ensures var t := Answered1(s, R, m);
      Closing(t, c) && Left(t, c) == Left(s, c) - 1
  {
    HalvesDiffer(s.parent);
    if FirstHalf(s) {
      FirstKeepsClosing(s, R, m, c);
    } else {
      SecondKeepsClosing(s, R, m, c);
    }
  }

  lemma FirstKeepsClosing(s: Hunt, R: Oracle, m: int, c: int)
    requires Inv(s) && Closing(s, c) && Alone(R, c) && s.stage == Probe
    requires s.inFlight != [] && Halving(s) && FirstHalf(s)
    ensures var t := Answered1(s, R, m);
      Closing(t, c) && Left(t, c) == Left(s, c) - 1
  {
    HalvesDiffer(s.parent);
    var (left, right) := Split(s.parent);
    assert R(ToSet(left)) <==> c in left;
    var t := s.(launchesDone := 0, inFlight := []);
    assert Answered1(s, R, m) == if c in left then t.(guilty := [left], noReproduce := 0) else t;
  }

  lemma OneHalfHolds(g: seq<int>, c: int)
    requires |g| >= 2 && Strict(g) && c in g
    ensures var (left, right) := Split(g);
      (c in left <==> c !in right) && right != left && right != g
  {
    HalvesDiffer(g);
    SplitFacts(g);
    var (left, right) := Split(g);
    assert c in ToSet(left) + ToSet(right) by {
      assert c in ToSet(g);
    }
    assert c in left <==> c in ToSet(left);
    assert c in right <==> c in ToSet(right);
  }

  lemma LoneGroup(s: Hunt, g: seq<int>, c: int)
    requires s.stage == Probe && s.noReproduce == 0 && s.found == [] && s.parent == [] && s.pending == [g] && c in g
    ensures Closing(s, c) && Left(s, c) == 2 * Halvings(g, c)
  {
  }

  lemma SecondKeepsClosing(s: Hunt, R: Oracle, m: int, c: int)
    requires Inv(s) && Closing(s, c) && Alone(R, c) && s.stage == Probe
    requires s.inFlight != [] && Halving(s) && SecondHalf(s)
    ensures var t := Answered1(s, R, m);
      Closing(t, c) && Left(t, c) == Left(s, c) - 1
  {
    OneHalfHolds(s.parent, c);
    SecondAnswerLeaves(s, R, m, c);
    LoneGroup(Answered1(s, R, m), HalfHolding(s.parent, c), c);
  }

  /** The second answer leaves the half with the culprit as the only work. */
  lemma SecondAnswerLeaves(s: Hunt, R: Oracle, m: int, c: int)
    requires Closing(s, c) && s.stage == Probe && Alone(R, c) && s.parent != []
    requires SecondHalf(s)
    requires var (left, right) := Split(s.parent);
      (c in left <==> c !in right) && s.inFlight != s.parent && right != left
    ensures Answered1(s, R, m) ==
      s.(launchesDone := 0, inFlight := [], parent := [], level := 0, guilty := [],
         noReproduce := 0, pending := [HalfHolding(s.parent, c)])
  {
    var (left, right) := Split(s.parent);
    assert R(ToSet(right)) <==> c in right;
    assert [left] + [] == [left] && [right] + [] == [right] && [] + [right] == [right];
  }

  /** From a lone group on, the number of probes is exact. */
  lemma {:induction false} DriveCloses(s: Hunt, R: Oracle, m: int, c: int)
    requires Ready(s, m) && Closing(s, c) && Alone(R, c)
    ensures |Drive(s, R, m).asked| == Left(s, c)
    ensures Drive(s, R, m).final.stage == Culprit && Drive(s, R, m).final.found == [c]
    decreases Potential(s, Retries(m))
  {
    DriveStep(s, R, m);
    NextKeepsClosing(s, c);
    var t := NextLiveSet(s).0;
    if t.inFlight != [] {
      RecordKeepsClosing(t, R, m, c);
      DriveCloses(Answered1(t, R, m), R, m, c);
    }
  }

  lemma BeginCloses(candidates: seq<int>, loaded: seq<int>, observed: real, c: int)
    requires Begin(candidates, loaded, observed).Some? && c in candidates
    ensures var b := Begin(candidates, loaded, observed).value;
      && |b.candidates| == |candidates| && c in b.candidates
      && Closing(b.(stage := Probe), c)
      && Left(b.(stage := Probe), c) == 2 * Halvings(b.candidates, c)
  {
    BeginReady(candidates, loaded, observed, 1);
    var b := Begin(candidates, loaded, observed).value;
    assert c in ToSet(b.candidates);
  }

  /** A lone culprit is always convicted, and at an exact price: two probes for each
      halving that leads to it, plus one for a lead that misses; a lead that hits is
      the only probe. */
  lemma LoneCulpritCost(candidates: seq<int>, loaded: seq<int>, observed: real, R: Oracle, m: int, c: int)
    requires Begin(candidates, loaded, observed).Some? && c in candidates && Alone(R, c)
    ensures var b := Begin(candidates, loaded, observed).value;
      var lead := LeadProbe(b.candidates, b.loaded);
      var r := WholeHunt(candidates, loaded, observed, R, m);
      && r.final.stage == Culprit && r.final.found == [c]
      && |r.asked| == (if lead == [c] then 1 else 2 * Halvings(b.candidates, c) + |lead|)
  {
    BeginReady(candidates, loaded, observed, m);
    BeginCloses(candidates, loaded, observed, c);
    var b := Begin(candidates, loaded, observed).value;
    var lead := LeadProbe(b.candidates, b.loaded);
    LeadFacts(b.candidates, b.loaded);
    if lead == [] {
      DriveCloses(b, R, m, c);
    } else {
      assert lead == [lead[0]] && ToSet(lead) == {lead[0]};
      assert R(ToSet(lead)) <==> c == lead[0];
      if c == lead[0] {
        GuiltyLead(b, R, m);
      } else {
        CleanLead(b, R, m);
        DriveCloses(b.(stage := Probe), R, m, c);
      }
    }
  }

  // ----- against the documented count -----

  /** The culprit's place matters little: a group of `n` takes log2(n) halvings,
      rounded down or up. */
  lemma {:induction false} HalvingsBounds(g: seq<int>, c: int)
    requires g != []
    ensures BitLength(|g|) - 1 <= Halvings(g, c) <= MaxDepth(|g|)
    decreases |g|
  {
    if |g| >= 2 {
      var half := HalfHolding(g, c);
      DepthOfHalf(|g|, |half|);
      WidthOfHalf(|g|, |half|);
      HalvingsBounds(half, c);
    }
  }

  lemma DepthOfHalf(n: nat, half: nat)
    requires n >= 2 && (half == n / 2 || half == (n + 1) / 2)
    ensures MaxDepth(half) <= MaxDepth(n) - 1
  {
    HalvingDropsOneBit(n);
    DepthIsWidth(n);
    DepthIsWidth(half);
  }

  lemma DepthIsWidth(n: nat)
    requires n >= 1
    ensures MaxDepth(n) == BitLength(n - 1)
  {
    assert Abs(n - 1) == n - 1;
  }

  lemma WidthOfHalf(n: nat, half: nat)
    requires n >= 2 && half >= n / 2
    ensures BitLength(half) >= BitLength(n) - 1
  {
    BitLengthMonotone(n / 2, half);
  }

  lemma HalvingsOfThree(g: seq<int>, c: int)
    requires |g| == 3 && Strict(g) && c in g
    ensures Halvings(g, c) == if c == g[2] then 1 else 2
  {
    assert Split(g).0 == [g[0], g[1]] && Split(g).1 == [g[2]];
    var half := HalfHolding(g, c);
    if c == g[2] {
      assert |half| == 1 && Halvings(half, c) == 0;
    } else {
      assert |half| == 2 && |HalfHolding(half, c)| == 1;
      assert Halvings(HalfHolding(half, c), c) == 0;
    }
  }

  /** Two probes per halving stay within one per binary digit for one core, and for the
      last of three. */
  lemma CostWithinDepth(g: seq<int>, c: int, extra: nat)
    requires g != [] && Strict(g) && c in g
    ensures 2 * Halvings(g, c) + extra <= MaxDepth(|g|) <==>
      extra == 0 && (|g| == 1 || (|g| == 3 && c == g[2]))
  {
    HalvingsBounds(g, c);
    BitLengthMonotone(|g| - 1, |g|);
    if |g| == 3 {
      HalvingsOfThree(g, c);
      assert BitLength(2) == 2;
    } else if |g| >= 4 {
      BitLengthMonotone(4, |g|);
      assert BitLength(4) == 3;
    } else if |g| == 2 {
      assert BitLength(2) == 2 && BitLength(1) == 1;
    }
  }

  /** The documented count, one probe for each binary digit of `n - 1`, is kept exactly
      for a lone candidate, for a lead that hits, and for the last of three cores when
      there is no lead. */
  lemma DocumentedCountIff(candidates: seq<int>, loaded: seq<int>, observed: real, R: Oracle, m: int, c: int)
    requires Begin(candidates, loaded, observed).Some? && c in candidates && Alone(R, c)
    ensures var b := Begin(candidates, loaded, observed).value;
      var lead := LeadProbe(b.candidates, b.loaded);
      |WholeHunt(candidates, loaded, observed, R, m).asked| <= MaxDepth(|candidates|) <==>
        || |candidates| == 1
        || lead == [c]
        || (|b.candidates| == 3 && lead == [] && c == b.candidates[2])
  {
    var b := Begin(candidates, loaded, observed).value;
    var lead := LeadProbe(b.candidates, b.loaded);
    BeginReady(candidates, loaded, observed, m);
    BeginCloses(candidates, loaded, observed, c);
    LoneCulpritCost(candidates, loaded, observed, R, m, c);
    LeadFacts(b.candidates, b.loaded);
    if lead == [c] {
      BitLengthMonotone(1, |candidates| - 1);
    } else {
      CostWithinDepth(b.candidates, c, |lead|);
    }
  }

  /** Two loaded cores, one of them guilty: two probes, where one was promised. */
  lemma TwoCoresTakeTwoProbes(m: int)
    ensures Begin([0, 1], [0, 1], 1.0).Some? && MaxDepth(2) == 1
    ensures |WholeHunt([0, 1], [0, 1], 1.0, CORE_ONE_FAILS, m).asked| == 2
  {
    PairBegins();
    LoneCulpritCost([0, 1], [0, 1], 1.0, CORE_ONE_FAILS, m, 1);
    assert |HalfHolding([0, 1], 1)| == 1;
    assert Halvings([0, 1], 1) == 1;
    assert BitLength(1) == 1;
  }

  lemma PairBegins()
    ensures Begin([0, 1], [0, 1], 1.0).Some? && LeadProbe([0, 1], [0, 1]) == []
    ensures Begin([0, 1], [0, 1], 1.0).value.candidates == [0, 1] == Begin([0, 1], [0, 1], 1.0).value.loaded
  {
    BeginAccepts([0, 1], [0, 1], 1.0);
    assert Sorted([1]) == [1] && Sorted([0, 1]) == [0, 1];
    assert [0, 1][1..] == [1] && [1][1..] == [];
    assert Common([1], [0, 1]) == [1];
    assert Common([0, 1], [0, 1]) == [0] + [1] == [0, 1];
  }

  /** The upper bound in terms of the number of cores alone. */
  lemma LoneCulpritIsCheap(candidates: seq<int>, loaded: seq<int>, observed: real, R: Oracle, m: int, c: int)
    requires Begin(candidates, loaded, observed).Some? && c in candidates && Alone(R, c)
    ensures var b := Begin(candidates, loaded, observed).value;
      |WholeHunt(candidates, loaded, observed, R, m).asked| <=
        2 * MaxDepth(|candidates|) + |LeadProbe(b.candidates, b.loaded)|
  {
    BeginCloses(candidates, loaded, observed, c);
    LoneCulpritCost(candidates, loaded, observed, R, m, c);
    HalvingsBounds(Begin(candidates, loaded, observed).value.candidates, c);
  }
}
