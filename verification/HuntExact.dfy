/** What a complete hunt finds, exactly: the conviction is a function of the failure
    condition alone, whatever that condition is. */
module HuntExact {
  import opened CoreSets
  import opened HuntModel
  import opened HuntInvariant
  import opened HuntBound
  import opened HuntRuns
  import opened HuntOracle
  import opened HuntVerdict

  /** The cores a group gives up: those of the halves that fail, or all of them if it
      fails only as a whole. */
  ghost function Convicts(g: seq<int>, R: Oracle): set<int>
    decreases |g|
  {
    if |g| <= 1 then ToSet(g)
    else
      var (left, right) := Split(g);
      if R(ToSet(left)) || R(ToSet(right)) then
        (if R(ToSet(left)) then Convicts(left, R) else {}) + (if R(ToSet(right)) then Convicts(right, R) else {})
      else if R(ToSet(g)) then ToSet(g)
      else {}
  }

  ghost function AllConvicts(gs: seq<seq<int>>, R: Oracle): set<int> {
    if gs == [] then {} else Convicts(gs[0], R) + AllConvicts(gs[1..], R)
  }

  lemma ConvictsOfOne(g: seq<int>, R: Oracle)
    ensures AllConvicts([g], R) == Convicts(g, R)
  {
    assert [g][1..] == [];
  }

  lemma {:induction false} ConvictsConcat(a: seq<seq<int>>, b: seq<seq<int>>, R: Oracle)
    ensures AllConvicts(a + b, R) == AllConvicts(a, R) + AllConvicts(b, R)
  {
    if a == [] {
      assert a + b == b;
    } else {
      assert (a + b)[1..] == a[1..] + b && (a + b)[0] == a[0];
      ConvictsConcat(a[1..], b, R);
    }
  }

  /** What the hunt will have convicted in the end, seen from one of its states. */
  ghost function Expected(s: Hunt, R: Oracle): set<int> {
    ToSet(s.found) + AllConvicts(s.pending, R) + (if s.parent == [] then {} else Convicts(s.parent, R))
  }

  // ----- asking changes nothing of it -----

  lemma {:induction false} AbsorbKeepsExpected(s: Hunt, R: Oracle)
    requires Worklist(s)
    ensures Expected(AbsorbSingles(s), R) == Expected(s, R)
    decreases |s.pending|
  {
    if s.pending != [] && |s.pending[0]| == 1 {
      PopFront(s.pending, ToSet(s.candidates));
      SortedUnion(s.found, s.pending[0]);
      AbsorbKeepsExpected(s.(found := Sorted(s.found + s.pending[0]), pending := s.pending[1..]), R);
    }
  }

  lemma NextKeepsExpected(s: Hunt, R: Oracle)
    requires Inv(s)
    ensures Expected(NextLiveSet(s).0, R) == Expected(s, R)
  {
    if s.stage == Probe && s.inFlight == [] && s.queue == [] {
      IdleWhenEmpty(s);
      AbsorbKeepsExpected(s, R);
      AbsorbKeeps(s);
    }
  }

  // ----- nor does a truthful answer -----

  lemma WholeKeepsExpected(s: Hunt, R: Oracle, m: int)
    requires Inv(s) && Known(s, R) && s.inFlight != [] && s.stage == Probe && AskingWhole(s)
    ensures Expected(Answered1(s, R, m), R) == Expected(s, R)
  {
    if R(ToSet(s.parent)) {
      SortedUnion(s.found, s.parent);
    } else {
      assert AtRoot(s);
    }
  }

  /** The halves kept when a split closes are the ones that fail. */
  lemma GuiltyConvicts(parent: seq<int>, guilty: seq<seq<int>>, R: Oracle)
    requires |parent| >= 2 && guilty != []
    requires var (left, right) := Split(parent);
      guilty == (if R(ToSet(left)) then [left] else []) + (if R(ToSet(right)) then [right] else [])
    ensures AllConvicts(guilty, R) == Convicts(parent, R)
  {
    var (left, right) := Split(parent);
    ConvictsOfOne(left, R);
    ConvictsOfOne(right, R);
    var a := if R(ToSet(left)) then [left] else [];
    var b := if R(ToSet(right)) then [right] else [];
    ConvictsConcat(a, b, R);
  }

  lemma CloseKeepsExpected(s: Hunt, R: Oracle, m: int)
    requires |s.parent| >= 2
    requires var (left, right) := Split(s.parent);
      s.guilty == (if R(ToSet(left)) then [left] else []) + (if R(ToSet(right)) then [right] else [])
    ensures Expected(CloseSplit(s, m), R) == Expected(s, R)
  {
    if s.guilty != [] {
      GuiltyConvicts(s.parent, s.guilty, R);
      ConvictsConcat(s.guilty, s.pending, R);
    } else {
      ConvictsOfOne(s.parent, R);
      ConvictsConcat([s.parent], s.pending, R);
    }
  }

  lemma SecondKeepsExpected(s: Hunt, R: Oracle, m: int)
    requires Inv(s) && Known(s, R) && s.stage == Probe && Halving(s) && SecondHalf(s)
    ensures Expected(Answered1(s, R, m), R) == Expected(s, R)
  {
    SplitFacts(s.parent);
    var (left, right) := Split(s.parent);
    assert left != right by {
      assert left[0] in ToSet(left);
    }
    var t := s.(launchesDone := 0, inFlight := []);
    var u := if R(ToSet(right)) then t.(guilty := t.guilty + [right], noReproduce := 0) else t;
    assert Answered1(s, R, m) == CloseSplit(u, m);
    assert [] + [right] == [right] && [left] + [] == [left];
    CloseKeepsExpected(u, R, m);
  }

  lemma RecordKeepsExpected(s: Hunt, R: Oracle, m: int)
    requires Inv(s) && Known(s, R) && s.stage == Probe && s.inFlight != []
    ensures Expected(Answered1(s, R, m), R) == Expected(s, R) && Answered1(s, R, m).stage != Lead
  {
    if AskingWhole(s) {
      WholeKeepsExpected(s, R, m);
    } else if FirstHalf(s) {
      SplitFacts(s.parent);
      assert Answered1(s, R, m).parent == s.parent;
    } else {
      SecondKeepsExpected(s, R, m);
    }
  }

  // ----- the whole hunt -----

  lemma {:induction false} DriveFindsExpected(s: Hunt, R: Oracle, m: int)
    requires Ready(s, m) && Known(s, R) && s.stage != Lead
    ensures ToSet(Drive(s, R, m).final.found) == Expected(s, R)
    decreases Potential(s, Retries(m))
  {
    DriveStep(s, R, m);
    NextKeepsKnown(s, R);
    NextKeepsExpected(s, R);
    NextLeavesLead(s);
    var t := NextLiveSet(s).0;
    if t.inFlight != [] {
      RecordKeepsKnown(t, R, m);
      RecordKeepsExpected(t, R, m);
      DriveFindsExpected(Answered1(t, R, m), R, m);
    }
  }

  lemma BeginExpects(candidates: seq<int>, loaded: seq<int>, observed: real, R: Oracle)
    requires Begin(candidates, loaded, observed).Some?
    ensures var b := Begin(candidates, loaded, observed).value;
      Expected(b, R) == Convicts(b.candidates, R)
  {
    var b := Begin(candidates, loaded, observed).value;
    ConvictsOfOne(b.candidates, R);
    ToSetEmpty(b.found);
  }

  /** For any deterministic failure condition, monotone or not, and whatever the retry
      limit: a lead that fails is the verdict; otherwise the split tree is, failing half
      by failing half. */
  lemma FoundExactly(candidates: seq<int>, loaded: seq<int>, observed: real, R: Oracle, m: int)
    requires Begin(candidates, loaded, observed).Some?
    ensures var b := Begin(candidates, loaded, observed).value;
      var lead := LeadProbe(b.candidates, b.loaded);
      ToSet(WholeHunt(candidates, loaded, observed, R, m).final.found) ==
        if lead != [] && R(ToSet(lead)) then ToSet(lead) else Convicts(b.candidates, R)
  {
    BeginReady(candidates, loaded, observed, m);
    BeginExpects(candidates, loaded, observed, R);
    var b := Begin(candidates, loaded, observed).value;
    var lead := LeadProbe(b.candidates, b.loaded);
    LeadFacts(b.candidates, b.loaded);
    if |b.candidates| == 1 {
      LoneCandidate(b, R, m);
    } else if lead == [] {
      BeginKnown(candidates, loaded, observed, R);
      DriveFindsExpected(b, R, m);
    } else if R(ToSet(lead)) {
      GuiltyLead(b, R, m);
    } else {
      BeginKnown(candidates, loaded, observed, R);
      AfterCleanLead(b, R, m);
    }
  }

  lemma AfterCleanLead(s: Hunt, R: Oracle, m: int)
    requires Ready(s, m) && Known(s, R) && s.stage == Lead && s.inFlight == []
    requires !R(ToSet(LeadProbe(s.candidates, s.loaded)))
    ensures ToSet(Drive(s, R, m).final.found) == Expected(s, R)
  {
    CleanLead(s, R, m);
    NextKeepsKnown(s, R);
    RecordKeepsKnown(NextLiveSet(s).0, R, m);
    DriveFindsExpected(Answered1(NextLiveSet(s).0, R, m), R, m);
  }
}
