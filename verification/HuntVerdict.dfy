/** What a complete hunt proves about a monotone failure: soundness, completeness,
    exactness for independent culprits, and the cost of a lone one. */
module HuntVerdict {
  import opened CoreSets
  import opened HuntModel
  import opened HuntInvariant
  import opened HuntBound
  import opened HuntTrail
  import opened HuntRuns
  import opened HuntOracle

  // ----- one candidate -----

  lemma LoneCandidate(s: Hunt, R: Oracle, m: int)
    requires Ready(s, m) && s.stage == Probe && |s.candidates| == 1
    requires s.pending == [s.candidates] && s.found == [] && s.parent == [] && s.queue == [] && s.inFlight == []
    ensures var r := Drive(s, R, m);
      r.final.stage == Culprit && r.final.found == s.candidates && r.asked == []
  {
    var c := s.candidates[0];
    assert s.candidates == [c] && Sorted([] + [c]) == [c];
    var t := s.(found := [c], pending := []);
    assert s.pending[1..] == [];
    assert AbsorbSingles(s) == t;
    DriveStep(s, R, m);
  }

  // ----- soundness -----

  /** A hunt convicts exactly when the whole live set fails, or when there is only one
      candidate; what it convicts fails by itself and is a union of failing sets that
      splitting does not make smaller. */
  lemma Verdict(candidates: seq<int>, loaded: seq<int>, observed: real, R: Oracle, m: int)
    requires Begin(candidates, loaded, observed).Some? && Monotone(R)
    ensures var s := WholeHunt(candidates, loaded, observed, R, m).final;
      && Terminal(s)
      && (s.stage == Culprit <==> |candidates| == 1 || R(ToSet(candidates)))
      && (s.stage == Exhausted <==> s.found == [])
      && (s.stage == Culprit && |candidates| >= 2 ==> R(ToSet(s.found)) && Explained(ToSet(s.found), R))
      && (|candidates| == 1 ==> s.found == candidates)
  {
    BeginReady(candidates, loaded, observed, m);
    var b := Begin(candidates, loaded, observed).value;
    if |candidates| == 1 {
      assert candidates == [candidates[0]];
      StrictListingIsUnique(b.candidates, candidates);
      LoneCandidate(b, R, m);
    } else {
      BeginKnown(candidates, loaded, observed, R);
      DriveKeepsKnown(b, R, m);
      DriveKeepsCandidates(b, R, m);
      var s := Drive(b, R, m).final;
      if s.found != [] {
        ExplainedFails(s, R);
      }
    }
  }

  lemma {:induction false} AbsorbKeepsCandidates(s: Hunt)
    ensures AbsorbSingles(s).candidates == s.candidates && AbsorbSingles(s).loaded == s.loaded
    decreases |s.pending|
  {
    if s.pending != [] && |s.pending[0]| == 1 {
      AbsorbKeepsCandidates(s.(found := Sorted(s.found + s.pending[0]), pending := s.pending[1..]));
    }
  }

  lemma NextKeepsCandidates(s: Hunt)
    ensures NextLiveSet(s).0.candidates == s.candidates
  {
    AbsorbKeepsCandidates(s);
  }

  lemma RecordKeepsCandidates(s: Hunt, reproduced: bool, m: int)
    ensures Record(s, reproduced, m).candidates == s.candidates
  {
  }

  lemma {:induction false} DriveKeepsCandidates(s: Hunt, R: Oracle, m: int)
    requires Ready(s, m)
    ensures Drive(s, R, m).final.candidates == s.candidates
    decreases Potential(s, Retries(m))
  {
    DriveStep(s, R, m);
    NextKeepsCandidates(s);
    var t := NextLiveSet(s).0;
    if t.inFlight != [] {
      var u := Answered1(t, R, m);
      RecordKeepsCandidates(t, R(ToSet(t.inFlight)), m);
      DriveKeepsCandidates(u, R, m);
    }
  }

  // ----- completeness -----

  /** Every candidate that fails by itself is among `cores`. */
  ghost predicate SolosAmong(candidates: seq<int>, R: Oracle, cores: set<int>) {
    forall c :: c in candidates && R({c}) ==> c in cores
  }

  /** Every core that fails by itself is convicted or still under suspicion. */
  ghost predicate Complete(s: Hunt, R: Oracle) {
    forall c :: c in s.candidates && R({c}) ==> c in Territory(s)
  }

  lemma NextKeepsComplete(s: Hunt, R: Oracle)
    requires Inv(s) && Complete(s, R)
    ensures Complete(NextLiveSet(s).0, R)
  {
    NextAdvances(s);
    AbsorbKeepsCandidates(s);
  }

  lemma RecordKeepsComplete(s: Hunt, R: Oracle, m: int)
    requires Monotone(R) && Inv(s) && Known(s, R) && Complete(s, R) && s.inFlight != []
    requires s.stage == Probe
    ensures Complete(Answered1(s, R, m), R) && Answered1(s, R, m).stage != Lead
  {
    if AskingWhole(s) {
      WholeKeepsComplete(s, R, m);
    } else if FirstHalf(s) {
      SplitFacts(s.parent);
      assert Territory(Answered1(s, R, m)) == Territory(s);
    } else {
      SecondKeepsComplete(s, R, m);
    }
  }

  lemma SecondKeepsComplete(s: Hunt, R: Oracle, m: int)
    requires Monotone(R) && Inv(s) && Known(s, R) && Complete(s, R)
    requires s.stage == Probe && Halving(s) && SecondHalf(s)
    ensures Complete(Answered1(s, R, m), R) && Answered1(s, R, m).stage != Lead
  {
    SplitFacts(s.parent);
    var (left, right) := Split(s.parent);
    assert left != right by {
      assert left[0] in ToSet(left);
    }
    var t := s.(launchesDone := 0, inFlight := []);
    var u := if R(ToSet(right)) then t.(guilty := t.guilty + [right], noReproduce := 0) else t;
    assert Territory(u) == Territory(s);
    CloseKeepsComplete(u, R, m);
  }

  lemma WholeKeepsComplete(s: Hunt, R: Oracle, m: int)
    requires Monotone(R) && Inv(s) && Known(s, R) && Complete(s, R) && s.inFlight != []
    requires s.stage == Probe && AskingWhole(s)
    ensures Complete(Answered1(s, R, m), R)
  {
    if R(ToSet(s.parent)) {
      SortedUnion(s.found, s.parent);
    } else {
      assert AtRoot(s);
      forall c | c in s.candidates
        ensures !R({c})
      {
        assert {c} <= ToSet(s.candidates);
      }
    }
  }

  lemma CloseTerritory(s: Hunt, m: int)
    ensures Territory(CloseSplit(s, m)) ==
      if s.guilty == [] then Territory(s) else ToSet(s.found) + Cores(s.guilty) + Cores(s.pending)
  {
    CoresConcat(s.guilty, s.pending);
    SingleGroup(s.parent);
    CoresConcat([s.parent], s.pending);
    ToSetEmpty([]);
  }

  /** A core that fails by itself is in a half that reproduces. */
  lemma SoloInGuiltyHalf(parent: seq<int>, guilty: seq<seq<int>>, R: Oracle, c: int)
    requires Monotone(R) && |parent| >= 2 && Strict(parent) && c in parent && R({c})
    requires var (left, right) := Split(parent);
      (R(ToSet(left)) ==> left in guilty) && (R(ToSet(right)) ==> right in guilty)
    ensures c in Cores(guilty)
  {
    SplitFacts(parent);
    var (left, right) := Split(parent);
    var half := if c in left then left else right;
    assert c in ToSet(parent) && c in ToSet(half);
    assert {c} <= ToSet(half);
    MemberWithin(guilty, half);
  }

  lemma CloseKeepsComplete(s: Hunt, R: Oracle, m: int)
    requires Monotone(R) && |s.parent| >= 2 && Strict(s.parent) && Complete(s, R)
    requires var (left, right) := Split(s.parent);
      (R(ToSet(left)) ==> left in s.guilty) && (R(ToSet(right)) ==> right in s.guilty)
    ensures Complete(CloseSplit(s, m), R)
  {
    CloseTerritory(s, m);
    forall c | c in s.candidates && R({c})
      ensures c in Territory(CloseSplit(s, m))
    {
      if c in s.parent {
        SoloInGuiltyHalf(s.parent, s.guilty, R, c);
      }
    }
  }

  lemma EndIsComplete(s: Hunt, R: Oracle)
    requires Inv(s) && Terminal(s) && Complete(s, R)
    ensures forall c :: c in s.candidates && R({c}) ==> c in s.found
  {
    assert Territory(s) == ToSet(s.found);
  }

  lemma {:induction false} DriveKeepsComplete(s: Hunt, R: Oracle, m: int)
    requires Monotone(R) && Ready(s, m) && Known(s, R) && Complete(s, R) && s.stage != Lead
    ensures forall c :: c in s.candidates && R({c}) ==> c in Drive(s, R, m).final.found
    decreases Potential(s, Retries(m))
  {
    DriveStep(s, R, m);
    NextKeepsKnown(s, R);
    NextKeepsComplete(s, R);
    NextKeepsCandidates(s);
    var t := NextLiveSet(s).0;
    NextLeavesLead(s);
    if t.inFlight != [] {
      var u := Answered1(t, R, m);
      RecordKeepsKnown(t, R, m);
      RecordKeepsComplete(t, R, m);
      RecordKeepsCandidates(t, R(ToSet(t.inFlight)), m);
      DriveKeepsComplete(u, R, m);
    } else {
      EndIsComplete(t, R);
    }
  }

  lemma NextLeavesLead(s: Hunt)
    requires Inv(s) && s.stage != Lead
    ensures NextLiveSet(s).0.stage != Lead
    ensures NextLiveSet(s).0.inFlight != [] ==> NextLiveSet(s).0.stage == Probe
  {
    NextAsksUnlessOver(s);
    if s.stage == Probe && s.parent == [] {
      AbsorbKeeps(s);
    }
  }

  /** The state after a lead probe that came back clean. */
  lemma CleanLead(s: Hunt, R: Oracle, m: int)
    requires Ready(s, m) && s.stage == Lead && s.inFlight == [] && !R(ToSet(LeadProbe(s.candidates, s.loaded)))
    ensures var t := Answered1(NextLiveSet(s).0, R, m);
      && Ready(t, m) && t == s.(stage := Probe, launchesDone := 0)
      && Drive(s, R, m).final == Drive(t, R, m).final
      && Drive(s, R, m).asked == [LeadProbe(s.candidates, s.loaded)] + Drive(t, R, m).asked
  {
    DriveStep(s, R, m);
  }

  lemma GuiltyLead(s: Hunt, R: Oracle, m: int)
    requires Ready(s, m) && s.stage == Lead && s.inFlight == [] && R(ToSet(LeadProbe(s.candidates, s.loaded)))
    ensures var r := Drive(s, R, m);
      var lead := LeadProbe(s.candidates, s.loaded);
      r.final.stage == Culprit && r.final.found == lead && r.asked == [lead]
  {
    DriveStep(s, R, m);
    var t := Answered1(NextLiveSet(s).0, R, m);
    DriveStep(t, R, m);
  }

  /** Every core that fails alone is convicted, exactly when the lead probe does not
      end the hunt early with another such core still free. */
  lemma EverySoloCulpritFound(candidates: seq<int>, loaded: seq<int>, observed: real, R: Oracle, m: int)
    requires Begin(candidates, loaded, observed).Some? && Monotone(R)
    ensures var b := Begin(candidates, loaded, observed).value;
      var lead := LeadProbe(b.candidates, b.loaded);
      var found := WholeHunt(candidates, loaded, observed, R, m).final.found;
      SolosAmong(candidates, R, ToSet(found)) <==>
      lead == [] || !R(ToSet(lead)) || SolosAmong(candidates, R, ToSet(lead))
  {
    BeginReady(candidates, loaded, observed, m);
    var b := Begin(candidates, loaded, observed).value;
    var lead := LeadProbe(b.candidates, b.loaded);
    LeadFacts(b.candidates, b.loaded);
    assert forall c :: c in candidates <==> c in ToSet(b.candidates);
    if |candidates| == 1 {
      assert candidates == [candidates[0]];
      LoneCandidate(b, R, m);
      assert lead == [];
    } else if lead != [] && R(ToSet(lead)) {
      GuiltyLead(b, R, m);
      assert lead == [lead[0]];
    } else {
      BeginKnown(candidates, loaded, observed, R);
      SingleGroup(b.candidates);
      assert Complete(b, R);
      if lead != [] {
        CleanLead(b, R, m);
        var t := Answered1(NextLiveSet(b).0, R, m);
        NextKeepsKnown(b, R);
        RecordKeepsKnown(NextLiveSet(b).0, R, m);
        assert Territory(t) == Territory(b);
        DriveKeepsComplete(t, R, m);
      } else {
        DriveKeepsComplete(b, R, m);
      }
    }
  }

  // ----- independent culprits -----

  /** Any one of the culprits is enough, and nothing else is. */
  ghost predicate Independent(R: Oracle, culprits: set<int>) {
    forall a: set<int> :: R(a) <==> a * culprits != {}
  }

  lemma IndependentIsMonotone(R: Oracle, culprits: set<int>)
    requires Independent(R, culprits)
    ensures Monotone(R)
  {
    forall a: set<int>, b: set<int> | a <= b && R(a)
      ensures R(b)
    {
      assert a * culprits <= b * culprits;
    }
  }

  lemma CulpritsOfHalves(g: seq<int>, culprits: set<int>)
    ensures var (left, right) := Split(g);
      ToSet(g) * culprits == ToSet(left) * culprits + ToSet(right) * culprits
  {
    var (left, right) := Split(g);
    assert left + right == g;
    ToSetConcat(left, right);
  }

  lemma IrreducibleIsACulprit(g: seq<int>, R: Oracle, culprits: set<int>)
    requires Independent(R, culprits) && Irreducible(g, R)
    ensures ToSet(g) <= culprits
  {
    if |g| == 1 {
      assert g == [g[0]];
      assert ToSet(g) * culprits != {};
    } else {
      CulpritsOfHalves(g, culprits);
    }
  }

  lemma OnlyCulpritsFound(found: set<int>, R: Oracle, culprits: set<int>)
    requires Independent(R, culprits) && Explained(found, R)
    ensures found <= culprits
  {
    forall c | c in found
      ensures c in culprits
    {
      var g :| Blames(g, c, found, R);
      IrreducibleIsACulprit(g, R, culprits);
    }
  }

  lemma SolosAreCulprits(candidates: seq<int>, R: Oracle, culprits: set<int>, cores: set<int>)
    requires Independent(R, culprits) && culprits <= ToSet(candidates)
    ensures SolosAmong(candidates, R, cores) <==> culprits <= cores
  {
    SoloIffCulprit(R, culprits);
    if SolosAmong(candidates, R, cores) {
      forall c | c in culprits
        ensures c in cores
      {
        assert c in ToSet(candidates) && R({c});
      }
    }
  }

  /** When what fails alone is what is guilty, finding every solo failure is finding
      every culprit. */
  lemma ExactIffComplete(candidates: seq<int>, lead: seq<int>, found: seq<int>, R: Oracle, culprits: set<int>)
    requires Independent(R, culprits) && culprits <= ToSet(candidates) && ToSet(found) <= culprits
    requires culprits != {} && (lead == [] || |lead| == 1)
    requires SolosAmong(candidates, R, ToSet(found)) <==>
             lead == [] || !R(ToSet(lead)) || SolosAmong(candidates, R, ToSet(lead))
    ensures ToSet(found) == culprits <==> lead == [] || lead[0] !in culprits || culprits == {lead[0]}
  {
    SolosAreCulprits(candidates, R, culprits, ToSet(found));
    SolosAreCulprits(candidates, R, culprits, ToSet(lead));
    SoloIffCulprit(R, culprits);
    if lead != [] {
      var c := lead[0];
      assert lead == [c] && ToSet(lead) == {c};
      assert R({c}) <==> c in culprits;
      assert culprits <= {c} ==> culprits == {c};
    }
  }

  lemma AllCandidatesFail(candidates: seq<int>, R: Oracle, culprits: set<int>)
    requires Independent(R, culprits) && culprits != {} && culprits <= ToSet(candidates)
    ensures R(ToSet(candidates))
    ensures |candidates| == 1 ==> ToSet(candidates) <= culprits
  {
    assert ToSet(candidates) * culprits == culprits;
    if |candidates| == 1 {
      assert candidates == [candidates[0]];
    }
  }

  lemma FoundIsStrict(candidates: seq<int>, loaded: seq<int>, observed: real, R: Oracle, m: int)
    requires Begin(candidates, loaded, observed).Some?
    ensures Strict(WholeHunt(candidates, loaded, observed, R, m).final.found)
  {
    BeginReady(candidates, loaded, observed, m);
    DriveEndsInv(Begin(candidates, loaded, observed).value, R, m);
  }

  lemma OnlyCulpritsConvicted(candidates: seq<int>, loaded: seq<int>, observed: real,
                              R: Oracle, culprits: set<int>, m: int)
    requires Begin(candidates, loaded, observed).Some?
    requires Independent(R, culprits) && culprits != {} && culprits <= ToSet(candidates)
    ensures var s := WholeHunt(candidates, loaded, observed, R, m).final;
      s.stage == Culprit && Strict(s.found) && ToSet(s.found) <= culprits
  {
    IndependentIsMonotone(R, culprits);
    Verdict(candidates, loaded, observed, R, m);
    var s := WholeHunt(candidates, loaded, observed, R, m).final;
    AllCandidatesFail(candidates, R, culprits);
    FoundIsStrict(candidates, loaded, observed, R, m);
    if |candidates| > 1 {
      OnlyCulpritsFound(ToSet(s.found), R, culprits);
    }
  }

  /** Independent culprits are found exactly, as a sorted list, unless the lead probe
      stops at one of several. */
  lemma IndependentCulpritsFoundExactly(candidates: seq<int>, loaded: seq<int>, observed: real,
                                        R: Oracle, culprits: set<int>, m: int)
    requires Begin(candidates, loaded, observed).Some?
    requires Independent(R, culprits) && culprits != {} && culprits <= ToSet(candidates)
    ensures var b := Begin(candidates, loaded, observed).value;
      var lead := LeadProbe(b.candidates, b.loaded);
      var s := WholeHunt(candidates, loaded, observed, R, m).final;
      && s.stage == Culprit && Strict(s.found)
      && ToSet(s.found) <= culprits
      && (ToSet(s.found) == culprits <==> lead == [] || lead[0] !in culprits || culprits == {lead[0]})
  {
    IndependentIsMonotone(R, culprits);
    OnlyCulpritsConvicted(candidates, loaded, observed, R, culprits, m);
    EverySoloCulpritFound(candidates, loaded, observed, R, m);
    var b := Begin(candidates, loaded, observed).value;
    LeadFacts(b.candidates, b.loaded);
    var found := WholeHunt(candidates, loaded, observed, R, m).final.found;
    ExactIffComplete(candidates, LeadProbe(b.candidates, b.loaded), found, R, culprits);
  }

  lemma SoloIffCulprit(R: Oracle, culprits: set<int>)
    requires Independent(R, culprits)
    ensures forall c :: R({c}) <==> c in culprits
  {
    forall c
      ensures R({c}) <==> c in culprits
    {
      assert {c} * culprits == if c in culprits then {c} else {};
    }
  }

  lemma {:induction false} DriveEndsInv(s: Hunt, R: Oracle, m: int)
    requires Ready(s, m)
    ensures Inv(Drive(s, R, m).final)
    decreases Potential(s, Retries(m))
  {
    DriveStep(s, R, m);
    var t := NextLiveSet(s).0;
    if t.inFlight != [] {
      DriveEndsInv(Answered1(t, R, m), R, m);
    }
  }

  // ----- the theorems at work -----

  lemma ExampleBegins()
    ensures Begin([0, 1, 2], [0, 1], 1.0).Some? && LeadProbe([0, 1, 2], [0, 1]) == []
    ensures Begin([0, 1, 2], [0, 1], 1.0).value.candidates == [0, 1, 2]
    ensures Begin([0, 1, 2], [0, 1], 1.0).value.loaded == [0, 1]
  {
    BeginAccepts([0, 1, 2], [0, 1], 1.0);
    assert Sorted([2]) == [2] && Sorted([1, 2]) == [1, 2] && Sorted([0, 1, 2]) == [0, 1, 2];
    assert Sorted([1]) == [1] && Sorted([0, 1]) == [0, 1];
    assert [0, 1][1..] == [1] && [1][1..] == [];
    assert Common([1], [0, 1, 2]) == [1];
    assert Common([0, 1], [0, 1, 2]) == [0] + [1] == [0, 1];
  }

  /** The machine dies whenever core 1 has its offset. */
  const CORE_ONE_FAILS: Oracle := (live: set<int>) => 1 in live

  /** Three cores, two of them loaded, the middle one guilty: it is found and nothing
      else, whatever the retry limit. */
  lemma OneOfThreeIsFound(m: int)
    ensures WholeHunt([0, 1, 2], [0, 1], 1.0, CORE_ONE_FAILS, m).final.found == [1]
  {
    ExampleBegins();
    assert 1 in ToSet([0, 1, 2]);
    CoreOneIsIndependent();
    IndependentCulpritsFoundExactly([0, 1, 2], [0, 1], 1.0, CORE_ONE_FAILS, {1}, m);
    StrictListingIsUnique(WholeHunt([0, 1, 2], [0, 1], 1.0, CORE_ONE_FAILS, m).final.found, [1]);
  }

  lemma CoreOneIsIndependent()
    ensures Independent(CORE_ONE_FAILS, {1})
  {
    forall live: set<int>
      ensures 1 in live <==> live * {1} != {}
    {
      assert 1 in live ==> 1 in live * {1};
    }
  }
}
